# Token and provider classification of react-rxdi's DI layer

This project models `src/di/types.ts`, the layer that decides what react-rxdi
hands to its inversion-of-control container. It covers:

- what counts as a **token** (a dependency key). A token is a tagged
  `CustomToken`, a directly instantiable class (a *service constructor*), or a
  symbol.
- how `getActualToken` unwraps a token to the key the container uses, or
  throws on a non-token.
- the four duck-typed **provider** shapes: class, existing (alias), value and
  factory.

The source predicates take untyped JavaScript values. So the model starts
with a small model of JavaScript values (`js_values.dfy`, module `JsValues`):

- `Value` holds `undefined`, `null`, booleans, numbers, strings, symbols, and
  references to non-callable objects (`Obj`) and callable objects (`Fun`).
- A heap maps each reference to its own data properties and its prototype.
- `TypeOf` is the `typeof` operator.
- `Get` is, for a heap object, a property read that follows the prototype
  chain, as `v.key` does.
- `HasOwn` is, for a heap object, `Object.prototype.hasOwnProperty.call`.
- `===` is equality of `Value`: reference identity for objects and functions,
  value equality for strings.

The lemmas about this layer say three things:

- an own property shadows the chain;
- a property a fresh object does not own is read from its prototype;
- allocating an object changes no read that starts from an existing object.

`di_types.dfy` (module `DiTypes`) is the source file itself:

- the sentinel `'@@RXDI Token v1@@'`;
- the object `new CustomToken(id)` builds;
- `IsCustomToken`, `IsServiceCtor`, `IsToken` and `GetActualToken`. The
  throw becomes `Err(InvalidToken(message))`, carrying the source's fixed
  message;
- the four provider predicates.

Each predicate is written as the source's boolean expression, in the same
order.

`isObject` comes from a utilities module that is not part of this model. It
is a parameter of `Runtime`, and `Runtime.Wf` gives it only its minimal
meaning: every non-callable object is object-like, and no primitive is
(`null` included). Whether a function is object-like is left open. Lemmas that need
one answer state it (`TagTakesPrecedenceOverServiceCtor` requires
`isObject` of the function).

`token_properties.dfy` and `provider_properties.dfy` prove what the layer
promises. Several of these lemmas build concrete situations on an arbitrary
closed heap:

- two tokens built by two copies of the module;
- `Object.create(token)`;
- a class declaration;
- an arrow function;
- a constructor function whose prototype inherits a foreign `constructor`;
- provider object literals.

`getActualToken` is declared to return `symbol` (src/di/types.ts:62), but
it returns a service constructor unchanged, and it returns a custom token's
`tokenId` as it is, even when that is a string: `as symbol` (lines 75 and
77) converts nothing. The model returns the value the code returns.

## Model

| member | source | states |
|---|---|---|
| `JsValues.TypeOf` | src/di/types.ts:111 | `typeof v` is `"function"` exactly for callable objects, `"symbol"` exactly for symbols, and `"object"` exactly for non-callable objects and `null` |
| `JsValues.Lookup` | src/di/types.ts:112-113 | a property read along the prototype chain yields `undefined` or a value some heap object owns under that name |
| `JsValues.Get` | src/di/types.ts:112-113 | the property read `v.key`: `Lookup` from `v` with nothing seen yet |
| `JsValues.HasOwn` | src/di/types.ts:130 | `{}.hasOwnProperty.call(v, key)`: `v` is a heap object whose own properties include `key` |
| `DiTypes.NewCustomToken` | src/di/types.ts:15-18 | `new CustomToken(id)` adds exactly one fresh object, which owns exactly `_reflectName` and `tokenId`, whose `_reflectName` reads as the sentinel, whose `tokenId` reads as `id` (both own properties), and whose prototype is the class prototype it was given; every existing object stays as it was |
| `DiTypes.IsCustomToken` | src/di/types.ts:22-26 | `isObject(v)` and then `Get(v, "_reflectName")` equal to the sentinel string, in the source's order |
| `DiTypes.IsToken` | src/di/types.ts:54-60 | `IsCustomToken(v)`, then `IsServiceCtor(v)`, then `TypeOf(v) == "symbol"`, joined by or, in the source's order |
| `DiTypes.IsServiceCtor` | src/di/types.ts:109-115 | `TypeOf(v) == "function"`, then `isObject(Get(v, "prototype"))`, then `Get(Get(v, "prototype"), "constructor") == v`, in the source's order |
| `DiTypes.IsClassProvider` | src/di/types.ts:116-120 | `isObject(v)`, `IsToken(Get(v, "provide"))` and `IsServiceCtor(Get(v, "useClass"))`, in the source's order |
| `DiTypes.IsExistingProvider` | src/di/types.ts:121-125 | `isObject(v)`, `IsToken(Get(v, "provide"))` and `IsToken(Get(v, "useExisting"))`, in the source's order |
| `DiTypes.IsValueProvider` | src/di/types.ts:126-132 | `isObject(v)`, `IsToken(Get(v, "provide"))` and `HasOwn(v, "useValue")`, in the source's order |
| `DiTypes.IsFactoryProvider` | src/di/types.ts:133-139 | `isObject(v)`, `IsToken(Get(v, "provide"))` and `TypeOf(Get(v, "useFactory")) == "function"`, in the source's order |
| `DiTypes.GetActualToken` | src/di/types.ts:62-78 | fails exactly when the value is not a token, always with the fixed invalid-token message; a custom token yields its `tokenId`, and this branch comes first; any other token (a symbol or a function) is returned unchanged |
| `TokenProperties.SymbolIsToken` | src/di/types.ts:54-59 | every symbol is a token and unwraps to itself, `isObject` rejecting symbols |
| `TokenProperties.PrimitivesOtherThanSymbolsRejected` | src/di/types.ts:62-73 | `undefined`, `null`, booleans, numbers and strings are not tokens, and unwrapping them throws the fixed error |
| `TokenProperties.TokensFromTwoModuleCopiesRecognised` | src/di/types.ts:20-28 | tokens built by two copies of the class, with different prototypes, are both recognised and unwrap to their own ids: no identity or `instanceof` test is involved |
| `TokenProperties.InheritedTagRecognised` | src/di/types.ts:22-26 | the tag test is structural: an object that only inherits a tagged token's fields is a custom token and unwraps to the inherited id |
| `TokenProperties.TagTakesPrecedenceOverServiceCtor` | src/di/types.ts:74-77 | a class that also carries the tag and a `tokenId` is both a service constructor and a custom token, and unwraps to its `tokenId`, not to itself |
| `TokenProperties.ClassificationUnchangedByAlloc` | src/di/types.ts:54-78 | allocating an object changes neither whether an existing value is a custom token, a service constructor or a token, nor what it unwraps to |
| `TokenProperties.FunctionWithoutPrototypeRejected` | src/di/types.ts:109-115 | a function with no `prototype` object (arrow or bound function) is not a service constructor |
| `TokenProperties.ClassDeclarationIsServiceCtor` | src/di/types.ts:109-115 | a class, whose prototype's `constructor` points back at it, is a service constructor, a token, and unwraps to itself |
| `TokenProperties.PrototypeWithForeignConstructorRejected` | src/di/types.ts:109-115 | a function whose prototype inherits `constructor` from another class reads that other class as its constructor and is rejected, while the other class stays accepted |
| `ProviderProperties.ProvidersNeedObjectAndTokenProvide` | src/di/types.ts:116-139 | each of the four provider predicates implies that the value is object-like and that its `provide` is a token |
| `ProviderProperties.UndefinedUseValueQualifies` | src/di/types.ts:126-132 | `{provide: sym, useValue: undefined}` is a value provider: only the own property's presence counts |
| `ProviderProperties.InheritedUseValueRejected` | src/di/types.ts:126-132 | an object that reads `useValue` only through its prototype is not a value provider |
| `ProviderProperties.ValueAndFactoryOverlap` | src/di/types.ts:126-139 | an object with an own `useValue` and a callable `useFactory` satisfies both the value and the factory predicate: the shapes are not exclusive |
| `ProviderProperties.ClassLiteralClassifiedExactly` | src/di/types.ts:116-120 | `{provide: token, useClass: C}` with `C` a service constructor is a class provider and none of the other three kinds |
| `ProviderProperties.ExistingLiteralClassifiedExactly` | src/di/types.ts:121-125 | `{provide: token, useExisting: token}` is an existing provider and none of the other three kinds |
| `ProviderProperties.ValueLiteralClassifiedExactly` | src/di/types.ts:126-132 | `{provide: token, useValue: x}` is a value provider for every `x`, and none of the other three kinds |
| `ProviderProperties.FactoryLiteralClassifiedExactly` | src/di/types.ts:133-139 | `{provide: token, useFactory: f, deps}` with `f` callable is a factory provider and none of the other three kinds |
| `ProviderProperties.LiteralClassifiedExactly` | src/di/types.ts:91-139 | an object literal written to one of the four provider interfaces, with fields that pass the runtime token and constructor checks, satisfies the predicate of its own kind and none of the other three |

## Left out

- The type-level declarations have no runtime behaviour. These are
  `GetValueTypeByToken` with its commented examples, and the `IToken`,
  `AbstractCtor`, `IProvider`, `Newable` and `ServiceCtor` aliases.
- The `IDIConatinerOpts` options interface has no logic.
- The `inversify` container is not part of this model. Registering
  providers and resolving tokens happen there. So is any claim that
  registration leaves the caller's configuration unchanged.
- The `console.error` diagnostic before the throw is I/O. Only the failure
  and its message are modelled.
- The body of `isObject` is not part of this model (see above).
- `private` and `readonly` on `CustomToken`'s fields are checked only at
  compile time. The model treats them as ordinary own properties.
- Accessor properties (getters), proxies and exotic objects are not
  modelled. Every property is an own data property or is inherited along
  the prototype chain.
- JavaScript numbers are modelled as mathematical integers. No predicate
  inspects a number.
- BigInt values are not modelled, so `TypeOf` never yields `"bigint"`. No
  predicate accepts a BigInt: it is not a symbol, not a function, and not
  object-like under the meaning given to `isObject`.
- Property reads and own-property tests on primitives are not modelled.
  `Get` yields `undefined` and `HasOwn` yields false for them. JavaScript
  reads the wrapper prototype instead (`"abc".length` is 3), or throws a
  `TypeError` for `null` and `undefined`. Every read the DI predicates make
  follows an `isObject` or `typeof` test, so under `Runtime.Wf` none starts
  from a primitive.
- The object allocator is not modelled. The reference of a new object is a
  parameter that must not already be in the heap.
- JavaScript never builds a cyclic prototype chain. If a heap had one,
  `Lookup` would stop at the first object seen twice and yield `undefined`.
- A factory literal's `deps` array is a single value held in the literal's
  `deps` property. Its elements are not modelled, since no predicate
  inspects them.
