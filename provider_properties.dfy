/** What the four provider predicates promise: each needs an object-like
    value whose `provide` is a token; the value shape is tested by own
    property only; the shapes may overlap on a hand-built object; and an
    object literal written to one of the provider interfaces is classified
    as exactly that kind. */
module ProviderProperties {
  import opened JsValues
  import opened DiTypes
  import TokenProperties

  /** Every provider predicate implies that the value is object-like and
      that its `provide` is a token; when either fails, all four are
      false. */
  lemma ProvidersNeedObjectAndTokenProvide(rt: Runtime, v: Value)
    ensures (IsClassProvider(rt, v) || IsExistingProvider(rt, v)
             || IsValueProvider(rt, v) || IsFactoryProvider(rt, v))
            ==> rt.isObject(v) && IsToken(rt, Get(rt.heap, v, "provide"))
  {
  }

  /** `{provide: sym, useValue: undefined}` is a value provider: only the
      presence of the own property counts, not its value. */
  lemma UndefinedUseValueQualifies(rt: Runtime, o: Ref, s: nat, proto: Value)
    requires rt.Wf() && o !in rt.heap
    ensures IsValueProvider(
              Runtime(rt.heap[o := ObjRec(map["provide" := Sym(s), "useValue" := Undefined], proto)], rt.isObject),
              Obj(o))
  {
  }

  /** A `useValue` reached only through the prototype chain does not make a
      value provider, although reading `useValue` yields it. */
  lemma InheritedUseValueRejected(rt: Runtime, base: Ref, o: Ref, s: nat)
    requires rt.Wf() && Closed(rt.heap) && o !in rt.heap
    requires base in rt.heap && "useValue" in rt.heap[base].own
    ensures var h := rt.heap[o := ObjRec(map["provide" := Sym(s)], Obj(base))];
            && Get(h, Obj(o), "useValue") == rt.heap[base].own["useValue"]
            && !IsValueProvider(Runtime(h, rt.isObject), Obj(o))
  {
    var rec := ObjRec(map["provide" := Sym(s)], Obj(base));
    ReadThroughFreshObject(rt.heap, o, rec, Obj(o), "useValue");
    OwnPropertyShadows(rt.heap, Obj(base), "useValue");
  }

  /** The predicates are not mutually exclusive: an object with an own
      `useValue` and a callable `useFactory` is both a value provider and a
      factory provider. */
  lemma ValueAndFactoryOverlap(rt: Runtime, o: Ref, s: nat, fn: Ref, x: Value, proto: Value)
    requires rt.Wf() && o !in rt.heap
    ensures var h := rt.heap[o := ObjRec(map["provide" := Sym(s), "useValue" := x, "useFactory" := Fun(fn)], proto)];
            var rt' := Runtime(h, rt.isObject);
            IsValueProvider(rt', Obj(o)) && IsFactoryProvider(rt', Obj(o))
  {
  }

  /** An object literal written to one of the provider interfaces
      (`IClassProvider`, `IExistingProvider`, `IValueProvider`,
      `IFactoryProvider`). `deps` is stored as given (`undefined` when the
      literal leaves it out). */
  datatype ProviderLiteral =
    | ClassLiteral(provide: Value, useClass: Value)
    | ExistingLiteral(provide: Value, useExisting: Value)
    | ValueLiteral(provide: Value, useValue: Value)
    | FactoryLiteral(provide: Value, useFactory: Value, deps: Value)

  /** The own properties the literal spells out. */
  function LiteralFields(lit: ProviderLiteral): map<string, Value> {
    match lit
    case ClassLiteral(p, c) => map["provide" := p, "useClass" := c]
    case ExistingLiteral(p, e) => map["provide" := p, "useExisting" := e]
    case ValueLiteral(p, x) => map["provide" := p, "useValue" := x]
    case FactoryLiteral(p, f, d) => map["provide" := p, "useFactory" := f, "deps" := d]
  }

  /** The literal's fields pass the runtime token and constructor checks
      (`isToken`, `isServiceCtor`, a callable `useFactory`) and point into the
      heap. This is narrower than the interface types: an arrow function is
      an `IToken` to the type checker but not a token at run time. */
  ghost predicate WellTyped(rt: Runtime, lit: ProviderLiteral) {
    && IsToken(rt, lit.provide)
    && (forall k :: k in LiteralFields(lit) ==> RefIn(rt.heap, LiteralFields(lit)[k]))
    && match lit
       case ClassLiteral(_, c) => IsServiceCtor(rt, c)
       case ExistingLiteral(_, e) => IsToken(rt, e)
       case ValueLiteral(_, _) => true
       case FactoryLiteral(_, f, _) => TypeOf(f) == "function"
  }

  /** `Object.prototype` (or whatever the literal inherits from) supplies
      none of the shape fields. */
  ghost predicate SuppliesNoShapeField(h: Heap, objectProto: Value) {
    && Get(h, objectProto, "useClass") == Undefined
    && Get(h, objectProto, "useExisting") == Undefined
    && Get(h, objectProto, "useFactory") == Undefined
  }

  /** The fields a freshly allocated provider literal yields when read. */
  lemma FreshLiteralReads(h: Heap, o: Ref, lit: ProviderLiteral, objectProto: Value)
    requires ProtoClosed(h) && o !in h
    requires RefIn(h, objectProto) && SuppliesNoShapeField(h, objectProto)
    ensures var h' := h[o := ObjRec(LiteralFields(lit), objectProto)];
            && Get(h', Obj(o), "provide") == lit.provide
            && Get(h', Obj(o), "useClass") == (if lit.ClassLiteral? then lit.useClass else Undefined)
            && Get(h', Obj(o), "useExisting") == (if lit.ExistingLiteral? then lit.useExisting else Undefined)
            && Get(h', Obj(o), "useFactory") == (if lit.FactoryLiteral? then lit.useFactory else Undefined)
  {
    var rec := ObjRec(LiteralFields(lit), objectProto);
    var h' := h[o := rec];
    OwnPropertyShadows(h', Obj(o), "provide");
    if lit.ClassLiteral? {
      OwnPropertyShadows(h', Obj(o), "useClass");
    } else {
      ReadThroughFreshObject(h, o, rec, Obj(o), "useClass");
    }
    if lit.ExistingLiteral? {
      OwnPropertyShadows(h', Obj(o), "useExisting");
    } else {
      ReadThroughFreshObject(h, o, rec, Obj(o), "useExisting");
    }
    if lit.FactoryLiteral? {
      OwnPropertyShadows(h', Obj(o), "useFactory");
    } else {
      ReadThroughFreshObject(h, o, rec, Obj(o), "useFactory");
    }
  }

  /** The classification of a fresh literal allocated at `o`. */
  ghost predicate ClassifiedAs(rt: Runtime, o: Ref, lit: ProviderLiteral, objectProto: Value,
                               isClass: bool, isExisting: bool, isValue: bool, isFactory: bool)
  {
    var rt' := Runtime(rt.heap[o := ObjRec(LiteralFields(lit), objectProto)], rt.isObject);
    && IsClassProvider(rt', Obj(o)) == isClass
    && IsExistingProvider(rt', Obj(o)) == isExisting
    && IsValueProvider(rt', Obj(o)) == isValue
    && IsFactoryProvider(rt', Obj(o)) == isFactory
  }

  /** The reads and token facts every kind of literal shares. */
  lemma LiteralBasics(rt: Runtime, o: Ref, lit: ProviderLiteral, objectProto: Value)
    requires rt.Wf() && Closed(rt.heap) && o !in rt.heap
    requires RefIn(rt.heap, objectProto) && SuppliesNoShapeField(rt.heap, objectProto)
    requires WellTyped(rt, lit)
    ensures var rt' := Runtime(rt.heap[o := ObjRec(LiteralFields(lit), objectProto)], rt.isObject);
            && IsToken(rt', Get(rt'.heap, Obj(o), "provide"))
            && rt'.isObject(Obj(o))
            && !IsToken(rt', Undefined) && !IsServiceCtor(rt', Undefined)
  {
    var rec := ObjRec(LiteralFields(lit), objectProto);
    FreshLiteralReads(rt.heap, o, lit, objectProto);
    assert "provide" in LiteralFields(lit);
    TokenProperties.ClassificationUnchangedByAlloc(rt, o, rec, lit.provide);
  }

  /** `{provide, useClass}` with a token and a service constructor is a class
      provider and nothing else. */
  lemma ClassLiteralClassifiedExactly(rt: Runtime, o: Ref, lit: ProviderLiteral, objectProto: Value)
    requires rt.Wf() && Closed(rt.heap) && o !in rt.heap
    requires RefIn(rt.heap, objectProto) && SuppliesNoShapeField(rt.heap, objectProto)
    requires WellTyped(rt, lit) && lit.ClassLiteral?
    ensures ClassifiedAs(rt, o, lit, objectProto, true, false, false, false)
  {
    FreshLiteralReads(rt.heap, o, lit, objectProto);
    LiteralBasics(rt, o, lit, objectProto);
    assert "useClass" in LiteralFields(lit);
    TokenProperties.ClassificationUnchangedByAlloc(rt, o, ObjRec(LiteralFields(lit), objectProto), lit.useClass);
  }

  /** `{provide, useExisting}` with two tokens is an existing provider and
      nothing else. */
  lemma ExistingLiteralClassifiedExactly(rt: Runtime, o: Ref, lit: ProviderLiteral, objectProto: Value)
    requires rt.Wf() && Closed(rt.heap) && o !in rt.heap
    requires RefIn(rt.heap, objectProto) && SuppliesNoShapeField(rt.heap, objectProto)
    requires WellTyped(rt, lit) && lit.ExistingLiteral?
    ensures ClassifiedAs(rt, o, lit, objectProto, false, true, false, false)
  {
    FreshLiteralReads(rt.heap, o, lit, objectProto);
    LiteralBasics(rt, o, lit, objectProto);
    assert "useExisting" in LiteralFields(lit);
    TokenProperties.ClassificationUnchangedByAlloc(rt, o, ObjRec(LiteralFields(lit), objectProto), lit.useExisting);
  }

  /** `{provide, useValue}` is a value provider and nothing else, whatever
      `useValue` holds. */
  lemma ValueLiteralClassifiedExactly(rt: Runtime, o: Ref, lit: ProviderLiteral, objectProto: Value)
    requires rt.Wf() && Closed(rt.heap) && o !in rt.heap
    requires RefIn(rt.heap, objectProto) && SuppliesNoShapeField(rt.heap, objectProto)
    requires WellTyped(rt, lit) && lit.ValueLiteral?
    ensures ClassifiedAs(rt, o, lit, objectProto, false, false, true, false)
  {
    FreshLiteralReads(rt.heap, o, lit, objectProto);
    LiteralBasics(rt, o, lit, objectProto);
  }

  /** `{provide, useFactory, deps}` with a callable factory is a factory
      provider and nothing else. */
  lemma FactoryLiteralClassifiedExactly(rt: Runtime, o: Ref, lit: ProviderLiteral, objectProto: Value)
    requires rt.Wf() && Closed(rt.heap) && o !in rt.heap
    requires RefIn(rt.heap, objectProto) && SuppliesNoShapeField(rt.heap, objectProto)
    requires WellTyped(rt, lit) && lit.FactoryLiteral?
    ensures ClassifiedAs(rt, o, lit, objectProto, false, false, false, true)
  {
    FreshLiteralReads(rt.heap, o, lit, objectProto);
    LiteralBasics(rt, o, lit, objectProto);
  }

  /** A well-typed provider literal satisfies the predicate of its own kind
      and none of the other three. */
  lemma LiteralClassifiedExactly(rt: Runtime, o: Ref, lit: ProviderLiteral, objectProto: Value)
    requires rt.Wf() && Closed(rt.heap) && o !in rt.heap
    requires RefIn(rt.heap, objectProto) && SuppliesNoShapeField(rt.heap, objectProto)
    requires WellTyped(rt, lit)
    ensures ClassifiedAs(rt, o, lit, objectProto,
                         lit.ClassLiteral?, lit.ExistingLiteral?, lit.ValueLiteral?, lit.FactoryLiteral?)
  {
    match lit
    case ClassLiteral(_, _) => ClassLiteralClassifiedExactly(rt, o, lit, objectProto);
    case ExistingLiteral(_, _) => ExistingLiteralClassifiedExactly(rt, o, lit, objectProto);
    case ValueLiteral(_, _) => ValueLiteralClassifiedExactly(rt, o, lit, objectProto);
    case FactoryLiteral(_, _, _) => FactoryLiteralClassifiedExactly(rt, o, lit, objectProto);
  }
}
