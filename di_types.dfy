/** The token and provider classification layer of the DI helpers: what
    counts as a token (a tagged `CustomToken`, a directly instantiable class,
    or a symbol), how a token is unwrapped to the key handed to the
    container, and the four duck-typed provider shapes. */
module DiTypes {
  import opened JsValues

  /** The environment the predicates run in: the object heap, and the
      `isObject` helper of the utilities module, whose definition is not part
      of this model. `Wf` gives `isObject` its minimal meaning only. */
  datatype Runtime = Runtime(heap: Heap, isObject: Value -> bool)
  {
    /** Every non-callable object (plain objects, arrays, dates and the
        like) is object-like, and no primitive (`undefined`,
        `null`, booleans, numbers, strings, symbols) is. Whether a function
        counts is left open. */
    ghost predicate Wf() {
      && (forall r: Ref :: isObject(Obj(r)))
      && (forall v: Value :: isObject(v) ==> v.IsRef())
    }
  }

  /** The private nominal tag every `CustomToken` instance carries in its
      `_reflectName` field. */
  const TokenReflectName: string := "@@RXDI Token v1@@"

  /** The fixed text of the error `getActualToken` throws. */
  const InvalidTokenMessage: string :=
    "The given token is invalid.\n    Fail to provide this token.\n    See the console.error above."

  datatype TokenError = InvalidToken(message: string)

  datatype Result<T> = Ok(value: T) | Err(error: TokenError)

  /** The object `new CustomToken(tokenId)` builds: the tag and the id as own
      fields, and the class prototype of whichever copy of the module ran
      the constructor. */
  function CustomTokenRecord(classProto: Value, tokenId: Value): ObjRec {
    ObjRec(map["_reflectName" := Str(TokenReflectName), "tokenId" := tokenId], classProto)
  }

  /** `new CustomToken(tokenId)`, with the fresh object placed at `r`. */
  function NewCustomToken(h: Heap, r: Ref, classProto: Value, tokenId: Value): (h': Heap)
    requires r !in h
    requires tokenId.Str? || tokenId.Sym?
    ensures h'.Keys == h.Keys + {r}
    ensures forall q :: q in h ==> h'[q] == h[q]
    ensures HasOwn(h', Obj(r), "_reflectName") && HasOwn(h', Obj(r), "tokenId")
    ensures Get(h', Obj(r), "_reflectName") == Str(TokenReflectName)
    ensures Get(h', Obj(r), "tokenId") == tokenId
    ensures h'[r].own.Keys == {"_reflectName", "tokenId"}
    ensures h'[r].proto == classProto
  {
    h[r := CustomTokenRecord(classProto, tokenId)]
  }

  /** `CustomToken.isCustomToken`: recognises a token by its tag, not by
      class identity. */
  predicate IsCustomToken(rt: Runtime, v: Value) {
    rt.isObject(v) && Get(rt.heap, v, "_reflectName") == Str(TokenReflectName)
  }

  /** `isServiceCtor`: a function whose `prototype` is object-like and whose
      `prototype.constructor` is the function itself. */
  predicate IsServiceCtor(rt: Runtime, v: Value) {
    && TypeOf(v) == "function"
    && rt.isObject(Get(rt.heap, v, "prototype"))
    && Get(rt.heap, Get(rt.heap, v, "prototype"), "constructor") == v
  }

  /** `isToken`. */
  predicate IsToken(rt: Runtime, v: Value) {
    IsCustomToken(rt, v) || IsServiceCtor(rt, v) || TypeOf(v) == "symbol"
  }

  /** `getActualToken`: the `tokenId` of a custom token, the value itself for
      a symbol or a service constructor, and the invalid-token error for
      anything else. */
  function GetActualToken(rt: Runtime, v: Value): (r: Result<Value>)
    ensures r.Err? <==> !IsToken(rt, v)
    ensures r.Err? ==> r.error == InvalidToken(InvalidTokenMessage)
    ensures IsCustomToken(rt, v) ==> r == Ok(Get(rt.heap, v, "tokenId"))
    ensures IsToken(rt, v) && !IsCustomToken(rt, v) ==> r == Ok(v) && (v.Sym? || v.Fun?)
  {
    if !IsToken(rt, v) then Err(InvalidToken(InvalidTokenMessage))
    else if IsCustomToken(rt, v) then Ok(Get(rt.heap, v, "tokenId"))
    else Ok(v)
  }

  /** `isClassProvider`. */
  predicate IsClassProvider(rt: Runtime, v: Value) {
    rt.isObject(v) && IsToken(rt, Get(rt.heap, v, "provide"))
    && IsServiceCtor(rt, Get(rt.heap, v, "useClass"))
  }

  /** `isExistingProvider`. */
  predicate IsExistingProvider(rt: Runtime, v: Value) {
    rt.isObject(v) && IsToken(rt, Get(rt.heap, v, "provide"))
    && IsToken(rt, Get(rt.heap, v, "useExisting"))
  }

  /** `isValueProvider`: `useValue` must be an own property; its value does
      not matter. */
  predicate IsValueProvider(rt: Runtime, v: Value) {
    rt.isObject(v) && IsToken(rt, Get(rt.heap, v, "provide"))
    && HasOwn(rt.heap, v, "useValue")
  }

  /** `isFactoryProvider`. */
  predicate IsFactoryProvider(rt: Runtime, v: Value) {
    rt.isObject(v) && IsToken(rt, Get(rt.heap, v, "provide"))
    && TypeOf(Get(rt.heap, v, "useFactory")) == "function"
  }
}
