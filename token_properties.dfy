/** What the token predicates and `getActualToken` promise: symbols are
    tokens, the tag test is structural, unwrapping fails exactly on
    non-tokens, and allocating new objects never changes how an existing
    value is classified. */
module TokenProperties {
  import opened JsValues
  import opened DiTypes

  /** Every symbol is a token and is its own key. A symbol is not
      object-like, so the tag is never read from it. */
  lemma SymbolIsToken(rt: Runtime, s: nat)
    requires rt.Wf()
    ensures IsToken(rt, Sym(s))
    ensures GetActualToken(rt, Sym(s)) == Ok(Sym(s))
  {
  }

  /** No primitive other than a symbol is a token, so unwrapping one fails
      with the fixed message. */
  lemma PrimitivesOtherThanSymbolsRejected(rt: Runtime, v: Value)
    requires rt.Wf() && !v.IsRef() && !v.Sym?
    ensures !IsToken(rt, v)
    ensures GetActualToken(rt, v) == Err(InvalidToken(InvalidTokenMessage))
  {
  }

  /** A token built by the constructor is recognised whichever copy of the
      module built it: the two class prototypes may be different objects,
      and both tokens unwrap to their own ids. */
  lemma TokensFromTwoModuleCopiesRecognised(rt: Runtime, r1: Ref, proto1: Value, id1: Value,
                                            r2: Ref, proto2: Value, id2: Value)
    requires rt.Wf()
    requires r1 !in rt.heap && r2 !in rt.heap && r1 != r2
    requires (id1.Str? || id1.Sym?) && (id2.Str? || id2.Sym?)
    ensures var h1 := NewCustomToken(rt.heap, r1, proto1, id1);
            var rt2 := Runtime(NewCustomToken(h1, r2, proto2, id2), rt.isObject);
            && IsCustomToken(rt2, Obj(r1)) && IsCustomToken(rt2, Obj(r2))
            && GetActualToken(rt2, Obj(r1)) == Ok(id1)
            && GetActualToken(rt2, Obj(r2)) == Ok(id2)
  {
  }

  /** The tag test is structural: an object that merely inherits a tagged
      token (`Object.create(token)`) is itself a custom token, and
      unwrapping it yields the inherited id. */
  lemma InheritedTagRecognised(rt: Runtime, t: Ref, o: Ref, own: map<string, Value>)
    requires rt.Wf() && Closed(rt.heap)
    requires IsCustomToken(rt, Obj(t))
    requires o !in rt.heap
    requires "_reflectName" !in own && "tokenId" !in own
    ensures var rt' := Runtime(rt.heap[o := ObjRec(own, Obj(t))], rt.isObject);
            && IsCustomToken(rt', Obj(o))
            && GetActualToken(rt', Obj(o)) == Ok(Get(rt.heap, Obj(t), "tokenId"))
  {
    var h := rt.heap;
    var rec := ObjRec(own, Obj(t));
    assert t in h;
    ReadThroughFreshObject(h, o, rec, Obj(o), "_reflectName");
    ReadThroughFreshObject(h, o, rec, Obj(o), "tokenId");
  }

  /** The tag is checked before the other tests: a class that also carries
      the tag and a `tokenId` as static fields passes `isServiceCtor`, yet
      unwraps to its `tokenId` and not to itself. This needs an `isObject`
      that accepts that function. */
  lemma TagTakesPrecedenceOverServiceCtor(rt: Runtime, f: Ref, p: Ref, id: Value, proto: Value)
    requires rt.Wf() && rt.isObject(Fun(f))
    requires f !in rt.heap && p !in rt.heap && f != p
    requires id.Str? || id.Sym?
    ensures var h := rt.heap
              [f := ObjRec(map["prototype" := Obj(p), "_reflectName" := Str(TokenReflectName), "tokenId" := id], proto)]
              [p := ObjRec(map["constructor" := Fun(f)], proto)];
            var rt' := Runtime(h, rt.isObject);
            && IsServiceCtor(rt', Fun(f)) && IsCustomToken(rt', Fun(f))
            && GetActualToken(rt', Fun(f)) == Ok(id) && id != Fun(f)
  {
  }

  /** Allocating an object changes neither the classification of any value
      already in the heap nor the key it unwraps to. */
  lemma ClassificationUnchangedByAlloc(rt: Runtime, r: Ref, rec: ObjRec, v: Value)
    requires rt.Wf() && Closed(rt.heap) && r !in rt.heap && RefIn(rt.heap, v)
    ensures var rt' := Runtime(rt.heap[r := rec], rt.isObject);
            && (IsCustomToken(rt', v) <==> IsCustomToken(rt, v))
            && (IsServiceCtor(rt', v) <==> IsServiceCtor(rt, v))
            && (IsToken(rt', v) <==> IsToken(rt, v))
            && GetActualToken(rt', v) == GetActualToken(rt, v)
  {
    var h := rt.heap;
    GetUnchangedByAlloc(h, r, rec, v, "_reflectName");
    GetUnchangedByAlloc(h, r, rec, v, "tokenId");
    GetUnchangedByAlloc(h, r, rec, v, "prototype");
    var proto := Get(h, v, "prototype");
    GetStaysInHeap(h, v, "prototype");
    GetUnchangedByAlloc(h, r, rec, proto, "constructor");
  }

  /** A function whose own `prototype` is missing, and whose prototype chain
      supplies none either (an arrow function or a bound function, whose
      prototype is `Function.prototype`), is not a service constructor. */
  lemma FunctionWithoutPrototypeRejected(rt: Runtime, f: Ref, own: map<string, Value>, functionProto: Value)
    requires rt.Wf() && Closed(rt.heap) && f !in rt.heap
    requires RefIn(rt.heap, functionProto)
    requires "prototype" !in own
    requires !rt.isObject(Get(rt.heap, functionProto, "prototype"))
    ensures !IsServiceCtor(Runtime(rt.heap[f := ObjRec(own, functionProto)], rt.isObject), Fun(f))
  {
    ReadThroughFreshObject(rt.heap, f, ObjRec(own, functionProto), Fun(f), "prototype");
  }

  /** A class declaration `class C {}` allocates the function and its
      prototype object, each pointing at the other; the function is a
      service constructor, hence a token that is its own key. */
  lemma ClassDeclarationIsServiceCtor(rt: Runtime, f: Ref, p: Ref, functionProto: Value, objectProto: Value)
    requires rt.Wf() && Closed(rt.heap)
    requires f !in rt.heap && p !in rt.heap && f != p
    requires RefIn(rt.heap, functionProto) && RefIn(rt.heap, objectProto)
    requires Get(rt.heap, functionProto, "_reflectName") != Str(TokenReflectName)
    ensures var h := rt.heap
              [p := ObjRec(map["constructor" := Fun(f)], objectProto)]
              [f := ObjRec(map["prototype" := Obj(p)], functionProto)];
            var rt' := Runtime(h, rt.isObject);
            && IsServiceCtor(rt', Fun(f)) && IsToken(rt', Fun(f))
            && GetActualToken(rt', Fun(f)) == Ok(Fun(f))
  {
    var recP := ObjRec(map["constructor" := Fun(f)], objectProto);
    var recF := ObjRec(map["prototype" := Obj(p)], functionProto);
    var h1 := rt.heap[p := recP];
    var h := h1[f := recF];
    OwnPropertyShadows(h, Fun(f), "prototype");
    OwnPropertyShadows(h, Obj(p), "constructor");
    // The tag, if any, comes from Function.prototype, which the two
    // allocations leave as it was.
    GetUnchangedByAlloc(rt.heap, p, recP, functionProto, "_reflectName");
    assert ProtoClosed(h1);
    ReadThroughFreshObject(h1, f, recF, Fun(f), "_reflectName");
  }

  /** `function G() {}; G.prototype = Object.create(F.prototype)` without
      resetting `G.prototype.constructor`: the constructor read through the
      chain is `F`, so `G` is rejected although `F` is accepted. */
  lemma PrototypeWithForeignConstructorRejected(rt: Runtime, f: Ref, q: Ref, g: Ref,
                                                functionProto: Value)
    requires rt.Wf() && Closed(rt.heap)
    requires IsServiceCtor(rt, Fun(f))
    requires q !in rt.heap && g !in rt.heap && q != g
    requires RefIn(rt.heap, functionProto)
    ensures var h := rt.heap
              [q := ObjRec(map[], Get(rt.heap, Fun(f), "prototype"))]
              [g := ObjRec(map["prototype" := Obj(q)], functionProto)];
            var rt' := Runtime(h, rt.isObject);
            && Get(h, Get(h, Fun(g), "prototype"), "constructor") == Fun(f)
            && !IsServiceCtor(rt', Fun(g))
            && IsServiceCtor(rt', Fun(f))
  {
    var h0 := rt.heap;
    var fp := Get(h0, Fun(f), "prototype");
    GetStaysInHeap(h0, Fun(f), "prototype");
    var recQ := ObjRec(map[], fp);
    var recG := ObjRec(map["prototype" := Obj(q)], functionProto);
    var h1 := h0[q := recQ];
    var h := h1[g := recG];
    AllocKeepsClosed(h0, q, recQ);
    OwnPropertyShadows(h, Fun(g), "prototype");
    GetUnchangedByAlloc(h1, g, recG, Obj(q), "constructor");
    ReadThroughFreshObject(h0, q, recQ, Obj(q), "constructor");
    ClassificationUnchangedByAlloc(rt, q, recQ, Fun(f));
    ClassificationUnchangedByAlloc(Runtime(h1, rt.isObject), g, recG, Fun(f));
  }
}
