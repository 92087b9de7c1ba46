/** A small model of the JavaScript values and objects that the DI token and
    provider predicates inspect: primitive values, references to ordinary and
    callable objects, a heap of own properties with prototype links, the
    `typeof` operator, property reads along the prototype chain and the
    own-property test. */
module JsValues {

  type Ref = nat

  /** A JavaScript value. Objects and functions are references into a heap;
      `===` between two values is equality of this datatype (reference
      identity for objects and functions, value equality for strings). */
  datatype Value =
    | Undefined
    | Null
    | Bool(b: bool)
    | Num(n: int)
    | Str(s: string)
    | Sym(id: nat)
    | Obj(ref: Ref)
    | Fun(ref: Ref)
  {
    /** True for the values that denote a heap object (callable or not). */
    predicate IsRef() { Obj? || Fun? }
  }

  /** One heap object: its own data properties and its [[Prototype]]
      (`Null`, or another object or function). */
  datatype ObjRec = ObjRec(own: map<string, Value>, proto: Value)

  type Heap = map<Ref, ObjRec>

  /** The result of JavaScript's `typeof` operator. */
  function TypeOf(v: Value): (t: string)
    ensures t == "function" <==> v.Fun?
    ensures t == "symbol" <==> v.Sym?
    ensures t == "object" <==> v.Obj? || v.Null?
  {
    match v
    case Undefined => "undefined"
    case Null => "object"
    case Bool(_) => "boolean"
    case Num(_) => "number"
    case Str(_) => "string"
    case Sym(_) => "symbol"
    case Obj(_) => "object"
    case Fun(_) => "function"
  }

  /** `v` does not point outside `h`. */
  predicate RefIn(h: Heap, v: Value) {
    v.IsRef() ==> v.ref in h
  }

  /** No prototype link of a heap object points outside the heap. */
  ghost predicate ProtoClosed(h: Heap) {
    forall r :: r in h ==> RefIn(h, h[r].proto)
  }

  /** No prototype link and no own property value of a heap object points
      outside the heap, as holds for every heap a JavaScript program can
      reach. */
  ghost predicate Closed(h: Heap) {
    && ProtoClosed(h)
    && forall r :: r in h ==> forall k :: k in h[r].own ==> RefIn(h, h[r].own[k])
  }

  /** Some heap object holds `x` as its own property `key`. */
  ghost predicate OwnedSomewhere(h: Heap, key: string, x: Value) {
    exists r :: r in h && key in h[r].own && h[r].own[key] == x
  }

  /** [[Get]] of `key` on `v`, starting at `v` and following the prototype
      chain; `seen` holds the objects already visited. A value that is not a
      heap object ends the chain with `undefined`. JavaScript never builds a
      cyclic prototype chain; were there one, the walk stops at the first
      object met twice. */
  function Lookup(h: Heap, v: Value, key: string, seen: set<Ref>): (x: Value)
    ensures x == Undefined || OwnedSomewhere(h, key, x)
    decreases h.Keys - seen
  {
    if !v.IsRef() || v.ref !in h || v.ref in seen then Undefined
    else
      var q := v.ref;
      if key in h[q].own then
        assert q in h && key in h[q].own;
        h[q].own[key]
      else Lookup(h, h[q].proto, key, seen + {q})
  }

  /** The property read `v[key]` (`v.key` in source form) for a heap object.
      It yields `undefined` for primitives, whose wrapper prototypes are not
      modelled; the DI predicates read only from values that passed an
      `isObject` or `typeof` test. */
  function Get(h: Heap, v: Value, key: string): Value {
    Lookup(h, v, key, {})
  }

  /** `Object.prototype.hasOwnProperty.call(v, key)` for a heap object `v`.
      It is false for primitives, which the predicates of the DI layer never
      ask about (they test `isObject` first). */
  predicate HasOwn(h: Heap, v: Value, key: string) {
    v.IsRef() && v.ref in h && key in h[v.ref].own
  }

  /** In a closed heap a property read yields nothing that points outside
      the heap. */
  lemma GetStaysInHeap(h: Heap, v: Value, key: string)
    requires Closed(h)
    ensures RefIn(h, Get(h, v, key))
  {
  }

  /** An own property is found before anything the prototype chain holds. */
  lemma OwnPropertyShadows(h: Heap, v: Value, key: string)
    requires HasOwn(h, v, key)
    ensures Get(h, v, key) == h[v.ref].own[key]
  {
  }

  /** The defining equation of `Lookup` for an inherited property: a
      property missing from the object itself is read from its prototype,
      as long as the chain from there does not lead back to the object. */
  lemma {:induction false} InheritedProperty(h: Heap, v: Value, key: string)
    requires v.IsRef() && v.ref in h && key !in h[v.ref].own
    requires !OnChain(h, h[v.ref].proto, v.ref, {})
    ensures Get(h, v, key) == Get(h, h[v.ref].proto, key)
  {
    LookupIgnoresUnreachedSeen(h, h[v.ref].proto, key, {v.ref});
    assert {} + {v.ref} == {v.ref};
  }

  /** Marking as seen objects that the walk from `v` never reaches changes
      nothing. */
  lemma {:induction false} LookupIgnoresUnreachedSeen(h: Heap, v: Value, key: string, extra: set<Ref>)
    requires forall r :: r in extra ==> !OnChain(h, v, r, {})
    ensures Lookup(h, v, key, extra) == Lookup(h, v, key, {})
  {
    LookupSeenGeneral(h, v, key, {}, extra);
    assert {} + extra == extra;
  }

  /** `r` is visited by the prototype walk from `v` that has already seen
      `seen`. */
  ghost predicate OnChain(h: Heap, v: Value, r: Ref, seen: set<Ref>)
    decreases h.Keys - seen
  {
    if !v.IsRef() || v.ref !in h || v.ref in seen then false
    else v.ref == r || OnChain(h, h[v.ref].proto, r, seen + {v.ref})
  }

  lemma {:induction false} LookupSeenGeneral(h: Heap, v: Value, key: string, seen: set<Ref>, extra: set<Ref>)
    requires forall r :: r in extra ==> !OnChain(h, v, r, seen)
    ensures Lookup(h, v, key, seen + extra) == Lookup(h, v, key, seen)
    decreases h.Keys - seen
  {
    if !v.IsRef() || v.ref !in h || v.ref in seen {
    } else {
      var q := v.ref;
      assert q !in extra by {
        if q in extra {
          assert OnChain(h, v, q, seen);
        }
      }
      if key !in h[q].own {
        forall r | r in extra
          ensures !OnChain(h, h[q].proto, r, seen + {q})
        {
          assert !OnChain(h, v, r, seen);
        }
        LookupSeenGeneral(h, h[q].proto, key, seen + {q}, extra);
        assert seen + extra + {q} == seen + {q} + extra;
      }
    }
  }

  /** Allocating a fresh object changes no property read that starts from an
      object already in a heap whose prototype links stay inside it. */
  lemma {:induction false} LookupUnchangedByAlloc(h: Heap, r: Ref, rec: ObjRec, v: Value, key: string, seen: set<Ref>)
    requires ProtoClosed(h) && r !in h && RefIn(h, v)
    ensures Lookup(h[r := rec], v, key, seen) == Lookup(h, v, key, seen)
    decreases h.Keys - seen
  {
    if v.IsRef() && v.ref !in seen {
      var q := v.ref;
      assert q != r && h[r := rec][q] == h[q];
      if key !in h[q].own {
        LookupUnchangedByAlloc(h, r, rec, h[q].proto, key, seen + {q});
      }
    }
  }

  lemma GetUnchangedByAlloc(h: Heap, r: Ref, rec: ObjRec, v: Value, key: string)
    requires ProtoClosed(h) && r !in h && RefIn(h, v)
    ensures Get(h[r := rec], v, key) == Get(h, v, key)
  {
    LookupUnchangedByAlloc(h, r, rec, v, key, {});
  }

  /** A fresh object whose prototype and own values point into the heap or
      at itself keeps the heap closed. */
  lemma AllocKeepsClosed(h: Heap, r: Ref, rec: ObjRec)
    requires Closed(h) && r !in h
    requires RefIn(h[r := rec], rec.proto)
    requires forall k :: k in rec.own ==> RefIn(h[r := rec], rec.own[k])
    ensures Closed(h[r := rec])
  {
  }

  /** Only heap objects are ever visited by a prototype walk. */
  lemma {:induction false} OnChainInHeap(h: Heap, v: Value, r: Ref, seen: set<Ref>)
    requires OnChain(h, v, r, seen)
    ensures r in h
    decreases h.Keys - seen
  {
    if v.ref != r {
      OnChainInHeap(h, h[v.ref].proto, r, seen + {v.ref});
    }
  }

  /** A property that a freshly allocated object does not own is read from
      its prototype as the heap stood before the allocation. */
  lemma ReadThroughFreshObject(h: Heap, r: Ref, rec: ObjRec, v: Value, key: string)
    requires ProtoClosed(h) && r !in h && RefIn(h, rec.proto)
    requires v == Obj(r) || v == Fun(r)
    requires key !in rec.own
    ensures Get(h[r := rec], v, key) == Get(h, rec.proto, key)
  {
    LookupUnchangedByAlloc(h, r, rec, rec.proto, key, {r});
    forall q | q in {r} ensures !OnChain(h, rec.proto, q, {}) {
      if OnChain(h, rec.proto, q, {}) {
        OnChainInHeap(h, rec.proto, q, {});
      }
    }
    LookupIgnoresUnreachedSeen(h, rec.proto, key, {r});
    var h' := h[r := rec];
    assert h'[r] == rec && {} + {r} == {r};
    assert Lookup(h', v, key, {}) == Lookup(h', rec.proto, key, {r});
  }
}
