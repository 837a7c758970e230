/** The instrumentor: the walk that finds the Backbone classes and
    plain-object namespaces below a configured object and tags them with
    their property names, the wrapping of their methods, and what a call
    of a method wrapper or of the logging `trigger` does. */
module Instrumentation {
  import opened Wrappers
  import opened JsHeap
  import JsText

  /** The property that names a found object. */
  const TagKey: string := "__xrayName__"

  /** The property that marks a wrapped method as already logged once. */
  const FlagKey: string := "__xrayInstrumented__"

  /** `isForbiddenProperty`: strict equality with `'model'` or
      `'comparator'`. */
  predicate IsForbiddenProperty(v: Value)
  {
    v == VStr("model") || v == VStr("comparator")
  }

  /** `isInstrumentableObj`: a truthy value that is not forbidden and
      either has an object-typed `__super__` (a Backbone class, or `null`)
      or is a plain object. Only objects can pass. */
  predicate IsInstrumentable(h: Heap, v: Value)
    ensures IsInstrumentable(h, v) ==> v.VRef? && v.ref in h
  {
    Truthy(v) && !IsForbiddenProperty(v) &&
    (TypeOf(h, Get(h, v, "__super__")) == "object" || IsPlainObject(h, v))
  }

  /** The forbidden test is applied to the property's value, never its
      name, so it never decides anything: every string fails the rest of
      the test anyway. */
  lemma ForbiddenTestInert(h: Heap, v: Value)
    ensures IsInstrumentable(h, v) <==>
              Truthy(v) && (TypeOf(h, Get(h, v, "__super__")) == "object" || IsPlainObject(h, v))
  {
    if v.VStr? {
      assert Get(h, v, "__super__") == VUndefined;
    }
  }

  /** `obj.__xrayName__ = name`. */
  function TagWith(h: Heap, r: Ref, name: string): (h': Heap)
    requires r in h
    ensures h'.Keys == h.Keys && h'[r].kind == h[r].kind
    ensures Lookup(h'[r].props, TagKey) == Some(VStr(name))
  {
    SetOn(h, r, TagKey, VStr(name))
  }

  /** How many more levels the walk may descend from `depth`. */
  function Budget(depth: nat): nat
  {
    if depth > 10 then 0 else 11 - depth
  }

  /** `findDescendants(ns, depth)`: the heap afterwards and the objects
      pushed onto `descendants`, in order. Nothing happens below depth 10;
      first every instrumentable property value is tagged and pushed, then
      the walk descends into every plain-object property value. */
  function Walk(h: Heap, ns: Ref, depth: nat): (Heap, seq<Ref>)
    decreases Budget(depth), 2
  {
    if depth > 10 then (h, [])
    else
      var tagged := TagLoop(h, ns, ObjKeys(h, ns), 0);
      var descended := DescendLoop(tagged.0, ns, ObjKeys(tagged.0, ns), 0, depth);
      (descended.0, tagged.1 + descended.1)
  }

  /** The first loop of `findDescendants`, from key `i` on. */
  function TagLoop(h: Heap, ns: Ref, keys: seq<string>, i: nat): (Heap, seq<Ref>)
    decreases |keys| - i
  {
    if i >= |keys| then (h, [])
    else
      var v := Get(h, VRef(ns), keys[i]);
      if IsInstrumentable(h, v) then
        var rest := TagLoop(TagWith(h, v.ref, keys[i]), ns, keys, i + 1);
        (rest.0, [v.ref] + rest.1)
      else TagLoop(h, ns, keys, i + 1)
  }

  /** The second loop of `findDescendants`, from key `i` on. */
  function DescendLoop(h: Heap, ns: Ref, keys: seq<string>, i: nat, depth: nat): (Heap, seq<Ref>)
    requires depth <= 10
    decreases Budget(depth), 1, |keys| - i
  {
    if i >= |keys| then (h, [])
    else
      var v := Get(h, VRef(ns), keys[i]);
      if IsPlainObject(h, v) then
        var inner := Walk(h, v.ref, depth + 1);
        var rest := DescendLoop(inner.0, ns, keys, i + 1, depth);
        (rest.0, inner.1 + rest.1)
      else DescendLoop(h, ns, keys, i + 1, depth)
  }

  lemma AppendAssoc<T>(a: seq<T>, b: seq<T>, c: seq<T>)
    ensures a + (b + c) == (a + b) + c
  {
  }

  /** One turn of the first loop, with `j` the index of the next turn. */
  lemma TagLoopStep(h: Heap, ns: Ref, keys: seq<string>, i: nat, j: nat)
    requires i < |keys| && j == i + 1
    ensures var v := Get(h, VRef(ns), keys[i]);
            TagLoop(h, ns, keys, i)
            == if IsInstrumentable(h, v) then
                 var rest := TagLoop(TagWith(h, v.ref, keys[i]), ns, keys, j);
                 (rest.0, [v.ref] + rest.1)
               else TagLoop(h, ns, keys, j)
  {
  }

  /** One turn of the second loop, with `j` the index of the next turn. */
  lemma DescendLoopStep(h: Heap, ns: Ref, keys: seq<string>, i: nat, j: nat, depth: nat)
    requires depth <= 10 && i < |keys| && j == i + 1
    ensures var v := Get(h, VRef(ns), keys[i]);
            DescendLoop(h, ns, keys, i, depth)
            == if IsPlainObject(h, v) then
                 var inner := Walk(h, v.ref, depth + 1);
                 var rest := DescendLoop(inner.0, ns, keys, j, depth);
                 (rest.0, inner.1 + rest.1)
               else DescendLoop(h, ns, keys, j, depth)
  {
  }

  predicate IsTagged(h: Heap, r: Ref)
  {
    r in h && Lookup(h[r].props, TagKey).Some? && Lookup(h[r].props, TagKey).value.VStr?
  }

  /** `h2` differs from `h1` at most in the tags: the same objects of the
      same kinds, the same value under every other key, and a tag that
      was a name stays a name. */
  ghost predicate OnlyTagsChange(h1: Heap, h2: Heap)
  {
    h1.Keys == h2.Keys &&
    (forall r :: r in h1 ==> h2[r].kind == h1[r].kind) &&
    (forall r, k :: r in h1 && k != TagKey ==> Lookup(h2[r].props, k) == Lookup(h1[r].props, k)) &&
    (forall r :: IsTagged(h1, r) ==> IsTagged(h2, r))
  }

  /** Every pushed object is instrumentable and tagged with a name. */
  ghost predicate AllFound(h: Heap, pushed: seq<Ref>)
  {
    forall j :: 0 <= j < |pushed| ==> IsInstrumentable(h, VRef(pushed[j])) && IsTagged(h, pushed[j])
  }

  lemma OnlyTagsChangeTrans(h1: Heap, h2: Heap, h3: Heap)
    requires OnlyTagsChange(h1, h2) && OnlyTagsChange(h2, h3)
    ensures OnlyTagsChange(h1, h3)
  {
  }

  lemma TagOnlyTags(h: Heap, r: Ref, name: string)
    requires r in h
    ensures OnlyTagsChange(h, TagWith(h, r, name)) && IsTagged(TagWith(h, r, name), r)
  {
    var h' := TagWith(h, r, name);
    forall x, k | x in h && k != TagKey
      ensures Lookup(h'[x].props, k) == Lookup(h[x].props, k)
    {
    }
    forall x | IsTagged(h, x)
      ensures IsTagged(h', x)
    {
      if x == r {
        assert Lookup(h'[x].props, TagKey) == Some(VStr(name));
      }
    }
  }

  /** Tagging does not change which objects are instrumentable. */
  lemma InstrumentableStable(h1: Heap, h2: Heap, r: Ref)
    requires OnlyTagsChange(h1, h2)
    ensures IsInstrumentable(h1, VRef(r)) <==> IsInstrumentable(h2, VRef(r))
  {
    if r in h1 {
      assert Lookup(h2[r].props, "__super__") == Lookup(h1[r].props, "__super__");
      var s := Get(h1, VRef(r), "__super__");
      assert Get(h2, VRef(r), "__super__") == s;
      assert TypeOf(h2, s) == TypeOf(h1, s);
    }
  }

  lemma AllFoundStable(h1: Heap, h2: Heap, pushed: seq<Ref>)
    requires OnlyTagsChange(h1, h2) && AllFound(h1, pushed)
    ensures AllFound(h2, pushed)
  {
    forall j | 0 <= j < |pushed|
      ensures IsInstrumentable(h2, VRef(pushed[j])) && IsTagged(h2, pushed[j])
    {
      InstrumentableStable(h1, h2, pushed[j]);
    }
  }

  lemma {:induction false} TagLoopFacts(h: Heap, ns: Ref, keys: seq<string>, i: nat)
    ensures OnlyTagsChange(h, TagLoop(h, ns, keys, i).0)
    ensures AllFound(TagLoop(h, ns, keys, i).0, TagLoop(h, ns, keys, i).1)
    decreases |keys| - i
  {
    if i < |keys| {
      var v := Get(h, VRef(ns), keys[i]);
      if IsInstrumentable(h, v) {
        var h1 := TagWith(h, v.ref, keys[i]);
        var rest := TagLoop(h1, ns, keys, i + 1);
        TagOnlyTags(h, v.ref, keys[i]);
        TagLoopFacts(h1, ns, keys, i + 1);
        OnlyTagsChangeTrans(h, h1, rest.0);
        InstrumentableStable(h, h1, v.ref);
        InstrumentableStable(h1, rest.0, v.ref);
        assert AllFound(rest.0, [v.ref]);
        assert [v.ref] + rest.1 == TagLoop(h, ns, keys, i).1;
      } else {
        TagLoopFacts(h, ns, keys, i + 1);
      }
    }
  }

  /** `findDescendants` changes nothing but tags, and every object it
      pushes is instrumentable and tagged with a name. */
  lemma {:induction false} WalkFacts(h: Heap, ns: Ref, depth: nat)
    ensures OnlyTagsChange(h, Walk(h, ns, depth).0)
    ensures AllFound(Walk(h, ns, depth).0, Walk(h, ns, depth).1)
    decreases Budget(depth), 2
  {
    if depth <= 10 {
      var tagged := TagLoop(h, ns, ObjKeys(h, ns), 0);
      var descended := DescendLoop(tagged.0, ns, ObjKeys(tagged.0, ns), 0, depth);
      TagLoopFacts(h, ns, ObjKeys(h, ns), 0);
      DescendFacts(tagged.0, ns, ObjKeys(tagged.0, ns), 0, depth);
      OnlyTagsChangeTrans(h, tagged.0, descended.0);
      AllFoundStable(tagged.0, descended.0, tagged.1);
    }
  }

  lemma {:induction false} DescendFacts(h: Heap, ns: Ref, keys: seq<string>, i: nat, depth: nat)
    requires depth <= 10
    ensures OnlyTagsChange(h, DescendLoop(h, ns, keys, i, depth).0)
    ensures AllFound(DescendLoop(h, ns, keys, i, depth).0, DescendLoop(h, ns, keys, i, depth).1)
    decreases Budget(depth), 1, |keys| - i
  {
    if i < |keys| {
      var v := Get(h, VRef(ns), keys[i]);
      if IsPlainObject(h, v) {
        var inner := Walk(h, v.ref, depth + 1);
        var rest := DescendLoop(inner.0, ns, keys, i + 1, depth);
        WalkFacts(h, v.ref, depth + 1);
        DescendFacts(inner.0, ns, keys, i + 1, depth);
        OnlyTagsChangeTrans(h, inner.0, rest.0);
        AllFoundStable(inner.0, rest.0, inner.1);
      } else {
        DescendFacts(h, ns, keys, i + 1, depth);
      }
    }
  }

  /** `n` copies of `r`. */
  function Repeat(r: Ref, n: nat): (s: seq<Ref>)
    ensures |s| == n && forall j :: 0 <= j < n ==> s[j] == r
  {
    if n == 0 then [] else [r] + Repeat(r, n - 1)
  }

  /** A plain namespace holding itself under `self`, before the walk... */
  function SelfNamespace(): Heap
  {
    map[0 := JsObject(PlainObject, [("self", VRef(0))])]
  }

  /** ...and once it has been tagged. */
  function TaggedSelfNamespace(): Heap
  {
    map[0 := JsObject(PlainObject, [("self", VRef(0)), (TagKey, VStr("self"))])]
  }

  /** Tagging the tagged namespace again changes nothing. */
  lemma SelfTagFixed()
    ensures TagWith(TaggedSelfNamespace(), 0, "self") == TaggedSelfNamespace()
  {
    var props := TaggedSelfNamespace()[0].props;
    assert props[1..] == [(TagKey, VStr("self"))];
    assert SetProp(props[1..], TagKey, VStr("self")) == props[1..];
    assert SetProp(props, TagKey, VStr("self")) == props;
  }

  lemma TaggedSelfLookups()
    ensures Get(TaggedSelfNamespace(), VRef(0), "self") == VRef(0)
    ensures Get(TaggedSelfNamespace(), VRef(0), TagKey) == VStr("self")
  {
    var props := TaggedSelfNamespace()[0].props;
    assert props[1..] == [(TagKey, VStr("self"))];
    assert Lookup(props[1..], TagKey) == Some(VStr("self"));
  }

  /** One level of the walk over the tagged namespace: `self` is pushed
      again, and the walk descends through `self` only. */
  lemma TaggedSelfLevel(depth: nat)
    requires 1 <= depth <= 10
    ensures TagLoop(TaggedSelfNamespace(), 0, ObjKeys(TaggedSelfNamespace(), 0), 0) == (TaggedSelfNamespace(), [0])
    ensures DescendLoop(TaggedSelfNamespace(), 0, ObjKeys(TaggedSelfNamespace(), 0), 1, depth) == (TaggedSelfNamespace(), [])
    ensures |ObjKeys(TaggedSelfNamespace(), 0)| == 2
    ensures Get(TaggedSelfNamespace(), VRef(0), ObjKeys(TaggedSelfNamespace(), 0)[0]) == VRef(0)
    ensures IsPlainObject(TaggedSelfNamespace(), VRef(0))
  {
    var h := TaggedSelfNamespace();
    var keys := ObjKeys(h, 0);
    assert keys == ["self", TagKey];
    TaggedSelfLookups();
    SelfTagFixed();
    assert !IsInstrumentable(h, VStr("self"));
    assert TagLoop(h, 0, keys, 2) == (h, []);
    assert TagLoop(h, 0, keys, 1) == (h, []);
    assert keys[0] == "self" && Get(h, VRef(0), keys[0]) == VRef(0);
    assert IsInstrumentable(h, VRef(0));
    assert TagWith(h, 0, keys[0]) == h;
    var rest := TagLoop(TagWith(h, 0, keys[0]), 0, keys, 1);
    assert rest == (h, []);
    assert TagLoop(h, 0, keys, 0) == (rest.0, [0] + rest.1);
    assert [0] + rest.1 == [0];
    assert DescendLoop(h, 0, keys, 2, depth) == (h, []);
    assert keys[1] == TagKey && Get(h, VRef(0), keys[1]) == VStr("self");
    assert DescendLoop(h, 0, keys, 1, depth) == (h, []);
  }

  /** The second loop over a namespace whose first key leads back to the
      namespace itself and whose other keys lead nowhere plain. */
  lemma DescendThroughFirst(h: Heap, ns: Ref, keys: seq<string>, depth: nat, deeper: nat, s: seq<Ref>)
    requires depth <= 10 && deeper == depth + 1 && |keys| >= 1
    requires Get(h, VRef(ns), keys[0]) == VRef(ns) && IsPlainObject(h, VRef(ns))
    requires Walk(h, ns, deeper) == (h, s)
    requires DescendLoop(h, ns, keys, 1, depth) == (h, [])
    ensures DescendLoop(h, ns, keys, 0, depth) == (h, s)
  {
    DescendLoopStep(h, ns, keys, 0, 1, depth);
    assert s + [] == s;
  }

  /** One level of `findDescendants` over a namespace that tags only
      itself and leaves the heap as it was. */
  lemma WalkOneLevel(h: Heap, ns: Ref, depth: nat, s: seq<Ref>)
    requires depth <= 10
    requires TagLoop(h, ns, ObjKeys(h, ns), 0) == (h, [ns])
    requires DescendLoop(h, ns, ObjKeys(h, ns), 0, depth) == (h, s)
    ensures Walk(h, ns, depth) == (h, [ns] + s)
  {
  }

  lemma {:induction false} TaggedSelfWalk(depth: nat)
    requires 2 <= depth
    ensures Walk(TaggedSelfNamespace(), 0, depth) == (TaggedSelfNamespace(), Repeat(0, Budget(depth)))
    decreases Budget(depth)
  {
    var h := TaggedSelfNamespace();
    if depth <= 10 {
      var keys := ObjKeys(h, 0);
      var deeper := depth + 1;
      TaggedSelfLevel(depth);
      TaggedSelfWalk(deeper);
      var n := Budget(deeper);
      DescendThroughFirst(h, 0, keys, depth, deeper, Repeat(0, n));
      WalkOneLevel(h, 0, depth, Repeat(0, n));
      assert Repeat(0, n + 1) == [0] + Repeat(0, n);
    }
  }

  /** The first tagging of the namespace that holds itself. */
  lemma SelfFirstTag()
    ensures TagLoop(SelfNamespace(), 0, ObjKeys(SelfNamespace(), 0), 0) == (TaggedSelfNamespace(), [0])
  {
    var h := SelfNamespace();
    var t := TaggedSelfNamespace();
    assert ObjKeys(h, 0) == ["self"];
    assert Get(h, VRef(0), "self") == VRef(0);
    assert IsInstrumentable(h, VRef(0));
    assert SetProp(h[0].props, TagKey, VStr("self")) == t[0].props;
    assert TagWith(h, 0, "self") == t;
    var rest := TagLoop(TagWith(h, 0, "self"), 0, ["self"], 1);
    assert rest == (t, []);
    assert ["self"][0] == "self";
    assert TagLoop(h, 0, ["self"], 0) == (rest.0, [0] + rest.1);
    assert [0] + rest.1 == [0];
  }

  lemma SelfDescendFromTop()
    ensures DescendLoop(TaggedSelfNamespace(), 0, ObjKeys(TaggedSelfNamespace(), 0), 0, 1) == (TaggedSelfNamespace(), Repeat(0, 9))
  {
    var t := TaggedSelfNamespace();
    var keys := ObjKeys(t, 0);
    TaggedSelfLevel(1);
    TaggedSelfWalk(2);
    DescendThroughFirst(t, 0, keys, 1, 2, Repeat(0, 9));
  }

  /** The depth limit is all that stops a cycle: a namespace that holds
      itself is pushed ten times. */
  lemma SelfReferenceFoundTenTimes()
    ensures Walk(SelfNamespace(), 0, 1) == (TaggedSelfNamespace(), Repeat(0, 10))
  {
    SelfFirstTag();
    SelfDescendFromTop();
    assert Walk(SelfNamespace(), 0, 1) == (TaggedSelfNamespace(), [0] + Repeat(0, 9));
    assert [0] + Repeat(0, 9) == Repeat(0, 10);
  }

  /** The object whose properties `processDescendant` and `wrapMethod`
      visit: the descendant's truthy `prototype`, else the descendant.
      None for a truthy primitive `prototype`, whose properties are never
      functions. */
  function MethodsParent(h: Heap, d: Ref): Option<Ref>
  {
    var p := Get(h, VRef(d), "prototype");
    if !Truthy(p) then Some(d)
    else if p.VRef? then Some(p.ref)
    else None
  }

  /** The test `wrapMethod` applies before wrapping `property`: an own
      function, not yet flagged, whose `prototype` has no enumerable
      property (not a constructor). */
  predicate WrapsMethod(h: Heap, d: Ref, property: string)
  {
    var mp := MethodsParent(h, d);
    mp.Some? && GetOwn(h, mp.value, property).Some? &&
    var candidate := GetOwn(h, mp.value, property).value;
    TypeOf(h, candidate) == "function" && !Truthy(Get(h, candidate, FlagKey)) &&
    IsEmpty(h, Get(h, candidate, "prototype"))
  }

  /** The function `wrapMethod` stores. Its own `prototype` object has no
      enumerable property; `_.isEmpty` sees the same for `undefined`. */
  function WrapperFor(h: Heap, d: Ref, mp: Ref, property: string, original: Value): JsObject
  {
    var id := ToText(Get(h, VRef(d), TagKey)) + "#" + property;
    JsObject(Function(MethodWrapper(id, original, property, d, mp), VUndefined), [])
  }

  /** `wrapMethod(d, property)`. */
  function WrapSpec(w: World, d: Ref, property: string): (w': World)
    requires ValidWorld(w)
    ensures ValidWorld(w') && w.heap.Keys <= w'.heap.Keys
  {
    if !WrapsMethod(w.heap, d, property) then w
    else
      var mp := MethodsParent(w.heap, d).value;
      var fn := WrapperFor(w.heap, d, mp, property, GetOwn(w.heap, mp, property).value);
      var h1 := w.heap[w.next := fn];
      World(SetOn(h1, mp, property, VRef(w.next)), w.next + 1)
  }

  /** `r[k]` in `h2` is a wrapper made for that very slot that did not
      exist in `h1`. */
  predicate IsNewWrapperFor(h1: Heap, h2: Heap, v: Option<Value>, r: Ref, k: string)
  {
    v.Some? && v.value.VRef? && v.value.ref !in h1 && v.value.ref in h2 &&
    h2[v.value.ref].kind.Function? && h2[v.value.ref].kind.code.MethodWrapper? &&
    h2[v.value.ref].kind.code.property == k && h2[v.value.ref].kind.code.parent == r
  }

  /** Going from `h1` to `h2` only adds objects and replaces properties
      other than `model` and `comparator` by new wrappers made for them. */
  ghost predicate OnlyWraps(h1: Heap, h2: Heap)
  {
    h1.Keys <= h2.Keys &&
    (forall r :: r in h1 ==> h2[r].kind == h1[r].kind) &&
    (forall r, k :: r in h1 && GetOwn(h2, r, k) != GetOwn(h1, r, k) ==>
       !IsForbiddenProperty(VStr(k)) && IsNewWrapperFor(h1, h2, GetOwn(h2, r, k), r, k))
  }

  lemma OnlyWrapsRefl(h: Heap)
    ensures OnlyWraps(h, h)
  {
  }

  lemma OnlyWrapsTrans(h1: Heap, h2: Heap, h3: Heap)
    requires OnlyWraps(h1, h2) && OnlyWraps(h2, h3)
    ensures OnlyWraps(h1, h3)
  {
    forall r, k | r in h1 && GetOwn(h3, r, k) != GetOwn(h1, r, k)
      ensures !IsForbiddenProperty(VStr(k)) && IsNewWrapperFor(h1, h3, GetOwn(h3, r, k), r, k)
    {
      if GetOwn(h3, r, k) == GetOwn(h2, r, k) {
        var f := GetOwn(h2, r, k).value.ref;
        assert h3[f].kind == h2[f].kind;
      }
    }
  }

  /** What `wrapMethod` does: when its test fails, nothing; otherwise the
      slot now holds a new wrapper around the old function, named after
      the descendant's tag, and no other slot or object changes. */
  lemma WrapEffect(w: World, d: Ref, property: string)
    requires ValidWorld(w)
    ensures !WrapsMethod(w.heap, d, property) ==> WrapSpec(w, d, property) == w
    ensures WrapsMethod(w.heap, d, property) ==>
              var w' := WrapSpec(w, d, property);
              var mp := MethodsParent(w.heap, d).value;
              w'.next == w.next + 1 && w.next !in w.heap &&
              GetOwn(w'.heap, mp, property) == Some(VRef(w.next)) &&
              w'.heap[w.next].kind.code.original == GetOwn(w.heap, mp, property).value &&
              w'.heap[w.next].kind.code.id == ToText(Get(w.heap, VRef(d), TagKey)) + "#" + property &&
              (forall r, k :: r in w.heap && (r != mp || k != property) ==> GetOwn(w'.heap, r, k) == GetOwn(w.heap, r, k)) &&
              (forall r :: r in w.heap ==> w'.heap[r].kind == w.heap[r].kind)
  {
  }

  lemma WrapOnlyWraps(w: World, d: Ref, property: string)
    requires ValidWorld(w) && !IsForbiddenProperty(VStr(property))
    ensures OnlyWraps(w.heap, WrapSpec(w, d, property).heap)
  {
    WrapEffect(w, d, property);
  }

  /** The loop of `processDescendant(d)` from key `i` on; forbidden
      property names are skipped. */
  function ProcessLoop(w: World, d: Ref, keys: seq<string>, i: nat): (w': World)
    requires ValidWorld(w)
    ensures ValidWorld(w')
    decreases |keys| - i
  {
    if i >= |keys| then w
    else
      var w1 := if IsForbiddenProperty(VStr(keys[i])) then w else WrapSpec(w, d, keys[i]);
      ProcessLoop(w1, d, keys, i + 1)
  }

  /** `processDescendant(d)`: for-in over the methods parent, whose keys
      are taken before the loop. Inherited keys never pass the
      `hasOwnProperty` test, so only own keys matter. */
  function ProcessSpec(w: World, d: Ref): (w': World)
    requires ValidWorld(w)
    ensures ValidWorld(w')
  {
    var mp := MethodsParent(w.heap, d);
    if mp.None? then w else ProcessLoop(w, d, ObjKeys(w.heap, mp.value), 0)
  }

  lemma ProcessLoopStep(w: World, d: Ref, keys: seq<string>, i: nat)
    requires ValidWorld(w) && i < |keys|
    ensures !IsForbiddenProperty(VStr(keys[i])) ==>
              ProcessLoop(w, d, keys, i) == ProcessLoop(WrapSpec(w, d, keys[i]), d, keys, i + 1)
    ensures IsForbiddenProperty(VStr(keys[i])) ==> ProcessLoop(w, d, keys, i) == ProcessLoop(w, d, keys, i + 1)
  {
  }

  /** `activate` from descendant `i` on. */
  function ActivateLoop(w: World, ds: seq<Ref>, i: nat): (w': World)
    requires ValidWorld(w)
    ensures ValidWorld(w')
    decreases |ds| - i
  {
    if i >= |ds| then w else ActivateLoop(ProcessSpec(w, ds[i]), ds, i + 1)
  }

  /** `activate`: the namespace object first, then every descendant. */
  function ActivateSpec(w: World, root: Ref, ds: seq<Ref>): (w': World)
    requires ValidWorld(w)
    ensures ValidWorld(w')
  {
    ActivateLoop(ProcessSpec(w, root), ds, 0)
  }

  lemma {:induction false} ProcessLoopOnlyWraps(w: World, d: Ref, keys: seq<string>, i: nat)
    requires ValidWorld(w)
    ensures OnlyWraps(w.heap, ProcessLoop(w, d, keys, i).heap)
    decreases |keys| - i
  {
    if i >= |keys| {
      OnlyWrapsRefl(w.heap);
    } else {
      var w1 := if IsForbiddenProperty(VStr(keys[i])) then w else WrapSpec(w, d, keys[i]);
      if IsForbiddenProperty(VStr(keys[i])) {
        OnlyWrapsRefl(w.heap);
      } else {
        WrapOnlyWraps(w, d, keys[i]);
      }
      ProcessLoopOnlyWraps(w1, d, keys, i + 1);
      OnlyWrapsTrans(w.heap, w1.heap, ProcessLoop(w, d, keys, i).heap);
    }
  }

  lemma ProcessOnlyWraps(w: World, d: Ref)
    requires ValidWorld(w)
    ensures OnlyWraps(w.heap, ProcessSpec(w, d).heap)
  {
    var mp := MethodsParent(w.heap, d);
    if mp.None? {
      OnlyWrapsRefl(w.heap);
    } else {
      ProcessLoopOnlyWraps(w, d, ObjKeys(w.heap, mp.value), 0);
    }
  }

  lemma {:induction false} ActivateLoopOnlyWraps(w: World, ds: seq<Ref>, i: nat)
    requires ValidWorld(w)
    ensures OnlyWraps(w.heap, ActivateLoop(w, ds, i).heap)
    decreases |ds| - i
  {
    if i >= |ds| {
      OnlyWrapsRefl(w.heap);
    } else {
      var w1 := ProcessSpec(w, ds[i]);
      ProcessOnlyWraps(w, ds[i]);
      ActivateLoopOnlyWraps(w1, ds, i + 1);
      OnlyWrapsTrans(w.heap, w1.heap, ActivateLoop(w, ds, i).heap);
    }
  }

  /** `activate` only adds wrappers: every property it changes now holds
      a new wrapper made for that slot, `model` and `comparator` are never
      touched, and no existing object changes kind. */
  lemma ActivateOnlyWraps(w: World, root: Ref, ds: seq<Ref>)
    requires ValidWorld(w)
    ensures OnlyWraps(w.heap, ActivateSpec(w, root, ds).heap)
  {
    var w1 := ProcessSpec(w, root);
    ProcessOnlyWraps(w, root);
    ActivateLoopOnlyWraps(w1, ds, 0);
    OnlyWrapsTrans(w.heap, w1.heap, ActivateSpec(w, root, ds).heap);
  }

  /** Wrapping `property` leaves every other property of an existing
      object reading as before. */
  lemma WrapKeepsOtherReads(w: World, d: Ref, property: string, r: Ref, k: string)
    requires ValidWorld(w) && r in w.heap && k != property
    ensures Get(WrapSpec(w, d, property).heap, VRef(r), k) == Get(w.heap, VRef(r), k)
  {
    WrapEffect(w, d, property);
    assert GetOwn(WrapSpec(w, d, property).heap, r, k) == GetOwn(w.heap, r, k);
  }

  /** The `__xrayInstrumented__` flag is only set by a logged call, so a
      method wrapped once is wrapped again by the next activation: the
      new wrapper's original is the first wrapper. */
  lemma WrapTwiceNests(w: World, d: Ref, property: string)
    requires ValidWorld(w) && WrapsMethod(w.heap, d, property) && property != "prototype"
    ensures var w1 := WrapSpec(w, d, property);
            var w2 := WrapSpec(w1, d, property);
            WrapsMethod(w1.heap, d, property) &&
            w2.heap[w1.next].kind.code.original == VRef(w.next) &&
            w2.heap[w.next].kind.code.original == GetOwn(w.heap, MethodsParent(w.heap, d).value, property).value
  {
    var w1 := WrapSpec(w, d, property);
    var mp := MethodsParent(w.heap, d).value;
    WrapEffect(w, d, property);
    assert d in w.heap;
    WrapKeepsOtherReads(w, d, property, d, "prototype");
    assert MethodsParent(w1.heap, d) == Some(mp);
    assert Get(w1.heap, VRef(w.next), FlagKey) == VUndefined;
    assert Get(w1.heap, VRef(w.next), "prototype") == VUndefined;
    WrapEffect(w1, d, property);
  }

  /** A side effect of a call, in the order it happens. */
  datatype Effect =
    | CaptureTrace
    | ScheduleMethodLog(id: string)
    | ScheduleEventLog(name: string, timed: bool)
    | DelegateEvents(receiver: Value)
    | CallOriginal(fn: Value, receiver: Value)

  datatype MethodCall = MethodCall(effects: seq<Effect>, heap: Heap, outcome: Result<Value>)

  /** Whether the slot a wrapper was made for can take the two flag
      properties: under strict mode, assigning a property of a primitive
      or `undefined` throws. */
  predicate CanFlag(h: Heap, code: Code)
    requires code.MethodWrapper?
  {
    var current := Get(h, VRef(code.parent), code.property);
    current.VRef? && current.ref in h
  }

  /** A call of a method wrapper. `inScope` is what `isLoggingEventsFor`
      gives for the receiver and the wrapper's id, `viewPrototype` is
      `Backbone.View.prototype`, and `originalOutcome` is what the wrapped
      function returns or throws. A logged call captures the trace,
      schedules the log entry and flags the function now in the slot; an
      `initialize` of a direct View subclass calls `delegateEvents` again;
      the original is always called last, and its outcome is the call's. */
  function CallMethodWrapper(h: Heap, code: Code, receiver: Value, inScope: Result<bool>, isPaused: bool,
                             viewPrototype: Value, originalOutcome: Result<Value>): (c: MethodCall)
    requires code.MethodWrapper?
    ensures inScope.Throws? ==> c == MethodCall([], h, Throws(inScope.error))
    ensures (ScheduleMethodLog(code.id) in c.effects) <==> inScope == Ok(true) && !isPaused
    ensures c.heap != h ==> inScope == Ok(true) && !isPaused
  {
    if inScope.Throws? then MethodCall([], h, Throws(inScope.error))
    else
      var logged := inScope.value && !isPaused;
      var parts := WrapperEffects(h, code, receiver, logged, viewPrototype);
      if logged && !CanFlag(h, code) then MethodCall(parts.0, h, Throws(TypeError))
      else MethodCall(parts.0 + parts.1 + [CallOriginal(code.original, receiver)], FlagSlot(h, code, logged), originalOutcome)
  }

  /** The heap after a call's flag assignments, which only a logged call
      makes. They leave `__super__` alone, so the `delegateEvents` test,
      made after them, reads what it would have read before. */
  function FlagSlot(h: Heap, code: Code, logged: bool): (h': Heap)
    requires code.MethodWrapper? && (logged ==> CanFlag(h, code))
    ensures h'.Keys == h.Keys
  {
    if logged then
      var current := Get(h, VRef(code.parent), code.property).ref;
      SetOn(SetOn(h, current, "original", code.original), current, FlagKey, True())
    else h
  }

  lemma FlagsKeepSuper(h: Heap, code: Code, logged: bool, x: Value)
    requires code.MethodWrapper? && (logged ==> CanFlag(h, code))
    ensures Get(FlagSlot(h, code, logged), x, "__super__") == Get(h, x, "__super__")
  {
    if logged {
      var current := Get(h, VRef(code.parent), code.property).ref;
      GetAfterSet(h, current, "original", code.original, x, "__super__");
      GetAfterSet(SetOn(h, current, "original", code.original), current, FlagKey, True(), x, "__super__");
    }
  }

  /** The effects before and after the flag assignments, short of the
      call of the original. */
  function WrapperEffects(h: Heap, code: Code, receiver: Value, logged: bool, viewPrototype: Value): (seq<Effect>, seq<Effect>)
    requires code.MethodWrapper?
  {
    var pre := if logged then [CaptureTrace, ScheduleMethodLog(code.id)] else [];
    var again := if code.property == "initialize" && Get(h, VRef(code.descendant), "__super__") == viewPrototype
                 then [DelegateEvents(receiver)] else [];
    (pre, again)
  }

  /** Unless the scope test or a flag assignment throws, the wrapped
      function is called exactly once, after every other effect, and its
      outcome is the call's. */
  lemma WrapperCallsOriginalLast(h: Heap, code: Code, receiver: Value, inScope: Result<bool>, isPaused: bool,
                                 viewPrototype: Value, originalOutcome: Result<Value>)
    requires code.MethodWrapper? && inScope.Ok? && (inScope.value && !isPaused ==> CanFlag(h, code))
    ensures var c := CallMethodWrapper(h, code, receiver, inScope, isPaused, viewPrototype, originalOutcome);
            c.outcome == originalOutcome && |c.effects| > 0 &&
            c.effects[|c.effects| - 1] == CallOriginal(code.original, receiver) &&
            forall j :: 0 <= j < |c.effects| - 1 ==> !c.effects[j].CallOriginal?
  {
    var c := CallMethodWrapper(h, code, receiver, inScope, isPaused, viewPrototype, originalOutcome);
    var logged := inScope.value && !isPaused;
    var parts := WrapperEffects(h, code, receiver, logged, viewPrototype);
    assert c.effects == parts.0 + parts.1 + [CallOriginal(code.original, receiver)] && c.outcome == originalOutcome;
    WrapperEffectsCallNoOriginal(h, code, receiver, logged, viewPrototype);
    OriginalOnlyLast(parts.0, parts.1, CallOriginal(code.original, receiver));
  }

  /** The effects before the original's call call no original. */
  lemma WrapperEffectsCallNoOriginal(h: Heap, code: Code, receiver: Value, logged: bool, viewPrototype: Value)
    requires code.MethodWrapper?
    ensures var parts := WrapperEffects(h, code, receiver, logged, viewPrototype);
            (forall j :: 0 <= j < |parts.0| ==> !parts.0[j].CallOriginal?) &&
            (forall j :: 0 <= j < |parts.1| ==> !parts.1[j].CallOriginal?)
  {
    var parts := WrapperEffects(h, code, receiver, logged, viewPrototype);
    assert parts.0 == [] || parts.0 == [CaptureTrace, ScheduleMethodLog(code.id)];
    assert parts.1 == [] || parts.1 == [DelegateEvents(receiver)];
  }

  /** Appending one effect after effects that call no original leaves
      that one the only call of an original. */
  lemma OriginalOnlyLast(pre: seq<Effect>, again: seq<Effect>, last: Effect)
    requires forall j :: 0 <= j < |pre| ==> !pre[j].CallOriginal?
    requires forall j :: 0 <= j < |again| ==> !again[j].CallOriginal?
    ensures forall j :: 0 <= j < |pre + again + [last]| - 1 ==> !(pre + again + [last])[j].CallOriginal?
  {
    forall j | 0 <= j < |pre + again + [last]| - 1
      ensures !(pre + again + [last])[j].CallOriginal?
    {
      if j < |pre| {
        assert (pre + again + [last])[j] == pre[j];
      } else {
        assert (pre + again + [last])[j] == again[j - |pre|];
      }
    }
  }

  /** `delegateEvents` is called again only from the `initialize` of a
      direct subclass of `Backbone.View`, and always from there unless the
      scope test or a flag assignment throws. */
  lemma WrapperDelegatesForViews(h: Heap, code: Code, receiver: Value, inScope: Result<bool>, isPaused: bool,
                                 viewPrototype: Value, originalOutcome: Result<Value>)
    requires code.MethodWrapper?
    ensures var c := CallMethodWrapper(h, code, receiver, inScope, isPaused, viewPrototype, originalOutcome);
            DelegateEvents(receiver) in c.effects <==>
              inScope.Ok? && (inScope.value && !isPaused ==> CanFlag(h, code)) &&
              code.property == "initialize" && Get(h, VRef(code.descendant), "__super__") == viewPrototype
  {
    var c := CallMethodWrapper(h, code, receiver, inScope, isPaused, viewPrototype, originalOutcome);
    if inScope.Ok? && (inScope.value && !isPaused ==> CanFlag(h, code)) {
      var logged := inScope.value && !isPaused;
      var parts := WrapperEffects(h, code, receiver, logged, viewPrototype);
      assert c.effects == parts.0 + parts.1 + [CallOriginal(code.original, receiver)];
      assert DelegateEvents(receiver) in c.effects <==> DelegateEvents(receiver) in parts.1;
    }
  }

  /** After a logged call the function in the slot carries the flag, so no
      later activation wraps it again. */
  lemma LoggedCallStopsRewrapping(h: Heap, code: Code, receiver: Value, viewPrototype: Value,
                                  originalOutcome: Result<Value>, next: Ref, d: Ref)
    requires code.MethodWrapper? && CanFlag(h, code) && code.property != "prototype"
    requires MethodsParent(h, d) == Some(code.parent) && code.parent in h
    requires Get(h, VRef(code.parent), code.property).ref != code.parent
    ensures var c := CallMethodWrapper(h, code, receiver, Ok(true), false, viewPrototype, originalOutcome);
            !WrapsMethod(c.heap, d, code.property)
  {
    var c := CallMethodWrapper(h, code, receiver, Ok(true), false, viewPrototype, originalOutcome);
    var f := Get(h, VRef(code.parent), code.property).ref;
    var h1 := FlagSlot(h, code, true);
    assert c.heap == h1;
    FlagSlotMarks(h, code);
    assert GetOwn(h1, code.parent, code.property) == GetOwn(h, code.parent, code.property) == Some(VRef(f));
    assert Get(h1, VRef(d), "prototype") == Get(h, VRef(d), "prototype");
  }

  /** The flag assignments of a logged call mark the function in the slot,
      touch no other object and leave every `prototype` as it was. */
  lemma FlagSlotMarks(h: Heap, code: Code)
    requires code.MethodWrapper? && CanFlag(h, code)
    ensures var f := Get(h, VRef(code.parent), code.property).ref;
            var h' := FlagSlot(h, code, true);
            Get(h', VRef(f), FlagKey) == True()
            && (forall x :: Get(h', x, "prototype") == Get(h, x, "prototype"))
            && (forall r :: r in h && r != f ==> h'[r] == h[r])
  {
    var f := Get(h, VRef(code.parent), code.property).ref;
    var h0 := SetOn(h, f, "original", code.original);
    var h1 := SetOn(h0, f, FlagKey, True());
    assert FlagSlot(h, code, true) == h1;
    GetAfterSet(h0, f, FlagKey, True(), VRef(f), FlagKey);
    forall x ensures Get(h1, x, "prototype") == Get(h, x, "prototype") {
      GetAfterSet(h, f, "original", code.original, x, "prototype");
      GetAfterSet(h0, f, FlagKey, True(), x, "prototype");
    }
  }

  datatype TriggerCall = TriggerCall(effects: seq<Effect>, timings: nat, outcome: Result<Value>)

  /** A call of `_triggerWithLogging`. `inScope` is what
      `isLoggingEventsFor` gives for the receiver and the event name,
      `timings` counts the `xray-taken` marks so far, and `origOutcome` is
      what Backbone's own `trigger` returns or throws. The event is logged
      when it is in scope, is not one of the logger's own events and
      logging is not paused; Backbone's `trigger` runs either way, but its
      result is dropped. */
  function CallTriggerWithLogging(eventName: string, inScope: Result<bool>, isPaused: bool, timings: nat,
                                  receiver: Value, origOutcome: Result<Value>): (c: TriggerCall)
    ensures inScope.Throws? ==> c.effects == [] && c.timings == timings && c.outcome.Throws?
    ensures inScope.Ok? ==> |c.effects| > 0 && c.effects[|c.effects| - 1] == CallOriginal(VUndefined, receiver)
    ensures (exists t :: ScheduleEventLog(eventName, t) in c.effects) <==>
              inScope == Ok(true) && !JsText.ContainsText(eventName, "xray-logging") && !isPaused
    ensures ScheduleEventLog(eventName, false) in c.effects ==> timings == 0
    ensures c.timings == timings || c.timings == timings + 1
    ensures c.outcome.Ok? ==> c.outcome.value == VUndefined && origOutcome.Ok?
  {
    if inScope.Throws? then TriggerCall([], timings, Throws(inScope.error))
    else
      var logged := inScope.value && !JsText.ContainsText(eventName, "xray-logging") && !isPaused;
      var pre := if logged then [CaptureTrace, ScheduleEventLog(eventName, timings > 0)] else [];
      var outcome := if origOutcome.Throws? then origOutcome else Ok(VUndefined);
      TriggerCall(pre + [CallOriginal(VUndefined, receiver)], if logged then timings + 1 else timings, outcome)
  }

  /** The steps of a method wrapper's call on the heap `h`: the scope
      test, the trace and log for a logged call, the flag assignments, the
      `delegateEvents` call, then the original. */
  method RunMethodWrapper(h: Heap, code: Code, receiver: Value, inScope: Result<bool>, isPaused: bool,
                          viewPrototype: Value, originalOutcome: Result<Value>)
    returns (effects: seq<Effect>, outcome: Result<Value>, h': Heap)
    requires code.MethodWrapper?
    ensures MethodCall(effects, h', outcome)
            == CallMethodWrapper(h, code, receiver, inScope, isPaused, viewPrototype, originalOutcome)
    ensures h'.Keys == h.Keys
  {
    if inScope.Throws? {
      return [], Throws(inScope.error), h;
    }
    var logged := inScope.value && !isPaused;
    var parts := WrapperEffects(h, code, receiver, logged, viewPrototype);
    if logged && !CanFlag(h, code) {
      return parts.0, Throws(TypeError), h;
    }
    effects := parts.0 + parts.1 + [CallOriginal(code.original, receiver)];
    outcome := originalOutcome;
    h' := FlagSlot(h, code, logged);
  }

  /** The objects and the next reference, shared by every instrumentor. */
  class Realm {
    var world: World

    ghost predicate Valid()
      reads this
    {
      ValidWorld(world)
    }

    constructor (w: World)
      requires ValidWorld(w)
      ensures world == w && Valid()
    {
      world := w;
    }

    /** Calls the method wrapper `f`: applies the flags a logged call sets
        and reports the effects and the outcome. */
    method CallWrapper(f: Ref, receiver: Value, inScope: Result<bool>, isPaused: bool,
                       viewPrototype: Value, originalOutcome: Result<Value>)
      returns (effects: seq<Effect>, outcome: Result<Value>)
      requires Valid() && f in world.heap && world.heap[f].kind.Function? && world.heap[f].kind.code.MethodWrapper?
      modifies this
      ensures Valid() && world.next == old(world.next)
      ensures var c := CallMethodWrapper(old(world.heap), old(world.heap)[f].kind.code, receiver, inScope,
                                         isPaused, viewPrototype, originalOutcome);
              world.heap == c.heap && effects == c.effects && outcome == c.outcome
    {
      var h';
      effects, outcome, h' := RunMethodWrapper(world.heap, world.heap[f].kind.code, receiver, inScope, isPaused,
                                               viewPrototype, originalOutcome);
      world := World(h', world.next);
    }
  }

  /** An instrumentor for one configured namespace: its name, the object
      it names, and the objects found below it. */
  class Instrumentor {
    const realm: Realm
    const name: string
    const root: Ref
    var descendants: seq<Ref>

    /** Tags the namespace object with its name and collects the objects
        below it. */
    constructor (realm: Realm, name: string, root: Ref)
      requires realm.Valid() && root in realm.world.heap
      modifies realm
      ensures this.realm == realm && this.name == name && this.root == root
      ensures var w := Walk(TagWith(old(realm.world.heap), root, name), root, 1);
              realm.world == World(w.0, old(realm.world.next)) && descendants == w.1
      ensures realm.Valid()
    {
      this.realm := realm;
      this.name := name;
      this.root := root;
      descendants := [];
      new;
      realm.world := realm.world.(heap := TagWith(realm.world.heap, root, name));
      FindDescendants(root, 1);
    }

    /** `findDescendants(ns, depth)`. */
    method FindDescendants(ns: Ref, depth: nat)
      requires realm.Valid()
      modifies realm, this
      ensures var w := Walk(old(realm.world.heap), ns, depth);
              realm.world == World(w.0, old(realm.world.next)) && descendants == old(descendants) + w.1
      ensures realm.Valid()
      decreases Budget(depth), 2
    {
      if depth > 10 {
        return;
      }
      ghost var h0 := realm.world.heap;
      ghost var d0 := descendants;
      TagChildren(ns);
      ghost var h1 := realm.world.heap;
      ghost var d1 := descendants;
      DescendChildren(ns, depth);
      ghost var tagged := TagLoop(h0, ns, ObjKeys(h0, ns), 0);
      ghost var descended := DescendLoop(h1, ns, ObjKeys(h1, ns), 0, depth);
      assert descendants == (d0 + tagged.1) + descended.1;
      assert (d0 + tagged.1) + descended.1 == d0 + (tagged.1 + descended.1);
    }

    /** The first loop of `findDescendants`: tags and pushes every
        instrumentable property value of `ns`. */
    method TagChildren(ns: Ref)
      requires realm.Valid()
      modifies realm, this
      ensures var t := TagLoop(old(realm.world.heap), ns, ObjKeys(old(realm.world.heap), ns), 0);
              realm.world == World(t.0, old(realm.world.next)) && descendants == old(descendants) + t.1
      ensures realm.Valid()
    {
      var h := realm.world.heap;
      var found := descendants;
      var keys := ObjKeys(h, ns);
      ghost var goal := TagLoop(h, ns, keys, 0);
      var i := 0;
      while i < |keys|
        invariant 0 <= i <= |keys| && h.Keys == realm.world.heap.Keys
        invariant realm.world == old(realm.world) && descendants == old(descendants)
        invariant TagLoop(h, ns, keys, i).0 == goal.0
        invariant found + TagLoop(h, ns, keys, i).1 == descendants + goal.1
      {
        ghost var hb, fb, ib := h, found, i;
        var v := Get(h, VRef(ns), keys[i]);
        if IsInstrumentable(h, v) {
          h := TagWith(h, v.ref, keys[i]);
          found := found + [v.ref];
        }
        i := i + 1;
        TagLoopStep(hb, ns, keys, ib, i);
        if IsInstrumentable(hb, v) {
          ghost var rest := TagLoop(h, ns, keys, i);
          AppendAssoc(fb, [v.ref], rest.1);
        }
      }
      assert TagLoop(h, ns, keys, i) == (h, []);
      realm.world := realm.world.(heap := h);
      descendants := found;
    }

    /** The second loop of `findDescendants`: walks every plain-object
        property value of `ns` one level deeper. */
    method DescendChildren(ns: Ref, depth: nat)
      requires realm.Valid() && depth <= 10
      modifies realm, this
      ensures var t := DescendLoop(old(realm.world.heap), ns, ObjKeys(old(realm.world.heap), ns), 0, depth);
              realm.world == World(t.0, old(realm.world.next)) && descendants == old(descendants) + t.1
      ensures realm.Valid()
      decreases Budget(depth), 1
    {
      ghost var h0 := realm.world.heap;
      ghost var d0 := descendants;
      var keys := ObjKeys(realm.world.heap, ns);
      var i := 0;
      while i < |keys|
        invariant 0 <= i <= |keys| && realm.Valid()
        invariant realm.world.next == old(realm.world.next)
        invariant DescendLoop(realm.world.heap, ns, keys, i, depth).0 == DescendLoop(h0, ns, keys, 0, depth).0
        invariant descendants + DescendLoop(realm.world.heap, ns, keys, i, depth).1 ==
                  d0 + DescendLoop(h0, ns, keys, 0, depth).1
      {
        ghost var hb, db, ib := realm.world.heap, descendants, i;
        var v := Get(realm.world.heap, VRef(ns), keys[i]);
        if IsPlainObject(realm.world.heap, v) {
          FindDescendants(v.ref, depth + 1);
        }
        i := i + 1;
        DescendLoopStep(hb, ns, keys, ib, i, depth);
        if IsPlainObject(hb, v) {
          ghost var inner := Walk(hb, v.ref, depth + 1);
          ghost var rest := DescendLoop(realm.world.heap, ns, keys, i, depth);
          assert descendants == db + inner.1;
          AppendAssoc(db, inner.1, rest.1);
        }
      }
    }

    /** `wrapMethod(d, property)`. */
    method WrapMethod(d: Ref, property: string)
      requires realm.Valid()
      modifies realm
      ensures realm.Valid() && realm.world == WrapSpec(old(realm.world), d, property)
    {
      var mp := MethodsParent(realm.world.heap, d);
      if mp.None? {
        return;
      }
      var candidate := GetOwn(realm.world.heap, mp.value, property);
      if candidate.Some? && TypeOf(realm.world.heap, candidate.value) == "function" &&
         !Truthy(Get(realm.world.heap, candidate.value, FlagKey)) {
        if !IsEmpty(realm.world.heap, Get(realm.world.heap, candidate.value, "prototype")) {
          return;
        }
        var fn := WrapperFor(realm.world.heap, d, mp.value, property, candidate.value);
        var f := realm.world.next;
        realm.world := World(realm.world.heap[f := fn], f + 1);
        realm.world := realm.world.(heap := SetOn(realm.world.heap, mp.value, property, VRef(f)));
      }
    }

    /** `processDescendant(d)`. */
    method ProcessDescendant(d: Ref)
      requires realm.Valid()
      modifies realm
      ensures realm.Valid() && realm.world == ProcessSpec(old(realm.world), d)
    {
      var mp := MethodsParent(realm.world.heap, d);
      if mp.None? {
        return;
      }
      ghost var w0 := realm.world;
      var keys := ObjKeys(realm.world.heap, mp.value);
      assert ProcessSpec(w0, d) == ProcessLoop(w0, d, keys, 0);
      var i := 0;
      while i < |keys|
        invariant 0 <= i <= |keys| && realm.Valid()
        invariant ProcessLoop(realm.world, d, keys, i) == ProcessLoop(w0, d, keys, 0)
      {
        ghost var before := realm.world;
        if !IsForbiddenProperty(VStr(keys[i])) {
          WrapMethod(d, keys[i]);
        }
        ProcessLoopStep(before, d, keys, i);
        i := i + 1;
      }
    }

    /** `activate`. */
    method Activate()
      requires realm.Valid()
      modifies realm
      ensures realm.Valid() && realm.world == ActivateSpec(old(realm.world), root, descendants)
    {
      ProcessDescendant(root);
      ghost var w1 := realm.world;
      var i := 0;
      while i < |descendants|
        invariant 0 <= i <= |descendants| && realm.Valid()
        invariant ActivateLoop(realm.world, descendants, i) == ActivateLoop(w1, descendants, 0)
      {
        ProcessDescendant(descendants[i]);
        i := i + 1;
      }
    }
  }
}
