/** The part of a JavaScript realm the instrumentation touches: objects
    with ordered own enumerable properties (for-in visits them in
    insertion order), plain objects, function objects, and the values
    stored in properties. */
module JsHeap {
  import opened Wrappers

  type Ref = nat

  /** A JavaScript value. Numbers and booleans are kept as their `typeof`
      name, their text and their truthiness. */
  datatype Value =
    | VRef(ref: Ref)
    | VStr(s: string)
    | VPrim(typeName: string, text: string, truthy: bool)
    | VNull
    | VUndefined

  /** The behaviour of a function object, as far as the model needs it:
      code outside the model, or a method wrapper made by `wrapMethod`
      (its id, the function it wraps, the property and descendant it was
      made for, and the object it was stored into). */
  datatype Code =
    | Native(native: nat)
    | MethodWrapper(id: string, original: Value, property: string, descendant: Ref, parent: Ref)

  /** A function keeps its `prototype` apart from its enumerable
      properties: for-in does not visit it. */
  datatype Kind = PlainObject | Function(code: Code, prototype: Value) | OtherObject

  datatype JsObject = JsObject(kind: Kind, props: seq<(string, Value)>)

  type Heap = map<Ref, JsObject>

  /** The heap together with the next unused reference. */
  datatype World = World(heap: Heap, next: Ref)

  ghost predicate ValidWorld(w: World)
  {
    forall r :: r in w.heap ==> r < w.next
  }

  function Keys(props: seq<(string, Value)>): (ks: seq<string>)
    ensures |ks| == |props| && forall i :: 0 <= i < |props| ==> ks[i] == props[i].0
  {
    if props == [] then [] else [props[0].0] + Keys(props[1..])
  }

  /** The own property `k`, if there is one. */
  function Lookup(props: seq<(string, Value)>, k: string): (r: Option<Value>)
    ensures r.Some? <==> k in Keys(props)
  {
    if props == [] then None
    else if props[0].0 == k then Some(props[0].1)
    else Lookup(props[1..], k)
  }

  /** `obj[k] = v`: an existing property keeps its place, a new one goes
      last. */
  function SetProp(props: seq<(string, Value)>, k: string, v: Value): (r: seq<(string, Value)>)
    ensures Lookup(r, k) == Some(v)
    ensures forall k' :: k' != k ==> Lookup(r, k') == Lookup(props, k')
    ensures k in Keys(props) ==> Keys(r) == Keys(props)
    ensures k !in Keys(props) ==> Keys(r) == Keys(props) + [k]
  {
    if props == [] then [(k, v)]
    else if props[0].0 == k then [(k, v)] + props[1..]
    else [props[0]] + SetProp(props[1..], k, v)
  }

  /** Assigning a property of the object at `r`. */
  function SetOn(h: Heap, r: Ref, k: string, v: Value): (h': Heap)
    requires r in h
    ensures h'.Keys == h.Keys
  {
    h[r := h[r].(props := SetProp(h[r].props, k, v))]
  }

  /** The keys a for-in loop over the object at `r` visits. */
  function ObjKeys(h: Heap, r: Ref): seq<string>
  {
    if r in h then Keys(h[r].props) else []
  }

  /** `v[k]`. Primitives have none of the properties read here. */
  function Get(h: Heap, v: Value, k: string): Value
  {
    if !v.VRef? || v.ref !in h then VUndefined
    else if k == "prototype" && h[v.ref].kind.Function? then h[v.ref].kind.prototype
    else
      var own := Lookup(h[v.ref].props, k);
      if own.Some? then own.value else VUndefined
  }

  /** An own enumerable property of the object at `r`. */
  function GetOwn(h: Heap, r: Ref, k: string): Option<Value>
  {
    if r in h then Lookup(h[r].props, k) else None
  }

  predicate Truthy(v: Value)
  {
    match v
    case VRef(_) => true
    case VStr(s) => s != []
    case VPrim(_, _, t) => t
    case VNull => false
    case VUndefined => false
  }

  /** `typeof v`; `typeof null` is `'object'`. */
  function TypeOf(h: Heap, v: Value): string
  {
    match v
    case VRef(r) => if r in h && h[r].kind.Function? then "function" else "object"
    case VStr(_) => "string"
    case VPrim(t, _, _) => t
    case VNull => "object"
    case VUndefined => "undefined"
  }

  /** `$.isPlainObject(v)`. */
  predicate IsPlainObject(h: Heap, v: Value)
  {
    v.VRef? && v.ref in h && h[v.ref].kind.PlainObject?
  }

  /** `_.isEmpty(v)`: no own enumerable property; an empty string. */
  predicate IsEmpty(h: Heap, v: Value)
  {
    match v
    case VRef(r) => r !in h || h[r].props == []
    case VStr(s) => s == []
    case _ => true
  }

  /** `String(v)`, as `+` applies it to the left of `"#"`. */
  function ToText(v: Value): string
  {
    match v
    case VRef(_) => "[object Object]"
    case VStr(s) => s
    case VPrim(_, t, _) => t
    case VNull => "null"
    case VUndefined => "undefined"
  }

  /** The flag value `true`. */
  function True(): Value
  {
    VPrim("boolean", "true", true)
  }

  /** Reading after an assignment. */
  lemma GetAfterSet(h: Heap, r: Ref, k: string, v: Value, x: Value, k': string)
    requires r in h && k != "prototype"
    ensures Get(SetOn(h, r, k, v), x, k') ==
              if x == VRef(r) && k' == k then v else Get(h, x, k')
  {
  }
}
