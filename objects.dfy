/** JavaScript objects as far as the scope checks and the type names see
    them: an identity, the value of `obj.constructor`, and the classes whose
    prototype is on the object's prototype chain (what `instanceof` tests).
    A constructor table (`config.constructors`) lists named classes in
    for-in order. */
module Objects {
  import opened Wrappers

  /** A constructor function, by identity. */
  type ClassId = nat

  datatype Obj = Obj(ref: nat, ctor: ClassId, ancestors: set<ClassId>)

  /** `obj instanceof c`. */
  predicate InstanceOf(obj: Obj, c: ClassId)
  {
    c in obj.ancestors
  }

  /** A constructor table: property names with their constructors, in the
      order a for-in loop visits them. */
  type CtorTable = seq<(string, ClassId)>

  /** `backboneConstructors` (and the default `config.constructors`). */
  function BackboneConstructors(): CtorTable
  {
    [("Model", 0), ("Collection", 1), ("View", 2), ("Router", 3)]
  }

  /** `constructors[name]`: the constructor stored under that name. */
  function LookupCtor(table: CtorTable, name: string): (r: Option<ClassId>)
    ensures r.None? <==> forall k :: 0 <= k < |table| ==> table[k].0 != name
    ensures r.Some? ==> exists k :: (0 <= k < |table| && table[k] == (name, r.value)
                                     && forall j :: 0 <= j < k ==> table[j].0 != name)
  {
    if table == [] then None
    else if table[0].0 == name then assert table[0] == (name, table[0].1); Some(table[0].1)
    else
      var r := LookupCtor(table[1..], name);
      if r.Some? then
        var k :| 0 <= k < |table[1..]| && table[1..][k] == (name, r.value)
                 && forall j :: 0 <= j < k ==> table[1..][j].0 != name;
        assert table[k + 1] == (name, r.value);
        assert forall j :: 0 <= j < k + 1 ==> table[j].0 != name by {
          forall j | 0 <= j < k + 1 ensures table[j].0 != name {
            if j > 0 { assert table[j] == table[1..][j - 1]; }
          }
        }
        r
      else r
  }

  /** The first position whose constructor is exactly `obj.constructor`, or
      `|table|` if there is none. */
  function ExactIndex(table: CtorTable, obj: Obj): (k: nat)
    ensures k <= |table|
    ensures forall j :: 0 <= j < k ==> table[j].1 != obj.ctor
    ensures k < |table| ==> table[k].1 == obj.ctor
  {
    if table == [] then 0
    else if table[0].1 == obj.ctor then 0
    else 1 + ExactIndex(table[1..], obj)
  }

  /** The first position whose constructor `obj` is an instance of, or
      `|table|` if there is none. */
  function InstanceIndex(table: CtorTable, obj: Obj): (k: nat)
    ensures k <= |table|
    ensures forall j :: 0 <= j < k ==> !InstanceOf(obj, table[j].1)
    ensures k < |table| ==> InstanceOf(obj, table[k].1)
  {
    if table == [] then 0
    else if InstanceOf(obj, table[0].1) then 0
    else 1 + InstanceIndex(table[1..], obj)
  }

  /** `getTypeOf` of the current draft: the name of a constructor that is
      exactly `obj.constructor`, else the name of the first constructor
      `obj` is an instance of, else `'Object'`. Both loops visit the table
      in the same order, so the earliest such name is returned. */
  function GetTypeOf(table: CtorTable, obj: Obj): (name: string)
    ensures (exists k :: 0 <= k < |table| && table[k].1 == obj.ctor) ==>
              name == table[ExactIndex(table, obj)].0
    ensures (forall k :: 0 <= k < |table| ==> table[k].1 != obj.ctor)
            && (exists k :: 0 <= k < |table| && InstanceOf(obj, table[k].1)) ==>
              name == table[InstanceIndex(table, obj)].0
    ensures (forall k :: 0 <= k < |table| ==> table[k].1 != obj.ctor && !InstanceOf(obj, table[k].1)) ==>
              name == "Object"
  {
    var e := ExactIndex(table, obj);
    if e < |table| then table[e].0
    else
      var n := InstanceIndex(table, obj);
      if n < |table| then table[n].0 else "Object"
  }

  /** `getBackboneTypeOf` of the earlier draft: the name of the first of
      Model, Collection, View and Router that `obj` is an instance of, else
      the empty string. */
  function BackboneTypeOf(obj: Obj): (name: string)
    ensures InstanceOf(obj, 0) ==> name == "Model"
    ensures !InstanceOf(obj, 0) && InstanceOf(obj, 1) ==> name == "Collection"
    ensures !InstanceOf(obj, 0) && !InstanceOf(obj, 1) && InstanceOf(obj, 2) ==> name == "View"
    ensures !InstanceOf(obj, 0) && !InstanceOf(obj, 1) && !InstanceOf(obj, 2) && InstanceOf(obj, 3)
            ==> name == "Router"
    ensures (forall c :: 0 <= c <= 3 ==> !InstanceOf(obj, c)) ==> name == []
  {
    var table := BackboneConstructors();
    assert forall k :: 0 <= k < |table| ==> table[k].1 == k;
    var n := InstanceIndex(table, obj);
    assert forall c :: 0 <= c < 4 && InstanceOf(obj, c) ==> n <= c by {
      forall c | 0 <= c < 4 && InstanceOf(obj, c) ensures n <= c {
        assert table[c].1 == c;
      }
    }
    if n < |table| then table[n].0 else []
  }

  /** The exact-constructor loop wins even over an earlier `instanceof`
      match: an object built by `View` that also inherits from `Model`'s
      prototype is a `View`. */
  lemma ExactBeforeInstance(obj: Obj)
    requires obj.ctor == 2 && InstanceOf(obj, 0)
    ensures GetTypeOf(BackboneConstructors(), obj) == "View"
    ensures BackboneTypeOf(obj) == "Model"
  {
    assert BackboneConstructors()[2].1 == obj.ctor;
    assert ExactIndex(BackboneConstructors(), obj) == 2;
  }

  /** For an object of one Backbone class whose `constructor` is that class
      (or none of them), both drafts name the same type, except that the
      current one says `'Object'` where the earlier one says nothing. */
  lemma TypeNamesAgree(obj: Obj)
    requires forall c :: 0 <= c <= 3 && InstanceOf(obj, c) ==> obj.ctor == c
    requires obj.ctor <= 3 ==> InstanceOf(obj, obj.ctor)
    requires forall c, d :: 0 <= c < d <= 3 && InstanceOf(obj, c) ==> !InstanceOf(obj, d)
    ensures GetTypeOf(BackboneConstructors(), obj) == (if BackboneTypeOf(obj) == [] then "Object" else BackboneTypeOf(obj))
  {
    var table := BackboneConstructors();
    var e := ExactIndex(table, obj);
    var n := InstanceIndex(table, obj);
    if n < |table| {
      assert table[n].1 == n;
      assert obj.ctor == n;
      assert e == n;
    } else {
      assert forall c :: 0 <= c <= 3 ==> !InstanceOf(obj, c) by {
        forall c | 0 <= c <= 3 ensures !InstanceOf(obj, c) {
          assert table[c].1 == c;
        }
      }
      assert forall k :: 0 <= k < |table| ==> table[k].1 == k;
    }
  }
}
