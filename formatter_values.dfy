/** Formatter objects as property lists, and the value-level operations
    the formatter registry applies to them: property lookup, assignment,
    `_.omit`, `_.extend`, the field-name list kept by
    `_addFormatterFieldNames`, and the name-collision test of
    `addFormatters`. */
module FormatterValues {
  import opened Wrappers
  import opened JsText

  /** A property value: a string, a function (by identity), a falsy value
      (`undefined`, `null`, `false`, `0`, `NaN`), another truthy value, or
      the `_.wrap` function `_wrapFormatters` puts in place of a field. */
  datatype Val = VStr(s: string) | VFn(id: nat) | VFalsy | VTruthy | VWrapped(inner: Val)

  predicate Truthy(v: Val)
  {
    !(v.VFalsy? || (v.VStr? && v.s == []))
  }

  /** An object's own enumerable properties, in insertion order. */
  type Props = seq<(string, Val)>

  function Keys(p: Props): (ks: seq<string>)
    ensures |ks| == |p| && forall k :: 0 <= k < |p| ==> ks[k] == p[k].0
  {
    seq(|p|, k requires 0 <= k < |p| => p[k].0)
  }

  /** An object never holds two properties of the same name. */
  predicate WellFormed(p: Props)
  {
    forall i, j :: 0 <= i < j < |p| ==> p[i].0 != p[j].0
  }

  /** The position of the property named `key`, or `|p|` if there is none. */
  function IndexOf(p: Props, key: string): (i: nat)
    ensures i <= |p|
    ensures forall j :: 0 <= j < i ==> p[j].0 != key
    ensures i < |p| ==> p[i].0 == key
  {
    if p == [] then 0
    else if p[0].0 == key then 0
    else 1 + IndexOf(p[1..], key)
  }

  /** The first property of that name is the one an index search finds. */
  lemma IndexOfFirst(p: Props, key: string, i: nat)
    requires i < |p| && p[i].0 == key && forall j :: 0 <= j < i ==> p[j].0 != key
    ensures IndexOf(p, key) == i
  {
  }

  /** `obj[key]`, absent when the object has no such property. */
  function Get(p: Props, key: string): (r: Option<Val>)
    ensures r.None? <==> forall k :: 0 <= k < |p| ==> p[k].0 != key
    ensures r.Some? ==> exists k :: 0 <= k < |p| && p[k] == (key, r.value)
  {
    var i := IndexOf(p, key);
    if i < |p| then assert p[i] == (key, p[i].1); Some(p[i].1) else None
  }

  /** In a well-formed object the property at position `k` is the one
      `Get` finds. */
  lemma GetAt(p: Props, k: nat)
    requires WellFormed(p) && k < |p|
    ensures Get(p, p[k].0) == Some(p[k].1)
  {
  }

  /** `obj[key] = v`: an existing property keeps its place, a new one is
      added at the end. */
  function Put(p: Props, key: string, v: Val): (r: Props)
    ensures Keys(r) == if Get(p, key).Some? then Keys(p) else Keys(p) + [key]
    ensures Get(r, key) == Some(v)
    ensures forall other :: other != key ==> Get(r, other) == Get(p, other)
  {
    var i := IndexOf(p, key);
    var r := if i < |p| then p[i := (key, v)] else p + [(key, v)];
    assert forall j :: 0 <= j < |p| && j != i ==> r[j] == p[j];
    assert r[i] == (key, v);
    IndexOfFirst(r, key, i);
    assert forall other :: other != key ==> Get(r, other) == Get(p, other) by {
      forall other | other != key ensures Get(r, other) == Get(p, other) {
        var n := IndexOf(p, other);
        if n < |p| {
          IndexOfFirst(r, other, n);
        } else {
          assert forall j :: 0 <= j < |r| ==> r[j].0 != other by {
            forall j | 0 <= j < |r| ensures r[j].0 != other {
              if j < |p| && j != i { assert r[j] == p[j]; }
            }
          }
        }
      }
    }
    r
  }

  lemma PutWellFormed(p: Props, key: string, v: Val)
    requires WellFormed(p)
    ensures WellFormed(Put(p, key, v))
  {
    var r := Put(p, key, v);
    var i := IndexOf(p, key);
    assert forall j :: 0 <= j < |p| && j != i ==> r[j] == p[j];
  }

  /** `Get` on a non-empty object looks at the first property, then at
      the rest. */
  lemma GetCons(p: Props, key: string)
    requires p != []
    ensures Get(p, key) == if p[0].0 == key then Some(p[0].1) else Get(p[1..], key)
  {
    if p[0].0 != key {
      var n := IndexOf(p[1..], key);
      if n < |p| - 1 {
        IndexOfFirst(p, key, n + 1);
      }
    }
  }

  /** The rest of a well-formed object is well-formed, and does not hold
      the first property's name. */
  lemma TailWellFormed(p: Props)
    requires p != [] && WellFormed(p)
    ensures WellFormed(p[1..])
    ensures forall k :: 0 <= k < |p| - 1 ==> p[1..][k].0 != p[0].0
  {
  }

  /** `_.omit(obj, key)`: a copy without that property. */
  function Omit(p: Props, key: string): (r: Props)
    ensures forall k :: 0 <= k < |r| ==> r[k].0 != key && r[k] in p
  {
    if p == [] then []
    else if p[0].0 == key then Omit(p[1..], key)
    else [p[0]] + Omit(p[1..], key)
  }

  /** The copy answers every other name as the original does. */
  lemma {:induction false} GetOmit(p: Props, key: string, other: string)
    ensures Get(Omit(p, key), key).None?
    ensures other != key ==> Get(Omit(p, key), other) == Get(p, other)
  {
    if p != [] {
      GetOmit(p[1..], key, other);
      GetCons(p, other);
      if p[0].0 != key {
        GetCons(Omit(p, key), other);
        GetCons(Omit(p, key), key);
      }
    }
  }

  lemma {:induction false} OmitWellFormed(p: Props, key: string)
    requires WellFormed(p)
    ensures WellFormed(Omit(p, key))
  {
    if p != [] {
      TailWellFormed(p);
      OmitWellFormed(p[1..], key);
      if p[0].0 != key {
        var rest := Omit(p[1..], key);
        var r := [p[0]] + rest;
        forall i, j | 0 <= i < j < |r| ensures r[i].0 != r[j].0 {
          if i == 0 {
            assert rest[j - 1] in p[1..];
          } else {
            assert r[i] == rest[i - 1] && r[j] == rest[j - 1];
          }
        }
      }
    }
  }

  /** `_.extend(obj, src)`: every property of `src`, in order, assigned
      onto `obj`. */
  function Extend(p: Props, q: Props): (r: Props)
    ensures WellFormed(p) ==> WellFormed(r)
    decreases |q|
  {
    if q == [] then p
    else
      assert WellFormed(p) ==> WellFormed(Put(p, q[0].0, q[0].1)) by {
        if WellFormed(p) { PutWellFormed(p, q[0].0, q[0].1); }
      }
      Extend(Put(p, q[0].0, q[0].1), q[1..])
  }

  /** After `_.extend` a property comes from `src` when `src` has it, and
      from `obj` otherwise. */
  lemma {:induction false} GetExtend(p: Props, q: Props, key: string)
    requires WellFormed(q)
    ensures Get(Extend(p, q), key) == if Get(q, key).Some? then Get(q, key) else Get(p, key)
    decreases |q|
  {
    if q != [] {
      var p2 := Put(p, q[0].0, q[0].1);
      TailWellFormed(q);
      GetExtend(p2, q[1..], key);
      GetCons(q, key);
    }
  }

  /** What `addFormatters` copies onto an existing formatter: every
      property of the new one except the one named by `window.name` (the
      code omits the global `name`, not the string `'name'`). */
  function Merge(target: Props, src: Props, windowName: string): Props
  {
    Extend(target, Omit(src, windowName))
  }

  /** A merged formatter has the new formatter's properties, except the one
      named by `window.name`, and keeps its own others. */
  lemma MergeGet(target: Props, src: Props, windowName: string, key: string)
    requires WellFormed(src)
    ensures Get(Merge(target, src, windowName), key) ==
            if key != windowName && Get(src, key).Some? then Get(src, key) else Get(target, key)
  {
    OmitWellFormed(src, windowName);
    GetOmit(src, windowName, key);
    GetExtend(target, Omit(src, windowName), key);
  }

  /** `formatter.name` when it is a string. */
  function NameOf(p: Props): Option<string>
  {
    match Get(p, "name")
    case Some(VStr(s)) => Some(s)
    case _ => None
  }

  /** Merging a formatter into the one that carries the same name keeps
      that name. */
  lemma MergeKeepsName(target: Props, src: Props, windowName: string)
    requires WellFormed(src) && NameOf(src).Some? && NameOf(src) == NameOf(target)
    ensures NameOf(Merge(target, src, windowName)) == NameOf(target)
  {
    MergeGet(target, src, windowName, "name");
  }

  /** `_.keys(_.omit(formatter, 'name', 'match'))`. */
  function FieldKeys(p: Props): (ks: seq<string>)
    ensures forall k :: 0 <= k < |ks| ==> ks[k] != "name" && ks[k] != "match" && ks[k] in Keys(p)
    ensures forall k :: 0 <= k < |p| && p[k].0 != "name" && p[k].0 != "match" ==> p[k].0 in ks
  {
    if p == [] then []
    else
      assert Keys(p) == [p[0].0] + Keys(p[1..]);
      assert forall k :: 1 <= k < |p| ==> p[k] == p[1..][k - 1];
      (if p[0].0 == "name" || p[0].0 == "match" then [] else [p[0].0]) + FieldKeys(p[1..])
  }

  /** The field keys of every formatter, concatenated (`map` + `flatten`). */
  function AllFieldKeys(ps: seq<Props>): (ks: seq<string>)
    ensures forall k :: 0 <= k < |ks| ==> ks[k] != "name" && ks[k] != "match"
  {
    if ps == [] then [] else FieldKeys(ps[0]) + AllFieldKeys(ps[1..])
  }

  lemma {:induction false} AllFieldKeysMembership(ps: seq<Props>, key: string)
    ensures key in AllFieldKeys(ps) <==> exists i :: 0 <= i < |ps| && key in FieldKeys(ps[i])
  {
    if ps != [] {
      AllFieldKeysMembership(ps[1..], key);
      assert forall i :: 1 <= i < |ps| ==> ps[i] == ps[1..][i - 1];
    }
  }

  /** `_addFormatterFieldNames`: the names already known, followed by the
      new field keys of `ps` without repeats. */
  function AddFieldNames(names: seq<string>, ps: seq<Props>): seq<string>
  {
    Unique(names + Unique(AllFieldKeys(ps)))
  }

  /** The list never repeats a name, keeps the names it had, in their
      places, gains exactly the field keys of the added formatters, and
      never gains `name` or `match`. */
  lemma AddFieldNamesSpec(names: seq<string>, ps: seq<Props>)
    requires NoDuplicates(names)
    ensures NoDuplicates(AddFieldNames(names, ps))
    ensures |names| <= |AddFieldNames(names, ps)| && AddFieldNames(names, ps)[..|names|] == names
    ensures forall key :: key in AddFieldNames(names, ps) <==>
              key in names || exists i :: 0 <= i < |ps| && key in FieldKeys(ps[i])
    ensures forall k :: |names| <= k < |AddFieldNames(names, ps)| ==>
              AddFieldNames(names, ps)[k] != "name" && AddFieldNames(names, ps)[k] != "match"
  {
    var u := Unique(AllFieldKeys(ps));
    var r := AddFieldNames(names, ps);
    UniqueOfConcat(names, u);
    UniqueDistinct(names + u);
    forall key ensures key in r <==> key in names || exists i :: 0 <= i < |ps| && key in FieldKeys(ps[i]) {
      AllFieldKeysMembership(ps, key);
      assert key in names + u <==> key in names || key in u;
      assert key in AllFieldKeys(ps) <==> key in u;
      assert key in r <==> key in names + u;
    }
    forall k | |names| <= k < |r| ensures r[k] != "name" && r[k] != "match" {
      assert r[k] in names + u;
      assert r[k] !in names by {
        forall j | 0 <= j < |names| ensures names[j] != r[k] {
          assert r[j] == names[j];
        }
      }
      assert r[k] in u;
    }
  }

  /** Adding the same formatters again changes nothing (the code calls it
      twice for every `addFormatters`). */
  lemma AddFieldNamesIdempotent(names: seq<string>, ps: seq<Props>)
    requires NoDuplicates(names)
    ensures AddFieldNames(AddFieldNames(names, ps), ps) == AddFieldNames(names, ps)
  {
    AddFieldNamesSpec(names, ps);
    var r := AddFieldNames(names, ps);
    var u := Unique(AllFieldKeys(ps));
    UniqueOfConcat(r, u);
    forall i | 0 <= i < |u| ensures u[i] in r {
      AllFieldKeysMembership(ps, u[i]);
    }
    UniqueOfSeen(u, r);
  }

  /** `_.pluck(formatters, 'name')`. */
  function Names(ps: seq<Props>): (ns: seq<Option<string>>)
    ensures |ns| == |ps| && forall k :: 0 <= k < |ps| ==> ns[k] == NameOf(ps[k])
  {
    seq(|ps|, k requires 0 <= k < |ps| => NameOf(ps[k]))
  }

  /** `_.intersection(a, b)`: the elements of `a` that `b` holds, without
      repeats. */
  function Intersection(a: seq<Option<string>>, b: seq<Option<string>>): (r: seq<Option<string>>)
    ensures forall x :: x in r <==> x in a && x in b
    ensures NoDuplicates(r)
  {
    var common := Common(a, b);
    UniqueDistinct(common);
    Unique(common)
  }

  function Common(a: seq<Option<string>>, b: seq<Option<string>>): (r: seq<Option<string>>)
    ensures forall x :: x in r <==> x in a && x in b
  {
    if a == [] then []
    else (if a[0] in b then [a[0]] else []) + Common(a[1..], b)
  }

  predicate IsDigit(c: char)
  {
    '0' <= c <= '9'
  }

  /** `String.prototype.trim`. */
  function Trim(s: string): (t: string)
    ensures |t| <= |s|
    ensures t == [] || (!IsJsWhitespace(t[0]) && !IsJsWhitespace(t[|t| - 1]))
    decreases |s|
  {
    if s == [] then []
    else if IsJsWhitespace(s[0]) then Trim(s[1..])
    else if IsJsWhitespace(s[|s| - 1]) then Trim(s[..|s| - 1])
    else s
  }

  /** Digits and at most one `.`, with at least one digit, all of them `0`. */
  predicate ZeroMantissa(m: string)
  {
    (exists i :: 0 <= i < |m| && m[i] == '0')
    && (forall i :: 0 <= i < |m| ==> m[i] == '0' || m[i] == '.')
    && (forall i, j :: 0 <= i < j < |m| && m[i] == '.' ==> m[j] != '.')
  }

  /** An empty exponent, or `e`/`E`, an optional sign and one digit or more. */
  predicate ExponentPart(e: string)
  {
    e == [] ||
    (|e| >= 2 && (e[0] == 'e' || e[0] == 'E') &&
      var digits := if e[1] == '+' || e[1] == '-' then e[2..] else e[1..];
      |digits| > 0 && forall i :: 0 <= i < |digits| ==> IsDigit(digits[i]))
  }

  /** A signed decimal numeral whose value is zero. */
  predicate ZeroDecimal(t: string)
  {
    var u := if |t| > 0 && (t[0] == '+' || t[0] == '-') then t[1..] else t;
    exists m :: 0 <= m <= |u| && ZeroMantissa(u[..m]) && ExponentPart(u[m..])
  }

  /** `0x`, `0o` or `0b` followed by zeros only. */
  predicate ZeroRadix(t: string)
  {
    |t| >= 3 && t[0] == '0' && t[1] in "xXoObB" && forall i :: 2 <= i < |t| ==> t[i] == '0'
  }

  /** `Number(s) === 0`: blank text, or a zero numeral between blanks.
      Numerals that are zero only by underflow (`1e-400`) are not
      recognised. */
  predicate IsZeroNumeric(s: string)
  {
    var t := Trim(s);
    t == [] || ZeroDecimal(t) || ZeroRadix(t)
  }

  /** `_.intersection(added, existing) != 0`: the array is compared with a
      number, so it is joined with commas and converted. Two names or more
      always give NaN (a comma is never numeric); no name gives `''`, which
      is 0; a single missing name joins to `''` as well. */
  predicate Collides(inter: seq<Option<string>>)
  {
    |inter| >= 2 || (|inter| == 1 && inter[0].Some? && !IsZeroNumeric(inter[0].value))
  }

  /** A single shared name counts as a collision unless it reads as zero. */
  lemma CollisionCases()
    ensures !Collides([])
    ensures Collides([Some("model")])
    ensures !Collides([Some("0")])
    ensures !Collides([Some(" 0x0 ")])
    ensures !Collides([Some("")])
    ensures Collides([Some("0"), Some("1")])
  {
    assert !IsJsWhitespace('m') && !IsJsWhitespace('l');
    assert Trim("model") == "model";
    assert !ZeroDecimal("model") by {
      forall m | 0 <= m <= 5 ensures !(ZeroMantissa("model"[..m]) && ExponentPart("model"[m..])) {
        if m > 0 { assert "model"[..m][0] == 'm'; }
        else { assert "model"[m..][0] == 'm'; }
      }
    }
    assert Trim("0") == "0";
    assert ZeroDecimal("0") by {
      var u := "0";
      assert u[..1] == "0" && u[..1][0] == '0';
      assert u[1..] == [];
      assert ZeroMantissa(u[..1]) && ExponentPart(u[1..]);
    }
    assert Trim(" 0x0 ") == "0x0" by {
      assert " 0x0 "[1..] == "0x0 ";
      assert "0x0 "[..3] == "0x0";
    }
    assert ZeroRadix("0x0");
  }

  /** The formatters every configuration starts with, in order `method`,
      `model`, `collection`, `view`, `router`, `default`; function `10 * k
      + j` is field `j` of formatter `k`, and 99 is the shared `noop`. */
  function DefaultFormatters(): seq<Props>
  {
    [ [("name", VStr("method")), ("match", VFn(1)), ("summary", VFn(2)), ("obj", VFn(3)),
       ("arguments", VFn(4)), ("definition", VFn(5))],
      [("name", VStr("model")), ("match", VFn(11)), ("summary", VFn(12))],
      [("name", VStr("collection")), ("match", VFn(21)), ("summary", VFn(22))],
      [("name", VStr("view")), ("match", VFn(31)), ("summary", VFn(32))],
      [("name", VStr("router")), ("match", VFn(41)), ("summary", VFn(42))],
      [("name", VStr("default")), ("match", DefaultMatch()), ("summary", VFn(52)), ("obj", VFn(53)),
       ("listeners", VFn(54)), ("data", VFn(55)), ("location", VFn(56)), ("timeElapsed", VFn(57)),
       ("stack", VFn(58)), ("prepend", VFn(99)), ("append", VFn(99))] ]
  }

  /** The `match` of the `default` formatter, `function() { return true; }`. */
  function DefaultMatch(): Val
  {
    VFn(51)
  }
}
