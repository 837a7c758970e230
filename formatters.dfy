/** Formatter resolution in the current draft: the `config.formatters`
    list, the module-level `formatterFieldNames` list, the memoized reversal
    `_formattersReversed`, `getEntry` and `addFormatters`. A formatter's
    `match` function is not modelled; `accepts(id, ev)` says whether
    function `id` accepts event record `ev`. */
module Formatters {
  import opened Wrappers
  import opened JsText
  import opened FormatterValues

  /** The object `getEntry` builds: one function per field name. */
  type Entry = seq<(string, Val)>

  /** Reading a property: `undefined` when it is missing. */
  function Read(p: Props, key: string): Val
  {
    match Get(p, key)
    case Some(v) => v
    case None => VFalsy
  }

  /** `formatter[key] || defaultFormatter[key]`. */
  function Bound(f: Props, d: Props, key: string): Val
  {
    if Truthy(Read(f, key)) then Read(f, key) else Read(d, key)
  }

  /** The `_.reduce` over the field names. */
  function EntryOf(f: Props, d: Props, names: seq<string>): (e: Entry)
    ensures |e| == |names|
    ensures forall k :: 0 <= k < |names| ==> e[k].0 == names[k] && e[k].1 == Bound(f, d, names[k])
  {
    seq(|names|, k requires 0 <= k < |names| => (names[k], Bound(f, d, names[k])))
  }

  /** The function in a formatter's `match` property, if it holds one. */
  function MatchOf(p: Props): Option<nat>
  {
    match Get(p, "match")
    case Some(VFn(id)) => Some(id)
    case _ => None
  }

  /** `_.findWhere(ps, {name: n})`. */
  function FindNamed(ps: seq<Props>, n: string): (r: Option<Props>)
    ensures r.Some? <==> exists k :: 0 <= k < |ps| && NameOf(ps[k]) == Some(n)
    ensures r.Some? ==> r.value == ps[IndexNamed(ps, n)]
  {
    var k := IndexNamed(ps, n);
    if k < |ps| then Some(ps[k]) else None
  }

  /** The position of the first formatter named `n`, or `|ps|`. */
  function IndexNamed(ps: seq<Props>, n: string): (k: nat)
    ensures k <= |ps|
    ensures forall j :: 0 <= j < k ==> NameOf(ps[j]) != Some(n)
    ensures k < |ps| ==> NameOf(ps[k]) == Some(n)
  {
    if ps == [] then 0
    else if NameOf(ps[0]) == Some(n) then 0
    else 1 + IndexNamed(ps[1..], n)
  }

  function Reverse<T>(s: seq<T>): (r: seq<T>)
    ensures |r| == |s| && forall k :: 0 <= k < |s| ==> r[k] == s[|s| - 1 - k]
  {
    if s == [] then [] else Reverse(s[1..]) + [s[0]]
  }

  /** The formatter the scan picks, trying `fs` from the front: the index
      of the first whose `match` accepts, none if none does, and a
      `TypeError` (from `_.bind`) at the first formatter tried whose
      `match` is not a function. */
  function FirstMatch(fs: seq<Props>, ev: nat, accepts: (nat, nat) -> bool): (r: Result<Option<nat>>)
    ensures r.Ok? && r.value.Some? ==>
              r.value.value < |fs| && MatchOf(fs[r.value.value]).Some?
              && accepts(MatchOf(fs[r.value.value]).value, ev)
              && forall j :: 0 <= j < r.value.value ==> MatchOf(fs[j]).Some? && !accepts(MatchOf(fs[j]).value, ev)
    ensures r.Ok? && r.value.None? ==>
              forall j :: 0 <= j < |fs| ==> MatchOf(fs[j]).Some? && !accepts(MatchOf(fs[j]).value, ev)
    ensures r.Throws? ==>
              r.error == TypeError &&
              exists k :: (0 <= k < |fs| && MatchOf(fs[k]).None?
                           && forall j :: 0 <= j < k ==> MatchOf(fs[j]).Some? && !accepts(MatchOf(fs[j]).value, ev))
  {
    var k := ScanEnd(fs, ev, accepts);
    if k == |fs| then Ok(None)
    else if MatchOf(fs[k]).None? then Throws(TypeError)
    else Ok(Some(k))
  }

  /** Whether the scan stops at formatter `f`: its `match` is not a
      function, or it accepts the event. */
  predicate StopsAt(f: Props, ev: nat, accepts: (nat, nat) -> bool)
  {
    MatchOf(f).None? || accepts(MatchOf(f).value, ev)
  }

  /** The position where the scan stops, or `|fs|` when it runs through. */
  function ScanEnd(fs: seq<Props>, ev: nat, accepts: (nat, nat) -> bool): (k: nat)
    ensures k <= |fs|
    ensures forall j :: 0 <= j < k ==> !StopsAt(fs[j], ev, accepts)
    ensures k < |fs| ==> StopsAt(fs[k], ev, accepts)
  {
    if fs == [] then 0
    else if StopsAt(fs[0], ev, accepts) then 0
    else 1 + ScanEnd(fs[1..], ev, accepts)
  }

  /** What `getEntry` returns for the formatters `fs` (in their original
      order) and the field names: `_bindAll` of a missing `default`
      formatter throws; otherwise the first formatter that accepts gives
      the entry, with the default formatter's field for every field the
      chosen one leaves falsy; no formatter accepting gives `undefined`. */
  function EntryFor(fs: seq<Props>, names: seq<string>, ev: nat, accepts: (nat, nat) -> bool): Result<Option<Entry>>
  {
    match FindNamed(Reverse(fs), "default")
    case None => Throws(UserError)
    case Some(d) =>
      match FirstMatch(fs, ev, accepts)
      case Throws(e) => Throws(e)
      case Ok(None) => Ok(None)
      case Ok(Some(k)) => Ok(Some(EntryOf(fs[k], d, names)))
  }

  /** The entry, read off where the scan of `fs` from the front stops. */
  lemma EntryForScan(fs: seq<Props>, names: seq<string>, ev: nat, accepts: (nat, nat) -> bool, d: Props)
    requires FindNamed(Reverse(fs), "default") == Some(d)
    ensures var k := ScanEnd(fs, ev, accepts);
            EntryFor(fs, names, ev, accepts)
            == if k == |fs| then Ok(None)
               else if MatchOf(fs[k]).None? then Throws(TypeError)
               else Ok(Some(EntryOf(fs[k], d, names)))
  {
  }

  /** One step of a scan from the front: the formatter at `k`, reached by
      the scan, either stops it there or lets it go on past `k`. */
  lemma ScanStep(fs: seq<Props>, ev: nat, accepts: (nat, nat) -> bool, k: nat, m: Option<nat>)
    requires k < |fs| && k <= ScanEnd(fs, ev, accepts) && m == MatchOf(fs[k])
    ensures m.None? || accepts(m.value, ev) ==> ScanEnd(fs, ev, accepts) == k
    ensures m.Some? && !accepts(m.value, ev) ==> k + 1 <= ScanEnd(fs, ev, accepts)
  {
    assert StopsAt(fs[k], ev, accepts) <==> m.None? || accepts(m.value, ev);
  }

  /** Position `i` of a reversal holds the element `i` places from the end. */
  lemma ReversedAt<T>(s: seq<T>, r: seq<T>, i: nat)
    requires r == Reverse(s) && i < |r|
    ensures |s| == |r| && r[i] == s[|s| - 1 - i]
  {
  }

  /** The first formatter that accepts wins: whatever follows it, even one
      that would accept too, is never tried. */
  lemma FirstAcceptingWins(fs: seq<Props>, rest: seq<Props>, ev: nat, accepts: (nat, nat) -> bool, k: nat)
    requires k < |fs| && MatchOf(fs[k]).Some? && accepts(MatchOf(fs[k]).value, ev)
    requires forall j :: 0 <= j < k ==> MatchOf(fs[j]).Some? && !accepts(MatchOf(fs[j]).value, ev)
    ensures FirstMatch(fs + rest, ev, accepts) == Ok(Some(k))
  {
    var all := fs + rest;
    assert forall j :: 0 <= j <= k ==> all[j] == fs[j];
  }

  /** With the built-in list (wrapped or not: wrapping keeps every
      `match`), whose `default` formatter accepts every event, a formatter
      appended after it is never chosen: the entry always comes from one of
      the six built-in formatters. */
  lemma AppendedAfterDefaultUnused(fs: seq<Props>, extra: seq<Props>, ev: nat, accepts: (nat, nat) -> bool)
    requires |fs| == |DefaultFormatters()|
    requires forall j :: 0 <= j < |fs| ==> MatchOf(fs[j]) == MatchOf(DefaultFormatters()[j])
    requires accepts(DefaultMatch().id, ev)
    ensures FirstMatch(fs + extra, ev, accepts).Ok?
    ensures FirstMatch(fs + extra, ev, accepts).value.Some?
    ensures FirstMatch(fs + extra, ev, accepts).value.value < |fs|
  {
    var ms := [1, 11, 21, 31, 41, 51];
    DefaultMatches();
    var k :| 0 <= k < 6 && accepts(ms[k], ev) && forall j :: 0 <= j < k ==> !accepts(ms[j], ev) by {
      FirstAccepting(ms, ev, accepts);
    }
    FirstAcceptingWins(fs, extra, ev, accepts, k);
  }

  /** The built-in formatters' `match` functions are 1, 11, 21, 31, 41
      and 51, in order. */
  lemma DefaultMatches()
    ensures |DefaultFormatters()| == 6
    ensures forall j :: 0 <= j < 6 ==> MatchOf(DefaultFormatters()[j]) == Some([1, 11, 21, 31, 41, 51][j])
  {
    var fs := DefaultFormatters();
    forall j | 0 <= j < 6
      ensures MatchOf(fs[j]) == Some([1, 11, 21, 31, 41, 51][j])
    {
      var p := fs[j];
      assert p[0].0 == "name" && p[1].0 == "match";
      assert p[1].1 == VFn([1, 11, 21, 31, 41, 51][j]);
      IndexOfFirst(p, "match", 1);
    }
  }

  /** Some position of `ms` accepts (the last one does), so there is a first. */
  lemma FirstAccepting(ms: seq<nat>, ev: nat, accepts: (nat, nat) -> bool)
    requires |ms| > 0 && accepts(ms[|ms| - 1], ev)
    ensures exists k :: 0 <= k < |ms| && accepts(ms[k], ev) && forall j :: 0 <= j < k ==> !accepts(ms[j], ev)
  {
    var k := FirstIndexAccepting(ms, ev, accepts);
    assert k < |ms|;
  }

  function FirstIndexAccepting(ms: seq<nat>, ev: nat, accepts: (nat, nat) -> bool): (k: nat)
    ensures k <= |ms|
    ensures forall j :: 0 <= j < k ==> !accepts(ms[j], ev)
    ensures k < |ms| ==> accepts(ms[k], ev)
  {
    if ms == [] then 0
    else if accepts(ms[0], ev) then 0
    else 1 + FirstIndexAccepting(ms[1..], ev, accepts)
  }

  /** One turn of the merge loop of `addFormatters`, for the added name at
      hand: the first added formatter of that name is merged into the first
      existing formatter of that name, if there is one (`_.extend` of a
      missing object does nothing). */
  function MergeNamed(fs: seq<Props>, added: seq<Props>, name: Option<string>, windowName: string): (r: seq<Props>)
    ensures |r| == |fs|
  {
    if name.None? then fs
    else
      var t := IndexNamed(fs, name.value);
      match FindNamed(added, name.value)
      case None => fs
      case Some(src) => if t < |fs| then fs[t := Merge(fs[t], src, windowName)] else fs
  }

  /** The whole merge loop, over the added names in order. */
  function MergeAll(fs: seq<Props>, added: seq<Props>, names: seq<Option<string>>, windowName: string): (r: seq<Props>)
    ensures |r| == |fs|
  {
    if names == [] then fs
    else MergeNamed(MergeAll(fs, added, names[..|names| - 1], windowName), added, names[|names| - 1], windowName)
  }

  predicate AllWellFormed(ps: seq<Props>)
  {
    forall k :: 0 <= k < |ps| ==> WellFormed(ps[k])
  }

  /** Whether formatter `i` of `fs` is the one the merge for some name in
      `names` lands on: it is the first formatter carrying its name. */
  predicate Targeted(fs: seq<Props>, i: nat, names: seq<Option<string>>)
    requires i < |fs|
  {
    NameOf(fs[i]).Some? && IndexNamed(fs, NameOf(fs[i]).value) == i && NameOf(fs[i]) in names
  }

  /** One merge turn keeps every name and the well-formedness of every
      formatter. */
  lemma MergeNamedShape(fs: seq<Props>, added: seq<Props>, name: Option<string>, windowName: string)
    requires AllWellFormed(added) && AllWellFormed(fs)
    ensures AllWellFormed(MergeNamed(fs, added, name, windowName))
    ensures Names(MergeNamed(fs, added, name, windowName)) == Names(fs)
  {
    if name.Some? {
      var n := name.value;
      var t := IndexNamed(fs, n);
      var found := FindNamed(added, n);
      if found.Some? && t < |fs| {
        var src := found.value;
        assert src == added[IndexNamed(added, n)];
        assert WellFormed(src) && WellFormed(fs[t]);
        assert NameOf(src) == Some(n) && NameOf(fs[t]) == Some(n);
        MergeKeepsName(fs[t], src, windowName);
        var m := Merge(fs[t], src, windowName);
        assert WellFormed(m) by {
          assert m == Extend(fs[t], Omit(src, windowName));
        }
        var after := fs[t := m];
        forall j | 0 <= j < |after|
          ensures WellFormed(after[j]) && NameOf(after[j]) == NameOf(fs[j])
        {
          if j != t {
            assert after[j] == fs[j];
          }
        }
        assert forall j :: 0 <= j < |after| ==> Names(after)[j] == Names(fs)[j];
      }
    }
  }

  /** One merge turn, property by property. */
  lemma MergeNamedGet(fs: seq<Props>, added: seq<Props>, name: Option<string>, windowName: string, i: nat, key: string)
    requires AllWellFormed(added) && i < |fs|
    ensures Get(MergeNamed(fs, added, name, windowName)[i], key) ==
            if name.Some? && IndexNamed(fs, name.value) == i && key != windowName && FindNamed(added, name.value).Some?
               && Get(FindNamed(added, name.value).value, key).Some?
            then Get(FindNamed(added, name.value).value, key)
            else Get(fs[i], key)
  {
    if name.Some? && FindNamed(added, name.value).Some? && IndexNamed(fs, name.value) == i {
      var src := FindNamed(added, name.value).value;
      assert src == added[IndexNamed(added, name.value)];
      MergeGet(fs[i], src, windowName, key);
    }
  }

  /** The merge loop keeps every name and the well-formedness of every
      formatter. */
  lemma {:induction false} MergeAllShape(fs: seq<Props>, added: seq<Props>, names: seq<Option<string>>, windowName: string)
    requires AllWellFormed(added) && AllWellFormed(fs)
    ensures AllWellFormed(MergeAll(fs, added, names, windowName))
    ensures Names(MergeAll(fs, added, names, windowName)) == Names(fs)
    decreases |names|
  {
    if names != [] {
      MergeAllShape(fs, added, names[..|names| - 1], windowName);
      MergeNamedShape(MergeAll(fs, added, names[..|names| - 1], windowName), added, names[|names| - 1], windowName);
    }
  }

  /** After the merge loop a property of formatter `i` is the first added
      formatter's of the same name when `i` is targeted and that formatter
      has the property (except the one `window.name` names); otherwise it
      is unchanged. Merging the same formatter twice is merging it once. */
  lemma {:induction false} MergeAllGet(fs: seq<Props>, added: seq<Props>, names: seq<Option<string>>,
                                       windowName: string, i: nat, key: string)
    requires AllWellFormed(added) && AllWellFormed(fs) && i < |fs|
    ensures Get(MergeAll(fs, added, names, windowName)[i], key) ==
            if Targeted(fs, i, names) && key != windowName && FindNamed(added, NameOf(fs[i]).value).Some?
               && Get(FindNamed(added, NameOf(fs[i]).value).value, key).Some?
            then Get(FindNamed(added, NameOf(fs[i]).value).value, key)
            else Get(fs[i], key)
    decreases |names|
  {
    if names != [] {
      var init := names[..|names| - 1];
      var last := names[|names| - 1];
      var before := MergeAll(fs, added, init, windowName);
      MergeAllGet(fs, added, init, windowName, i, key);
      MergeAllShape(fs, added, init, windowName);
      MergeNamedGet(before, added, last, windowName, i, key);
      assert names == init + [last];
      assert NameOf(before[i]) == NameOf(fs[i]) by {
        assert Names(before)[i] == Names(fs)[i];
      }
      if last.Some? {
        SameNamesSameIndex(before, fs, last.value) by {
          forall j | 0 <= j < |fs| ensures NameOf(before[j]) == NameOf(fs[j]) {
            assert Names(before)[j] == Names(fs)[j];
          }
        }
      }
    }
  }

  /** Formatters with the same names have the same first holder of a name. */
  lemma SameNamesSameIndex(a: seq<Props>, b: seq<Props>, n: string)
    requires |a| == |b| && forall j :: 0 <= j < |a| ==> NameOf(a[j]) == NameOf(b[j])
    ensures IndexNamed(a, n) == IndexNamed(b, n)
  {
    if a != [] {
      SameNamesSameIndex(a[1..], b[1..], n);
    }
  }

  /** The scan of `getEntry`, one formatter at a time: once every formatter
      before `k` has a `match` that rejects, formatter `k` decides. */
  lemma FirstMatchAt(fs: seq<Props>, ev: nat, accepts: (nat, nat) -> bool, k: nat)
    requires k <= |fs|
    requires forall j :: 0 <= j < k ==> MatchOf(fs[j]).Some? && !accepts(MatchOf(fs[j]).value, ev)
    ensures k == |fs| ==> FirstMatch(fs, ev, accepts) == Ok(None)
    ensures k < |fs| && MatchOf(fs[k]).None? ==> FirstMatch(fs, ev, accepts) == Throws(TypeError)
    ensures k < |fs| && MatchOf(fs[k]).Some? && accepts(MatchOf(fs[k]).value, ev) ==>
              FirstMatch(fs, ev, accepts) == Ok(Some(k))
  {
    var e := ScanEnd(fs, ev, accepts);
    assert k <= e;
  }

  /** What `_wrapFormatters` does to one formatter: every field in `names`
      whose value is truthy is replaced by its wrapper; the others, and the
      order of the properties, stay. */
  function WrapProps(p: Props, names: seq<string>): (r: Props)
    ensures |r| == |p|
  {
    seq(|p|, k requires 0 <= k < |p| =>
      (p[k].0, if p[k].0 in names && Truthy(p[k].1) then VWrapped(p[k].1) else p[k].1))
  }

  /** `_wrapFormatters` over a list: the same formatters, wrapped in place. */
  function WrapAll(ps: seq<Props>, names: seq<string>): (r: seq<Props>)
    ensures |r| == |ps|
  {
    seq(|ps|, k requires 0 <= k < |ps| => WrapProps(ps[k], names))
  }

  /** Wrapping keeps the keys, so a formatter stays well formed, and reads
      of a field give the wrapper exactly when the field is both listed and
      truthy. */
  lemma WrapGet(p: Props, names: seq<string>, key: string)
    requires WellFormed(p)
    ensures WellFormed(WrapProps(p, names))
    ensures Keys(WrapProps(p, names)) == Keys(p)
    ensures Get(WrapProps(p, names), key) ==
            match Get(p, key)
            case None => None
            case Some(v) => Some(if key in names && Truthy(v) then VWrapped(v) else v)
  {
    var r := WrapProps(p, names);
    assert Keys(r) == Keys(p);
    var i := IndexOf(p, key);
    if i < |p| {
      IndexOfFirst(r, key, i);
    } else {
      assert forall k :: 0 <= k < |r| ==> r[k].0 != key;
    }
  }

  /** Two formatters with the same keys have the same field keys. */
  lemma {:induction false} SameKeysSameFieldKeys(a: Props, b: Props)
    requires Keys(a) == Keys(b)
    ensures FieldKeys(a) == FieldKeys(b)
  {
    if a != [] {
      assert a[0].0 == Keys(a)[0] == Keys(b)[0] == b[0].0;
      assert Keys(a[1..]) == Keys(a)[1..] && Keys(b[1..]) == Keys(b)[1..];
      SameKeysSameFieldKeys(a[1..], b[1..]);
    }
  }

  /** Wrapping changes no key, so the field names it records are the same
      before and after. */
  lemma {:induction false} WrapKeepsFieldKeys(ps: seq<Props>, names: seq<string>)
    requires AllWellFormed(ps)
    ensures AllFieldKeys(WrapAll(ps, names)) == AllFieldKeys(ps)
  {
    if ps != [] {
      WrapGet(ps[0], names, "");
      SameKeysSameFieldKeys(WrapAll(ps, names)[0], ps[0]);
      assert WrapAll(ps, names)[1..] == WrapAll(ps[1..], names);
      WrapKeepsFieldKeys(ps[1..], names);
    }
  }

  /** `addFormatters` records the field names of the added formatters a
      second time, after wrapping them; that changes nothing. */
  lemma RecordWrappedAgain(names: seq<string>, ps: seq<Props>, wrapNames: seq<string>)
    requires NoDuplicates(names) && AllWellFormed(ps)
    ensures AddFieldNames(AddFieldNames(names, ps), WrapAll(ps, wrapNames)) == AddFieldNames(names, ps)
  {
    WrapKeepsFieldKeys(ps, wrapNames);
    AddFieldNamesIdempotent(names, ps);
  }

  /** Wrapping under a field-name list that holds neither `name` nor
      `match` leaves a formatter's name and `match` as they were. */
  lemma WrapKeepsNameAndMatch(p: Props, names: seq<string>)
    requires WellFormed(p) && "name" !in names && "match" !in names
    ensures NameOf(WrapProps(p, names)) == NameOf(p)
    ensures MatchOf(WrapProps(p, names)) == MatchOf(p)
  {
    WrapGet(p, names, "name");
    WrapGet(p, names, "match");
  }

  /** The same for a whole list. */
  lemma WrapAllShape(ps: seq<Props>, names: seq<string>)
    requires AllWellFormed(ps) && "name" !in names && "match" !in names
    ensures AllWellFormed(WrapAll(ps, names))
    ensures Names(WrapAll(ps, names)) == Names(ps)
    ensures forall k :: 0 <= k < |ps| ==> MatchOf(WrapAll(ps, names)[k]) == MatchOf(ps[k])
  {
    forall k | 0 <= k < |ps|
      ensures WellFormed(WrapAll(ps, names)[k])
      ensures NameOf(WrapAll(ps, names)[k]) == NameOf(ps[k])
      ensures MatchOf(WrapAll(ps, names)[k]) == MatchOf(ps[k])
    {
      WrapGet(ps[k], names, "");
      WrapKeepsNameAndMatch(ps[k], names);
    }
  }

  /** `_.isFunction`. */
  predicate IsFunction(v: Val)
  {
    v.VFn? || v.VWrapped?
  }

  /** The values of `xs` that `keep` accepts, in order (`_.select`; with
      the negation, `_.reject`; with `Truthy`, `_.compact`). */
  function Select(xs: seq<Val>, keep: Val -> bool): (r: seq<Val>)
    ensures forall v :: v in r <==> v in xs && keep(v)
    ensures forall k :: 0 <= k < |r| ==> keep(r[k])
  {
    if xs == [] then []
    else
      var rest := Select(xs[1..], keep);
      assert xs == [xs[0]] + xs[1..];
      if keep(xs[0]) then [xs[0]] + rest else rest
  }

  /** What a wrapped field does with the results of the original function:
      a collapsed group titled by the non-function results, inside which
      each callback runs once, or one plain log line of all the results. */
  datatype RenderDirective = Group(title: seq<Val>, callbacks: seq<Val>) | Plain(args: seq<Val>)

  /** The callbacks of a wrapped field: `_.compact(_.union(callback,
      functions))`. `unionKeepsCallback` says whether `_.union` keeps an
      argument that is not an array (underscore before 1.7 does, 1.7 and
      later drop it). */
  function Callbacks(results: seq<Val>, callback: Val, unionKeepsCallback: bool): seq<Val>
  {
    Select(Unique((if unionKeepsCallback then [callback] else []) + Select(results, IsFunction)), Truthy)
  }

  /** The render directive of a wrapped field, from lines 823-834 of the
      wrapper: a group when there is any callback, otherwise a plain log. */
  function Render(results: seq<Val>, callback: Val, unionKeepsCallback: bool): (d: RenderDirective)
  {
    var cbs := Callbacks(results, callback, unionKeepsCallback);
    if |cbs| > 0 then Group(Select(results, v => !IsFunction(v)), cbs) else Plain(results)
  }

  /** The render directive, stated outright: a group exactly when some
      result is a function or the caller's callback is kept and truthy; the
      group's title is the non-function results in order, and its
      callbacks, each once, are exactly the function results and the kept
      callback; otherwise all results go to one plain log line. */
  lemma RenderSpec(results: seq<Val>, callback: Val, unionKeepsCallback: bool)
    ensures Render(results, callback, unionKeepsCallback).Group? <==>
              (exists k :: 0 <= k < |results| && IsFunction(results[k]))
              || (unionKeepsCallback && Truthy(callback))
    ensures Render(results, callback, unionKeepsCallback).Plain? ==>
              Render(results, callback, unionKeepsCallback).args == results
    ensures Render(results, callback, unionKeepsCallback).Group? ==>
              var g := Render(results, callback, unionKeepsCallback);
              NoDuplicates(g.callbacks)
              && (forall v :: v in g.callbacks <==>
                    (v in results && IsFunction(v)) || (unionKeepsCallback && Truthy(callback) && v == callback))
              && (forall v :: v in g.title <==> v in results && !IsFunction(v))
  {
    var cbs := Callbacks(results, callback, unionKeepsCallback);
    CallbacksMembers(results, callback, unionKeepsCallback);
    var some := (exists k :: 0 <= k < |results| && IsFunction(results[k]))
                || (unionKeepsCallback && Truthy(callback));
    if exists k :: 0 <= k < |results| && IsFunction(results[k]) {
      var k :| 0 <= k < |results| && IsFunction(results[k]);
      assert results[k] in cbs;
    } else if unionKeepsCallback && Truthy(callback) {
      assert callback in cbs;
    } else {
      assert |cbs| == 0 || cbs[0] in cbs;
    }
    assert |cbs| > 0 <==> some;
  }

  /** The callbacks are the function results and the kept truthy callback,
      each once. */
  lemma CallbacksMembers(results: seq<Val>, callback: Val, unionKeepsCallback: bool)
    ensures NoDuplicates(Callbacks(results, callback, unionKeepsCallback))
    ensures forall v :: v in Callbacks(results, callback, unionKeepsCallback) <==>
              (v in results && IsFunction(v)) || (unionKeepsCallback && Truthy(callback) && v == callback)
  {
    var fns := Select(results, IsFunction);
    var pre := (if unionKeepsCallback then [callback] else []) + fns;
    var u := Unique(pre);
    forall v ensures v in u <==> v in pre {
      if v in u {
        var i :| 0 <= i < |u| && u[i] == v;
      }
      if v in pre {
        var i :| 0 <= i < |pre| && pre[i] == v;
      }
    }
    UniqueDistinct(pre);
    SelectKeepsDistinct(u, Truthy);
    var cbs := Select(u, Truthy);
    assert cbs == Callbacks(results, callback, unionKeepsCallback);
    forall v ensures v in cbs <==>
              (v in results && IsFunction(v)) || (unionKeepsCallback && Truthy(callback) && v == callback)
    {
      assert v in cbs <==> v in pre && Truthy(v);
      assert v in fns <==> v in results && IsFunction(v);
    }
  }

  /** Selecting from a list without duplicates gives one without duplicates. */
  lemma {:induction false} SelectKeepsDistinct(xs: seq<Val>, keep: Val -> bool)
    requires NoDuplicates(xs)
    ensures NoDuplicates(Select(xs, keep))
  {
    if xs != [] {
      assert forall i, j :: 0 <= i < j < |xs[1..]| ==> xs[1..][i] != xs[1..][j] by {
        forall i, j | 0 <= i < j < |xs[1..]| ensures xs[1..][i] != xs[1..][j] {
          assert xs[1..][i] == xs[i + 1] && xs[1..][j] == xs[j + 1];
        }
      }
      SelectKeepsDistinct(xs[1..], keep);
      assert xs[0] !in xs[1..];
    }
  }
}
