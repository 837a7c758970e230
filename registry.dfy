/** The formatter state of the current draft as the code keeps it: the
    `config.formatters` list, the module-level `formatterFieldNames` list
    and `formattersWrapped` flag, and the memo of `_formattersReversed`.
    The memo holds the same formatter objects as `config.formatters`, so it
    is modelled by how many formatters the first call saw: later in-place
    merges show through it, later appended formatters do not. */
module FormatterRegistry {
  import opened Wrappers
  import opened JsText
  import opened FormatterValues
  import opened Formatters

  class Registry {
    /** `xray.config.formatters`. */
    var formatters: seq<Props>
    /** `formatterFieldNames`. */
    var fieldNames: seq<string>
    /** `formattersWrapped`. */
    var wrapped: bool
    /** The length of `config.formatters` at the first `_formattersReversed`
        call, once there has been one. */
    var snapshot: Option<nat>

    predicate Valid()
      reads this
    {
      NoDuplicates(fieldNames) && "name" !in fieldNames && "match" !in fieldNames
      && AllWellFormed(formatters)
      && (snapshot.Some? ==> snapshot.value <= |formatters|)
    }

    /** The formatters the memoized reversal sees, in their original order. */
    function Captured(): seq<Props>
      reads this
      requires Valid()
    {
      if snapshot.Some? then formatters[..snapshot.value] else formatters
    }

    /** The state at load time: the built-in formatters, no field names,
        nothing wrapped, no reversal taken yet. */
    constructor ()
      ensures Valid()
      ensures formatters == DefaultFormatters() && fieldNames == [] && !wrapped && snapshot == None
    {
      formatters := DefaultFormatters();
      fieldNames := [];
      wrapped := false;
      snapshot := None;
      new;
      DefaultWellFormed();
    }

    /** `_addFormatterFieldNames(ps)`. */
    method AddFieldNamesOf(ps: seq<Props>)
      requires Valid()
      modifies this
      ensures Valid()
      ensures fieldNames == AddFieldNames(old(fieldNames), ps)
      ensures formatters == old(formatters) && wrapped == old(wrapped) && snapshot == old(snapshot)
    {
      AddFieldNamesSpec(fieldNames, ps);
      fieldNames := AddFieldNames(fieldNames, ps);
    }

    /** `_wrapFormatters(ps)`: records the field names of `ps`, wraps their
        truthy fields under the grown list, and sets the flag. */
    method WrapFormatters(ps: seq<Props>) returns (out: seq<Props>)
      requires Valid() && AllWellFormed(ps)
      modifies this
      ensures Valid() && wrapped
      ensures fieldNames == AddFieldNames(old(fieldNames), ps)
      ensures out == WrapAll(ps, fieldNames)
      ensures formatters == old(formatters) && snapshot == old(snapshot)
    {
      AddFieldNamesOf(ps);
      out := WrapAll(ps, fieldNames);
      wrapped := true;
    }

    /** The wrapping step of `startLogging`: `config.formatters` is wrapped,
        in place, only if no wrapping has happened yet. */
    method WrapConfigured()
      requires Valid()
      modifies this
      ensures Valid() && wrapped
      ensures old(wrapped) ==> formatters == old(formatters) && fieldNames == old(fieldNames)
      ensures !old(wrapped) ==>
                fieldNames == AddFieldNames(old(fieldNames), old(formatters))
                && formatters == WrapAll(old(formatters), fieldNames)
      ensures snapshot == old(snapshot)
    {
      if !wrapped {
        var out := WrapFormatters(formatters);
        WrapAllShape(formatters, fieldNames);
        formatters := out;
      }
    }

    /** `_formattersReversed()`: the first call copies `config.formatters`
        backwards with a push loop and the memo keeps it; every later call
        gives the same formatters. */
    method FormattersReversed() returns (rev: seq<Props>)
      requires Valid()
      modifies this
      ensures Valid()
      ensures snapshot == if old(snapshot).Some? then old(snapshot) else Some(|formatters|)
      ensures rev == Reverse(Captured())
      ensures formatters == old(formatters) && fieldNames == old(fieldNames) && wrapped == old(wrapped)
    {
      if snapshot.None? {
        var len := |formatters|;
        rev := [];
        var i := len - 1;
        while i >= 0
          invariant -1 <= i < len
          invariant |rev| == len - 1 - i
          invariant forall k :: 0 <= k < |rev| ==> rev[k] == formatters[len - 1 - k]
        {
          rev := rev + [formatters[i]];
          i := i - 1;
        }
        snapshot := Some(len);
        assert formatters[..len] == formatters;
      } else {
        rev := Reverse(formatters[..snapshot.value]);
      }
    }

    /** `getEntry(eventInfo)`: the memoized reversal is scanned from its
        end, so the snapshot is tried in its original order. */
    method GetEntry(ev: nat, accepts: (nat, nat) -> bool) returns (r: Result<Option<Entry>>)
      requires Valid()
      modifies this
      ensures Valid()
      ensures snapshot == if old(snapshot).Some? then old(snapshot) else Some(|formatters|)
      ensures r == EntryFor(Captured(), fieldNames, ev, accepts)
      ensures formatters == old(formatters) && fieldNames == old(fieldNames) && wrapped == old(wrapped)
    {
      var rev := FormattersReversed();
      r := EntryFromReversed(rev, Captured(), fieldNames, ev, accepts);
    }

    /** `addFormatters(...)`: the added formatters are wrapped and their
        field names recorded; then, when an added name collides with an
        existing one, each added name's first formatter is merged into the
        existing formatter of that name, and otherwise the added formatters
        are appended. */
    method AddFormatters(added: seq<Props>, windowName: string)
      requires Valid() && AllWellFormed(added)
      modifies this
      ensures Valid() && wrapped && snapshot == old(snapshot)
      ensures fieldNames == AddFieldNames(old(fieldNames), added)
      ensures Collides(Intersection(Names(added), Names(old(formatters)))) ==>
                formatters == MergeAll(old(formatters), WrapAll(added, fieldNames), Names(added), windowName)
      ensures !Collides(Intersection(Names(added), Names(old(formatters)))) ==>
                formatters == old(formatters) + WrapAll(added, fieldNames)
    {
      var addedFormatters := WrapFormatters(added);
      WrapAllShape(added, fieldNames);
      var addedNames := Names(addedFormatters);
      var formatterNames := Names(formatters);
      RecordWrappedAgain(old(fieldNames), added, fieldNames);
      AddFieldNamesOf(addedFormatters);
      if Collides(Intersection(addedNames, formatterNames)) {
        MergeInto(addedFormatters, addedNames, windowName);
      } else {
        formatters := formatters + addedFormatters;
      }
    }

    /** The merge loop of `addFormatters`, over the added names in order. */
    method MergeInto(added: seq<Props>, names: seq<Option<string>>, windowName: string)
      requires Valid() && AllWellFormed(added)
      modifies this
      ensures Valid()
      ensures formatters == MergeAll(old(formatters), added, names, windowName)
      ensures fieldNames == old(fieldNames) && wrapped == old(wrapped) && snapshot == old(snapshot)
    {
      var j := 0;
      while j < |names|
        invariant 0 <= j <= |names|
        invariant formatters == MergeAll(old(formatters), added, names[..j], windowName)
        invariant AllWellFormed(formatters) && |formatters| == |old(formatters)|
        invariant fieldNames == old(fieldNames) && wrapped == old(wrapped) && snapshot == old(snapshot)
      {
        assert names[..j + 1][..j] == names[..j];
        MergeNamedShape(formatters, added, names[j], windowName);
        formatters := MergeNamed(formatters, added, names[j], windowName);
        j := j + 1;
      }
      assert names[..j] == names;
    }
  }

  /** The body of `getEntry` after `_formattersReversed`: the `default`
      formatter is looked up in the reversal, which is then scanned from
      its end, so the formatters are tried in their original order. */
  method EntryFromReversed(rev: seq<Props>, ghost cs: seq<Props>, names: seq<string>, ev: nat,
                           accepts: (nat, nat) -> bool) returns (r: Result<Option<Entry>>)
    requires rev == Reverse(cs)
    ensures r == EntryFor(cs, names, ev, accepts)
  {
    var d := FindNamed(rev, "default");
    if d.None? {
      return Throws(UserError);
    }
    EntryForScan(cs, names, ev, accepts, d.value);
    var i := |rev|;
    while i > 0
      invariant 0 <= i <= |rev|
      invariant |rev| - i <= ScanEnd(cs, ev, accepts)
    {
      i := i - 1;
      ReversedAt(cs, rev, i);
      ghost var k := |cs| - 1 - i;
      var m := MatchOf(rev[i]);
      ScanStep(cs, ev, accepts, k, m);
      if m.None? {
        return Throws(TypeError);
      }
      if accepts(m.value, ev) {
        return Ok(Some(EntryOf(rev[i], d.value, names)));
      }
    }
    return Ok(None);
  }

  /** The built-in formatters are well formed. */
  lemma DefaultWellFormed()
    ensures AllWellFormed(DefaultFormatters())
  {
    var fs := DefaultFormatters();
    MethodFormatterWellFormed();
    DefaultFormatterWellFormed();
    assert WellFormed(fs[1]) && WellFormed(fs[2]) && WellFormed(fs[3]) && WellFormed(fs[4]);
  }

  /** The built-in `method` formatter names each property once: its
      names all differ in length. */
  lemma MethodFormatterWellFormed()
    ensures WellFormed(DefaultFormatters()[0])
  {
    var p := DefaultFormatters()[0];
    forall i, j | 0 <= i < j < |p|
      ensures p[i].0 != p[j].0
    {
      assert |p[i].0| != |p[j].0|;
    }
  }

  /** The built-in `default` formatter names each property once: no two
      of its names share both length and first letter. */
  lemma DefaultFormatterWellFormed()
    ensures WellFormed(DefaultFormatters()[5])
  {
    var p := DefaultFormatters()[5];
    forall i, j | 0 <= i < j < |p|
      ensures p[i].0 != p[j].0
    {
      assert |p[i].0| != |p[j].0| || p[i].0[0] != p[j].0[0];
    }
  }

  /** `configure({formatters: ...})` before the first `startLogging`: the
      added formatters set `formattersWrapped`, so when they bring no new
      name collision the built-in formatters are never wrapped. */
  method ConfigureBeforeStart(added: seq<Props>, windowName: string) returns (builtIns: seq<Props>)
    requires AllWellFormed(added)
    requires !Collides(Intersection(Names(added), Names(DefaultFormatters())))
    ensures builtIns == DefaultFormatters()
  {
    var r := new Registry();
    r.AddFormatters(added, windowName);
    r.WrapConfigured();
    builtIns := r.formatters[..|DefaultFormatters()|];
  }

  /** `startLogging` before any `addFormatters`: the built-in formatters are
      wrapped, the `default` formatter's `summary` among them. */
  method StartBeforeConfigure(added: seq<Props>, windowName: string) returns (builtIns: seq<Props>)
    requires AllWellFormed(added)
    requires !Collides(Intersection(Names(added), Names(DefaultFormatters())))
    ensures |builtIns| == |DefaultFormatters()|
    ensures Get(builtIns[5], "summary") == Some(VWrapped(VFn(52)))
  {
    var r := new Registry();
    r.WrapConfigured();
    ghost var names := r.fieldNames;
    WrapAllShape(DefaultFormatters(), names);
    r.AddFormatters(added, windowName);
    builtIns := r.formatters[..|DefaultFormatters()|];
    assert builtIns == WrapAll(DefaultFormatters(), names);
    SummaryRecorded();
    DefaultSummaryWrapped(names);
  }

  /** Recording the built-in formatters' field names records `summary`. */
  lemma SummaryRecorded()
    ensures "summary" in AddFieldNames([], DefaultFormatters())
  {
    var fs := DefaultFormatters();
    var d := fs[5];
    assert d[2].0 == "summary";
    assert "summary" in FieldKeys(d);
    assert exists i :: 0 <= i < |fs| && "summary" in FieldKeys(fs[i]);
    AddFieldNamesSpec([], fs);
  }

  /** Wrapping under a list that records `summary` wraps the `default`
      formatter's `summary`. */
  lemma DefaultSummaryWrapped(names: seq<string>)
    requires "summary" in names
    ensures Get(WrapAll(DefaultFormatters(), names)[5], "summary") == Some(VWrapped(VFn(52)))
  {
    var d := DefaultFormatters()[5];
    assert d[2] == ("summary", VFn(52));
    GetAt(d, 2);
    WrapGet(d, names, "summary");
  }
}
