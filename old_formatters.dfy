/** Formatter choice in the earlier draft (backbone.xray.js):
    `getEventFormatter`, which reverses `config.formatters` in place on
    every call before scanning it from the end, `addFormatters`, and the
    default title `defaultEventTitleFormat` falls back on. */
module EarlierFormatters {
  import opened Wrappers
  import opened JsText
  import opened FormatterValues
  import opened Formatters
  import JsHeap

  /** What a chosen field is bound to: the formatter's own field, the
      default title format or `noop`. */
  datatype Handler = Field(v: Val) | DefaultTitle | Noop

  /** The object `getEventFormatter` returns. */
  datatype EventFormatter = EventFormatter(title: Handler, prependLogContent: Handler, appendLogContent: Handler)

  /** `f[key] || fallback`. */
  function FieldOr(p: Props, key: string, fallback: Handler): Handler
  {
    match Get(p, key)
    case Some(v) => if Truthy(v) then Field(v) else fallback
    case None => fallback
  }

  /** The fields of the formatter that matched, each falling back. */
  function FieldsOf(p: Props): EventFormatter
  {
    EventFormatter(FieldOr(p, "formatTitle", DefaultTitle), FieldOr(p, "prependLogContent", Noop),
                   FieldOr(p, "appendLogContent", Noop))
  }

  /** What a call over the formatters `fs`, tried from the front, gives:
      the fields of the first whose `match` accepts, the defaults when
      none does, a `TypeError` at a `match` that is not a function. */
  function EventFormatterFor(fs: seq<Props>, ev: nat, accepts: (nat, nat) -> bool): (r: Result<EventFormatter>)
    ensures forall k :: 0 <= k < |fs| && MatchOf(fs[k]).Some? && accepts(MatchOf(fs[k]).value, ev) &&
                        (forall j :: 0 <= j < k ==> MatchOf(fs[j]).Some? && !accepts(MatchOf(fs[j]).value, ev)) ==>
                          r == Ok(FieldsOf(fs[k]))
    ensures (forall j :: 0 <= j < |fs| ==> MatchOf(fs[j]).Some? && !accepts(MatchOf(fs[j]).value, ev)) ==>
              r == Ok(EventFormatter(DefaultTitle, Noop, Noop))
    ensures r.Throws? <==>
              exists k :: 0 <= k < |fs| && MatchOf(fs[k]).None? &&
                          forall j :: 0 <= j < k ==> MatchOf(fs[j]).Some? && !accepts(MatchOf(fs[j]).value, ev)
    ensures r.Throws? ==> r.error == TypeError
  {
    match FirstMatch(fs, ev, accepts)
    case Throws(e) => Throws(e)
    case Ok(None) => Ok(EventFormatter(DefaultTitle, Noop, Noop))
    case Ok(Some(k)) => Ok(FieldsOf(fs[k]))
  }

  /** `Array.prototype.reverse`. */
  method ReverseInPlace<T>(a: array<T>)
    modifies a
    ensures a[..] == Reverse(old(a[..]))
  {
    var n := a.Length;
    var i := 0;
    while i < n / 2
      invariant 0 <= i <= n / 2
      invariant forall k :: 0 <= k < i ==> a[k] == old(a[n - 1 - k]) && a[n - 1 - k] == old(a[k])
      invariant forall k :: i <= k < n - i ==> a[k] == old(a[k])
    {
      a[i], a[n - 1 - i] := a[n - 1 - i], a[i];
      i := i + 1;
    }
  }

  /** Reversing twice restores the order. */
  lemma ReverseTwice<T>(s: seq<T>)
    ensures Reverse(Reverse(s)) == s
  {
  }

  /** The scan `getEventFormatter` runs once the array is reversed: from
      the last entry of the reversal `rev` of `cs` down to its first, so
      over `cs` from the front. */
  method ScanFromEnd(rev: seq<Props>, ghost cs: seq<Props>, ev: nat, accepts: (nat, nat) -> bool)
    returns (r: Result<EventFormatter>)
    requires rev == Reverse(cs)
    ensures r == EventFormatterFor(cs, ev, accepts)
  {
    var i := |rev|;
    while i > 0
      invariant 0 <= i <= |rev|
      invariant |rev| - i <= ScanEnd(cs, ev, accepts)
    {
      i := i - 1;
      ReversedAt(cs, rev, i);
      var m := MatchOf(rev[i]);
      ScanStep(cs, ev, accepts, |cs| - 1 - i, m);
      if m.None? {
        return Throws(TypeError);
      }
      if accepts(m.value, ev) {
        return Ok(FieldsOf(rev[i]));
      }
    }
    return Ok(EventFormatter(DefaultTitle, Noop, Noop));
  }

  /** `config.formatters` of the earlier draft. */
  class EventFormatterTable {
    var formatters: array<Props>

    constructor (initial: seq<Props>)
      ensures formatters[..] == initial
    {
      formatters := new Props[|initial|](i requires 0 <= i < |initial| => initial[i]);
    }

    /** `addFormatters(...)`: a new array, the old entries then the added
        ones. */
    method AddFormatters(added: seq<Props>)
      modifies this
      ensures fresh(formatters) && formatters[..] == old(formatters[..]) + added
    {
      var all := formatters[..] + added;
      formatters := new Props[|all|](i requires 0 <= i < |all| => all[i]);
    }

    /** `getEventFormatter(eventInfo)`: reverses the array in place, then
        scans it from the end, so each call tries the formatters in the
        order the array had before it. */
    method GetEventFormatter(ev: nat, accepts: (nat, nat) -> bool) returns (r: Result<EventFormatter>)
      modifies formatters
      ensures formatters[..] == Reverse(old(formatters[..]))
      ensures r == EventFormatterFor(old(formatters[..]), ev, accepts)
    {
      ReverseInPlace(formatters);
      r := ScanFromEnd(formatters[..], old(formatters[..]), ev, accepts);
    }
  }

  /** Two calls in a row: the first tries the formatters in their order,
      the second in reverse, and the array is back as it was. */
  method CallTwice(t: EventFormatterTable, ev: nat, accepts: (nat, nat) -> bool)
    returns (first: Result<EventFormatter>, second: Result<EventFormatter>)
    modifies t.formatters
    ensures first == EventFormatterFor(old(t.formatters[..]), ev, accepts)
    ensures second == EventFormatterFor(Reverse(old(t.formatters[..])), ev, accepts)
    ensures t.formatters[..] == old(t.formatters[..])
  {
    first := t.GetEventFormatter(ev, accepts);
    second := t.GetEventFormatter(ev, accepts);
    ReverseTwice(old(t.formatters[..]));
  }

  /** Two formatters that both match; each has its own title. */
  function SampleFirst(): Props
  {
    [("name", VStr("a")), ("match", VFn(1)), ("formatTitle", VFn(10))]
  }

  function SampleSecond(): Props
  {
    [("name", VStr("b")), ("match", VFn(2)), ("formatTitle", VFn(20))]
  }

  function AcceptAll(m: nat, e: nat): bool
  {
    true
  }

  /** The fields read from a three-property formatter. */
  lemma SampleFields(f: Props, m: nat, title: nat)
    requires f == [("name", VStr(if m == 1 then "a" else "b")), ("match", VFn(m)), ("formatTitle", VFn(title))]
    ensures MatchOf(f) == Some(m)
    ensures FieldsOf(f) == EventFormatter(Field(VFn(title)), Noop, Noop)
  {
    GetCons(f, "match");
    GetCons(f[1..], "match");
    GetCons(f, "formatTitle");
    GetCons(f[1..], "formatTitle");
    GetCons(f[2..], "formatTitle");
    assert Get(f, "prependLogContent") == None;
    assert Get(f, "appendLogContent") == None;
  }

  /** A first formatter whose `match` accepts is the one chosen. */
  lemma FirstAcceptedWins(fs: seq<Props>, ev: nat, accepts: (nat, nat) -> bool)
    requires |fs| > 0 && MatchOf(fs[0]).Some? && accepts(MatchOf(fs[0]).value, ev)
    ensures EventFormatterFor(fs, ev, accepts) == Ok(FieldsOf(fs[0]))
  {
    FirstMatchAt(fs, ev, accepts, 0);
  }

  /** Odd calls take the first one's title, even calls the second one's. */
  lemma AlternatingChoice()
    ensures EventFormatterFor([SampleFirst(), SampleSecond()], 0, AcceptAll)
            == Ok(EventFormatter(Field(VFn(10)), Noop, Noop))
    ensures EventFormatterFor(Reverse([SampleFirst(), SampleSecond()]), 0, AcceptAll)
            == Ok(EventFormatter(Field(VFn(20)), Noop, Noop))
  {
    SampleFields(SampleFirst(), 1, 10);
    SampleFields(SampleSecond(), 2, 20);
    FirstAcceptedWins([SampleFirst(), SampleSecond()], 0, AcceptAll);
    var rv := Reverse([SampleFirst(), SampleSecond()]);
    assert rv[0] == SampleSecond();
    FirstAcceptedWins(rv, 0, AcceptAll);
  }

  /** The object a default title is made for, as far as the title reads
      it: `obj.name`, whether `obj.get` is a function, what
      `obj.get('name')` returns, `obj.id` and `obj.cid`. */
  datatype TitleSource = TitleSource(name: JsHeap.Value, getIsFunction: bool, nameByGet: JsHeap.Value,
                                     id: JsHeap.Value, cid: JsHeap.Value)

  function NameTitle(typeName: string, name: JsHeap.Value): string
  {
    typeName + "(name: \"" + JsHeap.ToText(name) + "\")"
  }

  /** `getId`: `obj.id` when it is truthy, `obj.cid` otherwise. */
  function IdTitle(typeName: string, o: TitleSource): string
  {
    if JsHeap.Truthy(o.id) then typeName + "(id: " + JsHeap.ToText(o.id) + ")"
    else typeName + "(cid: " + JsHeap.ToText(o.cid) + ")"
  }

  /** `defaultEventTitleFormat` as written: `getName` reads
      `(obj.name || isFunction(obj.get)) ? obj.get('name') : undefined`,
      so a truthy `obj.name` calls `obj.get` whether or not it is a
      function; `getId` always gives a label. `typeName` is what
      `config.getTypeOf(obj)` returns. */
  function DefaultEventTitleFormat(o: TitleSource, typeName: string): (r: Result<string>)
    ensures r.Throws? <==> JsHeap.Truthy(o.name) && !o.getIsFunction
    ensures r.Ok? ==> StartsWith(r.value, typeName + "(") && EndsWith(r.value, ")")
  {
    var viaGet := JsHeap.Truthy(o.name) || o.getIsFunction;
    if viaGet && !o.getIsFunction then Throws(TypeError)
    else if viaGet && JsHeap.Truthy(o.nameByGet) then Ok(NameTitle(typeName, o.nameByGet))
    else Ok(IdTitle(typeName, o))
  }

  /** A title shows a name exactly when `obj.get` is a function returning
      a truthy name, and shows the id exactly when it shows no name and
      `obj.id` is truthy. */
  lemma TitleForms(o: TitleSource, typeName: string)
    requires DefaultEventTitleFormat(o, typeName).Ok?
    ensures var t := DefaultEventTitleFormat(o, typeName).value;
            (StartsWith(t, typeName + "(name: ") <==> o.getIsFunction && JsHeap.Truthy(o.nameByGet)) &&
            (StartsWith(t, typeName + "(id: ") <==> !(o.getIsFunction && JsHeap.Truthy(o.nameByGet)) && JsHeap.Truthy(o.id))
  {
    var t := DefaultEventTitleFormat(o, typeName).value;
    var n := |typeName|;
    assert (typeName + "(name: ")[n + 1] == 'n';
    assert (typeName + "(id: ")[n + 1] == 'i';
    if o.getIsFunction && JsHeap.Truthy(o.nameByGet) {
      assert t == typeName + "(name: \"" + JsHeap.ToText(o.nameByGet) + "\")";
      assert t[..n + 7] == typeName + "(name: ";
      assert t[n + 1] == 'n';
    } else if JsHeap.Truthy(o.id) {
      assert t == typeName + "(id: " + JsHeap.ToText(o.id) + ")";
      assert t[..n + 5] == typeName + "(id: ";
      assert t[n + 1] == 'i';
    } else {
      assert t == typeName + "(cid: " + JsHeap.ToText(o.cid) + ")";
      assert t[n + 1] == 'c';
    }
  }

  /** `defaultEventTitleFormat` as evidently meant:
      `obj.name || (isFunction(obj.get) ? obj.get('name') : undefined)`. */
  function DefaultEventTitleFormatIntended(o: TitleSource, typeName: string): (t: string)
    ensures StartsWith(t, typeName + "(") && EndsWith(t, ")")
  {
    var name := if JsHeap.Truthy(o.name) then o.name
                else if o.getIsFunction then o.nameByGet
                else JsHeap.VUndefined;
    if JsHeap.Truthy(name) then NameTitle(typeName, name) else IdTitle(typeName, o)
  }

  /** The intended title never throws, names an object by its own truthy
      `name` first, and agrees with the written one wherever `obj.name` is
      falsy. */
  lemma IntendedTitleProperties(o: TitleSource, typeName: string)
    ensures JsHeap.Truthy(o.name) ==>
              StartsWith(DefaultEventTitleFormatIntended(o, typeName), typeName + "(name: \"" + JsHeap.ToText(o.name))
    ensures !JsHeap.Truthy(o.name) ==>
              DefaultEventTitleFormat(o, typeName) == Ok(DefaultEventTitleFormatIntended(o, typeName))
  {
    if JsHeap.Truthy(o.name) {
      var p := typeName + "(name: \"" + JsHeap.ToText(o.name);
      var t := DefaultEventTitleFormatIntended(o, typeName);
      assert t == p + "\")";
      assert t[..|p|] == p;
    }
  }

  /** A view named by its own `name` property, without a `get` method:
      the written title throws where the intended one names it. */
  lemma NamedObjectWithoutGetThrows()
    ensures var o := TitleSource(JsHeap.VStr("todo-list"), false, JsHeap.VUndefined, JsHeap.VUndefined, JsHeap.VStr("view1"));
            DefaultEventTitleFormat(o, "View") == Throws(TypeError) &&
            DefaultEventTitleFormatIntended(o, "View") == "View(name: \"todo-list\")"
  {
  }
}
