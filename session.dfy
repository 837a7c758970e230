/** The activation state of the current draft: the public `focusOn`,
    `startLogging`, `stopLogging` and `pauseLogging` calls, the parsing
    step they share, the installation and removal of the logging
    `trigger` on the four Backbone prototypes, and the way a call reaches
    the scope check. */
module Activation {
  import opened Wrappers
  import opened Objects
  import opened Specifiers
  import opened Scope
  import opened JsHeap
  import opened Instrumentation
  import opened FormatterRegistry
  import opened FormatterValues
  import opened Formatters

  /** What a Backbone prototype's `trigger` property holds. */
  datatype TriggerImpl = OrigTrigger | LoggingTrigger

  /** The `trigger` of `Backbone.Model`, `.Collection`, `.View` and
      `.Router` prototypes, in that order, after `_addInstrumentation`... */
  function AllLogging(): seq<TriggerImpl>
  {
    [LoggingTrigger, LoggingTrigger, LoggingTrigger, LoggingTrigger]
  }

  /** ...and after `_removeInstrumentation`. */
  function AllOriginal(): seq<TriggerImpl>
  {
    [OrigTrigger, OrigTrigger, OrigTrigger, OrigTrigger]
  }

  /** The specifier list `focusOn` keeps: its arguments, or `'*backbone'`
      when there are none or the first one is `'*'`. */
  function FocusList(args: seq<Spec>): (specs: seq<Spec>)
    ensures |specs| > 0
    ensures |args| > 0 && args[0] != Str("*") ==> specs == args
    ensures (|args| == 0 || args[0] == Str("*")) ==> specs == [Str("*backbone")]
  {
    if |args| > 0 && args[0] != Str("*") then args else [Str("*backbone")]
  }

  /** The root and the descendants of each instrumentor, in order. */
  function ActivateAll(w: World, plans: seq<(Ref, seq<Ref>)>): (w': World)
    requires ValidWorld(w)
    ensures ValidWorld(w')
    decreases |plans|
  {
    if plans == [] then w else ActivateAll(ActivateSpec(w, plans[0].0, plans[0].1), plans[1..])
  }

  /** `n` rounds of `_addInstrumentation` over the same instrumentors. */
  function ActivateRounds(w: World, plans: seq<(Ref, seq<Ref>)>, n: nat): (w': World)
    requires ValidWorld(w)
    ensures ValidWorld(w')
    decreases n
  {
    if n == 0 then w else ActivateRounds(ActivateAll(w, plans), plans, n - 1)
  }

  /** One more round taken: the rounds left from the new world lead where
      all `total` rounds lead from `w0`. */
  lemma RoundsAdvance(w0: World, w: World, w': World, plans: seq<(Ref, seq<Ref>)>, total: nat, n: nat)
    requires ValidWorld(w0) && ValidWorld(w) && n < total
    requires ActivateRounds(w0, plans, total) == ActivateRounds(w, plans, total - n)
    requires w' == ActivateAll(w, plans)
    ensures ValidWorld(w') && ActivateRounds(w0, plans, total) == ActivateRounds(w', plans, total - (n + 1))
  {
  }

  /** Activating instrumentors only adds wrappers, however often. */
  lemma {:induction false} ActivateAllOnlyWraps(w: World, plans: seq<(Ref, seq<Ref>)>)
    requires ValidWorld(w)
    ensures OnlyWraps(w.heap, ActivateAll(w, plans).heap)
    decreases |plans|
  {
    if plans == [] {
      OnlyWrapsRefl(w.heap);
    } else {
      var w1 := ActivateSpec(w, plans[0].0, plans[0].1);
      ActivateOnlyWraps(w, plans[0].0, plans[0].1);
      ActivateAllOnlyWraps(w1, plans[1..]);
      OnlyWrapsTrans(w.heap, w1.heap, ActivateAll(w, plans).heap);
    }
  }

  lemma {:induction false} ActivateRoundsOnlyWraps(w: World, plans: seq<(Ref, seq<Ref>)>, n: nat)
    requires ValidWorld(w)
    ensures OnlyWraps(w.heap, ActivateRounds(w, plans, n).heap)
    decreases n
  {
    if n == 0 {
      OnlyWrapsRefl(w.heap);
    } else {
      var w1 := ActivateAll(w, plans);
      ActivateAllOnlyWraps(w, plans);
      ActivateRoundsOnlyWraps(w1, plans, n - 1);
      OnlyWrapsTrans(w.heap, w1.heap, ActivateRounds(w, plans, n).heap);
    }
  }

  /** The roots and descendants of the instrumentors, in order. */
  ghost function PlansOf(instrs: seq<Instrumentor>): (plans: seq<(Ref, seq<Ref>)>)
    reads set i | 0 <= i < |instrs| :: instrs[i]
    ensures |plans| == |instrs|
    ensures forall i :: 0 <= i < |instrs| ==> plans[i] == (instrs[i].root, instrs[i].descendants)
  {
    if instrs == [] then [] else [(instrs[0].root, instrs[0].descendants)] + PlansOf(instrs[1..])
  }

  /** The loop of `_addInstrumentation` over `xray.instrumentors`. */
  method ActivateEach(instrs: seq<Instrumentor>, realm: Realm)
    requires realm.Valid() && forall i :: 0 <= i < |instrs| ==> instrs[i].realm == realm
    modifies realm
    ensures realm.Valid() && realm.world == ActivateAll(old(realm.world), PlansOf(instrs))
  {
    ghost var plans := PlansOf(instrs);
    var i := 0;
    while i < |instrs|
      invariant 0 <= i <= |instrs| && realm.Valid()
      invariant ActivateAll(realm.world, plans[i..]) == ActivateAll(old(realm.world), plans)
    {
      assert plans[i..][1..] == plans[i + 1..];
      instrs[i].Activate();
      i := i + 1;
    }
    assert plans[i..] == [];
  }

  /** What the walks of `new Instrumentor(...)` for each `[name, object]`
      pair leave, in order: the heap after all of them and each
      instrumentor's descendants. */
  ghost function NamespacesWalk(h: Heap, namespaces: seq<(string, Ref)>): (r: (Heap, seq<seq<Ref>>))
    requires forall k :: 0 <= k < |namespaces| ==> namespaces[k].1 in h
    ensures r.0.Keys == h.Keys && |r.1| == |namespaces|
    decreases |namespaces|
  {
    if namespaces == [] then (h, [])
    else
      var tagged := TagWith(h, namespaces[0].1, namespaces[0].0);
      var w := Walk(tagged, namespaces[0].1, 1);
      WalkFacts(tagged, namespaces[0].1, 1);
      var rest := NamespacesWalk(w.0, namespaces[1..]);
      (rest.0, [w.1] + rest.1)
  }

  /** `instrument` changes nothing in the heap but tags, and every
      descendant of every new instrumentor is instrumentable and tagged
      once all of them are built. */
  lemma {:induction false} NamespacesWalkOnlyTags(h: Heap, namespaces: seq<(string, Ref)>)
    requires forall k :: 0 <= k < |namespaces| ==> namespaces[k].1 in h
    ensures OnlyTagsChange(h, NamespacesWalk(h, namespaces).0)
    ensures forall k :: 0 <= k < |namespaces| ==> AllFound(NamespacesWalk(h, namespaces).0, NamespacesWalk(h, namespaces).1[k])
    decreases |namespaces|
  {
    if namespaces == [] {
    } else {
      var tagged := TagWith(h, namespaces[0].1, namespaces[0].0);
      var w := Walk(tagged, namespaces[0].1, 1);
      TagOnlyTags(h, namespaces[0].1, namespaces[0].0);
      WalkFacts(tagged, namespaces[0].1, 1);
      OnlyTagsChangeTrans(h, tagged, w.0);
      var rest := NamespacesWalk(w.0, namespaces[1..]);
      NamespacesWalkOnlyTags(w.0, namespaces[1..]);
      OnlyTagsChangeTrans(h, w.0, rest.0);
      AllFoundStable(w.0, rest.0, w.1);
      var all := NamespacesWalk(h, namespaces);
      forall k | 0 <= k < |namespaces|
        ensures AllFound(all.0, all.1[k])
      {
        if k > 0 {
          assert all.1[k] == rest.1[k - 1];
        }
      }
    }
  }

  /** The first pair's walk, then the walks of the others from where it
      left the heap. */
  lemma NamespacesWalkCons(h: Heap, namespaces: seq<(string, Ref)>, h1: Heap, descendants: seq<Ref>)
    requires namespaces != [] && forall k :: 0 <= k < |namespaces| ==> namespaces[k].1 in h
    requires (h1, descendants) == Walk(TagWith(h, namespaces[0].1, namespaces[0].0), namespaces[0].1, 1)
    ensures forall k :: 0 <= k < |namespaces[1..]| ==> namespaces[1..][k].1 in h1
    ensures NamespacesWalk(h, namespaces) ==
              (NamespacesWalk(h1, namespaces[1..]).0, [descendants] + NamespacesWalk(h1, namespaces[1..]).1)
  {
    WalkFacts(TagWith(h, namespaces[0].1, namespaces[0].0), namespaces[0].1, 1);
  }

  /** The `_.map` of `instrument`: a new instrumentor for each
      `[name, object]` pair, in order, each built after the one before. */
  method NewInstrumentors(realm: Realm, namespaces: seq<(string, Ref)>) returns (added: seq<Instrumentor>)
    requires realm.Valid() && forall k :: 0 <= k < |namespaces| ==> namespaces[k].1 in realm.world.heap
    modifies realm
    ensures realm.Valid() && |added| == |namespaces|
    ensures forall k :: 0 <= k < |namespaces| ==>
              fresh(added[k]) && added[k].realm == realm && added[k].name == namespaces[k].0 && added[k].root == namespaces[k].1
    ensures var nw := NamespacesWalk(old(realm.world.heap), namespaces);
            realm.world == World(nw.0, old(realm.world.next)) &&
            forall k :: 0 <= k < |namespaces| ==> added[k].descendants == nw.1[k]
    decreases |namespaces|
  {
    if namespaces == [] {
      return [];
    }
    ghost var h0 := realm.world.heap;
    var ins := new Instrumentor(realm, namespaces[0].0, namespaces[0].1);
    NamespacesWalkCons(h0, namespaces, realm.world.heap, ins.descendants);
    var rest := NewInstrumentors(realm, namespaces[1..]);
    added := [ins] + rest;
  }

  /** `stopLogging` empties `loggedEvents` but keeps `eventObjMatchers`:
      against an empty list an event is in scope exactly when an alias
      matcher accepts its object, whatever its name. */
  lemma ClearedListKeepsAliasScope(obj: Obj, name: string, matchers: seq<nat>, resolve: string -> Option<ClassId>,
                                   accepts: (nat, Obj) -> bool, re: RegexEngine)
    ensures IsLoggingEventsFor(obj, name, [], matchers, resolve, accepts, re)
            == Ok(exists k :: 0 <= k < |matchers| && accepts(matchers[k], obj))
  {
    NoPatternsLogsEveryName(obj, name, [], matchers, resolve, accepts, re);
    assert !IsObjLoggedInstance(obj, [], resolve);
  }

  /** The default focus, `'*backbone'`, is always valid and always parses:
      the `focusOn('*')` that `startLogging` falls back on never throws. */
  lemma DefaultFocusParses(aliases: seq<Alias>)
    ensures ValidateEventSpecifiers(SortEventSpecifiers([Str("*backbone")])).Ok?
    ensures ParseSpec(SortEventSpecifiers([Str("*backbone")]), aliases).Parsed?
  {
    var sorted := SortEventSpecifiers([Str("*backbone")]);
    assert multiset(sorted) == multiset{Str("*backbone")};
    assert |sorted| == 1;
    assert Str("*backbone") in multiset(sorted);
    assert sorted == [Str("*backbone")];
    ValidatedSpecifiersParse(sorted, aliases);
  }

  /** The keys `_initPersistedSettings` defines accessors for. */
  function SettingKeys(): set<string>
  {
    {"throttleTime", "eventSpecifiers", "loggedEvents"}
  }

  /** What `xray.settings` is: the object `_initPersistedSettings` builds,
      whose non-enumerable accessors read and write the stored item, or a
      plain object, given by its keys holding a defined value. */
  datatype SettingsObject = Accessors | DataObject(keys: set<string>)

  /** Whether `xray.settings[name]` holds a defined value. The stored item
      is given by the setting keys it defines, or None once it has been
      removed; an accessor then reads a property of `JSON.parse(null)`. */
  function SettingDefined(s: SettingsObject, store: Option<set<string>>, name: string): Result<bool>
  {
    match s
    case DataObject(keys) => Ok(name in keys)
    case Accessors =>
      if name !in SettingKeys() then Ok(false)
      else if store.None? then Throws(TypeError)
      else Ok(name in store.value)
  }

  /** `removeSetting(name)`: a defined setting makes `xray.settings` the
      `_.omit` copy, which holds the enumerable properties but `name`. The
      accessors are not enumerable, so the copy of the accessor object is
      empty and the stored item stays as it is. */
  function RemoveSetting(s: SettingsObject, store: Option<set<string>>, name: string): Result<SettingsObject>
  {
    var d := SettingDefined(s, store, name);
    if d.Throws? then Throws(d.error)
    else if !d.value then Ok(s)
    else match s
      case Accessors => Ok(DataObject({}))
      case DataObject(keys) => Ok(DataObject(keys - {name}))
  }

  /** The two `removeSetting` calls of `stopLogging`. */
  function StopSettings(s: SettingsObject, store: Option<set<string>>): Result<SettingsObject>
  {
    var first := RemoveSetting(s, store, "loggedEvents");
    if first.Throws? then first else RemoveSetting(first.value, store, "eventSpecifiers")
  }

  /** `xray.settings[name] = value` with a defined value, for one of the
      setting keys: an accessor writes the stored item, starting from `{}`
      when there is none. */
  function WriteSetting(s: SettingsObject, store: Option<set<string>>, name: string): (SettingsObject, Option<set<string>>)
    requires name in SettingKeys()
  {
    match s
    case DataObject(keys) => (DataObject(keys + {name}), store)
    case Accessors => (s, Some((if store.Some? then store.value else {}) + {name}))
  }

  /** The settings and the stored item after a successful parse: both
      lists are written when `xray.persistSettings` is truthy. */
  function SettingsAfterParse(persist: bool, s: SettingsObject, store: Option<set<string>>): (SettingsObject, Option<set<string>>)
  {
    if !persist then (s, store)
    else
      var first := WriteSetting(s, store, "loggedEvents");
      WriteSetting(first.0, first.1, "eventSpecifiers")
  }

  /** A removal leaves the setting undefined, and it throws exactly when
      the accessors read a removed item. */
  lemma RemoveSettingUndefines(s: SettingsObject, store: Option<set<string>>, name: string)
    ensures RemoveSetting(s, store, name).Throws? <==> s.Accessors? && store.None? && name in SettingKeys()
    ensures RemoveSetting(s, store, name).Ok? ==> SettingDefined(RemoveSetting(s, store, name).value, store, name) == Ok(false)
  {
  }

  /** What `stopLogging` does to `xray.settings`: it throws exactly when
      the accessors read a removed item; it turns an accessor object with
      either list stored into an empty plain object, so `throttleTime`
      reads undefined too while the stored item keeps every key; it drops
      both lists from a plain object. Afterwards neither list is defined. */
  lemma StopSettingsOutcome(s: SettingsObject, store: Option<set<string>>)
    ensures StopSettings(s, store).Throws? <==> s.Accessors? && store.None?
    ensures s.Accessors? && store.Some? && ("loggedEvents" in store.value || "eventSpecifiers" in store.value) ==>
              StopSettings(s, store) == Ok(DataObject({})) && SettingDefined(DataObject({}), store, "throttleTime") == Ok(false)
    ensures s.Accessors? && store.Some? && "loggedEvents" !in store.value && "eventSpecifiers" !in store.value ==>
              StopSettings(s, store) == Ok(Accessors)
    ensures s.DataObject? ==> StopSettings(s, store) == Ok(DataObject(s.keys - {"loggedEvents", "eventSpecifiers"}))
    ensures StopSettings(s, store).Ok? ==>
              SettingDefined(StopSettings(s, store).value, store, "loggedEvents") == Ok(false) &&
              SettingDefined(StopSettings(s, store).value, store, "eventSpecifiers") == Ok(false)
  {
    RemoveSettingUndefines(s, store, "loggedEvents");
    var first := RemoveSetting(s, store, "loggedEvents");
    if first.Ok? {
      RemoveSettingUndefines(first.value, store, "eventSpecifiers");
      var second := RemoveSetting(first.value, store, "eventSpecifiers");
      if s.DataObject? {
        var k1 := s.keys - {"loggedEvents"};
        assert first.value == DataObject(k1);
        assert second.value == DataObject(k1 - {"eventSpecifiers"});
        assert k1 - {"eventSpecifiers"} == s.keys - {"loggedEvents", "eventSpecifiers"};
      }
      if second.Ok? {
        assert SettingDefined(second.value, store, "loggedEvents") == Ok(false);
      }
    }
  }

  /** After a successful parse with persisted settings both lists read as
      defined, and the stored item gains both keys exactly when the
      accessors are in place; without persistence nothing changes. */
  lemma ParseDefinesSettings(persist: bool, s: SettingsObject, store: Option<set<string>>)
    ensures var after := SettingsAfterParse(persist, s, store);
            persist ==> SettingDefined(after.0, after.1, "loggedEvents") == Ok(true) &&
                        SettingDefined(after.0, after.1, "eventSpecifiers") == Ok(true) &&
                        (s.Accessors? ==> after.0 == Accessors && after.1 == Some((if store.Some? then store.value else {}) + {"loggedEvents", "eventSpecifiers"})) &&
                        (s.DataObject? ==> after.1 == store && after.0.keys == s.keys + {"loggedEvents", "eventSpecifiers"})
    ensures !persist ==> SettingsAfterParse(persist, s, store) == (s, store)
  {
    var base := if store.Some? then store.value else {};
    if persist && s.Accessors? {
      assert base + {"loggedEvents"} + {"eventSpecifiers"} == base + {"loggedEvents", "eventSpecifiers"};
    }
    if persist && s.DataObject? {
      assert s.keys + {"loggedEvents"} + {"eventSpecifiers"} == s.keys + {"loggedEvents", "eventSpecifiers"};
    }
  }

  /** The logging fields of `xray`, taken together. */
  datatype LoggingState = LoggingState(
    eventSpecifiers: seq<Spec>, loggedEvents: seq<Spec>, eventObjMatchers: seq<nat>,
    parsed: bool, configured: bool, isPaused: bool, startListeners: nat,
    settings: SettingsObject, store: Option<set<string>>, persist: bool,
    triggers: seq<TriggerImpl>, timings: nat)

  /** The `xray` object of the current draft, as far as logging control
      goes. */
  class Xray {
    /** `xray.eventSpecifiers`. */
    var eventSpecifiers: seq<Spec>
    /** `xray.loggedEvents` and `xray.eventObjMatchers`. */
    var loggedEvents: seq<Spec>
    var eventObjMatchers: seq<nat>
    /** `eventSpecifiersParsed` and `configured`. */
    var parsed: bool
    var configured: bool
    /** `xray.isPaused`. */
    var isPaused: bool
    /** How many `'xray-configure'` listeners `startLogging` has left
        behind: each one starts logging once more on every `configure`. */
    var startListeners: nat
    /** `xray.settings`. */
    var settings: SettingsObject
    /** The setting keys the stored item defines, or None once
        `localStorage` holds no item. */
    var store: Option<set<string>>
    /** `persistSettingsOpt`, what `xray.persistSettings` reads. */
    var persist: bool
    /** The setting keys the item read at load time defines
        (`persistedSettings`). */
    const loaded: set<string>
    /** The four prototype `trigger` properties. */
    var triggers: seq<TriggerImpl>
    /** How many `'xray-taken'` marks have been made. */
    var timings: nat
    /** `xray.instrumentors`. */
    var instrumentors: seq<Instrumentor>
    /** `config.aliases`, the constructor lookup, the alias `match`
        functions, the regular-expression engine and
        `Backbone.View.prototype`. */
    const aliases: seq<Alias>
    const resolve: string -> Option<ClassId>
    const accepts: (nat, Obj) -> bool
    const re: RegexEngine
    const viewPrototype: Value
    const realm: Realm
    const registry: Registry

    ghost predicate Valid()
      reads this, realm, registry
    {
      realm.Valid() && registry.Valid() && |triggers| == 4 &&
      forall i :: 0 <= i < |instrumentors| ==> instrumentors[i].realm == realm
    }

    /** The logging fields, taken together. */
    function State(): LoggingState
      reads this
    {
      LoggingState(eventSpecifiers, loggedEvents, eventObjMatchers, parsed, configured, isPaused, startListeners,
                   settings, store, persist, triggers, timings)
    }

    /** The state after load, from a stored item defining the setting keys
        `loaded`: both lists restored from it (empty when it lacks them),
        settings persisted through the accessors, nothing parsed or
        configured, the original `trigger` everywhere. */
    constructor (realm: Realm, registry: Registry, aliases: seq<Alias>, resolve: string -> Option<ClassId>,
                 accepts: (nat, Obj) -> bool, re: RegexEngine, viewPrototype: Value,
                 loaded: set<string>, storedSpecs: seq<Spec>, storedLogged: seq<Spec>)
      requires realm.Valid() && registry.Valid() && loaded <= SettingKeys()
      requires "eventSpecifiers" !in loaded ==> storedSpecs == []
      requires "loggedEvents" !in loaded ==> storedLogged == []
      ensures Valid()
      ensures eventSpecifiers == storedSpecs && loggedEvents == storedLogged && eventObjMatchers == [] && instrumentors == []
      ensures !parsed && !configured && !isPaused && startListeners == 0 && timings == 0
      ensures triggers == AllOriginal() && persist && settings == Accessors && store == Some(loaded)
      ensures this.loaded == loaded && this.realm == realm && this.registry == registry && this.aliases == aliases
    {
      this.realm := realm;
      this.registry := registry;
      this.aliases := aliases;
      this.resolve := resolve;
      this.accepts := accepts;
      this.re := re;
      this.viewPrototype := viewPrototype;
      this.loaded := loaded;
      eventSpecifiers := storedSpecs;
      loggedEvents := storedLogged;
      eventObjMatchers := [];
      parsed := false;
      configured := false;
      isPaused := false;
      startListeners := 0;
      triggers := AllOriginal();
      timings := 0;
      instrumentors := [];
      persist := true;
      settings := Accessors;
      store := Some(loaded);
    }

    /** The `xray.persistSettings` setter: a truthy value rebuilds the
        accessor object and writes the settings read at load time back to
        the store; a falsy one removes the stored item and leaves
        `xray.settings` as it is. */
    method SetPersistSettings(p: bool)
      requires Valid()
      modifies this
      ensures Valid() && persist == p
      ensures p ==> settings == Accessors && store == Some(loaded)
      ensures !p ==> settings == old(settings) && store == None
      ensures eventSpecifiers == old(eventSpecifiers) && loggedEvents == old(loggedEvents)
      ensures eventObjMatchers == old(eventObjMatchers) && parsed == old(parsed) && configured == old(configured)
      ensures isPaused == old(isPaused) && triggers == old(triggers) && startListeners == old(startListeners)
      ensures timings == old(timings) && instrumentors == old(instrumentors)
    {
      if p {
        settings := Accessors;
        store := Some(loaded);
      } else {
        store := None;
      }
      persist := p;
    }

    /** `parseEventSpecifiers`: on success the lists are replaced, the
        settings are written when persisted and the flag is set; a throw
        leaves the partial lists and neither the flag nor the settings. */
    method ParseEventSpecifiers() returns (r: Result<()>)
      requires Valid()
      modifies this
      ensures Valid()
      ensures var out := ParseSpec(old(eventSpecifiers), aliases);
              (out.Parsed? ==> r.Ok? && loggedEvents == out.logged && eventObjMatchers == out.matchers && parsed &&
                               (settings, store) == SettingsAfterParse(persist, old(settings), old(store))) &&
              (out.ParseFailed? ==> r == Throws(TypeError) && loggedEvents == out.loggedLeft &&
                                    eventObjMatchers == out.matchersLeft && parsed == old(parsed) &&
                                    settings == old(settings) && store == old(store))
      ensures eventSpecifiers == old(eventSpecifiers) && triggers == old(triggers) && isPaused == old(isPaused)
      ensures configured == old(configured) && startListeners == old(startListeners) && timings == old(timings)
      ensures instrumentors == old(instrumentors) && persist == old(persist)
    {
      var out := Specifiers.ParseEventSpecifiers(eventSpecifiers, aliases);
      if out.ParseFailed? {
        loggedEvents := out.loggedLeft;
        eventObjMatchers := out.matchersLeft;
        return Throws(TypeError);
      }
      loggedEvents := out.logged;
      eventObjMatchers := out.matchers;
      if persist {
        var written := WriteSetting(settings, store, "loggedEvents");
        written := WriteSetting(written.0, written.1, "eventSpecifiers");
        settings, store := written.0, written.1;
      }
      parsed := true;
      return Ok(());
    }

    /** `focusOn(...args)`: a first argument of `null` stops logging;
        otherwise the sorted list replaces the specifiers, is validated and
        parsed, and the logged list is returned. It never starts logging. */
    method FocusOn(args: seq<Spec>) returns (r: Result<Option<seq<Spec>>>)
      requires Valid()
      modifies this
      ensures Valid()
      ensures |args| > 0 && args[0] == Null ==>
                eventSpecifiers == [] && loggedEvents == [] && !parsed && store == old(store) &&
                eventObjMatchers == old(eventObjMatchers) &&
                (r.Ok? <==> StopSettings(old(settings), old(store)).Ok?) &&
                (r.Throws? ==> r.error == TypeError && settings == old(settings) && triggers == old(triggers) &&
                               isPaused == old(isPaused)) &&
                (r.Ok? ==> r.value == None && settings == StopSettings(old(settings), old(store)).value &&
                           !isPaused && triggers == AllOriginal())
      ensures !(|args| > 0 && args[0] == Null) ==>
                eventSpecifiers == SortEventSpecifiers(FocusList(args)) &&
                triggers == old(triggers) && isPaused == old(isPaused) &&
                (r.Throws? <==> ValidateEventSpecifiers(eventSpecifiers).Throws?) &&
                (r.Throws? ==> loggedEvents == old(loggedEvents) && eventObjMatchers == old(eventObjMatchers) &&
                               parsed == old(parsed) && settings == old(settings) && store == old(store)) &&
                (r.Ok? ==> var out := ParseSpec(eventSpecifiers, aliases);
                           out.Parsed? && r.value == Some(out.logged) && loggedEvents == out.logged &&
                           eventObjMatchers == out.matchers && parsed &&
                           (settings, store) == SettingsAfterParse(persist, old(settings), old(store)))
      ensures configured == old(configured) && startListeners == old(startListeners) && instrumentors == old(instrumentors)
      ensures timings == old(timings) && persist == old(persist)
    {
      if |args| > 0 && args[0] == Null {
        var s := StopLogging();
        if s.Throws? {
          return Throws(s.error);
        }
        return Ok(None);
      }
      r := Focus(FocusList(args));
    }

    /** The part of `focusOn` after the arguments are chosen: sort,
        validate, parse. */
    method Focus(specs: seq<Spec>) returns (r: Result<Option<seq<Spec>>>)
      requires Valid()
      modifies this
      ensures Valid()
      ensures eventSpecifiers == SortEventSpecifiers(specs)
      ensures r.Throws? <==> ValidateEventSpecifiers(eventSpecifiers).Throws?
      ensures r.Throws? ==> loggedEvents == old(loggedEvents) && eventObjMatchers == old(eventObjMatchers) &&
                            parsed == old(parsed) && settings == old(settings) && store == old(store)
      ensures r.Ok? ==> var out := ParseSpec(eventSpecifiers, aliases);
                        out.Parsed? && r.value == Some(out.logged) && loggedEvents == out.logged &&
                        eventObjMatchers == out.matchers && parsed &&
                        (settings, store) == SettingsAfterParse(persist, old(settings), old(store))
      ensures triggers == old(triggers) && isPaused == old(isPaused) && configured == old(configured)
      ensures startListeners == old(startListeners) && instrumentors == old(instrumentors)
      ensures timings == old(timings) && persist == old(persist)
    {
      eventSpecifiers := SortEventSpecifiers(specs);
      var v := ValidateEventSpecifiers(eventSpecifiers);
      if v.Throws? {
        return Throws(v.error);
      }
      ValidatedSpecifiersParse(eventSpecifiers, aliases);
      var p := ParseEventSpecifiers();
      return Ok(Some(loggedEvents));
    }

    /** `_addInstrumentation`: every instrumentor is activated in turn (the
        test for a `trigger` on its namespace reads the `[name, object]`
        pair, which has none), then the four prototypes get the logging
        `trigger`. */
    method AddInstrumentation()
      requires Valid()
      modifies this, realm
      ensures Valid()
      ensures realm.world == ActivateAll(old(realm.world), PlansOf(instrumentors))
      ensures triggers == AllLogging()
      ensures instrumentors == old(instrumentors) && isPaused == old(isPaused)
      ensures settings == old(settings) && store == old(store) && persist == old(persist)
      ensures eventSpecifiers == old(eventSpecifiers) && loggedEvents == old(loggedEvents) && parsed == old(parsed)
      ensures eventObjMatchers == old(eventObjMatchers) && configured == old(configured)
      ensures startListeners == old(startListeners) && timings == old(timings)
    {
      ActivateEach(instrumentors, realm);
      triggers := AllLogging();
    }

    /** `_removeInstrumentation`: only the four prototypes get the original
        `trigger` back; method wrappers stay. */
    method RemoveInstrumentation()
      requires Valid()
      modifies this
      ensures Valid() && triggers == AllOriginal()
      ensures instrumentors == old(instrumentors) && isPaused == old(isPaused)
      ensures settings == old(settings) && store == old(store) && persist == old(persist)
      ensures eventSpecifiers == old(eventSpecifiers) && loggedEvents == old(loggedEvents) && parsed == old(parsed)
      ensures eventObjMatchers == old(eventObjMatchers) && configured == old(configured)
      ensures startListeners == old(startListeners) && timings == old(timings)
    {
      triggers := AllOriginal();
    }

    /** The first half of `startLogging`: an empty list is focused on
        `'*'` first, and the lists are parsed when they have not been. */
    method EnsureParsed() returns (r: Result<()>)
      requires Valid()
      modifies this
      ensures Valid()
      ensures eventSpecifiers == (if |old(eventSpecifiers)| == 0 then SortEventSpecifiers([Str("*backbone")]) else old(eventSpecifiers))
      ensures var out := ParseSpec(eventSpecifiers, aliases);
              if |old(eventSpecifiers)| > 0 && old(parsed) then
                r.Ok? && loggedEvents == old(loggedEvents) && eventObjMatchers == old(eventObjMatchers) &&
                settings == old(settings) && store == old(store)
              else if out.Parsed? then
                r.Ok? && loggedEvents == out.logged && eventObjMatchers == out.matchers &&
                (settings, store) == SettingsAfterParse(persist, old(settings), old(store))
              else
                r == Throws(TypeError) && loggedEvents == out.loggedLeft && eventObjMatchers == out.matchersLeft &&
                !parsed && settings == old(settings) && store == old(store)
      ensures r.Ok? <==> parsed
      ensures triggers == old(triggers) && isPaused == old(isPaused) && configured == old(configured)
      ensures startListeners == old(startListeners) && instrumentors == old(instrumentors)
      ensures timings == old(timings) && persist == old(persist)
    {
      if |eventSpecifiers| == 0 {
        DefaultFocusParses(aliases);
        var f := FocusOn([Str("*")]);
      }
      r := Ok(());
      if !parsed {
        r := ParseEventSpecifiers();
      }
    }

    /** `startLogging`: falls back on `focusOn('*')` when there are no
        specifiers, unpauses, parses if needed, wraps the formatters once,
        then installs the instrumentation now or, before `configure`, on
        the next `'xray-configure'`. Only the parse can throw. */
    method StartLogging() returns (r: Result<()>)
      requires Valid()
      modifies this, realm, registry
      ensures Valid() && !isPaused
      ensures eventSpecifiers == (if |old(eventSpecifiers)| == 0 then SortEventSpecifiers([Str("*backbone")]) else old(eventSpecifiers))
      ensures var out := ParseSpec(eventSpecifiers, aliases);
              if |old(eventSpecifiers)| > 0 && old(parsed) then
                r.Ok? && loggedEvents == old(loggedEvents) && eventObjMatchers == old(eventObjMatchers) &&
                settings == old(settings) && store == old(store)
              else if out.Parsed? then
                r.Ok? && loggedEvents == out.logged && eventObjMatchers == out.matchers && parsed &&
                (settings, store) == SettingsAfterParse(persist, old(settings), old(store))
              else
                r == Throws(TypeError) && loggedEvents == out.loggedLeft && eventObjMatchers == out.matchersLeft &&
                !parsed && settings == old(settings) && store == old(store) && triggers == old(triggers) &&
                startListeners == old(startListeners) && realm.world == old(realm.world) &&
                registry.wrapped == old(registry.wrapped) && registry.formatters == old(registry.formatters) &&
                registry.fieldNames == old(registry.fieldNames)
      ensures r.Ok? ==>
                parsed && registry.wrapped &&
                (old(registry.wrapped) ==> registry.formatters == old(registry.formatters) &&
                                           registry.fieldNames == old(registry.fieldNames)) &&
                (!old(registry.wrapped) ==> registry.fieldNames == AddFieldNames(old(registry.fieldNames), old(registry.formatters)) &&
                                            registry.formatters == WrapAll(old(registry.formatters), registry.fieldNames))
      ensures r.Ok? && old(configured) ==>
                triggers == AllLogging() && startListeners == old(startListeners) &&
                realm.world == ActivateAll(old(realm.world), PlansOf(instrumentors))
      ensures r.Ok? && !old(configured) ==>
                triggers == old(triggers) && startListeners == old(startListeners) + 1 && realm.world == old(realm.world)
      ensures configured == old(configured) && instrumentors == old(instrumentors) && timings == old(timings)
      ensures persist == old(persist) && registry.snapshot == old(registry.snapshot)
    {
      var p := EnsureParsed();
      isPaused := false;
      if p.Throws? {
        return Throws(p.error);
      }
      registry.WrapConfigured();
      if !configured {
        startListeners := startListeners + 1;
      } else {
        AddInstrumentation();
      }
      return Ok(());
    }

    /** `stopLogging`: clears both lists and the parsed flag, then removes
        both settings. Once the stored item is gone the accessors throw on
        the first removal: logging is then neither unpaused nor
        uninstalled, and the alias matchers stay. The stored item itself is
        never touched. */
    method StopLogging() returns (r: Result<()>)
      requires Valid()
      modifies this
      ensures Valid()
      ensures loggedEvents == [] && eventSpecifiers == [] && !parsed && eventObjMatchers == old(eventObjMatchers)
      ensures store == old(store) && persist == old(persist)
      ensures StopSettings(old(settings), old(store)).Throws? ==>
                r == Throws(TypeError) && settings == old(settings) && triggers == old(triggers) && isPaused == old(isPaused)
      ensures StopSettings(old(settings), old(store)).Ok? ==>
                r.Ok? && settings == StopSettings(old(settings), old(store)).value && !isPaused && triggers == AllOriginal()
      ensures configured == old(configured) && startListeners == old(startListeners) && timings == old(timings)
      ensures instrumentors == old(instrumentors)
    {
      loggedEvents := [];
      eventSpecifiers := [];
      parsed := false;
      var removed := StopSettings(settings, store);
      if removed.Throws? {
        return Throws(TypeError);
      }
      settings := removed.value;
      isPaused := false;
      RemoveInstrumentation();
      return Ok(());
    }

    /** `pauseLogging`. */
    method PauseLogging()
      requires Valid()
      modifies this
      ensures Valid() && isPaused
      ensures triggers == old(triggers) && loggedEvents == old(loggedEvents) && eventSpecifiers == old(eventSpecifiers)
      ensures eventObjMatchers == old(eventObjMatchers) && parsed == old(parsed)
      ensures settings == old(settings) && store == old(store) && persist == old(persist)
      ensures configured == old(configured) && startListeners == old(startListeners) && timings == old(timings)
      ensures instrumentors == old(instrumentors)
    {
      isPaused := true;
    }

    /** `instrument(...)`: an instrumentor for each `[name, object]` pair,
        added after the ones there are (`_.union` of distinct new objects,
        so `_.uniq` and `_.compact` drop nothing). Building them tags and
        walks each namespace in turn; nothing else changes. */
    method Instrument(namespaces: seq<(string, Ref)>) returns (added: seq<Instrumentor>)
      requires Valid() && forall k :: 0 <= k < |namespaces| ==> namespaces[k].1 in realm.world.heap
      modifies this, realm
      ensures Valid() && instrumentors == old(instrumentors) + added && |added| == |namespaces|
      ensures var nw := NamespacesWalk(old(realm.world.heap), namespaces);
              realm.world == World(nw.0, old(realm.world.next)) &&
              forall k :: 0 <= k < |namespaces| ==>
                fresh(added[k]) && added[k].name == namespaces[k].0 && added[k].root == namespaces[k].1 &&
                added[k].descendants == nw.1[k]
      ensures State() == old(State())
    {
      added := NewInstrumentors(realm, namespaces);
      instrumentors := instrumentors + added;
    }

    /** The `'xray-configure'` listeners `startLogging` left behind, run
        in turn: each one runs `_addInstrumentation` once more. The first
        sets every prototype's `trigger` to the logging one and the others
        set it again, so that assignment is made once, after the loop. */
    method RunStartListeners()
      requires Valid()
      modifies this, realm
      ensures Valid()
      ensures realm.world == ActivateRounds(old(realm.world), PlansOf(instrumentors), startListeners)
      ensures triggers == (if startListeners > 0 then AllLogging() else old(triggers))
      ensures instrumentors == old(instrumentors) && startListeners == old(startListeners)
      ensures configured == old(configured) && parsed == old(parsed)
      ensures eventSpecifiers == old(eventSpecifiers) && loggedEvents == old(loggedEvents)
      ensures eventObjMatchers == old(eventObjMatchers) && isPaused == old(isPaused) && timings == old(timings)
      ensures settings == old(settings) && store == old(store) && persist == old(persist)
    {
      ghost var plans := PlansOf(instrumentors);
      ghost var w0 := realm.world;
      var n := 0;
      while n < startListeners
        invariant n <= startListeners && realm.Valid()
        invariant ActivateRounds(w0, plans, startListeners) == ActivateRounds(realm.world, plans, startListeners - n)
        modifies realm
      {
        ghost var w := realm.world;
        ActivateEach(instrumentors, realm);
        RoundsAdvance(w0, w, realm.world, plans, startListeners, n);
        n := n + 1;
      }
      if startListeners > 0 {
        triggers := AllLogging();
      }
    }

    /** The end of `configure`: parse if needed, mark configured, and let
        every start listener left behind start logging once more. A throw
        of the parse leaves `configure` before any of that. */
    method FinishConfigure() returns (r: Result<()>)
      requires Valid()
      modifies this, realm
      ensures Valid()
      ensures var out := ParseSpec(old(eventSpecifiers), aliases);
              if old(parsed) then
                r.Ok? && loggedEvents == old(loggedEvents) && eventObjMatchers == old(eventObjMatchers) &&
                settings == old(settings) && store == old(store)
              else if out.Parsed? then
                r.Ok? && loggedEvents == out.logged && eventObjMatchers == out.matchers &&
                (settings, store) == SettingsAfterParse(persist, old(settings), old(store))
              else
                r == Throws(TypeError) && loggedEvents == out.loggedLeft && eventObjMatchers == out.matchersLeft &&
                !parsed && configured == old(configured) && settings == old(settings) && store == old(store) &&
                triggers == old(triggers) && realm.world == old(realm.world)
      ensures r.Ok? ==>
                configured && parsed &&
                realm.world == ActivateRounds(old(realm.world), PlansOf(instrumentors), startListeners) &&
                triggers == (if startListeners > 0 then AllLogging() else old(triggers))
      ensures startListeners == old(startListeners) && instrumentors == old(instrumentors)
      ensures eventSpecifiers == old(eventSpecifiers) && isPaused == old(isPaused) && timings == old(timings)
      ensures persist == old(persist)
    {
      if !parsed {
        var p := ParseEventSpecifiers();
        if p.Throws? {
          return Throws(p.error);
        }
      }
      configured := true;
      RunStartListeners();
      return Ok(());
    }

    /** A `trigger` call on an instance of one of the four prototypes:
        the original `trigger`, or the logging one with the scope check
        on the instance and the event name. */
    method Trigger(slot: nat, obj: Obj, name: string, origOutcome: Result<Value>)
      returns (effects: seq<Effect>, outcome: Result<Value>)
      requires Valid() && slot < 4
      modifies this
      ensures Valid()
      ensures triggers[slot] == OrigTrigger ==>
                effects == [CallOriginal(VUndefined, VRef(obj.ref))] && outcome == origOutcome && timings == old(timings)
      ensures triggers[slot] == LoggingTrigger ==>
                var c := CallTriggerWithLogging(name, IsLoggingEventsFor(obj, name, loggedEvents, eventObjMatchers, resolve, accepts, re),
                                                isPaused, old(timings), VRef(obj.ref), origOutcome);
                effects == c.effects && outcome == c.outcome && timings == c.timings
      ensures State() == old(State()).(timings := timings) && instrumentors == old(instrumentors)
    {
      if triggers[slot] == OrigTrigger {
        return [CallOriginal(VUndefined, VRef(obj.ref))], origOutcome;
      }
      var inScope := IsLoggingEventsFor(obj, name, loggedEvents, eventObjMatchers, resolve, accepts, re);
      var c := CallTriggerWithLogging(name, inScope, isPaused, timings, VRef(obj.ref), origOutcome);
      timings := c.timings;
      return c.effects, c.outcome;
    }

    /** A call of the method wrapper `f` on the instance `obj`: the scope
        check uses the wrapper's id as the event name. */
    method CallMethod(f: Ref, obj: Obj, originalOutcome: Result<Value>)
      returns (effects: seq<Effect>, outcome: Result<Value>)
      requires Valid() && f in realm.world.heap && realm.world.heap[f].kind.Function?
      requires realm.world.heap[f].kind.code.MethodWrapper?
      modifies realm
      ensures Valid()
      ensures var code := old(realm.world.heap)[f].kind.code;
              var c := CallMethodWrapper(old(realm.world.heap), code, VRef(obj.ref),
                                         IsLoggingEventsFor(obj, code.id, loggedEvents, eventObjMatchers, resolve, accepts, re),
                                         isPaused, viewPrototype, originalOutcome);
              realm.world.heap == c.heap && effects == c.effects && outcome == c.outcome
    {
      var code := realm.world.heap[f].kind.code;
      var inScope := IsLoggingEventsFor(obj, code.id, loggedEvents, eventObjMatchers, resolve, accepts, re);
      effects, outcome := realm.CallWrapper(f, VRef(obj.ref), inScope, isPaused, viewPrototype, originalOutcome);
    }
  }

  /** Pausing silences the logging `trigger`: no log entry is scheduled
      and no timing mark is made, while Backbone's `trigger` still runs. */
  lemma PausedTriggerLogsNothing(name: string, inScope: Result<bool>, timings: nat, receiver: Value, origOutcome: Result<Value>)
    requires inScope.Ok?
    ensures var c := CallTriggerWithLogging(name, inScope, true, timings, receiver, origOutcome);
            c.effects == [CallOriginal(VUndefined, receiver)] && c.timings == timings
  {
  }
}
