/** The logging control of the earlier draft (backbone.xray.js):
    `logEvents`, `startLoggingEvents`, `stopLoggingEvents`,
    `pauseLoggingEvents`, the parsing step, the symmetric
    `addInstrumentation`/`removeInstrumentation` pair and the
    `triggerWithLogging` wrapper, which has no pause check. The Backbone
    event bus the draft routes start and stop through is modelled as the
    direct calls it makes. */
module EarlierActivation {
  import opened Wrappers
  import opened Objects
  import opened Specifiers
  import opened Scope
  import opened JsHeap
  import opened Instrumentation
  import opened Activation

  /** `n` objects whose `trigger` is `t`. */
  function Every(n: nat, t: TriggerImpl): (ts: seq<TriggerImpl>)
    ensures |ts| == n && forall i :: 0 <= i < n ==> ts[i] == t
  {
    if n == 0 then [] else [t] + Every(n - 1, t)
  }

  /** The `xray` object of the earlier draft, as far as logging control
      goes. */
  class XrayEarlier {
    var eventSpecifiers: seq<Spec>
    var loggedEvents: seq<Spec>
    var eventObjMatchers: seq<nat>
    /** `eventSpecifiersParsed`. */
    var parsed: bool
    /** The keys of `xray.settings` holding a defined value, or None while
        `xray.settings` is `undefined` (settings are not persisted). */
    var settings: Option<set<string>>
    /** The truthiness of `config.instrumented`; its default `[]` is
        truthy. */
    var configInstrumented: bool
    /** The `trigger` of each object in `xray.instrumented`. */
    var instrumented: seq<TriggerImpl>
    /** The four prototype `trigger` properties. */
    var triggers: seq<TriggerImpl>
    var timings: nat
    const aliases: seq<Alias>
    const resolve: string -> Option<ClassId>
    const accepts: (nat, Obj) -> bool
    const re: RegexEngine

    predicate Valid()
      reads this
    {
      |triggers| == 4
    }

    /** The state at load time with nothing persisted. The draft never
        assigns `xray.instrumented`, so `_.each` sees `undefined` and an
        empty list (`instrumentedCount == 0`); other counts state the
        install/remove symmetry for any list. */
    constructor (aliases: seq<Alias>, resolve: string -> Option<ClassId>, accepts: (nat, Obj) -> bool,
                 re: RegexEngine, settings: Option<set<string>>, instrumentedCount: nat)
      ensures Valid()
      ensures eventSpecifiers == [] && loggedEvents == [] && eventObjMatchers == [] && !parsed
      ensures configInstrumented && instrumented == Every(instrumentedCount, OrigTrigger)
      ensures triggers == AllOriginal() && timings == 0 && this.settings == settings
      ensures this.aliases == aliases && this.resolve == resolve && this.accepts == accepts && this.re == re
    {
      this.aliases := aliases;
      this.resolve := resolve;
      this.accepts := accepts;
      this.re := re;
      this.settings := settings;
      eventSpecifiers := [];
      loggedEvents := [];
      eventObjMatchers := [];
      parsed := false;
      configInstrumented := true;
      instrumented := Every(instrumentedCount, OrigTrigger);
      triggers := AllOriginal();
      timings := 0;
    }

    /** `addInstrumentation`: the logging `trigger` on the listed objects
        (while `config.instrumented` is truthy) and on the four
        prototypes. */
    method AddInstrumentation()
      requires Valid()
      modifies this
      ensures Valid() && triggers == AllLogging()
      ensures instrumented == if configInstrumented then Every(|old(instrumented)|, LoggingTrigger) else old(instrumented)
      ensures eventSpecifiers == old(eventSpecifiers) && loggedEvents == old(loggedEvents)
      ensures eventObjMatchers == old(eventObjMatchers) && parsed == old(parsed) && settings == old(settings)
      ensures configInstrumented == old(configInstrumented) && timings == old(timings)
    {
      if configInstrumented {
        instrumented := Every(|instrumented|, LoggingTrigger);
      }
      triggers := AllLogging();
    }

    /** `removeInstrumentation`: the original `trigger` back on exactly
        the objects `addInstrumentation` patches, under the same test. */
    method RemoveInstrumentation()
      requires Valid()
      modifies this
      ensures Valid() && triggers == AllOriginal()
      ensures instrumented == if configInstrumented then Every(|old(instrumented)|, OrigTrigger) else old(instrumented)
      ensures eventSpecifiers == old(eventSpecifiers) && loggedEvents == old(loggedEvents)
      ensures eventObjMatchers == old(eventObjMatchers) && parsed == old(parsed) && settings == old(settings)
      ensures configInstrumented == old(configInstrumented) && timings == old(timings)
    {
      if configInstrumented {
        instrumented := Every(|instrumented|, OrigTrigger);
      }
      triggers := AllOriginal();
    }

    /** `parseEventSpecifiers`, with the same classification as the
        current draft; the settings get both keys when persisted. */
    method ParseEventSpecifiers() returns (r: Result<()>)
      requires Valid()
      modifies this
      ensures Valid()
      ensures var out := ParseSpec(old(eventSpecifiers), aliases);
              (out.Parsed? ==> r.Ok? && loggedEvents == out.logged && eventObjMatchers == out.matchers && parsed &&
                               settings == (if old(settings).Some? then Some(old(settings).value + {"loggedEvents", "eventSpecifiers"}) else None)) &&
              (out.ParseFailed? ==> r == Throws(TypeError) && loggedEvents == out.loggedLeft &&
                                    eventObjMatchers == out.matchersLeft && parsed == old(parsed) && settings == old(settings))
      ensures eventSpecifiers == old(eventSpecifiers) && triggers == old(triggers) && instrumented == old(instrumented)
      ensures configInstrumented == old(configInstrumented) && timings == old(timings)
    {
      var out := Specifiers.ParseEventSpecifiers(eventSpecifiers, aliases);
      if out.ParseFailed? {
        loggedEvents := out.loggedLeft;
        eventObjMatchers := out.matchersLeft;
        return Throws(TypeError);
      }
      loggedEvents := out.logged;
      eventObjMatchers := out.matchers;
      if settings.Some? {
        settings := Some(settings.value + {"loggedEvents", "eventSpecifiers"});
      }
      parsed := true;
      return Ok(());
    }

    /** `startLoggingEvents`: an `Error` without specifiers; otherwise
        parse if needed and install. */
    method StartLoggingEvents() returns (r: Result<()>)
      requires Valid()
      modifies this
      ensures Valid()
      ensures |old(eventSpecifiers)| == 0 <==> r == Throws(UserError)
      ensures |old(eventSpecifiers)| == 0 ==> unchanged(this)
      ensures |old(eventSpecifiers)| > 0 && old(parsed) ==>
                r.Ok? && loggedEvents == old(loggedEvents) && eventObjMatchers == old(eventObjMatchers) &&
                settings == old(settings)
      ensures |old(eventSpecifiers)| > 0 && !old(parsed) ==>
                var out := ParseSpec(old(eventSpecifiers), aliases);
                (out.Parsed? ==> r.Ok? && loggedEvents == out.logged && eventObjMatchers == out.matchers &&
                                 settings == (if old(settings).Some? then Some(old(settings).value + {"loggedEvents", "eventSpecifiers"}) else None)) &&
                (out.ParseFailed? ==> r == Throws(TypeError) && loggedEvents == out.loggedLeft &&
                                      eventObjMatchers == out.matchersLeft && !parsed && settings == old(settings) &&
                                      triggers == old(triggers) && instrumented == old(instrumented))
      ensures r.Ok? ==>
                parsed && triggers == AllLogging() &&
                instrumented == if configInstrumented then Every(|old(instrumented)|, LoggingTrigger) else old(instrumented)
      ensures eventSpecifiers == old(eventSpecifiers) && configInstrumented == old(configInstrumented)
      ensures timings == old(timings)
    {
      if |eventSpecifiers| == 0 {
        return Throws(UserError);
      }
      if !parsed {
        var p := ParseEventSpecifiers();
        if p.Throws? {
          return Throws(p.error);
        }
      }
      AddInstrumentation();
      return Ok(());
    }

    /** `stopLoggingEvents`: uninstall, empty `loggedEvents`, then remove
        its setting, which throws while `xray.settings` is `undefined`.
        The specifiers, the parsed flag and the alias matchers stay. */
    method StopLoggingEvents() returns (r: Result<()>)
      requires Valid()
      modifies this
      ensures Valid() && triggers == AllOriginal() && loggedEvents == []
      ensures instrumented == if configInstrumented then Every(|old(instrumented)|, OrigTrigger) else old(instrumented)
      ensures eventSpecifiers == old(eventSpecifiers) && parsed == old(parsed) && eventObjMatchers == old(eventObjMatchers)
      ensures old(settings).None? <==> r == Throws(TypeError)
      ensures settings == if old(settings).Some? then Some(old(settings).value - {"loggedEvents"}) else None
      ensures configInstrumented == old(configInstrumented) && timings == old(timings)
    {
      RemoveInstrumentation();
      loggedEvents := [];
      if settings.None? {
        return Throws(TypeError);
      }
      settings := Some(settings.value - {"loggedEvents"});
      return Ok(());
    }

    /** `pauseLoggingEvents`: the `'xray-logging-pause'` event has no
        listener in this draft, so nothing changes. */
    method PauseLoggingEvents()
      requires Valid()
      modifies this
      ensures unchanged(this)
    {
    }

    /** `logEvents(...args)`: an undefined first argument stops logging;
        otherwise sort, validate, parse and start, and return the logged
        list. */
    method LogEvents(args: seq<Spec>) returns (r: Result<Option<seq<Spec>>>)
      requires Valid()
      modifies this
      ensures Valid()
      ensures (|args| == 0 || args[0] == Undefined) ==>
                loggedEvents == [] && triggers == AllOriginal() && eventSpecifiers == old(eventSpecifiers) &&
                parsed == old(parsed) && eventObjMatchers == old(eventObjMatchers) &&
                instrumented == (if configInstrumented then Every(|old(instrumented)|, OrigTrigger) else old(instrumented)) &&
                (old(settings).None? <==> r == Throws(TypeError)) &&
                settings == (if old(settings).Some? then Some(old(settings).value - {"loggedEvents"}) else None) &&
                (r.Ok? ==> r.value == None)
      ensures !(|args| == 0 || args[0] == Undefined) ==>
                eventSpecifiers == SortEventSpecifiers(args) &&
                (r.Throws? <==> ValidateEventSpecifiers(eventSpecifiers).Throws?) &&
                (r.Throws? ==> r.error == UserError && triggers == old(triggers) && instrumented == old(instrumented) &&
                               loggedEvents == old(loggedEvents) && eventObjMatchers == old(eventObjMatchers) &&
                               parsed == old(parsed) && settings == old(settings)) &&
                (r.Ok? ==> r.value == Some(loggedEvents) && parsed && triggers == AllLogging() &&
                           ParseSpec(eventSpecifiers, aliases).Parsed? &&
                           loggedEvents == ParseSpec(eventSpecifiers, aliases).logged &&
                           eventObjMatchers == ParseSpec(eventSpecifiers, aliases).matchers &&
                           instrumented == (if configInstrumented then Every(|old(instrumented)|, LoggingTrigger) else old(instrumented)) &&
                           settings == (if old(settings).Some? then Some(old(settings).value + {"loggedEvents", "eventSpecifiers"}) else None))
      ensures configInstrumented == old(configInstrumented) && timings == old(timings)
    {
      if |args| == 0 || args[0] == Undefined {
        var s := StopLoggingEvents();
        if s.Throws? {
          return Throws(s.error);
        }
        return Ok(None);
      }
      eventSpecifiers := SortEventSpecifiers(args);
      var v := ValidateEventSpecifiers(eventSpecifiers);
      if v.Throws? {
        return Throws(v.error);
      }
      ValidatedSpecifiersParse(eventSpecifiers, aliases);
      var p := ParseEventSpecifiers();
      var s := StartLoggingEvents();
      return Ok(Some(loggedEvents));
    }

    /** `triggerWithLogging` as installed on the prototype or listed
        object `slot` (the prototypes first): the same wrapper as the
        current draft's, with pausing impossible. */
    method Trigger(slot: nat, obj: Obj, name: string, origOutcome: Result<Value>)
      returns (effects: seq<Effect>, outcome: Result<Value>)
      requires Valid() && slot < |triggers| + |instrumented|
      modifies this
      ensures Valid()
      ensures triggers == old(triggers) && instrumented == old(instrumented)
      ensures (if slot < 4 then triggers[slot] else instrumented[slot - 4]) == OrigTrigger ==>
                effects == [CallOriginal(VUndefined, VRef(obj.ref))] && outcome == origOutcome && timings == old(timings)
      ensures (if slot < 4 then triggers[slot] else instrumented[slot - 4]) == LoggingTrigger ==>
                var c := CallTriggerWithLogging(name, IsLoggingEventsFor(obj, name, loggedEvents, eventObjMatchers, resolve, accepts, re),
                                                false, old(timings), VRef(obj.ref), origOutcome);
                effects == c.effects && outcome == c.outcome && timings == c.timings
      ensures loggedEvents == old(loggedEvents) && eventObjMatchers == old(eventObjMatchers)
      ensures parsed == old(parsed) && eventSpecifiers == old(eventSpecifiers)
      ensures settings == old(settings) && configInstrumented == old(configInstrumented)
    {
      var impl := if slot < 4 then triggers[slot] else instrumented[slot - 4];
      if impl == OrigTrigger {
        return [CallOriginal(VUndefined, VRef(obj.ref))], origOutcome;
      }
      var inScope := IsLoggingEventsFor(obj, name, loggedEvents, eventObjMatchers, resolve, accepts, re);
      var c := CallTriggerWithLogging(name, inScope, false, timings, VRef(obj.ref), origOutcome);
      timings := c.timings;
      return c.effects, c.outcome;
    }
  }

  /** A stop followed by a start without a new `logEvents`: the start
      does not re-parse, so `loggedEvents` stays empty while the alias
      matchers stay, and from then on an event is logged exactly when an
      alias matcher accepts its object, whatever its name. */
  method StopThenStart(x: XrayEarlier) returns (stopped: Result<()>, started: Result<()>)
    requires x.Valid() && |x.eventSpecifiers| > 0 && x.parsed
    modifies x
    ensures started.Ok? && x.triggers == AllLogging() && x.loggedEvents == []
    ensures x.eventObjMatchers == old(x.eventObjMatchers)
    ensures forall obj: Obj, name: string ::
              IsLoggingEventsFor(obj, name, x.loggedEvents, x.eventObjMatchers, x.resolve, x.accepts, x.re)
              == Ok(exists k :: 0 <= k < |x.eventObjMatchers| && x.accepts(x.eventObjMatchers[k], obj))
  {
    stopped := x.StopLoggingEvents();
    started := x.StartLoggingEvents();
    forall obj: Obj, name: string
      ensures IsLoggingEventsFor(obj, name, x.loggedEvents, x.eventObjMatchers, x.resolve, x.accepts, x.re)
              == Ok(exists k :: 0 <= k < |x.eventObjMatchers| && x.accepts(x.eventObjMatchers[k], obj))
    {
      ClearedListKeepsAliasScope(obj, name, x.eventObjMatchers, x.resolve, x.accepts, x.re);
    }
  }
}
