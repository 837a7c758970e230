/** The scope checks run on every `trigger` (`isEventNameLogged`,
    `isObjLogged`, `isObjLoggedInstance`/`isObjLoggedConstructor`,
    `doesObjMatchAlias`, `isLoggingEventsFor`), read against the
    `loggedEvents` and `eventObjMatchers` lists the specifier compiler
    produced. The regular-expression engine and the alias `match`
    functions are not modelled: they are given as parameters. */
module Scope {
  import opened Wrappers
  import opened Objects
  import opened Specifiers

  /** The regular-expression engine: whether `RegExp(source)` compiles, and
      what `RegExp(source).test(name)` answers. */
  datatype RegexEngine = RegexEngine(compiles: string -> bool, test: (string, string) -> bool)

  /** The sources `_patternStrToRegExp` builds from the `/`-prefixed
      entries, in order. */
  function PatternSources(logged: seq<Spec>): (ps: seq<string>)
    ensures forall j :: 0 <= j < |logged| && IsPatternSpecifier(logged[j]) ==> PatternSource(logged[j].s) in ps
  {
    if logged == [] then []
    else
      var n := |logged| - 1;
      var init := PatternSources(logged[..n]);
      assert forall j :: 0 <= j < n ==> logged[..n][j] == logged[j];
      if IsPatternSpecifier(logged[n]) then init + [PatternSource(logged[n].s)] else init
  }

  /** `src` is the source of some `/`-entry of `logged`. */
  ghost predicate SourceOfEntry(logged: seq<Spec>, src: string)
  {
    exists j :: 0 <= j < |logged| && IsPatternSpecifier(logged[j]) && src == PatternSource(logged[j].s)
  }

  /** Every source comes from a `/`-entry. */
  lemma PatternSourcesSound(logged: seq<Spec>)
    ensures forall k :: 0 <= k < |PatternSources(logged)| ==> SourceOfEntry(logged, PatternSources(logged)[k])
  {
    forall k | 0 <= k < |PatternSources(logged)|
      ensures SourceOfEntry(logged, PatternSources(logged)[k])
    {
      var j := SourceEntry(logged, k);
      assert 0 <= j < |logged| && IsPatternSpecifier(logged[j]) && PatternSources(logged)[k] == PatternSource(logged[j].s);
    }
  }

  /** The `/`-entry source `k` comes from. */
  lemma {:induction false} SourceEntry(logged: seq<Spec>, k: nat) returns (j: nat)
    requires k < |PatternSources(logged)|
    ensures j < |logged| && IsPatternSpecifier(logged[j]) && PatternSources(logged)[k] == PatternSource(logged[j].s)
    decreases |logged|
  {
    var n := |logged| - 1;
    PatternSourcesLast(logged, n);
    var init := PatternSources(logged[..n]);
    if k < |init| {
      j := SourceEntry(logged[..n], k);
      assert logged[..n][j] == logged[j];
    } else {
      j := n;
    }
  }

  /** `PatternSources` unfolded at the last entry. */
  lemma PatternSourcesLast(logged: seq<Spec>, n: nat)
    requires n + 1 == |logged|
    ensures PatternSources(logged)
            == if IsPatternSpecifier(logged[n]) then PatternSources(logged[..n]) + [PatternSource(logged[n].s)]
               else PatternSources(logged[..n])
  {
  }

  /** There are no sources exactly when there is no `/`-entry. */
  lemma PatternSourcesEmpty(logged: seq<Spec>)
    ensures PatternSources(logged) == [] <==> forall j :: 0 <= j < |logged| ==> !IsPatternSpecifier(logged[j])
  {
    var ps := PatternSources(logged);
    PatternSourcesSound(logged);
    if ps != [] {
      assert ps[0] in ps;
    }
  }

  /** Every source compiles. */
  function AllCompile(ps: seq<string>, re: RegexEngine): (b: bool)
    ensures b <==> forall k :: 0 <= k < |ps| ==> re.compiles(ps[k])
  {
    if ps == [] then true else re.compiles(ps[0]) && AllCompile(ps[1..], re)
  }

  /** Some source's expression accepts `name`. */
  function AnyAccepts(ps: seq<string>, name: string, re: RegexEngine): (b: bool)
    ensures b <==> exists k :: 0 <= k < |ps| && re.test(ps[k], name)
  {
    if ps == [] then false
    else if re.test(ps[0], name) then true
    else
      assert forall k :: 1 <= k < |ps| ==> ps[k] == ps[1..][k - 1];
      AnyAccepts(ps[1..], name, re)
  }

  /** `isEventNameLogged(name)`: every pattern is compiled first (a pattern
      that does not compile throws a `SyntaxError`); then the answer is true
      when there are no patterns at all and otherwise when one accepts. */
  function IsEventNameLogged(logged: seq<Spec>, name: string, re: RegexEngine): (r: Result<bool>)
    ensures r.Throws? <==> exists j :: 0 <= j < |logged| && IsPatternSpecifier(logged[j]) && !re.compiles(PatternSource(logged[j].s))
    ensures r.Throws? ==> r.error == SyntaxError
    ensures r == Ok(true) <==>
              (forall j :: 0 <= j < |logged| && IsPatternSpecifier(logged[j]) ==> re.compiles(PatternSource(logged[j].s)))
              && ((forall j :: 0 <= j < |logged| ==> !IsPatternSpecifier(logged[j]))
                  || exists j :: 0 <= j < |logged| && IsPatternSpecifier(logged[j]) && re.test(PatternSource(logged[j].s), name))
  {
    var ps := PatternSources(logged);
    PatternSourcesSound(logged);
    PatternSourcesEmpty(logged);
    if !AllCompile(ps, re) then Throws(SyntaxError)
    else Ok(ps == [] || AnyAccepts(ps, name, re))
  }

  /** `isObjLoggedInstance`: some capitalised entry names, through
      `resolve`, a constructor that `obj` is an instance of; a name that
      does not resolve never matches. */
  function IsObjLoggedInstance(obj: Obj, logged: seq<Spec>, resolve: string -> Option<ClassId>): (b: bool)
    ensures b <==> exists j :: (0 <= j < |logged| && IsConstructorName(logged[j])
                               && resolve(logged[j].s).Some? && InstanceOf(obj, resolve(logged[j].s).value))
  {
    if logged == [] then false
    else
      var n := |logged| - 1;
      var init := IsObjLoggedInstance(obj, logged[..n], resolve);
      assert forall j :: 0 <= j < n ==> logged[..n][j] == logged[j];
      init || (IsConstructorName(logged[n]) && resolve(logged[n].s).Some? && InstanceOf(obj, resolve(logged[n].s).value))
  }

  /** `doesObjMatchAlias`: some alias `match` function accepts `obj`. */
  function DoesObjMatchAlias(obj: Obj, matchers: seq<nat>, accepts: (nat, Obj) -> bool): (b: bool)
    ensures b <==> exists k :: 0 <= k < |matchers| && accepts(matchers[k], obj)
  {
    if matchers == [] then false
    else if accepts(matchers[0], obj) then true
    else
      assert forall k :: 1 <= k < |matchers| ==> matchers[k] == matchers[1..][k - 1];
      DoesObjMatchAlias(obj, matchers[1..], accepts)
  }

  /** `isObjLogged`. */
  function IsObjLogged(obj: Obj, logged: seq<Spec>, matchers: seq<nat>,
                       resolve: string -> Option<ClassId>, accepts: (nat, Obj) -> bool): (b: bool)
    ensures b <==> IsObjLoggedInstance(obj, logged, resolve) || DoesObjMatchAlias(obj, matchers, accepts)
  {
    IsObjLoggedInstance(obj, logged, resolve) || DoesObjMatchAlias(obj, matchers, accepts)
  }

  /** The current draft looks names up in `config.constructors`. */
  function ConfigResolver(table: CtorTable): string -> Option<ClassId>
  {
    n => LookupCtor(table, n)
  }

  /** `isLoggingEventsFor(obj, name)`: the object check, then (only if it
      passes) the name check, which is the only part that can throw. */
  function IsLoggingEventsFor(obj: Obj, name: string, logged: seq<Spec>, matchers: seq<nat>,
                              resolve: string -> Option<ClassId>, accepts: (nat, Obj) -> bool,
                              re: RegexEngine): (r: Result<bool>)
    ensures r == Ok(true) <==> IsObjLogged(obj, logged, matchers, resolve, accepts) && IsEventNameLogged(logged, name, re) == Ok(true)
    ensures r.Throws? <==> IsObjLogged(obj, logged, matchers, resolve, accepts) && IsEventNameLogged(logged, name, re).Throws?
    ensures !IsObjLogged(obj, logged, matchers, resolve, accepts) ==> r == Ok(false)
  {
    if !IsObjLogged(obj, logged, matchers, resolve, accepts) then Ok(false)
    else IsEventNameLogged(logged, name, re)
  }

  /** Patterns alone log nothing: without a capitalised entry and without
      an alias matcher no object is in scope, whatever the event name. */
  lemma PatternsAloneLogNothing(obj: Obj, name: string, logged: seq<Spec>,
                                resolve: string -> Option<ClassId>, accepts: (nat, Obj) -> bool, re: RegexEngine)
    requires forall j :: 0 <= j < |logged| ==> !IsConstructorName(logged[j])
    ensures IsLoggingEventsFor(obj, name, logged, [], resolve, accepts, re) == Ok(false)
  {
  }

  /** Without any `/`-prefixed entry every event name of an object in
      scope is logged. */
  lemma NoPatternsLogsEveryName(obj: Obj, name: string, logged: seq<Spec>, matchers: seq<nat>,
                                resolve: string -> Option<ClassId>, accepts: (nat, Obj) -> bool, re: RegexEngine)
    requires forall j :: 0 <= j < |logged| ==> !IsPatternSpecifier(logged[j])
    ensures IsLoggingEventsFor(obj, name, logged, matchers, resolve, accepts, re)
            == Ok(IsObjLogged(obj, logged, matchers, resolve, accepts))
  {
  }

  /** A constructor name that `config.constructors` does not hold never puts
      an object in scope. */
  lemma UnresolvedNameNeverMatches(obj: Obj, name: string, table: CtorTable)
    requires forall k :: 0 <= k < |table| ==> table[k].0 != name
    ensures !IsObjLoggedInstance(obj, [Str(name)], ConfigResolver(table))
  {
  }

  /** Specifying a constructor by name puts its instances in scope: after
      `parseEventSpecifiers` has kept `'Model'`, every model is an object
      the name filter is applied to. */
  lemma ParsedConstructorInScope(obj: Obj, specs: seq<Spec>, aliases: seq<Alias>, i: nat, accepts: (nat, Obj) -> bool)
    requires ParseSpec(specs, aliases).Parsed?
    requires i < |specs| && specs[i] == Str("Model") && InstanceOf(obj, 0)
    ensures IsObjLogged(obj, ParseSpec(specs, aliases).logged, ParseSpec(specs, aliases).matchers,
                        ConfigResolver(BackboneConstructors()), accepts)
  {
    ParseClassifies(specs, aliases, i);
    var logged := ParseSpec(specs, aliases).logged;
    assert IsConstructorName(specs[i]);
    var j :| 0 <= j < |logged| && logged[j] == Str("Model");
    assert LookupCtor(BackboneConstructors(), "Model") == Some(0);
    assert IsConstructorName(logged[j]);
  }
}
