/** The event-specifier compiler shared by both drafts
    (`parseEventSpecifiers` and its helpers): user tokens become the
    `loggedEvents` list (constructor names, `/pattern/` strings and whatever
    alias expansions hold) and the `eventObjMatchers` list. */
module Specifiers {
  import opened Wrappers
  import opened JsText

  /** A JavaScript value handed in as a specifier or stored in an alias's
      `expanded` list. Objects carry a reference number: `_.uniq` and
      `_.findWhere` compare them with `===`, strings by value. */
  datatype Spec =
    | Str(s: string)
    | Re(ref: nat, source: string, flags: string)  // a RegExp object
    | Fn(ref: nat, text: string)                   // a function; `text` is its `toString()`
    | Prim(text: string)                           // a number or boolean; `text` is its `toString()`
    | Null
    | Undefined

  /** An alias: `expanded` is absent when the property is missing, `match` is
      present when the property holds a function (the number names it). */
  datatype Alias = Alias(ref: nat, name: string, expanded: Option<seq<Spec>>, matcher: Option<nat>)

  /** `isConstructorName`: a string whose first character is `A`..`Z`. */
  predicate IsConstructorName(x: Spec)
  {
    x.Str? && |x.s| > 0 && IsUpperAscii(x.s[0])
  }

  /** `_isPatternSpecifier`: a string whose first character is `/`. */
  predicate IsPatternSpecifier(x: Spec)
  {
    x.Str? && |x.s| > 0 && x.s[0] == '/'
  }

  /** `_isValidEventSpecifier` for one value: a string or a RegExp. */
  predicate IsValidSpecifier(x: Spec)
  {
    x.Str? || x.Re?
  }

  /** `validateEventSpecifiers`: every specifier is valid, otherwise an
      `Error` is thrown. */
  function ValidateEventSpecifiers(specs: seq<Spec>): (r: Result<()>)
    ensures r.Ok? <==> forall i :: 0 <= i < |specs| ==> IsValidSpecifier(specs[i])
  {
    if forall i :: 0 <= i < |specs| ==> IsValidSpecifier(specs[i]) then Ok(()) else Throws(UserError)
  }

  /** `x.toString()`, which throws on `null` and `undefined`. */
  function ToStringOf(x: Spec): Option<string>
  {
    match x
    case Str(s) => Some(s)
    case Re(_, source, flags) => Some("/" + source + "/" + flags)
    case Fn(_, text) => Some(text)
    case Prim(text) => Some(text)
    case Null => None
    case Undefined => None
  }

  /** `_toRegExpString`: a value whose text starts with `/` is kept as that
      text, anything else is wrapped in slashes. */
  function ToRegExpString(x: Spec): (r: Option<string>)
    ensures r.Some? <==> !(x.Null? || x.Undefined?)
    ensures r.Some? ==> |r.value| > 0 && r.value[0] == '/'
    ensures x.Str? && !IsPatternSpecifier(x) ==> r == Some("/" + x.s + "/")
    ensures IsPatternSpecifier(x) ==> r == Some(x.s)
  {
    match ToStringOf(x)
    case None => None
    case Some(t) => if |t| > 0 && t[0] == '/' then Some(t) else Some("/" + t + "/")
  }

  /** `_patternStrToRegExp` before the RegExp is built: `slice(1, -1)`. */
  function PatternSource(p: string): (src: string)
    ensures |p| >= 2 ==> src == p[1..|p| - 1]
    ensures |p| < 2 ==> src == []
  {
    if |p| < 2 then [] else p[1..|p| - 1]
  }

  /** `_toRegExpString` is idempotent. */
  lemma ToRegExpStringIdempotent(x: Spec)
    requires ToRegExpString(x).Some?
    ensures ToRegExpString(Str(ToRegExpString(x).value)) == ToRegExpString(x)
  {
  }

  /** For a plain substring specifier, the pattern built from its regexp
      string is the substring itself: the wrapping and the unwrapping undo
      each other. */
  lemma PatternOfSubstring(s: string)
    requires !IsPatternSpecifier(Str(s))
    ensures PatternSource(ToRegExpString(Str(s)).value) == s
  {
    var p := "/" + s + "/";
    assert p[1..|p| - 1] == s;
  }

  /** A RegExp with flags loses them and gains a trailing `/` on the way to
      the pattern the name test uses: `/abc/i` becomes the pattern `abc/`. */
  lemma PatternOfFlaggedRegExp(ref: nat, source: string, flag: char)
    ensures PatternSource(ToRegExpString(Re(ref, source, [flag])).value) == source + "/"
  {
    var p := "/" + source + "/" + [flag];
    assert p[1..|p| - 1] == source + "/";
  }

  /** `_compareEventSpecifiers(a, b)`: -1 for a capitalised string or a
      function, 1 otherwise; reading `a[0].match` of the empty string throws. */
  function CompareEventSpecifiers(a: Spec, b: Spec): (r: Result<int>)
    ensures a == Str([]) <==> r.Throws?
    ensures r.Ok? ==> (r.value == -1 <==> IsConstructorName(a) || a.Fn?)
  {
    if a.Str? && |a.s| == 0 then Throws(TypeError)
    else if IsConstructorName(a) || a.Fn? then Ok(-1)
    else Ok(1)
  }

  /** What `Array.prototype.sort` with that comparator is modelled to give:
      every value the comparator ranks first (-1) before the others, each
      group in its original order. */
  function SortEventSpecifiers(specs: seq<Spec>): (sorted: seq<Spec>)
    ensures multiset(sorted) == multiset(specs)
    ensures forall i, j :: 0 <= i < j < |sorted| && !(IsConstructorName(sorted[i]) || sorted[i].Fn?)
              ==> !(IsConstructorName(sorted[j]) || sorted[j].Fn?)
  {
    var first := FilterFirst(specs, true);
    var rest := FilterFirst(specs, false);
    FilterSplit(specs);
    first + rest
  }

  /** The sort agrees with the comparator: a value that compares first
      (-1) against an earlier one is itself compared first against it, so
      no value the comparator puts first follows one it puts last. The
      values it puts first form the front of the result, and they are
      exactly the input values it puts first. */
  lemma SortFollowsComparator(specs: seq<Spec>)
    ensures var sorted := SortEventSpecifiers(specs);
            forall i, j :: 0 <= i < j < |sorted| && CompareEventSpecifiers(sorted[j], sorted[i]) == Ok(-1) ==>
              CompareEventSpecifiers(sorted[i], sorted[j]) == Ok(-1)
    ensures var sorted := SortEventSpecifiers(specs);
            var front := |FilterFirst(specs, true)|;
            front <= |sorted| &&
            (forall i, j :: 0 <= i < |sorted| && 0 <= j < |sorted| && sorted[i] != Str([]) ==>
              (CompareEventSpecifiers(sorted[i], sorted[j]) == Ok(-1) <==> i < front)) &&
            forall x :: x in sorted[..front] <==> x in specs && x != Str([]) && CompareEventSpecifiers(x, x) == Ok(-1)
  {
    var sorted := SortEventSpecifiers(specs);
    var front := FilterFirst(specs, true);
    assert sorted[..|front|] == front;
    FilterFirstMembers(specs, true);
  }

  /** The values a filter keeps are the input values in its group. */
  lemma {:induction false} FilterFirstMembers(specs: seq<Spec>, ranked: bool)
    ensures forall x :: x in FilterFirst(specs, ranked) <==> x in specs && ((IsConstructorName(x) || x.Fn?) == ranked)
  {
    if specs != [] {
      FilterFirstMembers(specs[1..], ranked);
      assert specs == [specs[0]] + specs[1..];
    }
  }

  function FilterFirst(specs: seq<Spec>, ranked: bool): (r: seq<Spec>)
    ensures forall i :: 0 <= i < |r| ==> ((IsConstructorName(r[i]) || r[i].Fn?) <==> ranked)
  {
    if specs == [] then []
    else if (IsConstructorName(specs[0]) || specs[0].Fn?) == ranked then [specs[0]] + FilterFirst(specs[1..], ranked)
    else FilterFirst(specs[1..], ranked)
  }

  lemma {:induction false} FilterSplit(specs: seq<Spec>)
    ensures multiset(FilterFirst(specs, true) + FilterFirst(specs, false)) == multiset(specs)
  {
    if specs != [] {
      FilterSplit(specs[1..]);
      assert specs == [specs[0]] + specs[1..];
    }
  }

  /** Where `_.findWhere(aliases, {name: name})` stops: the index of the
      first alias with that name, if there is one. */
  function AliasIndex(aliases: seq<Alias>, name: string): (r: Option<nat>)
    ensures r.Some? ==> r.value < |aliases| && aliases[r.value].name == name
    ensures r.Some? ==> forall j :: 0 <= j < r.value ==> aliases[j].name != name
    ensures r.None? ==> forall j :: 0 <= j < |aliases| ==> aliases[j].name != name
  {
    if aliases == [] then None
    else if aliases[0].name == name then Some(0)
    else
      match AliasIndex(aliases[1..], name)
      case None => None
      case Some(k) => Some(k + 1)
  }

  /** `_.findWhere(aliases, {name: name})`: the first alias with that name. */
  function FindAlias(aliases: seq<Alias>, name: string): Option<Alias>
  {
    match AliasIndex(aliases, name)
    case None => None
    case Some(k) => Some(aliases[k])
  }

  /** The three branches of the loop body of `parseEventSpecifiers`. */
  datatype Branch =
    | ConstructorBranch          // pushed verbatim
    | AliasBranch(found: Option<Alias>)  // `'*name'` while the alias table is not empty
    | PatternBranch              // pushed as `_toRegExpString(specifier)`

  function BranchOf(x: Spec, aliases: seq<Alias>): Branch
  {
    if IsConstructorName(x) then ConstructorBranch
    else if x.Str? && |x.s| > 0 && x.s[0] == '*' && |aliases| > 0 then AliasBranch(FindAlias(aliases, x.s[1..]))
    else PatternBranch
  }

  /** The entries `alias.expanded` adds by `concat`: a missing list adds the
      single value `undefined`. */
  function ExpandedEntries(a: Alias): seq<Spec>
  {
    match a.expanded
    case Some(es) => es
    case None => [Undefined]
  }

  /** What one specifier adds to `loggedEvents`, or `None` when
      `_toRegExpString` throws on it. */
  function Contribution(x: Spec, aliases: seq<Alias>): Option<seq<Spec>>
  {
    match BranchOf(x, aliases)
    case ConstructorBranch => Some([x])
    case AliasBranch(found) => if found.Some? then Some(ExpandedEntries(found.value)) else Some([])
    case PatternBranch =>
      var p := ToRegExpString(x);
      if p.Some? then Some([Str(p.value)]) else None
  }

  /** What one specifier adds to `eventObjMatchers`. */
  function MatcherOf(x: Spec, aliases: seq<Alias>): seq<nat>
  {
    match BranchOf(x, aliases)
    case AliasBranch(found) => if found.Some? && found.value.matcher.Some? then [found.value.matcher.value] else []
    case _ => []
  }

  /** Every specifier of `specs` can be processed without a throw. */
  predicate AllContribute(specs: seq<Spec>, aliases: seq<Alias>)
  {
    forall i :: 0 <= i < |specs| ==> Contribution(specs[i], aliases).Some?
  }

  function Contributions(specs: seq<Spec>, aliases: seq<Alias>): seq<Spec>
    requires AllContribute(specs, aliases)
  {
    if specs == [] then []
    else
      var c := Contribution(specs[|specs| - 1], aliases);
      Contributions(specs[..|specs| - 1], aliases) + c.value
  }

  function Matchers(specs: seq<Spec>, aliases: seq<Alias>): seq<nat>
  {
    if specs == [] then []
    else Matchers(specs[..|specs| - 1], aliases) + MatcherOf(specs[|specs| - 1], aliases)
  }

  /** The index of the first specifier on which `_toRegExpString` throws. */
  function FirstFailure(specs: seq<Spec>, aliases: seq<Alias>): (k: nat)
    requires !AllContribute(specs, aliases)
    ensures k < |specs| && Contribution(specs[k], aliases).None?
    ensures AllContribute(specs[..k], aliases)
  {
    if Contribution(specs[0], aliases).None? then 0
    else
      var k := FirstFailure(specs[1..], aliases);
      assert forall i :: 0 <= i < k ==> specs[1..][..k][i] == specs[i + 1];
      assert forall i :: 0 <= i < k + 1 ==> specs[..k + 1][i] == specs[i];
      k + 1
  }

  /** The index of the first specifier that names a known alias (its
      `concat` detaches the local list from `this.loggedEvents`), or `|specs|`. */
  function FirstAliasHit(specs: seq<Spec>, aliases: seq<Alias>): (m: nat)
    ensures m <= |specs|
    ensures forall i :: 0 <= i < m ==> !IsAliasHit(specs[i], aliases)
    ensures m < |specs| ==> IsAliasHit(specs[m], aliases)
  {
    if specs == [] then 0
    else if IsAliasHit(specs[0], aliases) then 0
    else 1 + FirstAliasHit(specs[1..], aliases)
  }

  predicate IsAliasHit(x: Spec, aliases: seq<Alias>)
  {
    var b := BranchOf(x, aliases);
    b.AliasBranch? && b.found.Some?
  }

  /** The state `parseEventSpecifiers` leaves: after success the unique
      entries; after a throw, the entries pushed onto the array
      `this.loggedEvents` still refers to, and the matchers pushed so far. */
  datatype ParseOutcome =
    | Parsed(logged: seq<Spec>, matchers: seq<nat>)
    | ParseFailed(loggedLeft: seq<Spec>, matchersLeft: seq<nat>)

  /** The declarative meaning of `parseEventSpecifiers`. */
  function ParseSpec(specs: seq<Spec>, aliases: seq<Alias>): ParseOutcome
  {
    if AllContribute(specs, aliases) then
      Parsed(Unique(Contributions(specs, aliases)), Matchers(specs, aliases))
    else
      var k := FirstFailure(specs, aliases);
      var m := FirstAliasHit(specs, aliases);
      var cut := if k <= m then k else m;
      Prefix(specs, aliases, k, cut);
      ParseFailed(Contributions(specs[..cut], aliases), Matchers(specs[..k], aliases))
  }

  lemma Prefix(specs: seq<Spec>, aliases: seq<Alias>, k: nat, cut: nat)
    requires k < |specs| && cut <= k && AllContribute(specs[..k], aliases)
    ensures AllContribute(specs[..cut], aliases)
  {
    assert forall i :: 0 <= i < cut ==> specs[..cut][i] == specs[..k][i];
  }

  /** The loop of `parseEventSpecifiers`: pushes go to the array that
      `this.loggedEvents` names until the first alias `concat` replaces the
      local list by a new array. */
  method ParseEventSpecifiers(specs: seq<Spec>, aliases: seq<Alias>) returns (out: ParseOutcome)
    ensures out == ParseSpec(specs, aliases)
  {
    var shared: seq<Spec> := [];    // the array `this.loggedEvents` refers to
    var local: seq<Spec> := [];     // the array the local `loggedEvents` refers to
    var detached := false;          // a concat has happened
    var matchers: seq<nat> := [];
    ghost var m := FirstAliasHit(specs, aliases);
    var i := 0;
    ParseInvStart(specs, aliases, m);
    while i < |specs|
      invariant ParseInv(specs, aliases, m, i, local, shared, detached, matchers)
      decreases |specs| - i
    {
      var x := specs[i];
      var c := Contribution(x, aliases);
      if c.None? {
        ParseFailsAt(specs, aliases, m, i, local, shared, detached, matchers);
        out := ParseFailed(shared, matchers);
        return;
      }
      ghost var before := (local, shared, detached, matchers);
      local, shared, detached, matchers := ParseOne(x, aliases, c.value, local, shared, detached, matchers);
      ParseInvStep(specs, aliases, m, i, before.0, before.1, before.2, before.3, local, shared, detached, matchers);
      i := i + 1;
    }
    ParseDone(specs, aliases, m, local, shared, detached, matchers);
    out := Parsed(Unique(local), matchers);
  }

  /** The loop invariant of `ParseEventSpecifiers` after `i` specifiers,
      with `m` the first alias hit: `local` and `matchers` hold what the
      first `i` specifiers added, and `shared` what they added up to the
      first alias `concat`. */
  ghost predicate ParseInv(specs: seq<Spec>, aliases: seq<Alias>, m: nat, i: nat,
                           local: seq<Spec>, shared: seq<Spec>, detached: bool, matchers: seq<nat>)
  {
    i <= |specs|
    && AllContribute(specs[..i], aliases)
    && local == Contributions(specs[..i], aliases)
    && matchers == Matchers(specs[..i], aliases)
    && (detached <==> m < i)
    && var end := if detached then m else i;
       end <= |specs| && AllContribute(specs[..end], aliases) && shared == Contributions(specs[..end], aliases)
  }

  lemma ParseInvStart(specs: seq<Spec>, aliases: seq<Alias>, m: nat)
    ensures ParseInv(specs, aliases, m, 0, [], [], false, [])
  {
    assert specs[..0] == [];
  }

  /** A throw at specifier `i` leaves what `ParseSpec` describes. */
  lemma ParseFailsAt(specs: seq<Spec>, aliases: seq<Alias>, m: nat, i: nat,
                     local: seq<Spec>, shared: seq<Spec>, detached: bool, matchers: seq<nat>)
    requires m == FirstAliasHit(specs, aliases)
    requires i < |specs| && ParseInv(specs, aliases, m, i, local, shared, detached, matchers)
    requires Contribution(specs[i], aliases).None?
    ensures ParseSpec(specs, aliases) == ParseFailed(shared, matchers)
  {
    FailureAt(specs, aliases, i);
  }

  /** The loop ends with what `ParseSpec` describes. */
  lemma ParseDone(specs: seq<Spec>, aliases: seq<Alias>, m: nat,
                  local: seq<Spec>, shared: seq<Spec>, detached: bool, matchers: seq<nat>)
    requires ParseInv(specs, aliases, m, |specs|, local, shared, detached, matchers)
    ensures ParseSpec(specs, aliases) == Parsed(Unique(local), matchers)
  {
    assert specs[..|specs|] == specs;
  }

  /** One callback keeps the loop invariant. */
  lemma ParseInvStep(specs: seq<Spec>, aliases: seq<Alias>, m: nat, i: nat,
                     local: seq<Spec>, shared: seq<Spec>, detached: bool, matchers: seq<nat>,
                     local': seq<Spec>, shared': seq<Spec>, detached': bool, matchers': seq<nat>)
    requires m == FirstAliasHit(specs, aliases)
    requires i < |specs| && ParseInv(specs, aliases, m, i, local, shared, detached, matchers)
    requires Contribution(specs[i], aliases).Some?
    requires local' == local + Contribution(specs[i], aliases).value
    requires detached' == (detached || IsAliasHit(specs[i], aliases))
    requires shared' == if detached' then shared else shared + Contribution(specs[i], aliases).value
    requires matchers' == matchers + MatcherOf(specs[i], aliases)
    ensures ParseInv(specs, aliases, m, i + 1, local', shared', detached', matchers')
  {
    Step(specs, aliases, i);
  }

  /** The `_.each` callback for one specifier that does not throw. `local`
      is the array the local `loggedEvents` names, `shared` the one
      `this.loggedEvents` names; they are one array until the first alias
      `concat` (`detached`). */
  method ParseOne(x: Spec, aliases: seq<Alias>, c: seq<Spec>,
                  local: seq<Spec>, shared: seq<Spec>, detached: bool, matchers: seq<nat>)
    returns (local': seq<Spec>, shared': seq<Spec>, detached': bool, matchers': seq<nat>)
    requires Contribution(x, aliases) == Some(c)
    ensures local' == local + c
    ensures detached' == (detached || IsAliasHit(x, aliases))
    ensures shared' == if detached' then shared else shared + c
    ensures matchers' == matchers + MatcherOf(x, aliases)
  {
    local', shared', detached', matchers' := local, shared, detached, matchers;
    match BranchOf(x, aliases) {
      case ConstructorBranch =>
        local' := local + [x];
        if !detached { shared' := shared + [x]; }
      case AliasBranch(found) =>
        if found.Some? {
          local' := local + ExpandedEntries(found.value);
          detached' := true;
          if found.value.matcher.Some? { matchers' := matchers + [found.value.matcher.value]; }
        } else {
          assert c == [];
          assert local + c == local && shared + c == shared;
        }
      case PatternBranch =>
        local' := local + c;
        if !detached { shared' := shared + c; }
    }
  }

  /** One turn of the loop: the prefix sums grow by the element's share. */
  lemma Step(specs: seq<Spec>, aliases: seq<Alias>, i: nat)
    requires i < |specs| && AllContribute(specs[..i], aliases) && Contribution(specs[i], aliases).Some?
    ensures AllContribute(specs[..i + 1], aliases)
    ensures Contributions(specs[..i + 1], aliases)
            == Contributions(specs[..i], aliases) + Contribution(specs[i], aliases).value
    ensures Matchers(specs[..i + 1], aliases) == Matchers(specs[..i], aliases) + MatcherOf(specs[i], aliases)
    ensures FirstAliasHit(specs, aliases) >= i ==>
              (FirstAliasHit(specs, aliases) == i <==> IsAliasHit(specs[i], aliases))
  {
    StepAll(specs, aliases, i);
    StepSums(specs, aliases, i);
    StepHit(specs, aliases, i);
  }

  lemma StepAll(specs: seq<Spec>, aliases: seq<Alias>, i: nat)
    requires i < |specs| && AllContribute(specs[..i], aliases) && Contribution(specs[i], aliases).Some?
    ensures AllContribute(specs[..i + 1], aliases)
  {
    var p := specs[..i + 1];
    forall j | 0 <= j < |p| ensures Contribution(p[j], aliases).Some? {
      if j < i {
        assert p[j] == specs[..i][j];
      }
    }
  }

  lemma StepSums(specs: seq<Spec>, aliases: seq<Alias>, i: nat)
    requires i < |specs| && AllContribute(specs[..i + 1], aliases)
    ensures AllContribute(specs[..i], aliases)
    ensures Contributions(specs[..i + 1], aliases)
            == Contributions(specs[..i], aliases) + Contribution(specs[i], aliases).value
    ensures Matchers(specs[..i + 1], aliases) == Matchers(specs[..i], aliases) + MatcherOf(specs[i], aliases)
  {
    var p := specs[..i + 1];
    assert p[..|p| - 1] == specs[..i];
    assert p[|p| - 1] == specs[i];
  }

  lemma StepHit(specs: seq<Spec>, aliases: seq<Alias>, i: nat)
    requires i < |specs|
    ensures FirstAliasHit(specs, aliases) >= i ==>
              (FirstAliasHit(specs, aliases) == i <==> IsAliasHit(specs[i], aliases))
  {
    var m := FirstAliasHit(specs, aliases);
    if m > i {
      assert !IsAliasHit(specs[i], aliases);
    }
  }

  lemma FailureAt(specs: seq<Spec>, aliases: seq<Alias>, i: nat)
    requires i < |specs| && AllContribute(specs[..i], aliases) && Contribution(specs[i], aliases).None?
    ensures !AllContribute(specs, aliases) && FirstFailure(specs, aliases) == i
  {
    assert forall j :: 0 <= j < i ==> Contribution(specs[j], aliases).Some? by {
      forall j | 0 <= j < i ensures Contribution(specs[j], aliases).Some? {
        assert specs[..i][j] == specs[j];
      }
    }
    var k := FirstFailure(specs, aliases);
    assert forall j :: 0 <= j < k ==> Contribution(specs[j], aliases).Some? by {
      forall j | 0 <= j < k ensures Contribution(specs[j], aliases).Some? {
        assert specs[..k][j] == specs[j];
      }
    }
  }

  /** An entry is in the concatenated contributions exactly when some
      specifier contributed it. */
  lemma {:induction false} ContributionsMembership(specs: seq<Spec>, aliases: seq<Alias>, x: Spec)
    requires AllContribute(specs, aliases)
    ensures x in Contributions(specs, aliases)
            <==> exists i :: 0 <= i < |specs| && x in Contribution(specs[i], aliases).value
  {
    if specs != [] {
      var n := |specs| - 1;
      var init := specs[..n];
      assert forall i :: 0 <= i < n ==> init[i] == specs[i];
      ContributionsMembership(init, aliases, x);
    }
  }

  /** The concatenation of `f` over `xs`, element by element. */
  function FlatMap<T>(xs: seq<T>, f: T -> seq<nat>): seq<nat>
  {
    if xs == [] then [] else FlatMap(xs[..|xs| - 1], f) + f(xs[|xs| - 1])
  }

  lemma {:induction false} FlatMapMembership<T>(xs: seq<T>, f: T -> seq<nat>, id: nat)
    ensures id in FlatMap(xs, f) <==> exists i :: 0 <= i < |xs| && id in f(xs[i])
  {
    if xs != [] {
      var n := |xs| - 1;
      var init := xs[..n];
      FlatMapMembership(init, f, id);
      if exists i :: 0 <= i < |xs| && id in f(xs[i]) {
        var i :| 0 <= i < |xs| && id in f(xs[i]);
        if i < n {
          assert init[i] == xs[i];
        }
      }
      if id in FlatMap(init, f) {
        var i :| 0 <= i < n && id in f(init[i]);
        assert init[i] == xs[i];
      }
    }
  }

  lemma {:induction false} MatchersFlatMap(specs: seq<Spec>, aliases: seq<Alias>)
    ensures Matchers(specs, aliases) == FlatMap(specs, x => MatcherOf(x, aliases))
  {
    if specs != [] {
      MatchersFlatMap(specs[..|specs| - 1], aliases);
    }
  }

  /** A matcher is in the list exactly when some specifier registered it. */
  lemma MatchersMembership(specs: seq<Spec>, aliases: seq<Alias>, id: nat)
    ensures id in Matchers(specs, aliases)
            <==> exists i :: 0 <= i < |specs| && id in MatcherOf(specs[i], aliases)
  {
    MatchersFlatMap(specs, aliases);
    FlatMapMembership(specs, x => MatcherOf(x, aliases), id);
  }

  /** The classification `parseEventSpecifiers` applies, one specifier at a
      time: a capitalised string is kept verbatim, `'*name'` for a known
      alias contributes that alias's `expanded` entries verbatim and its
      matcher, and everything else outside the alias branch becomes its
      `_toRegExpString`; the result has no duplicates. */
  lemma ParseClassifies(specs: seq<Spec>, aliases: seq<Alias>, i: nat)
    requires i < |specs| && ParseSpec(specs, aliases).Parsed?
    ensures NoDuplicates(ParseSpec(specs, aliases).logged)
    ensures IsConstructorName(specs[i]) ==> specs[i] in ParseSpec(specs, aliases).logged
    ensures BranchOf(specs[i], aliases) == PatternBranch ==>
              ToRegExpString(specs[i]).Some?
              && Str(ToRegExpString(specs[i]).value) in ParseSpec(specs, aliases).logged
    ensures IsAliasHit(specs[i], aliases) ==>
              var a := BranchOf(specs[i], aliases).found.value;
              (forall e :: e in ExpandedEntries(a) ==> e in ParseSpec(specs, aliases).logged)
              && (a.matcher.Some? ==> a.matcher.value in ParseSpec(specs, aliases).matchers)
  {
    assert AllContribute(specs, aliases);
    UniqueDistinct(Contributions(specs, aliases));
    var logged := ParseSpec(specs, aliases).logged;
    forall e | e in Contribution(specs[i], aliases).value ensures e in logged {
      ContributionsMembership(specs, aliases, e);
    }
    var a := BranchOf(specs[i], aliases);
    if IsAliasHit(specs[i], aliases) && a.found.value.matcher.Some? {
      MatchersMembership(specs, aliases, a.found.value.matcher.value);
    }
  }

  /** Conversely, everything in `loggedEvents` comes from some specifier: an
      unknown alias contributes nothing, so it can be dropped from the input
      without changing what is logged. */
  lemma ParseSound(specs: seq<Spec>, aliases: seq<Alias>, x: Spec)
    requires ParseSpec(specs, aliases).Parsed? && x in ParseSpec(specs, aliases).logged
    ensures exists i :: 0 <= i < |specs| && x in Contribution(specs[i], aliases).value
              && !(BranchOf(specs[i], aliases).AliasBranch? && BranchOf(specs[i], aliases).found.None?)
  {
    ContributionsMembership(specs, aliases, x);
  }

  /** The parse fails only on a `null` or `undefined` that reaches the
      pattern branch; validated specifiers always parse. */
  lemma ValidatedSpecifiersParse(specs: seq<Spec>, aliases: seq<Alias>)
    requires ValidateEventSpecifiers(specs).Ok?
    ensures ParseSpec(specs, aliases).Parsed?
  {
    assert forall i :: 0 <= i < |specs| ==> IsValidSpecifier(specs[i]);
  }

  /** The order of the specifiers changes neither whether the parse
      succeeds nor which entries and matchers it yields; only their order. */
  lemma ParseOrderIndependent(a: seq<Spec>, b: seq<Spec>, aliases: seq<Alias>, x: Spec, id: nat)
    requires multiset(a) == multiset(b)
    ensures ParseSpec(a, aliases).Parsed? <==> ParseSpec(b, aliases).Parsed?
    ensures ParseSpec(a, aliases).Parsed? ==>
              (x in ParseSpec(a, aliases).logged <==> x in ParseSpec(b, aliases).logged)
              && (id in ParseSpec(a, aliases).matchers <==> id in ParseSpec(b, aliases).matchers)
  {
    SameElements(a, b);
    SameElements(b, a);
    ParseCovered(a, b, aliases, x, id);
    ParseCovered(b, a, aliases, x, id);
  }

  /** When every specifier of `b` also occurs in `a`, a successful parse of
      `a` means one of `b`, with no more entries or matchers. */
  lemma ParseCovered(a: seq<Spec>, b: seq<Spec>, aliases: seq<Alias>, x: Spec, id: nat)
    requires forall i :: 0 <= i < |b| ==> b[i] in a
    ensures AllContribute(a, aliases) ==> AllContribute(b, aliases)
    ensures AllContribute(a, aliases) && x in Contributions(b, aliases) ==> x in Contributions(a, aliases)
    ensures id in Matchers(b, aliases) ==> id in Matchers(a, aliases)
  {
    if AllContribute(a, aliases) {
      forall i | 0 <= i < |b| ensures Contribution(b[i], aliases).Some? {
        var j :| 0 <= j < |a| && a[j] == b[i];
      }
      ContributionsMembership(a, aliases, x);
      ContributionsMembership(b, aliases, x);
      if x in Contributions(b, aliases) {
        var i :| 0 <= i < |b| && x in Contribution(b[i], aliases).value;
        var j :| 0 <= j < |a| && a[j] == b[i];
      }
    }
    MatchersMembership(a, aliases, id);
    MatchersMembership(b, aliases, id);
    if id in Matchers(b, aliases) {
      var i :| 0 <= i < |b| && id in MatcherOf(b[i], aliases);
      var j :| 0 <= j < |a| && a[j] == b[i];
    }
  }

  lemma SameElements(a: seq<Spec>, b: seq<Spec>)
    requires multiset(a) == multiset(b)
    ensures forall i :: 0 <= i < |a| ==> a[i] in b
  {
    forall i | 0 <= i < |a| ensures a[i] in b {
      assert a[i] in multiset(a);
    }
  }
}
