/** Alias expansion (`_expandEventAliases` in backbone-xray.js,
    `expandEventAliases` in backbone.xray.js): while an entry of
    `alias.expanded` contains `'*'`, every such entry is replaced by the
    `expanded` list of the alias it names, and the list is flattened and
    de-duplicated. The loop has no bound, so the specification function
    takes a fuel argument and reports `Diverged` when the fuel runs out;
    the methods require that some fuel suffices. */
module Aliases {
  import opened Wrappers
  import opened JsText
  import opened Specifiers

  /** Which draft's rule gives a missing `expanded` its initial value. */
  datatype Draft = Current | Earlier

  /** `alias.expanded` when the property is missing: `[]` in the current
      draft, `[alias.name]` in the earlier one. */
  function InitialExpanded(draft: Draft, a: Alias): (es: seq<Spec>)
    ensures a.expanded.Some? ==> es == a.expanded.value
    ensures a.expanded.None? && draft == Current ==> es == []
    ensures a.expanded.None? && draft == Earlier ==> es == [Str(a.name)]
  {
    match a.expanded
    case Some(es) => es
    case None => if draft == Current then [] else [Str(a.name)]
  }

  /** The text `Array.prototype.join` writes for one entry. */
  function JoinText(e: Spec): string
  {
    match e
    case Str(s) => s
    case Re(_, source, flags) => "/" + source + "/" + flags
    case Fn(_, text) => text
    case Prim(text) => text
    case Null => []
    case Undefined => []
  }

  /** `expanded.join('')`. */
  function JoinAll(es: seq<Spec>): string
  {
    if es == [] then [] else JoinAll(es[..|es| - 1]) + JoinText(es[|es| - 1])
  }

  /** `_containsUnexpandedAlias`: a `'*'` anywhere in the joined text. */
  predicate ContainsUnexpandedAlias(es: seq<Spec>)
  {
    '*' in JoinAll(es)
  }

  /** The joined text holds a `'*'` exactly when some single entry does: a
      `'*'` in the middle of a name or inside a RegExp's text counts too. */
  lemma {:induction false} UnexpandedEntry(es: seq<Spec>)
    ensures ContainsUnexpandedAlias(es) <==> exists i :: 0 <= i < |es| && '*' in JoinText(es[i])
  {
    if es != [] {
      var n := |es| - 1;
      var init := es[..n];
      UnexpandedEntry(init);
      assert JoinAll(es) == JoinAll(init) + JoinText(es[n]);
      StarInConcat(JoinAll(init), JoinText(es[n]));
      if ContainsUnexpandedAlias(es) {
        if '*' in JoinAll(init) {
          var i :| 0 <= i < |init| && '*' in JoinText(init[i]);
          assert init[i] == es[i];
        } else {
          assert '*' in JoinText(es[n]);
        }
      } else {
        forall i | 0 <= i < |es|
          ensures '*' !in JoinText(es[i])
        {
          if i < n {
            assert init[i] == es[i];
          }
        }
      }
    }
  }

  /** A character occurs in a concatenation exactly when it occurs in one
      of the parts. */
  lemma StarInConcat(a: string, b: string)
    ensures '*' in a + b <==> '*' in a || '*' in b
  {
    if '*' in a + b {
      var k :| 0 <= k < |a + b| && (a + b)[k] == '*';
      if k >= |a| {
        assert b[k - |a|] == '*';
      }
    }
    if '*' in b {
      var k :| 0 <= k < |b| && b[k] == '*';
      assert (a + b)[|a| + k] == '*';
    }
  }

  /** What the `map` callback returns for one entry: a string containing
      `'*'` is replaced by the `expanded` of the alias named by the string
      without its first character; reading `.indexOf` of a non-string, or
      `.expanded` of a missing alias, throws. */
  function Resolve(table: seq<Alias>, e: Spec): Result<seq<Spec>>
  {
    if !e.Str? then Throws(TypeError)
    else if '*' !in e.s then Ok([e])
    else
      match FindAlias(table, e.s[1..])
      case None => Throws(TypeError)
      case Some(a) => Ok(ExpandedEntries(a))
  }

  /** The `map(...).flatten()` part of one turn of the loop. */
  function ResolveAll(table: seq<Alias>, es: seq<Spec>): Result<seq<Spec>>
  {
    if es == [] then Ok([])
    else
      match ResolveAll(table, es[..|es| - 1])
      case Throws(err) => Throws(err)
      case Ok(init) =>
        match Resolve(table, es[|es| - 1])
        case Throws(err) => Throws(err)
        case Ok(last) => Ok(init + last)
  }

  /** A one-entry list resolves to what its entry resolves to. */
  lemma ResolveSingle(table: seq<Alias>, e: Spec)
    ensures ResolveAll(table, [e]) == Resolve(table, e)
  {
    assert [e][..0] == [];
    if Resolve(table, e).Ok? {
      assert [] + Resolve(table, e).value == Resolve(table, e).value;
    }
  }

  /** One turn of the loop: map, flatten, `_.uniq`. */
  function ExpandStep(table: seq<Alias>, es: seq<Spec>): Result<seq<Spec>>
  {
    match ResolveAll(table, es)
    case Throws(err) => Throws(err)
    case Ok(flat) => Ok(Unique(flat))
  }

  /** How the loop ends: with a list free of `'*'`, by a throw (keeping the
      list assigned by the last completed turn), or not within the fuel. */
  datatype Expansion = Expanded(entries: seq<Spec>) | Failed(partial: seq<Spec>) | Diverged

  /** The alias table as the loop for alias `i` reads it: the alias being
      expanded is the same object, so its current list is visible. */
  function InFlight(table: seq<Alias>, i: nat, es: seq<Spec>): seq<Alias>
    requires i < |table|
  {
    table[i := table[i].(expanded := Some(es))]
  }

  /** One turn of the loop for the alias at index `i`, as a function of
      the list it starts from. */
  function Turn(table: seq<Alias>, i: nat): seq<Spec> -> Result<seq<Spec>>
    requires i < |table|
  {
    es => ExpandStep(InFlight(table, i, es), es)
  }

  /** The shape of the `while` loop for a given turn: stop on a list free
      of `'*'`, stop on a throw, and give up when the fuel runs out. */
  function Loop(turn: seq<Spec> -> Result<seq<Spec>>, es: seq<Spec>, fuel: nat): Expansion
    decreases fuel
  {
    if !ContainsUnexpandedAlias(es) then Expanded(es)
    else if fuel == 0 then Diverged
    else
      match turn(es)
      case Throws(_) => Failed(es)
      case Ok(next) => Loop(turn, next, fuel - 1)
  }

  /** The `while` loop for the alias at index `i`, starting from `es`. */
  function Expand(table: seq<Alias>, i: nat, es: seq<Spec>, fuel: nat): Expansion
    requires i < |table|
  {
    Loop(Turn(table, i), es, fuel)
  }

  /** A turn of the loop that succeeds leaves the outcome to the rest of
      the fuel. */
  lemma ExpandOneTurn(table: seq<Alias>, i: nat, es: seq<Spec>, fuel: nat, next: seq<Spec>)
    requires i < |table| && fuel > 0 && ContainsUnexpandedAlias(es)
    requires ExpandStep(InFlight(table, i, es), es) == Ok(next)
    ensures Expand(table, i, es, fuel) == Expand(table, i, next, fuel - 1)
  {
  }

  /** A list with a `'*'` does not end the loop when the fuel is spent or
      the turn throws. */
  lemma ExpandStuck(table: seq<Alias>, i: nat, es: seq<Spec>, fuel: nat)
    requires i < |table| && ContainsUnexpandedAlias(es)
    requires fuel == 0 || ExpandStep(InFlight(table, i, es), es).Throws?
    ensures !Expand(table, i, es, fuel).Expanded?
  {
  }

  /** On exit the joined text holds no `'*'`: the loop stops only then. */
  lemma {:induction false} ExpandEndsStarFree(table: seq<Alias>, i: nat, es: seq<Spec>, fuel: nat)
    requires i < |table| && Expand(table, i, es, fuel).Expanded?
    ensures !ContainsUnexpandedAlias(Expand(table, i, es, fuel).entries)
    decreases fuel
  {
    if ContainsUnexpandedAlias(es) {
      var step := ExpandStep(InFlight(table, i, es), es);
      assert fuel > 0 && step.Ok?;
      ExpandOneTurn(table, i, es, fuel, step.value);
      ExpandEndsStarFree(table, i, step.value, fuel - 1);
    }
  }

  /** On exit no entry contains `'*'`. */
  lemma ExpandedIsStarFree(table: seq<Alias>, i: nat, es: seq<Spec>, fuel: nat)
    requires i < |table| && Expand(table, i, es, fuel).Expanded?
    ensures !ContainsUnexpandedAlias(Expand(table, i, es, fuel).entries)
    ensures forall k :: 0 <= k < |Expand(table, i, es, fuel).entries| ==>
              '*' !in JoinText(Expand(table, i, es, fuel).entries[k])
  {
    ExpandEndsStarFree(table, i, es, fuel);
    UnexpandedEntry(Expand(table, i, es, fuel).entries);
  }

  /** A list with no `'*'` is returned unchanged, whatever the fuel. */
  lemma StarFreeUnchanged(table: seq<Alias>, i: nat, es: seq<Spec>, fuel: nat)
    requires i < |table| && forall k :: 0 <= k < |es| ==> '*' !in JoinText(es[k])
    ensures Expand(table, i, es, fuel) == Expanded(es)
  {
    UnexpandedEntry(es);
  }

  /** More fuel than needed changes nothing, whatever the turn. */
  lemma {:induction false} LoopFuelIrrelevant(turn: seq<Spec> -> Result<seq<Spec>>, es: seq<Spec>, fuel: nat, more: nat)
    requires fuel <= more && !Loop(turn, es, fuel).Diverged?
    ensures Loop(turn, es, more) == Loop(turn, es, fuel)
    decreases fuel
  {
    if ContainsUnexpandedAlias(es) && turn(es).Ok? {
      LoopFuelIrrelevant(turn, turn(es).value, fuel - 1, more - 1);
    }
  }

  /** More fuel than needed changes nothing: the outcome of a loop that
      ends does not depend on the bound. */
  lemma ExpandFuelIrrelevant(table: seq<Alias>, i: nat, es: seq<Spec>, fuel: nat, more: nat)
    requires i < |table| && fuel <= more && !Expand(table, i, es, fuel).Diverged?
    ensures Expand(table, i, es, more) == Expand(table, i, es, fuel)
  {
    LoopFuelIrrelevant(Turn(table, i), es, fuel, more);
  }

  /** A list with no `'*'` ends the loop at once. */
  lemma ExpandStops(table: seq<Alias>, i: nat, es: seq<Spec>, fuel: nat)
    requires i < |table| && !ContainsUnexpandedAlias(es)
    ensures Expand(table, i, es, fuel) == Expanded(es)
  {
  }

  /** An alias whose list names itself never leaves the loop: the in-flight
      object hands back the same list on every turn. */
  lemma {:induction false} SelfReferenceDiverges(table: seq<Alias>, i: nat, fuel: nat)
    requires i < |table| && |table[i].name| > 0
    requires forall k :: 0 <= k < i ==> table[k].name != table[i].name
    ensures Expand(table, i, [Str("*" + table[i].name)], fuel) == Diverged
    decreases fuel
  {
    var es := [Str("*" + table[i].name)];
    var t := InFlight(table, i, es);
    assert JoinAll(es) == "*" + table[i].name by {
      assert es[..0] == [];
    }
    assert ContainsUnexpandedAlias(es) by {
      assert ("*" + table[i].name)[0] == '*';
    }
    if fuel > 0 {
      var e := Str("*" + table[i].name);
      assert e.s[1..] == table[i].name;
      assert t[i].name == table[i].name;
      assert AliasIndex(t, table[i].name) == Some(i);
      assert '*' in e.s by { assert e.s[0] == '*'; }
      assert Resolve(t, e) == Ok(es);
      ResolveSingle(t, e);
      assert Unique(es) == es by {
        UniqueOfDistinct(es, []);
      }
      SelfReferenceDiverges(table, i, fuel - 1);
    }
  }

  /** When `map(...).flatten()` succeeds, every entry resolved, and what
      each one resolved to is part of the flat list. */
  lemma {:induction false} ResolvedPartIn(table: seq<Alias>, es: seq<Spec>, p: nat, flat: seq<Spec>)
    requires ResolveAll(table, es) == Ok(flat) && p < |es|
    ensures Resolve(table, es[p]).Ok? && forall x :: x in Resolve(table, es[p]).value ==> x in flat
    decreases |es|
  {
    var n := |es| - 1;
    var init := ResolveAll(table, es[..n]);
    if p < n {
      ResolvedPartIn(table, es[..n], p, init.value);
      assert es[..n][p] == es[p];
    }
  }

  /** One entry that throws makes the whole `map` throw. */
  lemma {:induction false} ResolveThrowsAt(table: seq<Alias>, es: seq<Spec>, p: nat)
    requires p < |es| && Resolve(table, es[p]).Throws?
    ensures ResolveAll(table, es).Throws?
    decreases |es|
  {
    var n := |es| - 1;
    if p < n {
      assert es[..n][p] == es[p];
      ResolveThrowsAt(table, es[..n], p);
    }
  }

  /** A reference to the alias being expanded resolves to the in-flight
      list that holds it, so a turn that succeeds keeps it. */
  lemma SelfReferenceSurvivesTurn(table: seq<Alias>, i: nat, es: seq<Spec>)
    requires i < |table| && forall k :: 0 <= k < i ==> table[k].name != table[i].name
    requires Str("*" + table[i].name) in es
    ensures ContainsUnexpandedAlias(es)
    ensures var next := ExpandStep(InFlight(table, i, es), es);
            next.Ok? ==> Str("*" + table[i].name) in next.value
  {
    var e := Str("*" + table[i].name);
    var p :| 0 <= p < |es| && es[p] == e;
    assert '*' in JoinText(es[p]) by { assert e.s[0] == '*'; }
    UnexpandedEntry(es);
    var t := InFlight(table, i, es);
    assert e.s[1..] == table[i].name;
    assert t[i].name == table[i].name;
    assert forall k :: 0 <= k < i ==> t[k].name != table[i].name;
    assert AliasIndex(t, table[i].name) == Some(i);
    assert '*' in e.s by { assert e.s[0] == '*'; }
    assert Resolve(t, e) == Ok(es);
    var flat := ResolveAll(t, es);
    if flat.Ok? {
      ResolvedPartIn(t, es, p, flat.value);
    }
  }

  /** Any list holding a reference to the alias being expanded never ends
      the loop with a list free of `'*'`: the reference survives every
      turn. The loop throws on another entry or never stops. */
  lemma {:induction false} SelfReferenceNeverExpands(table: seq<Alias>, i: nat, es: seq<Spec>, fuel: nat)
    requires i < |table| && forall k :: 0 <= k < i ==> table[k].name != table[i].name
    requires Str("*" + table[i].name) in es
    ensures !Expand(table, i, es, fuel).Expanded?
    decreases fuel
  {
    SelfReferenceSurvivesTurn(table, i, es);
    var next := ExpandStep(InFlight(table, i, es), es);
    if fuel > 0 && next.Ok? {
      ExpandOneTurn(table, i, es, fuel, next.value);
      SelfReferenceNeverExpands(table, i, next.value, fuel - 1);
    } else {
      ExpandStuck(table, i, es, fuel);
    }
  }

  /** How `_.map(aliases, expand)` ends: every alias expanded, a throw
      (with the mutations made before it), or a loop that does not stop. */
  datatype TableOutcome = TableDone(table: seq<Alias>) | TableFailed(partial: seq<Alias>) | TableDiverged

  /** Expands the aliases from index `i` on, in order. Each alias object is
      updated in place, so later aliases (and the in-flight one) see the
      lists already computed; aliases after `i` still hold their own. */
  function ExpandFrom(draft: Draft, table: seq<Alias>, i: nat, fuel: nat): TableOutcome
    requires i <= |table|
    decreases |table| - i
  {
    if i == |table| then TableDone(table)
    else
      var start := InitialExpanded(draft, table[i]);
      match Expand(table, i, start, fuel)
      case Expanded(es) => ExpandFrom(draft, InFlight(table, i, es), i + 1, fuel)
      case Failed(partial) => TableFailed(InFlight(table, i, partial))
      case Diverged => TableDiverged
  }

  /** All aliases keep their identity, name and matcher. */
  predicate SameAliases(a: seq<Alias>, b: seq<Alias>)
  {
    |a| == |b| && forall k :: 0 <= k < |a| ==> a[k].(expanded := None) == b[k].(expanded := None)
  }

  /** A completed expansion keeps the table's aliases, leaves the ones before
      `i` as they were, and gives every later alias a `'*'`-free list. */
  lemma {:induction false} ExpandFromDone(draft: Draft, table: seq<Alias>, i: nat, fuel: nat)
    requires i <= |table| && ExpandFrom(draft, table, i, fuel).TableDone?
    ensures SameAliases(table, ExpandFrom(draft, table, i, fuel).table)
    ensures forall k :: 0 <= k < i ==> ExpandFrom(draft, table, i, fuel).table[k] == table[k]
    ensures forall k :: i <= k < |table| ==>
              ExpandFrom(draft, table, i, fuel).table[k].expanded.Some? &&
              !ContainsUnexpandedAlias(ExpandFrom(draft, table, i, fuel).table[k].expanded.value)
    decreases |table| - i
  {
    if i < |table| {
      var start := InitialExpanded(draft, table[i]);
      var e := Expand(table, i, start, fuel);
      ExpandedIsStarFree(table, i, start, fuel);
      var t := InFlight(table, i, e.entries);
      InFlightKeeps(table, i, e.entries);
      ExpandFromDone(draft, t, i + 1, fuel);
      SameAliasesTrans(table, t, ExpandFrom(draft, t, i + 1, fuel).table);
    }
  }

  /** Recording a list changes only that alias's `expanded`. */
  lemma InFlightKeeps(table: seq<Alias>, i: nat, es: seq<Spec>)
    requires i < |table|
    ensures SameAliases(table, InFlight(table, i, es))
    ensures forall k :: 0 <= k < |table| && k != i ==> InFlight(table, i, es)[k] == table[k]
    ensures InFlight(table, i, es)[i].expanded == Some(es)
  {
  }

  lemma SameAliasesTrans(a: seq<Alias>, b: seq<Alias>, c: seq<Alias>)
    requires SameAliases(a, b) && SameAliases(b, c)
    ensures SameAliases(a, c)
  {
  }

  /** More fuel than needed changes nothing for the whole table either. */
  lemma {:induction false} ExpandFromFuelIrrelevant(draft: Draft, table: seq<Alias>, i: nat, fuel: nat, more: nat)
    requires i <= |table| && fuel <= more && !ExpandFrom(draft, table, i, fuel).TableDiverged?
    ensures ExpandFrom(draft, table, i, more) == ExpandFrom(draft, table, i, fuel)
    decreases |table| - i
  {
    if i < |table| {
      var start := InitialExpanded(draft, table[i]);
      ExpandFuelIrrelevant(table, i, start, fuel, more);
      var r := Expand(table, i, start, fuel);
      if r.Expanded? {
        ExpandFromFuelIrrelevant(draft, InFlight(table, i, r.entries), i + 1, fuel, more);
      }
    }
  }

  /** A table whose lists are all present and free of `'*'` is returned as
      it is, so expanding an already expanded table again changes nothing. */
  lemma {:induction false} ExpandedTableStable(draft: Draft, table: seq<Alias>, i: nat, fuel: nat)
    requires i <= |table|
    requires forall k :: i <= k < |table| ==>
               table[k].expanded.Some? && !ContainsUnexpandedAlias(table[k].expanded.value)
    ensures ExpandFrom(draft, table, i, fuel) == TableDone(table)
    decreases |table| - i
  {
    if i < |table| {
      var es := table[i].expanded.value;
      assert InFlight(table, i, es) == table;
      ExpandedTableStable(draft, table, i + 1, fuel);
    }
  }

  /** The `'*'`-free lists of the result: running the loops again on it
      finds nothing to do, whatever the draft. */
  lemma ExpansionIdempotent(draft: Draft, table: seq<Alias>, fuel: nat, again: Draft, fuel2: nat)
    requires ExpandFrom(draft, table, 0, fuel).TableDone?
    ensures ExpandFrom(again, ExpandFrom(draft, table, 0, fuel).table, 0, fuel2)
            == ExpandFrom(draft, table, 0, fuel)
  {
    ExpandFromDone(draft, table, 0, fuel);
    ExpandedTableStable(again, ExpandFrom(draft, table, 0, fuel).table, 0, fuel2);
  }

  /** The identities of a list of aliases. */
  function RefsOf(xs: seq<Alias>): (rs: seq<nat>)
    ensures |rs| == |xs| && forall k :: 0 <= k < |xs| ==> rs[k] == xs[k].ref
  {
    seq(|xs|, k requires 0 <= k < |xs| => xs[k].ref)
  }

  /** `_.union` on alias objects, after the ones in `seen`: a later object
      that is the same as an earlier one (by identity) is dropped. */
  function UnionAfter(xs: seq<Alias>, seen: seq<Alias>): (u: seq<Alias>)
    requires NoDuplicates(RefsOf(seen))
    ensures |seen| <= |u| && u[..|seen|] == seen
    ensures forall a :: a in u ==> a in seen || a in xs
    ensures forall a :: a in xs ==> a.ref in RefsOf(u)
    ensures NoDuplicates(RefsOf(u))
    decreases |xs|
  {
    if xs == [] then seen
    else if xs[0].ref in RefsOf(seen) then UnionAfter(xs[1..], seen)
    else
      var next := seen + [xs[0]];
      assert RefsOf(next) == RefsOf(seen) + [xs[0].ref];
      var u := UnionAfter(xs[1..], next);
      assert u[..|next|][|seen|] == xs[0];
      assert RefsOf(u)[|seen|] == xs[0].ref;
      u
  }

  /** `_.union(config.aliases, arguments)` in the current draft. */
  function UnionByRef(table: seq<Alias>, args: seq<Alias>): seq<Alias>
  {
    UnionAfter(table + args, [])
  }

  /** A table without repeated objects, extended by objects it does not
      hold (and that are not repeated), is exactly the concatenation. */
  lemma {:induction false} UnionOfFresh(xs: seq<Alias>, seen: seq<Alias>)
    requires NoDuplicates(RefsOf(seen)) && NoDuplicates(RefsOf(seen + xs))
    ensures UnionAfter(xs, seen) == seen + xs
    decreases |xs|
  {
    if xs != [] {
      assert RefsOf(seen + xs)[|seen|] == xs[0].ref;
      assert xs[0].ref !in RefsOf(seen) by {
        forall k | 0 <= k < |seen| ensures RefsOf(seen)[k] != xs[0].ref {
          assert RefsOf(seen + xs)[k] == RefsOf(seen)[k];
        }
      }
      var next := seen + [xs[0]];
      assert seen + xs == next + xs[1..];
      assert NoDuplicates(RefsOf(next)) by {
        forall a, b | 0 <= a < b < |next| ensures RefsOf(next)[a] != RefsOf(next)[b] {
          assert RefsOf(next)[a] == RefsOf(seen + xs)[a];
          assert RefsOf(next)[b] == RefsOf(seen + xs)[b];
        }
      }
      UnionOfFresh(xs[1..], next);
    }
  }

  /** Objects already in `seen` add nothing. */
  lemma {:induction false} UnionOfKnown(xs: seq<Alias>, seen: seq<Alias>)
    requires NoDuplicates(RefsOf(seen))
    requires forall k :: 0 <= k < |xs| ==> xs[k].ref in RefsOf(seen)
    ensures UnionAfter(xs, seen) == seen
    decreases |xs|
  {
    if xs != [] {
      UnionOfKnown(xs[1..], seen);
    }
  }

  /** `addAliases` in the current draft: the union, then every alias of it
      expanded in order. */
  function AddAliasesCurrent(table: seq<Alias>, args: seq<Alias>, fuel: nat): TableOutcome
  {
    ExpandFrom(Current, UnionByRef(table, args), 0, fuel)
  }

  /** `addAliases` in the earlier draft: the arguments replace the table. */
  function AddAliasesEarlier(args: seq<Alias>, fuel: nat): TableOutcome
  {
    ExpandFrom(Earlier, args, 0, fuel)
  }

  /** Adding an alias that is already in the table (after a first
      `addAliases`) leaves the table as it is. */
  lemma AddKnownAliasKeepsTable(table: seq<Alias>, args: seq<Alias>, fuel: nat)
    requires NoDuplicates(RefsOf(table))
    requires forall k :: 0 <= k < |table| ==>
               table[k].expanded.Some? && !ContainsUnexpandedAlias(table[k].expanded.value)
    requires forall k :: 0 <= k < |args| ==> args[k].ref in RefsOf(table)
    ensures AddAliasesCurrent(table, args, fuel) == TableDone(table)
  {
    UnionOfFresh(table, []);
    assert [] + table == table;
    UnionOfKnown(args, table);
    assert UnionAfter(table + args, []) == UnionAfter(args, UnionAfter(table, [])) by {
      UnionSplit(table, args, []);
    }
    ExpandedTableStable(Current, table, 0, fuel);
  }

  /** The union of a concatenation is taken part by part. */
  lemma {:induction false} UnionSplit(xs: seq<Alias>, ys: seq<Alias>, seen: seq<Alias>)
    requires NoDuplicates(RefsOf(seen))
    ensures UnionAfter(xs + ys, seen) == UnionAfter(ys, UnionAfter(xs, seen))
    decreases |xs|
  {
    if xs == [] {
      assert xs + ys == ys;
    } else {
      assert (xs + ys)[1..] == xs[1..] + ys;
      assert (xs + ys)[0] == xs[0];
      if xs[0].ref in RefsOf(seen) {
        UnionSplit(xs[1..], ys, seen);
      } else {
        var next := seen + [xs[0]];
        assert RefsOf(next) == RefsOf(seen) + [xs[0].ref];
        UnionSplit(xs[1..], ys, next);
      }
    }
  }

  /** `_.map(config.aliases, _expandEventAliases)`: the outer walk over the
      table and the inner `while` loop of each alias, each turn reading the
      table as updated so far. */
  method ExpandAliases(draft: Draft, table: seq<Alias>, ghost fuel: nat) returns (out: TableOutcome)
    requires !ExpandFrom(draft, table, 0, fuel).TableDiverged?
    ensures out == ExpandFrom(draft, table, 0, fuel)
  {
    var t := table;
    var i := 0;
    while i < |t|
      invariant 0 <= i <= |t|
      invariant ExpandFrom(draft, t, i, fuel) == ExpandFrom(draft, table, 0, fuel)
      decreases |t| - i
    {
      var r := ExpandEntries(t, i, InitialExpanded(draft, t[i]), fuel);
      if r.Failed? {
        return TableFailed(InFlight(t, i, r.partial));
      }
      t := InFlight(t, i, r.entries);
      i := i + 1;
    }
    return TableDone(t);
  }

  /** The `while` loop of `_expandEventAliases` for the alias at index `i`:
      each turn resolves the list against the table as it now stands. */
  method ExpandEntries(t: seq<Alias>, i: nat, start: seq<Spec>, ghost fuel: nat) returns (r: Expansion)
    requires i < |t| && !Expand(t, i, start, fuel).Diverged?
    ensures r == Expand(t, i, start, fuel)
  {
    var es := start;
    ghost var f := fuel;
    ghost var goal := Expand(t, i, start, fuel);
    while ContainsUnexpandedAlias(es)
      invariant Expand(t, i, es, f) == goal && !goal.Diverged?
      decreases f
    {
      var step := ExpandStep(InFlight(t, i, es), es);
      if step.Throws? {
        assert f > 0;
        ExpandFails(t, i, es, f);
        return Failed(es);
      }
      ghost var es0, f0 := es, f;
      es := step.value;
      f := f - 1;
      ExpandNext(t, i, es0, f0, es, f, goal);
    }
    return Expanded(es);
  }

  /** A turn of the loop that throws ends it with the list as it was. */
  lemma ExpandFails(t: seq<Alias>, i: nat, es: seq<Spec>, f: nat)
    requires i < |t| && ContainsUnexpandedAlias(es) && f > 0
    requires ExpandStep(InFlight(t, i, es), es).Throws?
    ensures Expand(t, i, es, f) == Failed(es)
  {
  }

  /** A turn of the loop that succeeds goes on from the new list. */
  lemma ExpandNext(t: seq<Alias>, i: nat, es: seq<Spec>, f: nat, next: seq<Spec>, f': int, goal: Expansion)
    requires i < |t| && ContainsUnexpandedAlias(es) && Expand(t, i, es, f) == goal && !goal.Diverged?
    requires ExpandStep(InFlight(t, i, es), es) == Ok(next) && f' == f - 1
    ensures f' >= 0 && Expand(t, i, next, f') == goal
  {
  }

  /** The two aliases every configuration starts with. */
  function DefaultAliases(): seq<Alias>
  {
    [ Alias(0, "backbone", Some([Str("Model"), Str("Collection"), Str("View"), Str("Router")]), None),
      Alias(1, "backbone-data", Some([Str("Model"), Str("Collection")]), None) ]
  }

  /** The default aliases are already expanded. */
  lemma DefaultAliasesExpanded(draft: Draft, fuel: nat)
    ensures ExpandFrom(draft, DefaultAliases(), 0, fuel) == TableDone(DefaultAliases())
  {
    var t := DefaultAliases();
    forall k | 0 <= k < |t| ensures t[k].expanded.Some? && !ContainsUnexpandedAlias(t[k].expanded.value) {
      UnexpandedEntry(t[k].expanded.value);
    }
    ExpandedTableStable(draft, t, 0, fuel);
  }

  /** An alias naming a later one takes that one's list: with `x` listing
      `'*y'` and `y` listing `'ClassA'`, `x` ends with `['ClassA']`. */
  lemma ForwardReference(fuel: nat)
    requires fuel >= 1
    ensures ExpandFrom(Current, [Alias(0, "x", Some([Str("*y")]), None), Alias(1, "y", Some([Str("ClassA")]), None)], 0, fuel)
            == TableDone([Alias(0, "x", Some([Str("ClassA")]), None), Alias(1, "y", Some([Str("ClassA")]), None)])
  {
    var t := [Alias(0, "x", Some([Str("*y")]), None), Alias(1, "y", Some([Str("ClassA")]), None)];
    var done := [Alias(0, "x", Some([Str("ClassA")]), None), Alias(1, "y", Some([Str("ClassA")]), None)];
    var es := [Str("*y")];
    var a := [Str("ClassA")];
    assert InitialExpanded(Current, t[0]) == es;
    assert ContainsUnexpandedAlias(es) by { UnexpandedEntry(es); assert '*' in JoinText(es[0]); }
    assert ExpandStep(InFlight(t, 0, es), es) == Ok(a) by {
      assert FindAlias(InFlight(t, 0, es), "y") == Some(t[1]);
      assert Resolve(InFlight(t, 0, es), es[0]) == Ok(a);
      ResolveSingle(InFlight(t, 0, es), es[0]);
      UniqueOfDistinct(a, []);
      assert [] + a == a;
    }
    assert Expand(t, 0, a, fuel - 1) == Expanded(a) by {
      StarFreeUnchanged(t, 0, a, fuel - 1);
    }
    assert Expand(t, 0, es, fuel) == Expanded(a);
    assert InFlight(t, 0, a) == done;
    assert ExpandFrom(Current, t, 0, fuel) == ExpandFrom(Current, done, 1, fuel);
    ExpandedTableStable(Current, done, 1, fuel) by { UnexpandedEntry(a); }
  }

  /** A reference to an alias that is not in the table throws on the
      first turn: an alias whose list holds one stops the expansion of the
      table there and leaves the table as it was. */
  lemma MissingAliasFails(table: seq<Alias>, i: nat, z: string, fuel: nat)
    requires i < |table| && fuel >= 1
    requires table[i].expanded.Some? && Str("*" + z) in table[i].expanded.value
    requires forall k :: 0 <= k < |table| ==> table[k].name != z
    ensures ExpandFrom(Current, table, i, fuel) == TableFailed(table)
  {
    var es := table[i].expanded.value;
    var e := Str("*" + z);
    var p :| 0 <= p < |es| && es[p] == e;
    assert '*' in JoinText(es[p]) by { assert e.s[0] == '*'; }
    UnexpandedEntry(es);
    assert InFlight(table, i, es) == table;
    assert e.s[1..] == z;
    assert '*' in e.s by { assert e.s[0] == '*'; }
    assert Resolve(table, e).Throws?;
    ResolveThrowsAt(table, es, p);
  }

  /** In the earlier draft an alias without a list stands for its own name;
      in the current one for nothing. */
  lemma NamelessListByDraft(fuel: nat)
    ensures AddAliasesEarlier([Alias(0, "sync", None, None)], fuel)
            == TableDone([Alias(0, "sync", Some([Str("sync")]), None)])
    ensures AddAliasesCurrent([], [Alias(0, "sync", None, None)], fuel)
            == TableDone([Alias(0, "sync", Some([]), None)])
  {
    NamelessEarlier(fuel);
    NamelessCurrent(fuel);
  }

  /** The earlier draft's half of `NamelessListByDraft`. */
  lemma NamelessEarlier(fuel: nat)
    ensures AddAliasesEarlier([Alias(0, "sync", None, None)], fuel)
            == TableDone([Alias(0, "sync", Some([Str("sync")]), None)])
  {
    var t := [Alias(0, "sync", None, None)];
    var es := [Str("sync")];
    StarFreeUnchanged(t, 0, es, fuel) by {
      assert '*' !in JoinText(es[0]);
    }
    assert InitialExpanded(Earlier, t[0]) == es;
    assert ExpandFrom(Earlier, t, 0, fuel) == ExpandFrom(Earlier, InFlight(t, 0, es), 1, fuel);
  }

  /** The current draft's half of `NamelessListByDraft`. */
  lemma NamelessCurrent(fuel: nat)
    ensures AddAliasesCurrent([], [Alias(0, "sync", None, None)], fuel)
            == TableDone([Alias(0, "sync", Some([]), None)])
  {
    var t := [Alias(0, "sync", None, None)];
    UnionOfFresh(t, []);
    assert [] + t == t;
    assert UnionByRef([], t) == t;
    StarFreeUnchanged(t, 0, [], fuel);
    assert InitialExpanded(Current, t[0]) == [];
    assert ExpandFrom(Current, t, 0, fuel) == ExpandFrom(Current, InFlight(t, 0, []), 1, fuel);
  }
}
