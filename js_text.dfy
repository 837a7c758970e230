/** String and sequence helpers with the meaning JavaScript and Underscore
    give them: substring search, `split`/`join` on a separator, `_.uniq`
    (first occurrence kept), and the character classes that the regular
    expressions of Backbone-Xray rely on (`\s`, line terminators). */
module JsText {

  /** `sub` occurs in `s` starting at position `i`. */
  predicate OccursAt(s: string, sub: string, i: int)
  {
    0 <= i && i + |sub| <= |s| && s[i..i + |sub|] == sub
  }

  /** `s.indexOf(sub) !== -1`: some window of `s` equals `sub`. */
  predicate Contains(s: string, sub: string)
  {
    exists i :: 0 <= i <= |s| && OccursAt(s, sub, i)
  }

  predicate StartsWith(s: string, prefix: string)
  {
    |prefix| <= |s| && s[..|prefix|] == prefix
  }

  predicate EndsWith(s: string, suffix: string)
  {
    |suffix| <= |s| && s[|s| - |suffix|..] == suffix
  }

  /** Decides `Contains` by scanning every window from position `from` on. */
  function ContainsFrom(s: string, sub: string, from: nat): (b: bool)
    decreases |s| - from
    ensures b <==> exists i :: from <= i <= |s| && OccursAt(s, sub, i)
  {
    if from + |sub| > |s| then false
    else if s[from..from + |sub|] == sub then assert OccursAt(s, sub, from); true
    else
      assert forall i :: from <= i <= |s| && OccursAt(s, sub, i) ==> i == from || from + 1 <= i;
      ContainsFrom(s, sub, from + 1)
  }

  function ContainsText(s: string, sub: string): (b: bool)
    ensures b <==> Contains(s, sub)
  {
    ContainsFrom(s, sub, 0)
  }

  /** A single character occurs in `s`. */
  lemma ContainsChar(s: string, c: char)
    ensures Contains(s, [c]) <==> c in s
  {
    if c in s {
      var i :| 0 <= i < |s| && s[i] == c;
      assert s[i..i + 1] == [c];
      assert OccursAt(s, [c], i);
    }
    if Contains(s, [c]) {
      var i :| 0 <= i <= |s| && OccursAt(s, [c], i);
      assert s[i] == s[i..i + 1][0] == c;
    }
  }

  /** `s.split(sep)` for a one-character separator: the pieces between the
      separators, always at least one piece. */
  function Split(s: string, sep: char): (pieces: seq<string>)
    ensures |pieces| >= 1
    ensures forall k :: 0 <= k < |pieces| ==> sep !in pieces[k]
    decreases |s|
  {
    if s == [] then [[]]
    else
      var rest := Split(s[1..], sep);
      if s[0] == sep then [[]] + rest
      else [[s[0]] + rest[0]] + rest[1..]
  }

  /** `pieces.join(sep)`. */
  function Join(pieces: seq<string>, sep: string): string
  {
    if pieces == [] then []
    else if |pieces| == 1 then pieces[0]
    else pieces[0] + sep + Join(pieces[1..], sep)
  }

  /** Joining what `split` produced gives the string back. */
  lemma {:induction false} JoinSplit(s: string, sep: char)
    ensures Join(Split(s, sep), [sep]) == s
    decreases |s|
  {
    if s != [] {
      JoinSplit(s[1..], sep);
      var rest := Split(s[1..], sep);
      if s[0] != sep {
        if |rest| == 1 {
          assert Join(Split(s, sep), [sep]) == [s[0]] + rest[0];
        } else {
          assert Split(s, sep) == [[s[0]] + rest[0]] + rest[1..];
          assert Join(rest, [sep]) == rest[0] + [sep] + Join(rest[1..], [sep]);
          assert s == [s[0]] + s[1..];
        }
      }
    }
  }

  /** `_.uniq(xs)`: the first occurrence of every element, in order. */
  function Unique<T(==,!new)>(xs: seq<T>): (u: seq<T>)
    ensures forall x :: x in u <==> x in xs
  {
    UniqueAfter(xs, [])
  }

  function UniqueAfter<T(==,!new)>(xs: seq<T>, seen: seq<T>): (u: seq<T>)
    ensures forall x :: x in u <==> x in xs || x in seen
    ensures |seen| <= |u| && u[..|seen|] == seen
    decreases |xs|
  {
    if xs == [] then seen
    else if xs[0] in seen then UniqueAfter(xs[1..], seen)
    else
      var u := UniqueAfter(xs[1..], seen + [xs[0]]);
      assert xs[0] == u[..|seen| + 1][|seen|];
      u
  }

  /** A sequence without repeated elements. */
  predicate NoDuplicates<T(==)>(xs: seq<T>)
  {
    forall i, j :: 0 <= i < j < |xs| ==> xs[i] != xs[j]
  }

  /** `_.uniq` never repeats an element, given a `seen` list that does
      not. */
  lemma {:induction false} UniqueAfterDistinct<T(!new)>(xs: seq<T>, seen: seq<T>)
    requires NoDuplicates(seen)
    ensures NoDuplicates(UniqueAfter(xs, seen))
    decreases |xs|
  {
    if xs != [] {
      if xs[0] in seen {
        UniqueAfterDistinct(xs[1..], seen);
      } else {
        var next := seen + [xs[0]];
        assert NoDuplicates(next) by {
          forall i, j | 0 <= i < j < |next| ensures next[i] != next[j] {
            if j == |seen| {
              assert next[i] == seen[i];
            } else {
              assert next[i] == seen[i] && next[j] == seen[j];
            }
          }
        }
        UniqueAfterDistinct(xs[1..], next);
      }
    }
  }

  /** `_.uniq` never repeats an element. */
  lemma UniqueDistinct<T(!new)>(xs: seq<T>)
    ensures NoDuplicates(Unique(xs))
  {
    UniqueAfterDistinct(xs, []);
  }

  /** `_.uniq` leaves a duplicate-free sequence as it is. */
  lemma {:induction false} UniqueOfDistinct<T(!new)>(xs: seq<T>, seen: seq<T>)
    requires NoDuplicates(seen) && NoDuplicates(seen + xs)
    ensures UniqueAfter(xs, seen) == seen + xs
    decreases |xs|
  {
    if xs != [] {
      assert xs[0] == (seen + xs)[|seen|];
      assert xs[0] !in seen by {
        forall i | 0 <= i < |seen| ensures seen[i] != xs[0] {
          assert seen[i] == (seen + xs)[i];
        }
      }
      assert seen + xs == (seen + [xs[0]]) + xs[1..];
      assert NoDuplicates(seen + [xs[0]]) by {
        forall i, j | 0 <= i < j < |seen| + 1 ensures (seen + [xs[0]])[i] != (seen + [xs[0]])[j] {
          assert (seen + [xs[0]])[i] == (seen + xs)[i];
          assert (seen + [xs[0]])[j] == (seen + xs)[j];
        }
      }
      UniqueOfDistinct(xs[1..], seen + [xs[0]]);
    }
  }

  /** `_.uniq` of a concatenation is taken part by part. */
  lemma {:induction false} UniqueSplit<T(!new)>(xs: seq<T>, ys: seq<T>, seen: seq<T>)
    requires NoDuplicates(seen)
    ensures UniqueAfter(xs + ys, seen) == UniqueAfter(ys, UniqueAfter(xs, seen))
    decreases |xs|
  {
    if xs == [] {
      assert xs + ys == ys;
    } else {
      assert (xs + ys)[0] == xs[0];
      assert (xs + ys)[1..] == xs[1..] + ys;
      if xs[0] in seen {
        UniqueSplit(xs[1..], ys, seen);
      } else {
        UniqueSplit(xs[1..], ys, seen + [xs[0]]);
      }
    }
  }

  /** Elements already seen add nothing. */
  lemma {:induction false} UniqueOfSeen<T(!new)>(xs: seq<T>, seen: seq<T>)
    requires NoDuplicates(seen) && forall i :: 0 <= i < |xs| ==> xs[i] in seen
    ensures UniqueAfter(xs, seen) == seen
    decreases |xs|
  {
    if xs != [] {
      UniqueOfSeen(xs[1..], seen);
    }
  }

  /** `_.uniq(seen.concat(xs))` for a duplicate-free `seen`: `seen`, then
      the new elements of `xs` in order. */
  lemma UniqueOfConcat<T(!new)>(seen: seq<T>, xs: seq<T>)
    requires NoDuplicates(seen)
    ensures Unique(seen + xs) == UniqueAfter(xs, seen)
  {
    UniqueSplit(seen, xs, []);
    UniqueOfDistinct(seen, []);
    assert [] + seen == seen;
  }

  /** The characters JavaScript's `\s` class matches. */
  predicate IsJsWhitespace(c: char)
  {
    c == ' ' || c == '\t' || c == '\n' || c == '\r' || c == '\U{000B}' || c == '\U{000C}'
    || c == '\U{00A0}' || c == '\U{1680}' || ('\U{2000}' <= c <= '\U{200A}')
    || c == '\U{2028}' || c == '\U{2029}' || c == '\U{202F}' || c == '\U{205F}'
    || c == '\U{3000}' || c == '\U{FEFF}'
  }

  /** The characters after which `^` matches in a multiline regular
      expression and which `.` refuses. */
  predicate IsLineTerminator(c: char)
  {
    c == '\n' || c == '\r' || c == '\U{2028}' || c == '\U{2029}'
  }

  predicate IsUpperAscii(c: char)
  {
    'A' <= c <= 'Z'
  }
}
