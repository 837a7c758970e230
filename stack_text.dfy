/** The text half of `_trace` (current draft) and `trace` (earlier draft):
    the captured stack text is cut into lines, the first four are dropped,
    the rest is the displayed trace, and the source location is read off
    the first line the relevance test accepts. Also the two relevance tests
    and `util.stripIndent`, which the deferred logger applies to the trace.
    Capturing the stack (`throw Error()`) is not modelled: its text is the
    input. */
module StackText {
  import opened Wrappers
  import opened JsText

  /** `err.stack.split("\n").slice(4)`. */
  function StackLines(stack: string): seq<string>
  {
    var all := Split(stack, '\n');
    if |all| <= 4 then [] else all[4..]
  }

  /** `details[0]`: a newline, then the kept lines joined by newlines. */
  function TraceText(stack: string): string
  {
    "\n" + Join(StackLines(stack), "\n")
  }

  /** No `c` anywhere in `s`. */
  predicate Free(s: string, c: char)
  {
    forall i :: 0 <= i < |s| ==> s[i] != c
  }

  /** Splitting after a piece without separators gives that piece first. */
  lemma {:induction false} SplitAfterPiece(a: string, b: string, sep: char)
    requires Free(a, sep)
    ensures Split(a + [sep] + b, sep) == [a] + Split(b, sep)
    decreases |a|
  {
    if a == [] {
      assert [] + [sep] + b == [sep] + b;
      assert ([sep] + b)[1..] == b;
    } else {
      SplitAfterPiece(a[1..], b, sep);
      assert (a + [sep] + b)[1..] == a[1..] + [sep] + b;
      assert (a + [sep] + b)[0] == a[0];
      assert [a[0]] + a[1..] == a;
    }
  }

  /** The trace is everything after the fourth newline of the stack text,
      behind a newline of its own: the four dropped lines are the error
      line and the frames of the logging code itself. */
  lemma TraceDropsFourLines(l0: string, l1: string, l2: string, l3: string, rest: string)
    requires Free(l0, '\n') && Free(l1, '\n') && Free(l2, '\n') && Free(l3, '\n')
    ensures TraceText(l0 + "\n" + l1 + "\n" + l2 + "\n" + l3 + "\n" + rest) == "\n" + rest
  {
    var s3 := l3 + "\n" + rest;
    var s2 := l2 + "\n" + s3;
    var s1 := l1 + "\n" + s2;
    var s0 := l0 + "\n" + s1;
    assert l0 + "\n" + l1 + "\n" + l2 + "\n" + l3 + "\n" + rest == s0;
    SplitAfterPiece(l3, rest, '\n');
    SplitAfterPiece(l2, s3, '\n');
    SplitAfterPiece(l1, s2, '\n');
    SplitAfterPiece(l0, s1, '\n');
    assert Split(s0, '\n') == [l0, l1, l2, l3] + Split(rest, '\n');
    assert StackLines(s0) == Split(rest, '\n');
    JoinSplit(rest, '\n');
  }

  /** A stack text of at most four lines leaves an empty trace. */
  lemma ShortStackEmptyTrace(stack: string)
    requires |Split(stack, '\n')| <= 4
    ensures TraceText(stack) == "\n"
  {
  }

  /** `_.find(lines, isRelevant)`: the position of the first accepted line,
      or `|lines|` when none is. */
  function FirstRelevant(lines: seq<string>, relevant: string -> bool): (k: nat)
    ensures k <= |lines|
    ensures forall j :: 0 <= j < k ==> !relevant(lines[j])
    ensures k < |lines| ==> relevant(lines[k])
  {
    if lines == [] then 0
    else if relevant(lines[0]) then 0
    else 1 + FirstRelevant(lines[1..], relevant)
  }

  /** The first position at or after `i` that holds a line terminator, or
      `|s|`: where a `.*` starting at `i` must stop. */
  function RunEnd(s: string, i: nat): (e: nat)
    requires i <= |s|
    ensures i <= e <= |s|
    ensures forall t :: i <= t < e ==> !IsLineTerminator(s[t])
    ensures e < |s| ==> IsLineTerminator(s[e])
    decreases |s| - i
  {
    if i == |s| || IsLineTerminator(s[i]) then i else RunEnd(s, i + 1)
  }

  /** The last `)` in `s[lo..hi]`, if there is one. */
  function LastClose(s: string, lo: nat, hi: nat): (q: Option<nat>)
    requires lo <= hi <= |s|
    ensures q.Some? ==> lo <= q.value < hi && s[q.value] == ')'
    ensures q.Some? ==> forall t :: q.value < t < hi ==> s[t] != ')'
    ensures q.None? ==> forall t :: lo <= t < hi ==> s[t] != ')'
    decreases hi - lo
  {
    if lo == hi then None
    else if s[hi - 1] == ')' then Some(hi - 1)
    else LastClose(s, lo, hi - 1)
  }

  /** `/\((.*)\)/` tried at positions `p` onwards: at the first `(` from
      which a `)` is reachable without crossing a line terminator, the
      greedy `.*` runs to the last such `)`; the capture is what lies
      between. */
  function ParenFrom(s: string, p: nat): (r: Option<string>)
    requires p <= |s|
    decreases |s| - p
  {
    if p == |s| then None
    else if s[p] == '(' then
      match LastClose(s, p + 1, RunEnd(s, p + 1))
      case Some(q) => Some(s[p + 1..q])
      case None => ParenFrom(s, p + 1)
    else ParenFrom(s, p + 1)
  }

  /** `line.match(/\((.*)\)/)[1]`, or absent when there is no match. */
  function ParenContent(line: string): (r: Option<string>)
  {
    ParenFrom(line, 0)
  }

  /** No line terminator anywhere in `s`. */
  predicate SingleLine(s: string)
  {
    forall i :: 0 <= i < |s| ==> !IsLineTerminator(s[i])
  }

  /** The first `(` at or after `p`, or `|s|`. */
  function FirstOpen(s: string, p: nat): (i: nat)
    requires p <= |s|
    ensures p <= i <= |s|
    ensures forall t :: p <= t < i ==> s[t] != '('
    ensures i < |s| ==> s[i] == '('
    decreases |s| - p
  {
    if p == |s| || s[p] == '(' then p else FirstOpen(s, p + 1)
  }

  /** The capture `/\((.*)\)/` makes on a line without terminators: the
      text between the first `(` and the last `)` after it, or nothing when
      no `)` follows the first `(`. */
  function SpanOnLine(line: string, p: nat): Option<string>
    requires p <= |line|
  {
    var i := FirstOpen(line, p);
    if i == |line| then None
    else match LastClose(line, i + 1, |line|)
      case Some(j) => Some(line[i + 1..j])
      case None => None
  }

  /** On a line without terminators the regex scan agrees with the
      first-`(`-to-last-`)` reading. */
  lemma {:induction false} ParenOnLine(line: string, p: nat)
    requires SingleLine(line) && p <= |line|
    ensures ParenFrom(line, p) == SpanOnLine(line, p)
    decreases |line| - p
  {
    if p < |line| {
      RunEndOfSingle(line, p + 1);
      if line[p] != '(' {
        ParenOnLine(line, p + 1);
      } else if LastClose(line, p + 1, |line|).None? {
        ParenOnLine(line, p + 1);
      }
    }
  }

  lemma {:induction false} RunEndOfSingle(line: string, i: nat)
    requires SingleLine(line) && i <= |line|
    ensures RunEnd(line, i) == |line|
    decreases |line| - i
  {
    if i < |line| {
      RunEndOfSingle(line, i + 1);
    }
  }

  /** What `_trace` hands back: the trace text, and a location when the
      first accepted line is non-empty (an empty string is falsy) and
      holds a parenthesised part. */
  function Trace(stack: string, relevant: string -> bool): (r: (string, Option<string>))
    ensures r.0 == TraceText(stack)
    ensures r.1.Some? ==>
              var lines := StackLines(stack);
              var k := FirstRelevant(lines, relevant);
              k < |lines| && lines[k] != [] && r.1 == ParenContent(lines[k])
  {
    var lines := StackLines(stack);
    var k := FirstRelevant(lines, relevant);
    var location := if k < |lines| && lines[k] != [] then ParenContent(lines[k]) else None;
    (TraceText(stack), location)
  }

  /** No accepted line means no location; otherwise the location is read
      off the first accepted line, from its first `(` to the last `)` that
      follows it. */
  lemma TraceLocation(stack: string, relevant: string -> bool)
    requires forall k :: 0 <= k < |StackLines(stack)| ==> SingleLine(StackLines(stack)[k])
    ensures (forall k :: 0 <= k < |StackLines(stack)| ==> !relevant(StackLines(stack)[k])) ==>
              Trace(stack, relevant).1.None?
    ensures var lines := StackLines(stack);
            var k := FirstRelevant(lines, relevant);
            k < |lines| && lines[k] != [] ==> Trace(stack, relevant).1 == SpanOnLine(lines[k], 0)
  {
    var lines := StackLines(stack);
    var k := FirstRelevant(lines, relevant);
    if k < |lines| && lines[k] != [] {
      ParenOnLine(lines[k], 0);
    }
  }

  /** The three library names the default relevance test looks for. */
  function LibraryNames(): seq<string>
  {
    ["backbone", "underscore", "jquery"]
  }

  /** What may follow a library name for `(\..+\.|\.)js` to match from
      position `q`: `.js` right away, or a `.`, at least one character that
      is not a line terminator, and `.js`. */
  predicate ScriptSuffixAt(line: string, q: nat)
  {
    exists r :: q <= r <= |line| && OccursAt(line, ".js", r)
      && (r == q || (q < |line| && line[q] == '.' && q + 2 <= r
                     && forall t :: q + 1 <= t < r ==> !IsLineTerminator(line[t])))
  }

  /** `/(backbone|underscore|jquery)(\..+\.|\.)js/.test(line)`. */
  predicate IsLibraryFrame(line: string)
  {
    exists p, w :: 0 <= p <= |line| && w in LibraryNames() && OccursAt(line, w, p) && ScriptSuffixAt(line, p + |w|)
  }

  /** The default `config.isRelevantStackLine` of the current draft: true
      for a line that does not name one of the library scripts, `undefined`
      (falsy) otherwise. */
  predicate IsRelevantStackLine(line: string)
  {
    !IsLibraryFrame(line)
  }

  /** A line that mentions none of the library names is relevant. */
  lemma UnnamedLineRelevant(line: string)
    requires forall w :: w in LibraryNames() ==> !Contains(line, w)
    ensures IsRelevantStackLine(line)
  {
  }

  /** A library name directly followed by `.js`, or by `.`, a name part
      and `.js` (a minified build such as `underscore.min.js`), makes a
      line irrelevant; a name followed by anything else (`backbone-min.js`)
      does not by itself. */
  lemma LibraryFrameCases(pre: string, w: string, mid: string, post: string)
    requires w in LibraryNames() && |mid| > 0 && SingleLine(mid)
    ensures !IsRelevantStackLine(pre + w + ".js" + post)
    ensures !IsRelevantStackLine(pre + w + "." + mid + ".js" + post)
  {
    var l1 := pre + w + ".js" + post;
    assert OccursAt(l1, w, |pre|) by { assert l1[|pre|..|pre| + |w|] == w; }
    assert OccursAt(l1, ".js", |pre| + |w|) by { assert l1[|pre| + |w|..|pre| + |w| + 3] == ".js"; }
    assert ScriptSuffixAt(l1, |pre| + |w|);
    var l2 := pre + w + "." + mid + ".js" + post;
    var q := |pre| + |w|;
    var r := q + 1 + |mid|;
    assert OccursAt(l2, w, |pre|) by { assert l2[|pre|..q] == w; }
    assert OccursAt(l2, ".js", r) by { assert l2[r..r + 3] == ".js"; }
    assert l2[q] == '.';
    assert forall t :: q + 1 <= t < r ==> l2[t] == mid[t - q - 1];
    assert ScriptSuffixAt(l2, q);
  }

  /** `isRelevantLine` of the earlier draft: never for a line that
      mentions `events.js` or `_base.js`; otherwise exactly when it
      mentions `/javascripts/`. */
  function IsRelevantLine(line: string): (b: bool)
    ensures b <==> !Contains(line, "events.js") && !Contains(line, "_base.js") && Contains(line, "/javascripts/")
  {
    if ContainsText(line, "events.js") || ContainsText(line, "_base.js") then false
    else ContainsText(line, "/javascripts/")
  }

  /** A space or a tab: what `[ \t]` matches. */
  predicate IsIndentChar(c: char)
  {
    c == ' ' || c == '\t'
  }

  /** The number of spaces and tabs at the front of `s`. */
  function Run(s: string): (n: nat)
    ensures n <= |s|
    ensures forall k :: 0 <= k < n ==> IsIndentChar(s[k])
    ensures n < |s| ==> !IsIndentChar(s[n])
  {
    if s != [] && IsIndentChar(s[0]) then 1 + Run(s[1..]) else 0
  }

  /** What `^[ \t]*(?=[^\s])` matches at the start of a line: its run of
      spaces and tabs, provided a character that is not white space
      follows the run. */
  function LineIndent(s: string): Option<nat>
  {
    var n := Run(s);
    if n < |s| && !IsJsWhitespace(s[n]) then Some(n) else None
  }

  function MinOpt(a: Option<nat>, b: Option<nat>): (m: Option<nat>)
    ensures m.None? <==> a.None? && b.None?
    ensures m.Some? ==> (a.Some? && m.value == a.value) || (b.Some? && m.value == b.value)
    ensures m.Some? ==> (a.Some? ==> m.value <= a.value) && (b.Some? ==> m.value <= b.value)
  {
    if a.None? then b
    else if b.None? then a
    else if a.value <= b.value then a else b
  }

  /** `Math.min` of the lengths of all matches of `/^[ \t]*(?=[^\s])/gm`:
      `^` holds at the start and after every line terminator; `atStart`
      says whether it holds at the front of `s`. */
  function MinIndent(s: string, atStart: bool): Option<nat>
    decreases |s|
  {
    if s == [] then None
    else MinOpt(if atStart then LineIndent(s) else None, MinIndent(s[1..], IsLineTerminator(s[0])))
  }

  /** `str.replace(/^[ \t]{n}/gm, '')` for `n > 0`: at every line start
      with at least `n` spaces and tabs, the first `n` of them go. */
  function StripLines(s: string, n: nat, atStart: bool): string
    requires n > 0
    decreases |s|
  {
    if s == [] then []
    else if atStart && Run(s) >= n then StripLines(s[n..], n, false)
    else [s[0]] + StripLines(s[1..], n, IsLineTerminator(s[0]))
  }

  /** `util.stripIndent(str)`. */
  function StripIndent(s: string): string
  {
    match MinIndent(s, true)
    case None => s
    case Some(n) => if n > 0 then StripLines(s, n, true) else s
  }

  /** What stripping does to one line. */
  function StripLine(line: string, n: nat): (r: string)
    ensures Run(line) >= n ==> r == line[n..]
    ensures Run(line) < n ==> r == line
  {
    if Run(line) >= n then line[n..] else line
  }

  /** A run of spaces and tabs ends before a line terminator, so the
      indentation of a line does not depend on what follows it. */
  lemma LineIndentOfLine(line: string, t: char, rest: string)
    requires SingleLine(line) && IsLineTerminator(t)
    ensures Run(line + [t] + rest) == Run(line)
    ensures LineIndent(line + [t] + rest) == LineIndent(line)
  {
    RunPrefix(line, [t] + rest);
    assert line + [t] + rest == line + ([t] + rest);
  }

  lemma {:induction false} RunPrefix(line: string, more: string)
    requires SingleLine(line) && (more != [] ==> IsLineTerminator(more[0]))
    ensures Run(line + more) == Run(line)
    decreases |line|
  {
    if line != [] {
      assert (line + more)[1..] == line[1..] + more;
      RunPrefix(line[1..], more);
    } else {
      assert line + more == more;
    }
  }

  /** Inside a line no `^` holds, so the minimum is that of the next line
      on. */
  lemma {:induction false} MinIndentInside(x: string, t: char, rest: string)
    requires SingleLine(x) && IsLineTerminator(t)
    ensures MinIndent(x + [t] + rest, false) == MinIndent(rest, true)
    decreases |x|
  {
    if x == [] {
      assert [] + [t] + rest == [t] + rest;
      assert ([t] + rest)[1..] == rest;
    } else {
      assert (x + [t] + rest)[1..] == x[1..] + [t] + rest;
      MinIndentInside(x[1..], t, rest);
    }
  }

  lemma {:induction false} MinIndentInsideLast(x: string)
    requires SingleLine(x)
    ensures MinIndent(x, false) == None
    decreases |x|
  {
    if x != [] {
      MinIndentInsideLast(x[1..]);
    }
  }

  /** The minimum over a line and the lines after it. */
  lemma MinIndentLines(line: string, t: char, rest: string)
    requires SingleLine(line) && IsLineTerminator(t)
    ensures MinIndent(line + [t] + rest, true) == MinOpt(LineIndent(line), MinIndent(rest, true))
  {
    var s := line + [t] + rest;
    LineIndentOfLine(line, t, rest);
    if line == [] {
      assert s == [t] + rest && s[1..] == rest;
    } else {
      assert s[1..] == line[1..] + [t] + rest;
      MinIndentInside(line[1..], t, rest);
    }
  }

  /** The minimum over a last line (no terminator) is its indentation. */
  lemma MinIndentLast(line: string)
    requires SingleLine(line)
    ensures MinIndent(line, true) == LineIndent(line)
  {
    if line != [] {
      MinIndentInsideLast(line[1..]);
    }
  }

  /** Inside a line nothing is removed. */
  lemma {:induction false} StripInside(x: string, n: nat, t: char, rest: string)
    requires n > 0 && SingleLine(x) && IsLineTerminator(t)
    ensures StripLines(x + [t] + rest, n, false) == x + [t] + StripLines(rest, n, true)
    decreases |x|
  {
    if x == [] {
      assert [] + [t] + rest == [t] + rest;
      assert ([t] + rest)[1..] == rest;
    } else {
      assert (x + [t] + rest)[1..] == x[1..] + [t] + rest;
      StripInside(x[1..], n, t, rest);
    }
  }

  lemma {:induction false} StripInsideLast(x: string, n: nat)
    requires n > 0 && SingleLine(x)
    ensures StripLines(x, n, false) == x
    decreases |x|
  {
    if x != [] {
      StripInsideLast(x[1..], n);
    }
  }

  /** Stripping works line by line: each line that starts with at least
      `n` spaces and tabs loses exactly its first `n` characters, the
      others and every line terminator stay. */
  lemma StripLinesSplit(line: string, t: char, rest: string, n: nat)
    requires n > 0 && SingleLine(line) && IsLineTerminator(t)
    ensures StripLines(line + [t] + rest, n, true) == StripLine(line, n) + [t] + StripLines(rest, n, true)
  {
    var s := line + [t] + rest;
    LineIndentOfLine(line, t, rest);
    if Run(line) >= n {
      assert s[n..] == line[n..] + [t] + rest;
      StripInside(line[n..], n, t, rest);
    } else if line == [] {
      assert s == [t] + rest && s[1..] == rest;
    } else {
      assert s[1..] == line[1..] + [t] + rest;
      StripInside(line[1..], n, t, rest);
      assert [line[0]] + line[1..] == line;
    }
  }

  /** The same for the last line. */
  lemma StripLinesLast(line: string, n: nat)
    requires n > 0 && SingleLine(line)
    ensures StripLines(line, n, true) == StripLine(line, n)
  {
    if Run(line) >= n {
      StripInsideLast(line[n..], n);
    } else if line != [] {
      StripInsideLast(line[1..], n);
      assert [line[0]] + line[1..] == line;
    }
  }

  /** The position of the first line terminator in `s`, or `|s|`. */
  function FirstBreak(s: string): (k: nat)
    ensures k <= |s| && SingleLine(s[..k]) && (k < |s| ==> IsLineTerminator(s[k]))
  {
    RunEnd(s, 0)
  }

  /** Shifting a minimum down by `n`. */
  function Lower(m: Option<nat>, n: nat): Option<nat>
    requires m.Some? ==> m.value >= n
  {
    if m.None? then None else Some(m.value - n)
  }

  /** Stripping `n` from a line whose indentation (if it has one) is at
      least `n` lowers that indentation by `n`; a blank line stays blank. */
  lemma LineIndentAfterStrip(line: string, n: nat)
    requires SingleLine(line) && (LineIndent(line).Some? ==> LineIndent(line).value >= n)
    ensures SingleLine(StripLine(line, n))
    ensures LineIndent(StripLine(line, n)) == Lower(LineIndent(line), n)
  {
    if Run(line) >= n {
      var r := line[n..];
      assert forall k :: 0 <= k < |r| ==> r[k] == line[k + n];
      RunShift(line, n);
    }
  }

  lemma {:induction false} RunShift(s: string, n: nat)
    requires n <= Run(s)
    ensures Run(s[n..]) == Run(s) - n
    decreases n
  {
    if n > 0 {
      assert s[n..] == s[1..][n - 1..];
      RunShift(s[1..], n - 1);
    }
  }

  /** When every line's indentation is at least `n`, stripping `n` lowers
      the minimum by `n`. */
  lemma {:induction false} MinIndentAfterStrip(s: string, n: nat)
    requires n > 0
    requires MinIndent(s, true).Some? ==> MinIndent(s, true).value >= n
    ensures MinIndent(StripLines(s, n, true), true) == Lower(MinIndent(s, true), n)
    decreases |s|
  {
    var k := FirstBreak(s);
    var line := s[..k];
    if k == |s| {
      assert line == s;
      MinIndentLast(s);
      StripLinesLast(s, n);
      LineIndentAfterStrip(s, n);
      MinIndentLast(StripLine(s, n));
    } else {
      var t := s[k];
      var rest := s[k + 1..];
      assert s == line + [t] + rest;
      MinIndentLines(line, t, rest);
      StripLinesSplit(line, t, rest, n);
      MinIndentAfterStrip(rest, n);
      LineIndentAfterStrip(line, n);
      MinIndentLines(StripLine(line, n), t, StripLines(rest, n, true));
    }
  }

  /** `stripIndent` leaves its input as it is when no line has an
      indentation followed by visible text, or when the least such
      indentation is zero; otherwise it removes that many characters from
      every line that starts with at least that many spaces and tabs. */
  lemma StripIndentSpec(s: string)
    ensures MinIndent(s, true).None? || MinIndent(s, true) == Some(0) ==> StripIndent(s) == s
    ensures MinIndent(s, true).Some? && MinIndent(s, true).value > 0 ==>
              StripIndent(s) == StripLines(s, MinIndent(s, true).value, true)
  {
  }

  /** Stripping twice is stripping once: after the first pass the least
      indentation is zero. */
  lemma StripIndentIdempotent(s: string)
    ensures StripIndent(StripIndent(s)) == StripIndent(s)
  {
    var m := MinIndent(s, true);
    if m.Some? && m.value > 0 {
      MinIndentAfterStrip(s, m.value);
    }
  }
}
