/** `util.parseQueryParams`: the query text is scanned with the global
    regular expression `([^&=]+)=?([^&]*)`, each key and value has `+`
    turned into a space and is then percent-decoded, and the pairs are
    stored into a fresh object: a key ending in `[]` collects its values
    into an array, any other key is overwritten. Percent-decoding
    (`decodeURIComponent`) is a parameter; `None` stands for the URIError
    it throws on a malformed escape. The object is a map: the order in
    which its keys would be enumerated is not part of the model. */
module QueryParams {
  import opened Wrappers

  /** A stored value: a string, or the array a `[]` key collects into. */
  datatype Param = One(s: string) | Many(vs: seq<string>)

  type Params = map<string, Param>

  /** A character `[^&=]` does not accept. */
  predicate IsDelimiter(c: char)
  {
    c == '&' || c == '='
  }

  /** The greedy `[^&=]+`: the run at the front of `s` free of `&` and `=`. */
  function KeyEnd(s: string): (n: nat)
    ensures n <= |s|
    ensures forall j :: 0 <= j < n ==> !IsDelimiter(s[j])
    ensures n < |s| ==> IsDelimiter(s[n])
  {
    if s != [] && !IsDelimiter(s[0]) then 1 + KeyEnd(s[1..]) else 0
  }

  /** The greedy `[^&]*`: the run at the front of `s` free of `&`. */
  function ValueEnd(s: string): (n: nat)
    ensures n <= |s|
    ensures forall j :: 0 <= j < n ==> s[j] != '&'
    ensures n < |s| ==> s[n] == '&'
  {
    if s != [] && s[0] != '&' then 1 + ValueEnd(s[1..]) else 0
  }

  /** One match found by `exec`: the two captures and where the match ends. */
  datatype Match = Match(key: string, value: string, end: nat)

  /** The match that starts at the front of `s`: the key run, one `=` if
      one follows it, and the value run. */
  function MatchAt(s: string): (m: Match)
    requires s != [] && !IsDelimiter(s[0])
    ensures 0 < m.end <= |s|
    ensures m.key != [] && m.key <= s
  {
    var e := KeyEnd(s);
    var vs := if e < |s| && s[e] == '=' then e + 1 else e;
    var ve := vs + ValueEnd(s[vs..]);
    Match(s[..e], s[vs..ve], ve)
  }

  /** A key as the scan captures it: non-empty, with no `&` and no `=`. */
  predicate IsKeyText(k: string)
  {
    k != [] && forall j :: 0 <= j < |k| ==> !IsDelimiter(k[j])
  }

  /** A value as the scan captures it: no `&` (an `=` may occur). */
  predicate IsValueText(v: string)
  {
    forall j :: 0 <= j < |v| ==> v[j] != '&'
  }

  /** What one `re.exec` call finds in `s`: the two captures and where the
      match ends, counted from the front of `s`. A match cannot start at
      `&` or `=`, so the engine moves past those one at a time; None once
      only such characters are left. */
  function NextMatch(s: string): (r: Option<Match>)
    ensures r.None? <==> forall j :: 0 <= j < |s| ==> IsDelimiter(s[j])
    ensures r.Some? ==> 0 < r.value.end <= |s| && r.value.key != []
    decreases |s|
  {
    if s == [] then None
    else if IsDelimiter(s[0]) then
      match NextMatch(s[1..])
      case None => None
      case Some(m) => Some(Match(m.key, m.value, 1 + m.end))
    else Some(MatchAt(s))
  }

  /** The successive captures of `re.exec(query)` until it returns null. */
  function Scan(s: string): (tokens: seq<(string, string)>)
    decreases |s|
  {
    match NextMatch(s)
    case None => []
    case Some(m) => [(m.key, m.value)] + Scan(s[m.end..])
  }

  /** `str.replace(/\+/g, " ")`. */
  function PlusToSpace(s: string): (r: string)
    ensures |r| == |s|
    ensures forall j :: 0 <= j < |s| ==> r[j] == if s[j] == '+' then ' ' else s[j]
  {
    if s == [] then [] else [if s[0] == '+' then ' ' else s[0]] + PlusToSpace(s[1..])
  }

  /** The names every plain object inherits from `Object.prototype`: each
      is a truthy value without a `push` method. */
  function ObjectPrototypeNames(): seq<string>
  {
    ["constructor", "hasOwnProperty", "isPrototypeOf", "propertyIsEnumerable",
     "toLocaleString", "toString", "valueOf", "__proto__", "__defineGetter__",
     "__defineSetter__", "__lookupGetter__", "__lookupSetter__"]
  }

  /** Whether `k.substring(k.length - 2) === '[]'`. */
  predicate IsArrayKey(k: string)
  {
    |k| >= 2 && k[|k| - 2..] == "[]"
  }

  /** Storing one decoded pair. For an array key, `params[k] || (params[k]
      = [])` keeps a truthy stored value, so a non-empty string or an
      inherited member gets `push` called on it and throws TypeError,
      while an empty string is replaced by a new array. Assigning a string
      to `__proto__` changes nothing. */
  function Assign(params: Params, k: string, v: string): Result<Params>
  {
    if IsArrayKey(k) then
      var base := k[..|k| - 2];
      if base in params then
        match params[base]
        case One(s) => if s == [] then Ok(params[base := Many([v])]) else Throws(TypeError)
        case Many(vs) => Ok(params[base := Many(vs + [v])])
      else if base in ObjectPrototypeNames() then Throws(TypeError)
      else Ok(params[base := Many([v])])
    else if k == "__proto__" then Ok(params)
    else Ok(params[k := One(v)])
  }

  /** One round of the loop: decode the key, then the value, then store. */
  function Step(params: Params, token: (string, string), uriDecode: string -> Option<string>): Result<Params>
  {
    match uriDecode(PlusToSpace(token.0))
    case None => Throws(URIError)
    case Some(k) =>
      match uriDecode(PlusToSpace(token.1))
      case None => Throws(URIError)
      case Some(v) => Assign(params, k, v)
  }

  /** The loop over all tokens; the first error ends it. */
  function Collect(params: Params, tokens: seq<(string, string)>, uriDecode: string -> Option<string>): Result<Params>
    decreases |tokens|
  {
    if tokens == [] then Ok(params)
    else
      match Step(params, tokens[0], uriDecode)
      case Throws(e) => Throws(e)
      case Ok(next) => Collect(next, tokens[1..], uriDecode)
  }

  /** What `parseQueryParams(query)` returns or throws. */
  function ParseQuery(query: string, uriDecode: string -> Option<string>): Result<Params>
  {
    Collect(map[], Scan(query), uriDecode)
  }

  /** Unfolding `Collect` once. */
  lemma CollectCons(params: Params, token: (string, string), tail: seq<(string, string)>, uriDecode: string -> Option<string>)
    ensures Step(params, token, uriDecode).Throws? ==>
              Collect(params, [token] + tail, uriDecode) == Throws(Step(params, token, uriDecode).error)
    ensures Step(params, token, uriDecode).Ok? ==>
              Collect(params, [token] + tail, uriDecode) == Collect(Step(params, token, uriDecode).value, tail, uriDecode)
  {
    assert ([token] + tail)[0] == token;
    assert ([token] + tail)[1..] == tail;
  }

  /** One round where both captures decode. */
  lemma StepDecoded(params: Params, token: (string, string), uriDecode: string -> Option<string>)
    requires uriDecode(PlusToSpace(token.0)).Some? && uriDecode(PlusToSpace(token.1)).Some?
    ensures Step(params, token, uriDecode)
            == Assign(params, uriDecode(PlusToSpace(token.0)).value, uriDecode(PlusToSpace(token.1)).value)
  {
  }

  /** The `if (k.substring(k.length - 2) === '[]') … else params[k] = v`
      statement of the loop body. */
  method Store(params: Params, k: string, v: string) returns (r: Result<Params>)
    ensures r == Assign(params, k, v)
  {
    var key := k;
    if IsArrayKey(key) {
      key := key[..|key| - 2];
      if key in params && params[key].One? && params[key].s != [] {
        return Throws(TypeError);
      } else if key in params && params[key].Many? {
        return Ok(params[key := Many(params[key].vs + [v])]);
      } else if key !in params && key in ObjectPrototypeNames() {
        return Throws(TypeError);
      } else {
        return Ok(params[key := Many([v])]);
      }
    } else if key != "__proto__" {
      return Ok(params[key := One(v)]);
    }
    return Ok(params);
  }

  /** `re.exec(query)` with `re.lastIndex == last`: the next match, if
      any, and the `lastIndex` it leaves behind. */
  method Exec(query: string, last: nat) returns (found: bool, key: string, value: string, next: nat)
    requires last <= |query|
    ensures !found ==> Scan(query[last..]) == []
    ensures found ==> last < next <= |query|
    ensures found ==> Scan(query[last..]) == [(key, value)] + Scan(query[next..])
  {
    var rest := query[last..];
    ScanNext(rest);
    var m := NextMatch(rest);
    if m.Some? {
      next := last + m.value.end;
      DropDrop(query, last, m.value.end);
      ScanSame(rest[m.value.end..], query[next..]);
      found, key, value := true, m.value.key, m.value.value;
    } else {
      found, key, value, next := false, [], [], last;
    }
  }

  /** `Scan` unfolded once. */
  lemma ScanNext(s: string)
    ensures NextMatch(s).None? ==> Scan(s) == []
    ensures NextMatch(s).Some? ==> Scan(s) == [(NextMatch(s).value.key, NextMatch(s).value.value)] + Scan(s[NextMatch(s).value.end..])
  {
  }

  lemma ScanSame(s: string, t: string)
    requires s == t
    ensures Scan(s) == Scan(t)
  {
  }

  lemma DropDrop(s: string, a: nat, b: nat)
    requires a + b <= |s|
    ensures s[a..][b..] == s[a + b..]
  {
  }

  /** The exec loop itself. */
  method ParseQueryParams(query: string, uriDecode: string -> Option<string>) returns (r: Result<Params>)
    ensures r == ParseQuery(query, uriDecode)
  {
    var params: Params := map[];
    var last := 0;
    assert query[0..] == query;
    ghost var left := Scan(query);
    ghost var goal := ParseQuery(query, uriDecode);
    while true
      invariant last <= |query|
      invariant left == Scan(query[last..])
      invariant Collect(params, left, uriDecode) == goal
      decreases |query| - last
    {
      var found, key, value, next := Exec(query, last);
      if !found {
        return Ok(params);
      }
      ghost var tail := Scan(query[next..]);
      CollectCons(params, (key, value), tail, uriDecode);
      var k := uriDecode(PlusToSpace(key));
      if k.None? {
        return Throws(URIError);
      }
      var v := uriDecode(PlusToSpace(value));
      if v.None? {
        return Throws(URIError);
      }
      StepDecoded(params, (key, value), uriDecode);
      var stored := Store(params, k.value, v.value);
      if stored.Throws? {
        return Throws(stored.error);
      }
      params := stored.value;
      last := next;
      left := tail;
    }
  }

  /** Pairs written back as a query: `k=v` joined by `&`. */
  function Render(pairs: seq<(string, string)>): string
  {
    if pairs == [] then []
    else if |pairs| == 1 then pairs[0].0 + "=" + pairs[0].1
    else pairs[0].0 + "=" + pairs[0].1 + "&" + Render(pairs[1..])
  }

  /** Leading `&` and `=` are skipped: the scan never yields an empty key. */
  lemma SkipsDelimiter(c: char, s: string)
    requires IsDelimiter(c)
    ensures Scan([c] + s) == Scan(s)
  {
    var t := [c] + s;
    assert t[0] == c && t[1..] == s;
    SkipFront(t);
  }

  lemma SkipFront(s: string)
    requires s != [] && IsDelimiter(s[0])
    ensures Scan(s) == Scan(s[1..])
  {
    ScanNext(s);
    ScanNext(s[1..]);
    var n := NextMatch(s[1..]);
    if n.Some? {
      DropDrop(s, 1, n.value.end);
      ScanSame(s[1..][n.value.end..], s[1 + n.value.end..]);
    }
  }

  /** A key run stops at the first `&` or `=`. */
  lemma KeyEndOf(k: string, rest: string)
    requires forall j :: 0 <= j < |k| ==> !IsDelimiter(k[j])
    requires rest != [] && IsDelimiter(rest[0])
    ensures KeyEnd(k + rest) == |k|
  {
    assert (k + rest)[|k|] == rest[0];
  }

  /** A value run stops at the first `&`. */
  lemma ValueEndOf(v: string, rest: string)
    requires IsValueText(v) && (rest != [] ==> rest[0] == '&')
    ensures ValueEnd(v + rest) == |v|
  {
    if rest != [] {
      assert (v + rest)[|v|] == rest[0];
    }
  }

  /** The match at the front of `k=v…`. */
  lemma MatchPair(k: string, v: string, tail: string)
    requires IsKeyText(k) && IsValueText(v) && (tail != [] ==> tail[0] == '&')
    ensures MatchAt(k + "=" + v + tail) == Match(k, v, |k| + 1 + |v|)
  {
    var rest := "=" + v + tail;
    var s := k + rest;
    PairConcat(k, v, tail);
    KeyEndOf(k, rest);
    assert s[|k|] == '=';
    assert s[|k| + 1..] == v + tail;
    ValueEndOf(v, tail);
    assert s[..|k|] == k;
    assert s[|k| + 1..|k| + 1 + |v|] == v;
  }

  lemma PairConcat(k: string, v: string, tail: string)
    ensures k + "=" + v + tail == k + ("=" + v + tail)
  {
  }

  /** The first pair of a rendered query is scanned back exactly. */
  lemma ScanPair(k: string, v: string, tail: string)
    requires IsKeyText(k) && IsValueText(v) && (tail != [] ==> tail[0] == '&')
    ensures Scan(k + "=" + v + tail) == [(k, v)] + Scan(tail)
  {
    var s := k + "=" + v + tail;
    assert s[0] == k[0];
    MatchPair(k, v, tail);
    assert NextMatch(s) == Some(Match(k, v, |k| + 1 + |v|));
    ScanNext(s);
    assert s[|k| + 1 + |v|..] == tail;
    ScanSame(s[|k| + 1 + |v|..], tail);
  }

  /** What `Render` produces scans back to the same pairs: keys are kept
      whole, values are kept whole, and nothing extra appears. */
  lemma {:induction false} ScanRender(pairs: seq<(string, string)>)
    requires forall i :: 0 <= i < |pairs| ==> IsKeyText(pairs[i].0) && IsValueText(pairs[i].1)
    ensures Scan(Render(pairs)) == pairs
    decreases |pairs|
  {
    if pairs == [] {
      assert Render(pairs) == [];
    } else if |pairs| == 1 {
      ScanRenderOne(pairs);
    } else {
      ScanRender(pairs[1..]);
      ScanRenderStep(pairs);
    }
  }

  lemma ScanRenderOne(pairs: seq<(string, string)>)
    requires |pairs| == 1 && IsKeyText(pairs[0].0) && IsValueText(pairs[0].1)
    ensures Scan(Render(pairs)) == pairs
  {
    ScanPair(pairs[0].0, pairs[0].1, []);
    assert Render(pairs) == pairs[0].0 + "=" + pairs[0].1 + [];
    ScanSame(Render(pairs), pairs[0].0 + "=" + pairs[0].1 + []);
    assert Scan([]) == [];
  }

  lemma ScanRenderStep(pairs: seq<(string, string)>)
    requires |pairs| > 1 && IsKeyText(pairs[0].0) && IsValueText(pairs[0].1)
    requires Scan(Render(pairs[1..])) == pairs[1..]
    ensures Scan(Render(pairs)) == pairs
  {
    var r := Render(pairs[1..]);
    var tail := "&" + r;
    assert Render(pairs) == pairs[0].0 + "=" + pairs[0].1 + tail;
    ScanSame(Render(pairs), pairs[0].0 + "=" + pairs[0].1 + tail);
    ScanPair(pairs[0].0, pairs[0].1, tail);
    SkipsDelimiter('&', r);
    assert [pairs[0]] + pairs[1..] == pairs;
  }

  /** A key with no `=` after it gets the empty value. */
  lemma KeyWithoutValue(k: string, rest: string)
    requires IsKeyText(k)
    ensures Scan(k + "&" + rest) == [(k, "")] + Scan(rest)
  {
    var s := k + "&" + rest;
    assert s[|k|] == '&';
    assert KeyEnd(s) == |k|;
    assert s[|k|..] == "&" + rest;
    assert ValueEnd(s[|k|..]) == 0;
    assert s[0] == k[0];
    var m := MatchAt(s);
    assert m == Match(k, "", |k|);
    assert NextMatch(s) == Some(m);
    ScanNext(s);
    ScanSame(s[|k|..], "&" + rest);
    SkipsDelimiter('&', rest);
  }

  /** The decoder leaves text without escapes alone, as
      `decodeURIComponent` does. */
  ghost predicate DecodesPlainText(uriDecode: string -> Option<string>)
  {
    forall s :: '%' !in s ==> uriDecode(s) == Some(s)
  }

  /** Text the decoder and the `+` rewrite leave unchanged. */
  predicate IsPlainText(s: string)
  {
    '%' !in s && '+' !in s
  }

  lemma PlainDecodes(s: string, uriDecode: string -> Option<string>)
    requires DecodesPlainText(uriDecode) && IsPlainText(s)
    ensures uriDecode(PlusToSpace(s)) == Some(s)
  {
    assert PlusToSpace(s) == s;
  }

  /** Decoding leaves plain text alone, so a plain pair is stored as is. */
  lemma StepPlain(params: Params, k: string, v: string, uriDecode: string -> Option<string>)
    requires DecodesPlainText(uriDecode) && IsPlainText(k) && IsPlainText(v)
    ensures Step(params, (k, v), uriDecode) == Assign(params, k, v)
  {
    PlainDecodes(k, uriDecode);
    PlainDecodes(v, uriDecode);
  }

  /** `base + "[]"` is an array key for `base`. */
  lemma ArrayKeyBase(base: string)
    ensures IsArrayKey(base + "[]") && (base + "[]")[..|base|] == base
  {
    assert (base + "[]")[|base|..] == "[]";
  }

  /** Whether the pair at `i` is the last one with its key. */
  predicate IsLastOfKey(pairs: seq<(string, string)>, i: nat)
    requires i < |pairs|
  {
    forall j :: i < j < |pairs| ==> pairs[j].0 != pairs[i].0
  }

  /** Plain keys: every key ends up holding the value of its last
      occurrence, keys that do not occur keep what they had, and nothing
      else is added. */
  lemma PlainKeysLastWins(params: Params, pairs: seq<(string, string)>, uriDecode: string -> Option<string>)
    requires DecodesPlainText(uriDecode)
    requires forall i :: 0 <= i < |pairs| ==> IsPlainText(pairs[i].0) && IsPlainText(pairs[i].1)
    requires forall i :: 0 <= i < |pairs| ==> !IsArrayKey(pairs[i].0) && pairs[i].0 != "__proto__"
    ensures Collect(params, pairs, uriDecode).Ok?
    ensures var m := Collect(params, pairs, uriDecode).value;
            (forall k :: k in m <==> k in params || exists i :: 0 <= i < |pairs| && pairs[i].0 == k)
            && (forall i :: 0 <= i < |pairs| && IsLastOfKey(pairs, i) ==> m[pairs[i].0] == One(pairs[i].1))
            && (forall k :: k in params && (forall i :: 0 <= i < |pairs| ==> pairs[i].0 != k) ==> m[k] == params[k])
  {
    CollectPlain(params, pairs, uriDecode);
    OverwriteKeys(params, pairs);
    OverwriteLast(params, pairs);
    OverwriteUntouched(params, pairs);
  }

  /** Plain pairs stored one after another, each overwriting its key. */
  function Overwrite(params: Params, pairs: seq<(string, string)>): Params
    decreases |pairs|
  {
    if pairs == [] then params else Overwrite(params[pairs[0].0 := One(pairs[0].1)], pairs[1..])
  }

  lemma {:induction false} CollectPlain(params: Params, pairs: seq<(string, string)>, uriDecode: string -> Option<string>)
    requires DecodesPlainText(uriDecode)
    requires forall i :: 0 <= i < |pairs| ==> IsPlainText(pairs[i].0) && IsPlainText(pairs[i].1)
    requires forall i :: 0 <= i < |pairs| ==> !IsArrayKey(pairs[i].0) && pairs[i].0 != "__proto__"
    ensures Collect(params, pairs, uriDecode) == Ok(Overwrite(params, pairs))
    decreases |pairs|
  {
    if pairs != [] {
      StepPlain(params, pairs[0].0, pairs[0].1, uriDecode);
      var next := params[pairs[0].0 := One(pairs[0].1)];
      assert Step(params, pairs[0], uriDecode) == Ok(next);
      CollectCons(params, pairs[0], pairs[1..], uriDecode);
      assert [pairs[0]] + pairs[1..] == pairs;
      CollectPlain(next, pairs[1..], uriDecode);
    }
  }

  lemma {:induction false} OverwriteKeys(params: Params, pairs: seq<(string, string)>)
    ensures forall k :: k in Overwrite(params, pairs) <==> k in params || exists i :: 0 <= i < |pairs| && pairs[i].0 == k
    decreases |pairs|
  {
    if pairs != [] {
      var next := params[pairs[0].0 := One(pairs[0].1)];
      OverwriteKeys(next, pairs[1..]);
      var m := Overwrite(params, pairs);
      assert m == Overwrite(next, pairs[1..]);
      forall k | k in m ensures k in params || exists i :: 0 <= i < |pairs| && pairs[i].0 == k {
        if k !in params && k != pairs[0].0 {
          var i :| 0 <= i < |pairs[1..]| && pairs[1..][i].0 == k;
          assert pairs[i + 1].0 == k;
        }
      }
      forall k | k in params || (exists i :: 0 <= i < |pairs| && pairs[i].0 == k) ensures k in m {
        if k !in params && k != pairs[0].0 {
          var i :| 0 <= i < |pairs| && pairs[i].0 == k;
          assert pairs[1..][i - 1].0 == k;
        }
      }
    }
  }

  lemma {:induction false} OverwriteLast(params: Params, pairs: seq<(string, string)>)
    ensures forall i :: 0 <= i < |pairs| && IsLastOfKey(pairs, i) ==>
              pairs[i].0 in Overwrite(params, pairs) && Overwrite(params, pairs)[pairs[i].0] == One(pairs[i].1)
    decreases |pairs|
  {
    if pairs != [] {
      var next := params[pairs[0].0 := One(pairs[0].1)];
      OverwriteLast(next, pairs[1..]);
      OverwriteUntouched(next, pairs[1..]);
      forall i | 0 <= i < |pairs| && IsLastOfKey(pairs, i)
        ensures pairs[i].0 in Overwrite(params, pairs) && Overwrite(params, pairs)[pairs[i].0] == One(pairs[i].1)
      {
        if i > 0 {
          assert pairs[1..][i - 1] == pairs[i];
          assert IsLastOfKey(pairs[1..], i - 1);
        } else {
          forall j | 0 <= j < |pairs[1..]| ensures pairs[1..][j].0 != pairs[0].0 {
            assert pairs[1..][j] == pairs[j + 1];
          }
        }
      }
    }
  }

  lemma {:induction false} OverwriteUntouched(params: Params, pairs: seq<(string, string)>)
    ensures forall k :: k in params && (forall i :: 0 <= i < |pairs| ==> pairs[i].0 != k) ==>
              k in Overwrite(params, pairs) && Overwrite(params, pairs)[k] == params[k]
    decreases |pairs|
  {
    if pairs != [] {
      var next := params[pairs[0].0 := One(pairs[0].1)];
      OverwriteUntouched(next, pairs[1..]);
      forall k | k in params && (forall i :: 0 <= i < |pairs| ==> pairs[i].0 != k)
        ensures k in Overwrite(params, pairs) && Overwrite(params, pairs)[k] == params[k]
      {
        assert pairs[0].0 != k;
        forall i | 0 <= i < |pairs[1..]| ensures pairs[1..][i].0 != k {
          assert pairs[1..][i] == pairs[i + 1];
        }
      }
    }
  }

  /** The pairs `base[]=v` for each `v` of `values`, in order. */
  function ArrayTokens(base: string, values: seq<string>): seq<(string, string)>
  {
    if values == [] then [] else [(base + "[]", values[0])] + ArrayTokens(base, values[1..])
  }

  /** A run of `[]` keys with one base collects its values in order,
      appended to an array already stored under that base. */
  lemma {:induction false} ArrayKeysCollect(params: Params, base: string, values: seq<string>, uriDecode: string -> Option<string>)
    requires DecodesPlainText(uriDecode) && IsPlainText(base)
    requires forall i :: 0 <= i < |values| ==> IsPlainText(values[i])
    requires base in params && params[base].Many?
    ensures Collect(params, ArrayTokens(base, values), uriDecode) == Ok(params[base := Many(params[base].vs + values)])
    decreases |values|
  {
    var key := base + "[]";
    if values == [] {
      assert params[base].vs + values == params[base].vs;
      assert Many(params[base].vs) == params[base];
      assert params[base := params[base]] == params;
      assert ArrayTokens(base, values) == [];
    } else {
      ArrayTokenStep(params, base, values, uriDecode);
      var next := params[base := Many(params[base].vs + [values[0]])];
      ArrayKeysCollect(next, base, values[1..], uriDecode);
      AppendMany(params, base, values);
    }
  }

  /** The first `base[]=v` token appends `v`. */
  lemma ArrayTokenStep(params: Params, base: string, values: seq<string>, uriDecode: string -> Option<string>)
    requires DecodesPlainText(uriDecode) && IsPlainText(base)
    requires values != [] && IsPlainText(values[0])
    requires base in params && params[base].Many?
    ensures Collect(params, ArrayTokens(base, values), uriDecode)
            == Collect(params[base := Many(params[base].vs + [values[0]])], ArrayTokens(base, values[1..]), uriDecode)
  {
    var key := base + "[]";
    assert IsPlainText(key);
    StepPlain(params, key, values[0], uriDecode);
    ArrayKeyBase(base);
    var next := params[base := Many(params[base].vs + [values[0]])];
    assert Assign(params, key, values[0]) == Ok(next);
    CollectCons(params, (key, values[0]), ArrayTokens(base, values[1..]), uriDecode);
  }

  lemma AppendMany(params: Params, base: string, values: seq<string>)
    requires base in params && params[base].Many? && values != []
    ensures var next := params[base := Many(params[base].vs + [values[0]])];
            next[base := Many(next[base].vs + values[1..])] == params[base := Many(params[base].vs + values)]
  {
    assert params[base].vs + [values[0]] + values[1..] == params[base].vs + values;
  }

  /** The first `[]` occurrence of a fresh base starts the array. */
  lemma ArrayKeyStarts(params: Params, base: string, v: string, uriDecode: string -> Option<string>)
    requires DecodesPlainText(uriDecode) && IsPlainText(base) && IsPlainText(v)
    requires base !in params && base !in ObjectPrototypeNames()
    ensures Step(params, (base + "[]", v), uriDecode) == Ok(params[base := Many([v])])
  {
    assert IsPlainText(base + "[]");
    StepPlain(params, base + "[]", v, uriDecode);
    ArrayKeyBase(base);
  }

  /** A plain key followed by the same key with `[]`: an empty first value
      is falsy and gives way to an array, a non-empty one has no `push`
      and the call throws TypeError. */
  lemma PlainThenArray(params: Params, base: string, v: string, w: string, uriDecode: string -> Option<string>)
    requires DecodesPlainText(uriDecode) && IsPlainText(base) && IsPlainText(v) && IsPlainText(w)
    requires !IsArrayKey(base) && base != "__proto__"
    ensures Collect(params, [(base, v), (base + "[]", w)], uriDecode)
            == if v == [] then Ok(params[base := Many([w])]) else Throws(TypeError)
  {
    var key := base + "[]";
    assert IsPlainText(key);
    StepPlain(params, base, v, uriDecode);
    var next := params[base := One(v)];
    StepPlain(next, key, w, uriDecode);
    ArrayKeyBase(base);
    CollectCons(params, (base, v), [(key, w)], uriDecode);
    assert [(base, v)] + [(key, w)] == [(base, v), (key, w)];
    CollectCons(next, (key, w), [], uriDecode);
    assert [(key, w)] + [] == [(key, w)];
    assert base in next && next[base] == One(v);
    if v == [] {
      assert Assign(next, key, w) == Ok(next[base := Many([w])]);
      assert next[base := Many([w])] == params[base := Many([w])];
    } else {
      assert Assign(next, key, w) == Throws(TypeError);
    }
  }

  /** A malformed escape anywhere in the first key makes the whole call
      throw URIError, whatever follows. */
  lemma BadKeyThrows(k: string, v: string, tail: string, uriDecode: string -> Option<string>)
    requires IsKeyText(k) && IsValueText(v) && (tail != [] ==> tail[0] == '&')
    requires uriDecode(PlusToSpace(k)).None?
    ensures ParseQuery(k + "=" + v + tail, uriDecode) == Throws(URIError)
  {
    ScanPair(k, v, tail);
  }
}
