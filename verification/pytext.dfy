/** The parts of Python's `str` that the column codec and the merger rely on:
    `isspace`, `endswith`, `sep.join`, `strip()` and the no-argument `split()`. */
module PyText {

  /** A character Python counts as whitespace (`str.isspace`); both the
      no-argument `strip()` and the no-argument `split()` use exactly this set. */
  predicate IsSpace(c: char) {
    || ('\t' <= c <= '\r')           // tab, line feed, vertical tab, form feed, carriage return
    || ('\U{1C}' <= c <= ' ')         // file, group, record and unit separators, space
    || c == '\U{85}' || c == '\U{A0}' || c == '\U{1680}'
    || ('\U{2000}' <= c <= '\U{200A}')
    || c == '\U{2028}' || c == '\U{2029}' || c == '\U{202F}' || c == '\U{205F}'
    || c == '\U{3000}'
  }

  /** Every character of `s` is whitespace (true of the empty string). */
  predicate AllSpace(s: string) {
    forall i :: 0 <= i < |s| ==> IsSpace(s[i])
  }

  /** No character of `s` is whitespace. */
  predicate NoSpace(s: string) {
    forall i :: 0 <= i < |s| ==> !IsSpace(s[i])
  }

  /** A token of `split()`: a non-empty run of non-whitespace characters. */
  predicate IsToken(s: string) {
    |s| > 0 && NoSpace(s)
  }

  /** Neither the first nor the last character of `s` is whitespace. */
  predicate NoEdgeSpace(s: string) {
    s == [] || (!IsSpace(s[0]) && !IsSpace(s[|s| - 1]))
  }

  /** `s.endswith(suffix)`; every string ends with the empty string. */
  predicate EndsWith(s: string, suffix: string) {
    |suffix| <= |s| && s[|s| - |suffix|..] == suffix
  }

  /** `s.startswith(prefix)`. */
  predicate StartsWith(s: string, prefix: string) {
    |prefix| <= |s| && s[..|prefix|] == prefix
  }

  /** `sep.join(parts)`: the parts in order with `sep` between neighbours. */
  function Join(sep: string, parts: seq<string>): string {
    if |parts| == 0 then ""
    else if |parts| == 1 then parts[0]
    else parts[0] + sep + Join(sep, parts[1..])
  }

  /** `s.lstrip()`: drops the leading whitespace (see `StripLeftCut`). */
  function StripLeft(s: string): (r: string)
    ensures |r| <= |s|
    ensures r == [] || !IsSpace(r[0])
  {
    if s != [] && IsSpace(s[0]) then StripLeft(s[1..]) else s
  }

  /** `s.rstrip()`: drops the trailing whitespace (see `StripRightCut`). */
  function StripRight(s: string): (r: string)
    ensures |r| <= |s| && r == s[..|r|]
    ensures r == [] || !IsSpace(r[|r| - 1])
  {
    if s != [] && IsSpace(s[|s| - 1]) then StripRight(s[..|s| - 1]) else s
  }

  /** `s.strip()`: the middle of `s` once the whitespace at both ends is cut off. */
  function Strip(s: string): (r: string)
    ensures NoEdgeSpace(r)
  {
    StripRight(StripLeft(s))
  }

  /** Number of characters before the first whitespace character of `s`. */
  function TokenLength(s: string): (n: nat)
    ensures n <= |s|
    ensures NoSpace(s[..n])
    ensures n < |s| ==> IsSpace(s[n])
  {
    if s == [] || IsSpace(s[0]) then 0 else 1 + TokenLength(s[1..])
  }

  /** Python's no-argument `s.split()`: the maximal runs of non-whitespace
      characters, in order; runs of whitespace separate, and the whitespace at
      either end yields no empty token. */
  function Split(s: string): (r: seq<string>)
    ensures forall k :: 0 <= k < |r| ==> IsToken(r[k])
    decreases |s|
  {
    var t := StripLeft(s);
    if t == [] then []
    else
      var n := TokenLength(t);
      assert n > 0;
      [t[..n]] + Split(t[n..])
  }

  // ---------------------------------------------------------------------------
  // Facts about the functions above
  // ---------------------------------------------------------------------------

  /** What `lstrip()` removes is a prefix made only of whitespace. */
  lemma {:induction false} StripLeftCut(s: string)
    ensures var r := StripLeft(s);
      r == s[|s| - |r|..] && AllSpace(s[..|s| - |r|])
  {
    if s != [] && IsSpace(s[0]) {
      StripLeftCut(s[1..]);
      var r := StripLeft(s[1..]);
      var k := |s| - |r|;
      assert s[1..][..|s| - 1 - |r|] == s[1..k];
      assert s[..k] == [s[0]] + s[1..k];
      assert s[1..][|s| - 1 - |r|..] == s[k..];
    } else {
      assert s[..0] == [];
    }
  }

  /** What `rstrip()` removes is a suffix made only of whitespace. */
  lemma {:induction false} StripRightCut(s: string)
    ensures AllSpace(s[|StripRight(s)|..])
  {
    if s != [] && IsSpace(s[|s| - 1]) {
      var t := s[..|s| - 1];
      StripRightCut(t);
      var n := |StripRight(t)|;
      assert s[n..] == t[n..] + [s[|s| - 1]];
    } else {
      assert s[|s|..] == [];
    }
  }

  /** `strip()` removes whitespace and only whitespace, and only at the ends:
      what it keeps is a contiguous middle part of `s`. */
  lemma StripCutsOnlySpace(s: string)
    ensures var r := Strip(s);
      exists i :: 0 <= i <= |s| - |r| && s[i..i + |r|] == r && AllSpace(s[..i]) && AllSpace(s[i + |r|..])
  {
    var l := StripLeft(s);
    var r := StripRight(l);
    var i := |s| - |l|;
    StripLeftCut(s);
    StripRightCut(l);
    assert l == s[i..];
    assert s[i..i + |r|] == r;
    assert s[i + |r|..] == l[|r|..];
    assert 0 <= i <= |s| - |r| && s[i..i + |r|] == r && AllSpace(s[..i]) && AllSpace(s[i + |r|..]);
  }

  /** `strip()` leaves a string that has no whitespace at either end unchanged. */
  lemma StripKeeps(s: string)
    requires NoEdgeSpace(s)
    ensures Strip(s) == s
  {
    if s != [] {
      assert StripLeft(s) == s;
      assert StripRight(s) == s;
    }
  }

  /** Stripping twice is stripping once. */
  lemma StripIdempotent(s: string)
    ensures Strip(Strip(s)) == Strip(s)
  {
    StripKeeps(Strip(s));
  }

  /** Leading whitespace is invisible to `lstrip()`. */
  lemma {:induction false} StripLeftSkipsSpace(w: string, x: string)
    requires AllSpace(w)
    ensures StripLeft(w + x) == StripLeft(x)
  {
    if w != [] {
      assert (w + x)[0] == w[0] && IsSpace(w[0]);
      assert (w + x)[1..] == w[1..] + x;
      assert AllSpace(w[1..]);
      calc {
        StripLeft(w + x);
        StripLeft(w[1..] + x);
        { StripLeftSkipsSpace(w[1..], x); }
        StripLeft(x);
      }
    } else {
      assert w + x == x;
    }
  }

  /** A token followed by nothing or by whitespace is read as one whole token. */
  lemma {:induction false} TokenLengthOfToken(t: string, rest: string)
    requires NoSpace(t)
    requires rest == [] || IsSpace(rest[0])
    ensures TokenLength(t + rest) == |t|
  {
    if t != [] {
      assert (t + rest)[1..] == t[1..] + rest;
      TokenLengthOfToken(t[1..], rest);
    }
  }

  /** Joining tokens with a whitespace separator never puts whitespace at the ends. */
  lemma {:induction false} JoinTokensNoEdgeSpace(sep: string, ts: seq<string>)
    requires forall k :: 0 <= k < |ts| ==> IsToken(ts[k])
    ensures NoEdgeSpace(Join(sep, ts))
  {
    if |ts| > 1 {
      assert IsToken(ts[0]);
      JoinTokensNoEdgeSpace(sep, ts[1..]);
      var j := Join(sep, ts[1..]);
      assert Join(sep, ts) == ts[0] + sep + j;
      assert Join(sep, ts)[|Join(sep, ts)| - 1] == j[|j| - 1];
    }
  }

  /** Joining whitespace-free pieces with a whitespace-free separator gives a
      whitespace-free string. */
  lemma {:induction false} JoinNoSpace(sep: string, ts: seq<string>)
    requires NoSpace(sep)
    requires forall k :: 0 <= k < |ts| ==> NoSpace(ts[k])
    ensures NoSpace(Join(sep, ts))
  {
    if |ts| > 1 {
      JoinNoSpace(sep, ts[1..]);
      var j := Join(sep, ts[1..]);
      var s := ts[0] + sep + j;
      forall i | 0 <= i < |s|
        ensures !IsSpace(s[i])
      {
        if i < |ts[0]| {
          assert s[i] == ts[0][i];
        } else if i < |ts[0]| + |sep| {
          assert s[i] == sep[i - |ts[0]|];
        } else {
          assert s[i] == j[i - |ts[0]| - |sep|];
        }
      }
    }
  }

  /** A string with no whitespace splits into at most one token. */
  lemma SplitNoSpace(s: string)
    requires NoSpace(s)
    ensures |Split(s)| <= 1
  {
    if s != [] {
      assert StripLeft(s) == s;
      TokenLengthOfToken(s, []);
      assert s[|s|..] == [];
    }
  }

  /** Leading whitespace is invisible to `split()`. */
  lemma SplitSkipsSpace(w: string, x: string)
    requires AllSpace(w)
    ensures Split(w + x) == Split(x)
  {
    StripLeftSkipsSpace(w, x);
  }

  /** A token followed by nothing or by whitespace is the first token of `split()`. */
  lemma SplitAfterToken(t: string, rest: string)
    requires IsToken(t)
    requires rest == [] || IsSpace(rest[0])
    ensures Split(t + rest) == [t] + Split(rest)
  {
    var s := t + rest;
    assert s[0] == t[0];
    assert StripLeft(s) == s;
    TokenLengthOfToken(t, rest);
    assert s[..|t|] == t;
    assert s[|t|..] == rest;
  }

  /** A lone token splits to itself. */
  lemma SplitSingleToken(t: string)
    requires IsToken(t)
    ensures Split(t) == [t]
  {
    SplitAfterToken(t, []);
    assert t + [] == t;
    assert StripLeft([]) == [];
    assert Split([]) == [];
    assert [t] + [] == [t];
  }

  /** One step of the round trip below: a token in front of an already
      splittable join. */
  lemma SplitJoinCons(sep: string, ts: seq<string>)
    requires sep != [] && AllSpace(sep)
    requires |ts| > 1 && IsToken(ts[0])
    requires Split(Join(sep, ts[1..])) == ts[1..]
    ensures Split(Join(sep, ts)) == ts
  {
    var t, j := ts[0], Join(sep, ts[1..]);
    assert (sep + j)[0] == sep[0] && IsSpace(sep[0]);
    calc {
      Split(Join(sep, ts));
      { assert Join(sep, ts) == t + (sep + j); }
      Split(t + (sep + j));
      { SplitAfterToken(t, sep + j); }
      [t] + Split(sep + j);
      { SplitSkipsSpace(sep, j); }
      [t] + ts[1..];
      { assert [ts[0]] + ts[1..] == ts; }
      ts;
    }
  }

  /** Round trip of `split()` and `join`: tokens joined by a non-empty
      whitespace separator split back into exactly those tokens. */
  lemma {:induction false} SplitJoin(sep: string, ts: seq<string>)
    requires sep != [] && AllSpace(sep)
    requires forall k :: 0 <= k < |ts| ==> IsToken(ts[k])
    ensures Split(Join(sep, ts)) == ts
  {
    if |ts| == 1 {
      SplitSingleToken(ts[0]);
      assert [ts[0]] == ts;
    } else if |ts| > 1 {
      SplitJoin(sep, ts[1..]);
      SplitJoinCons(sep, ts);
    }
  }

  /** A string made only of whitespace has no tokens. */
  lemma SplitAllSpace(w: string)
    requires AllSpace(w)
    ensures Split(w) == []
  {
    SplitSkipsSpace(w, []);
    assert w + [] == w;
  }

  /** The leading-whitespace step of `SplitAtSpace`. */
  lemma SplitAtSpaceSkip(c: char, x: string, w: string, y: string)
    requires IsSpace(c)
    requires Split(x + w + y) == Split(x) + Split(y)
    ensures Split([c] + x + w + y) == Split([c] + x) + Split(y)
  {
    assert AllSpace([c]);
    assert [c] + x + w + y == [c] + (x + w + y);
    SplitSkipsSpace([c], x + w + y);
    SplitSkipsSpace([c], x);
  }

  /** The leading-token step of `SplitAtSpace`. */
  lemma SplitAtSpaceToken(t: string, rest: string, w: string, y: string)
    requires IsToken(t) && (rest == [] || IsSpace(rest[0]))
    requires w != [] && IsSpace(w[0])
    requires Split(rest + w + y) == Split(rest) + Split(y)
    ensures Split(t + (rest + w + y)) == Split(t + rest) + Split(y)
  {
    var tail := rest + w + y;
    assert IsSpace(tail[0]) by {
      if rest != [] { assert tail[0] == rest[0]; } else { assert tail[0] == w[0]; }
    }
    calc {
      Split(t + tail);
      { SplitAfterToken(t, tail); }
      [t] + Split(tail);
      [t] + (Split(rest) + Split(y));
      ([t] + Split(rest)) + Split(y);
      { SplitAfterToken(t, rest); }
      Split(t + rest) + Split(y);
    }
  }

  /** Any non-empty run of whitespace separates tokens, whatever it is made
      of: the tokens of `x + w + y` are those of `x` followed by those of `y`. */
  lemma {:induction false} SplitAtSpace(x: string, w: string, y: string)
    requires w != [] && AllSpace(w)
    ensures Split(x + w + y) == Split(x) + Split(y)
    decreases |x|
  {
    if x == [] {
      assert x + w + y == w + y;
      SplitSkipsSpace(w, y);
      assert Split(x) == [] by { assert StripLeft(x) == []; }
    } else if IsSpace(x[0]) {
      SplitAtSpace(x[1..], w, y);
      SplitAtSpaceSkip(x[0], x[1..], w, y);
      assert [x[0]] + x[1..] == x;
    } else {
      var n := TokenLength(x);
      assert n > 0;
      var t, rest := x[..n], x[n..];
      assert t + rest == x;
      assert x + w + y == t + (rest + w + y);
      SplitAtSpace(rest, w, y);
      SplitAtSpaceToken(t, rest, w, y);
    }
  }

  /** Trailing whitespace yields no token. */
  lemma SplitDropsTrailingSpace(x: string, w: string)
    requires AllSpace(w)
    ensures Split(x + w) == Split(x)
  {
    if w != [] {
      SplitAtSpace(x, w, []);
      assert x + w + [] == x + w;
      assert Split([]) == [] by { assert StripLeft([]) == []; }
      assert Split(x) + [] == Split(x);
    } else {
      assert x + w == x;
    }
  }
}
