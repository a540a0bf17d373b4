/** The parts of Python's `str` that the command helper relies on: `in` on a
    single character, `str.split(sep)`, `sep.join(parts)`, `str.isspace()` and
    `str.strip()`. */
module PyText {

  /** Python's `str.isspace()` for one character: the ASCII controls `\t`..`\r`,
      the separators `\x1c`..`\x1f`, the space and the Unicode space characters. */
  predicate IsSpace(c: char) {
    || c == ' '
    || ('\t' <= c <= '\r')
    || ('\U{1c}' <= c <= '\U{1f}')
    || c == '\U{85}' || c == '\U{a0}' || c == '\U{1680}'
    || ('\U{2000}' <= c <= '\U{200a}')
    || c == '\U{2028}' || c == '\U{2029}' || c == '\U{202f}' || c == '\U{205f}'
    || c == '\U{3000}'
  }

  predicate AllSpace(s: string) {
    forall k :: 0 <= k < |s| ==> IsSpace(s[k])
  }

  /** Number of occurrences of `c` in `s` (Python's `s.count(c)`). */
  function Count(s: string, c: char): (n: nat)
    ensures n <= |s|
    ensures n == 0 <==> c !in s
  {
    if s == [] then 0
    else (if s[0] == c then 1 else 0) + Count(s[1..], c)
  }

  /** `sep.join(parts)`. */
  function JoinWith(parts: seq<string>, sep: string): string {
    if |parts| == 0 then ""
    else if |parts| == 1 then parts[0]
    else parts[0] + sep + JoinWith(parts[1..], sep)
  }

  /** `s.split(sep)` for a one-character separator: the pieces between the
      separators, left to right, keeping empty pieces. */
  function Split(s: string, sep: char): (parts: seq<string>)
    ensures |parts| >= 1
    ensures forall i :: 0 <= i < |parts| ==> sep !in parts[i]
    decreases |s|
  {
    if s == [] then [""]
    else
      var rest := Split(s[1..], sep);
      if s[0] == sep then [""] + rest
      else [[s[0]] + rest[0]] + rest[1..]
  }

  /** `s.split(sep)` has one more part than `s` has separators. */
  lemma {:induction false} SplitCount(s: string, sep: char)
    ensures |Split(s, sep)| == Count(s, sep) + 1
    decreases |s|
  {
    if s != [] {
      SplitCount(s[1..], sep);
    }
  }

  /** A character in neither the separator nor any part is not in the join. */
  lemma {:induction false} JoinWithAvoids(parts: seq<string>, sep: string, c: char)
    requires c !in sep
    requires forall i :: 0 <= i < |parts| ==> c !in parts[i]
    ensures c !in JoinWith(parts, sep)
    decreases |parts|
  {
    if |parts| >= 2 {
      JoinWithAvoids(parts[1..], sep, c);
    }
  }

  /** The split of a non-empty text, in terms of the split of its tail. */
  lemma SplitCons(s: string, sep: char)
    requires s != []
    ensures s[0] == sep ==> Split(s, sep) == [""] + Split(s[1..], sep)
    ensures s[0] != sep ==>
      Split(s, sep) == [[s[0]] + Split(s[1..], sep)[0]] + Split(s[1..], sep)[1..]
  {
  }

  /** Joining the pieces of a split with the separator gives the text back. */
  lemma {:induction false} JoinSplit(s: string, sep: char)
    ensures JoinWith(Split(s, sep), [sep]) == s
    decreases |s|
  {
    if s != [] {
      var c, tail := s[0], s[1..];
      var rest := Split(tail, sep);
      JoinSplit(tail, sep);
      SplitCons(s, sep);
      assert s == [c] + tail;
      if c == sep {
        var parts := [""] + rest;
        assert parts[1..] == rest;
        JoinCons(parts, [sep]);
      } else if |rest| == 1 {
        assert JoinWith([[c] + rest[0]], [sep]) == [c] + rest[0];
      } else {
        var parts := [[c] + rest[0]] + rest[1..];
        assert parts[1..] == rest[1..];
        JoinCons(parts, [sep]);
        JoinCons(rest, [sep]);
      }
    }
  }

  /** `sep.join` of two or more parts, unfolded once. */
  lemma JoinCons(parts: seq<string>, sep: string)
    requires |parts| >= 2
    ensures JoinWith(parts, sep) == parts[0] + sep + JoinWith(parts[1..], sep)
  {
  }

  /** A character other than the separator joins the first part. */
  lemma SplitConsPlain(c: char, r: string, sep: char)
    requires c != sep
    ensures Split([c] + r, sep) == [[c] + Split(r, sep)[0]] + Split(r, sep)[1..]
  {
    assert ([c] + r)[1..] == r;
  }

  /** One step of `SplitPrefix`: a character other than the separator in
      front of a split whose first part starts with `v`. */
  lemma SplitPrefixStep(c: char, v: string, t: string, sep: char)
    requires c != sep
    requires Split(v + t, sep) == [v + Split(t, sep)[0]] + Split(t, sep)[1..]
    ensures Split(([c] + v) + t, sep) == [([c] + v) + Split(t, sep)[0]] + Split(t, sep)[1..]
  {
    var r := v + t;
    var p := [c] + r;
    assert ([c] + v) + t == p;
    SplitConsPlain(c, r, sep);
    var st := Split(t, sep);
    var sr := Split(r, sep);
    assert sr[0] == v + st[0] && sr[1..] == st[1..];
    assert [c] + (v + st[0]) == ([c] + v) + st[0];
  }

  /** Splitting a piece free of `sep` that is followed by `t` puts the whole
      piece at the front of the first part of `t`. */
  lemma {:induction false} SplitPrefix(w: string, t: string, sep: char)
    requires sep !in w
    ensures Split(w + t, sep) == [w + Split(t, sep)[0]] + Split(t, sep)[1..]
    decreases |w|
  {
    if w == [] {
      var st := Split(t, sep);
      assert w + t == t;
      assert st == [st[0]] + st[1..];
      assert w + st[0] == st[0];
    } else {
      assert w == [w[0]] + w[1..];
      SplitPrefix(w[1..], t, sep);
      SplitPrefixStep(w[0], w[1..], t, sep);
    }
  }

  /** A piece free of `sep`, then `sep`, then the rest: the piece is the first
      part and the rest is split on its own. */
  lemma SplitAtSeparator(w: string, t: string, sep: char)
    requires sep !in w
    ensures Split(w + [sep] + t, sep) == [w] + Split(t, sep)
  {
    var u := [sep] + t;
    assert w + [sep] + t == w + u;
    assert u[1..] == t;
    SplitCons(u, sep);
    SplitPrefix(w, u, sep);
    assert w + "" == w;
  }

  /** Joining pieces free of `sep` and splitting again gives the pieces back. */
  lemma {:induction false} SplitJoin(parts: seq<string>, sep: char)
    requires |parts| >= 1
    requires forall i :: 0 <= i < |parts| ==> sep !in parts[i]
    ensures Split(JoinWith(parts, [sep]), sep) == parts
    decreases |parts|
  {
    if |parts| == 1 {
      SplitPrefix(parts[0], "", sep);
      assert parts[0] + "" == parts[0];
    } else {
      SplitJoin(parts[1..], sep);
      SplitAtSeparator(parts[0], JoinWith(parts[1..], [sep]), sep);
      assert [parts[0]] + parts[1..] == parts;
    }
  }

  /** `s` with its leading whitespace removed. */
  function TrimStart(s: string): (r: string)
    ensures |r| <= |s| && r == s[|s| - |r|..]
    ensures AllSpace(s[..|s| - |r|])
    ensures r == [] || !IsSpace(r[0])
    decreases |s|
  {
    if |s| > 0 && IsSpace(s[0]) then
      var p := s[1..];
      var r := TrimStart(p);
      assert r == s[|s| - |r|..];
      assert s[..|s| - |r|] == [s[0]] + p[..|p| - |r|];
      r
    else s
  }

  /** `s` with its trailing whitespace removed. */
  function TrimEnd(s: string): (r: string)
    ensures |r| <= |s| && r == s[..|r|]
    ensures AllSpace(s[|r|..])
    ensures r == [] || !IsSpace(r[|r| - 1])
    decreases |s|
  {
    if |s| > 0 && IsSpace(s[|s| - 1]) then
      var p := s[..|s| - 1];
      var r := TrimEnd(p);
      assert r == s[..|r|];
      assert s[|r|..] == p[|r|..] + [s[|s| - 1]];
      r
    else s
  }

  /** Python's `s.strip()`: the longest middle part of `s` that neither starts
      nor ends with whitespace, with only whitespace cut away on either side. */
  function Strip(s: string): (r: string)
    ensures r == [] || (!IsSpace(r[0]) && !IsSpace(r[|r| - 1]))
    ensures exists i, j | 0 <= i <= j <= |s| :: r == s[i..j] && AllSpace(s[..i]) && AllSpace(s[j..])
  {
    var t := TrimStart(s);
    var r := TrimEnd(t);
    var i := |s| - |t|;
    assert r == s[i..i + |r|];
    assert s[i + |r|..] == t[|r|..];
    r
  }

  /** Stripping is idempotent. */
  lemma StripIdempotent(s: string)
    ensures Strip(Strip(s)) == Strip(s)
  {
    var r := Strip(s);
    if r != [] {
      assert TrimStart(r) == r;
      assert TrimEnd(r) == r;
    }
  }

  /** `s.strip()` is empty exactly when `s` is all whitespace. */
  lemma StripEmptyIffAllSpace(s: string)
    ensures Strip(s) == [] <==> AllSpace(s)
  {
    var t := TrimStart(s);
    var n := |s| - |t|;
    if Strip(s) == [] {
      assert AllSpace(t[0..]);
      forall k | 0 <= k < |s| ensures IsSpace(s[k]) {
        if k < n {
          assert s[k] == s[..n][k];
        }
      }
    }
  }
}
