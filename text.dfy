/**
 * The string operations of the .NET base library that the services rely on,
 * written out over `seq<char>`: Trim, ASCII case mapping, ordinal prefix and
 * index searches, Split and Join, and the decimal rendering of integers.
 */
module Text {

  /** The characters `char.IsWhiteSpace` accepts, which `String.Trim()` removes. */
  predicate IsWhiteSpace(c: char) {
    c == ' ' || ('\t' <= c <= '\r') || c == '\U{0085}' || c == '\U{00A0}' || c == '\U{1680}'
    || ('\U{2000}' <= c <= '\U{200A}') || c == '\U{2028}' || c == '\U{2029}'
    || c == '\U{202F}' || c == '\U{205F}' || c == '\U{3000}'
  }

  /** `s` neither starts nor ends with white space. */
  predicate IsTrimmed(s: string) {
    |s| == 0 || (!IsWhiteSpace(s[0]) && !IsWhiteSpace(s[|s| - 1]))
  }

  function TrimStart(s: string): (r: string)
    ensures |r| <= |s| && r == s[|s| - |r|..]
    ensures |r| == 0 || !IsWhiteSpace(r[0])
    ensures forall i :: 0 <= i < |s| - |r| ==> IsWhiteSpace(s[i])
  {
    if |s| > 0 && IsWhiteSpace(s[0]) then TrimStart(s[1..]) else s
  }

  function TrimEnd(s: string): (r: string)
    ensures |r| <= |s| && r == s[..|r|]
    ensures |r| == 0 || !IsWhiteSpace(r[|r| - 1])
    ensures forall i :: |r| <= i < |s| ==> IsWhiteSpace(s[i])
  {
    if |s| > 0 && IsWhiteSpace(s[|s| - 1]) then TrimEnd(s[..|s| - 1]) else s
  }

  /** `String.Trim()`: the longest infix of `s` that does not start or end with white space. */
  function Trim(s: string): (r: string)
    ensures IsTrimmed(r)
    ensures |r| <= |s|
  {
    var t := TrimStart(s);
    var r := TrimEnd(t);
    if |r| > 0 then
      assert r[0] == t[0];
      r
    else r
  }

  /** A string whose ends are not white space is its own trim. */
  lemma TrimOfTrimmed(s: string)
    requires IsTrimmed(s)
    ensures Trim(s) == s
  {
  }

  lemma TrimIdempotent(s: string)
    ensures Trim(Trim(s)) == Trim(s)
  {
    TrimOfTrimmed(Trim(s));
  }

  /** ASCII-only counterpart of `char.ToLowerInvariant`. */
  function LowerChar(c: char): char {
    if 'A' <= c <= 'Z' then (c as int + 32) as char else c
  }

  /** ASCII-only counterpart of `char.ToUpperInvariant`. */
  function UpperChar(c: char): char {
    if 'a' <= c <= 'z' then (c as int - 32) as char else c
  }

  predicate IsAsciiUpper(c: char) { 'A' <= c <= 'Z' }

  function ToLower(s: string): (r: string)
    ensures |r| == |s|
    ensures forall i :: 0 <= i < |s| ==> r[i] == LowerChar(s[i])
    ensures forall i :: 0 <= i < |r| ==> !IsAsciiUpper(r[i])
  {
    seq(|s|, i requires 0 <= i < |s| => LowerChar(s[i]))
  }

  /** Case mapping works character by character, so it distributes over concatenation. */
  lemma ToLowerAppend(a: string, b: string)
    ensures ToLower(a + b) == ToLower(a) + ToLower(b)
  {
    assert forall i :: 0 <= i < |a + b| ==> ToLower(a + b)[i] == (ToLower(a) + ToLower(b))[i];
  }

  function ToUpper(s: string): (r: string)
    ensures |r| == |s|
    ensures forall i :: 0 <= i < |s| ==> r[i] == UpperChar(s[i])
  {
    seq(|s|, i requires 0 <= i < |s| => UpperChar(s[i]))
  }

  /** Ordinal `s.StartsWith(p)`. */
  predicate StartsWith(s: string, p: string) {
    |p| <= |s| && s[..|p|] == p
  }

  /** Ordinal `s.IndexOf(c)`: the first position of `c`, or -1. */
  function IndexOf(s: string, c: char): (r: int)
    ensures -1 <= r < |s|
    ensures 0 <= r ==> s[r] == c && c !in s[..r]
    ensures r < 0 ==> c !in s
  {
    if |s| == 0 then -1
    else if s[0] == c then 0
    else
      var k := IndexOf(s[1..], c);
      if k < 0 then -1 else k + 1
  }

  /** `s` truncated before the first `c`: `s.Substring(0, s.IndexOf(c))` when `c` occurs. */
  function CutAt(s: string, c: char): (r: string)
    ensures c !in r
    ensures |r| <= |s| && r == s[..|r|]
    ensures r == s || (|r| < |s| && s[|r|] == c)
  {
    var i := IndexOf(s, c);
    if i >= 0 then s[..i] else s
  }

  /** `CutAt` in terms of the index of the first `c`. */
  lemma CutAtIndex(s: string, c: char)
    ensures IndexOf(s, c) >= 0 ==> CutAt(s, c) == s[..IndexOf(s, c)]
    ensures IndexOf(s, c) < 0 ==> CutAt(s, c) == s
  {
  }

  /** A prefix of a prefix of `a` is a prefix of `a`, and misses what `a` misses. */
  lemma PrefixOfPrefix(a: string, b: string, c: string, x: char)
    requires |b| <= |a| && b == a[..|b|]
    requires |c| <= |b| && c == b[..|c|]
    ensures c == a[..|c|]
    ensures x !in b ==> x !in c
  {
    assert a[..|b|][..|c|] == a[..|c|];
    if x in c {
      var i :| 0 <= i < |c| && c[i] == x;
      assert b[i] == x;
    }
  }

  /** `p` occurs in `s` starting at position `i`. */
  predicate OccursAt(s: string, p: string, i: int) {
    0 <= i && i + |p| <= |s| && s[i..i + |p|] == p
  }

  /** Ordinal `s.IndexOf(p)` for a non-empty `p`: the first occurrence, or -1. */
  function IndexOfString(s: string, p: string): (r: int)
    requires |p| > 0
    ensures r == -1 || 0 <= r <= |s| - |p|
    ensures 0 <= r ==> OccursAt(s, p, r)
    ensures forall j :: 0 <= j < |s| && (r < 0 || j < r) ==> !OccursAt(s, p, j)
    decreases |s|
  {
    if |s| < |p| then -1
    else if s[..|p|] == p then 0
    else
      var k := IndexOfString(s[1..], p);
      assert forall j :: 1 <= j < |s| ==> (OccursAt(s, p, j) <==> OccursAt(s[1..], p, j - 1)) by {
        forall j | 1 <= j < |s| ensures OccursAt(s, p, j) <==> OccursAt(s[1..], p, j - 1) {
          OccursShift(s, p, j);
        }
      }
      if k < 0 then -1 else k + 1
  }

  /** An occurrence at `j` in `s` is one at `j - 1` in `s` without its first character. */
  lemma OccursShift(s: string, p: string, j: int)
    requires 1 <= j < |s|
    ensures OccursAt(s, p, j) <==> OccursAt(s[1..], p, j - 1)
  {
    if j + |p| <= |s| {
      var a, b := s[j..j + |p|], s[1..][j - 1..j - 1 + |p|];
      forall k | 0 <= k < |p| ensures a[k] == b[k] {
        assert a[k] == s[j + k] && b[k] == s[1..][j - 1 + k];
      }
      assert a == b;
    }
  }

  /** Ordinal `s.Contains(p)`. */
  predicate Contains(s: string, p: string)
    requires |p| > 0
  {
    IndexOfString(s, p) >= 0
  }

  /** `s.Split(p)[1]` for a `p` that occurs in `s`: the text between the first
      occurrence of `p` and the next one (or the end of `s`). */
  function SecondPiece(s: string, p: string): (r: string)
    requires |p| > 0 && Contains(s, p)
    ensures |r| <= |s| - |p|
  {
    var i := IndexOfString(s, p);
    var rest := s[i + |p|..];
    var j := IndexOfString(rest, p);
    if j >= 0 then rest[..j] else rest
  }

  /** `s.Split(c)`: the maximal pieces of `s` between occurrences of `c`. */
  function Split(s: string, c: char): (r: seq<string>)
    ensures |r| > 0
    ensures forall k :: 0 <= k < |r| ==> c !in r[k]
    decreases |s|
  {
    var i := IndexOf(s, c);
    if i < 0 then [s]
    else
      var head := s[..i];
      var rest := Split(s[i + 1..], c);
      assert c !in head;
      var r := [head] + rest;
      assert forall k :: 0 <= k < |r| ==> c !in r[k] by {
        forall k | 0 <= k < |r| ensures c !in r[k] {
          if k > 0 { assert r[k] == rest[k - 1]; }
        }
      }
      r
  }

  /** `String.Join(sep, xs)`. */
  function Join(sep: string, xs: seq<string>): (r: string)
    ensures |xs| == 1 ==> r == xs[0]
  {
    if |xs| == 0 then ""
    else if |xs| == 1 then xs[0]
    else xs[0] + sep + Join(sep, xs[1..])
  }

  /** A join of a non-empty list starts with its first element. */
  lemma JoinHead(sep: string, xs: seq<string>)
    requires |xs| > 0
    ensures |xs[0]| <= |Join(sep, xs)| && Join(sep, xs)[..|xs[0]|] == xs[0]
  {
    if |xs| > 1 {
      assert Join(sep, xs) == xs[0] + (sep + Join(sep, xs[1..]));
    }
  }

  /** Splitting on `c` and joining the pieces with `c` gives `s` back. */
  lemma {:induction false} JoinSplit(s: string, c: char)
    ensures Join([c], Split(s, c)) == s
    decreases |s|
  {
    var i := IndexOf(s, c);
    if i >= 0 {
      var tail := s[i + 1..];
      JoinSplit(tail, c);
      assert s == s[..i] + [c] + tail;
    }
  }

  /** The decimal digits of `n`, most significant first (`n.ToString()`). */
  function NatToString(n: nat): (r: string)
    ensures |r| > 0
    ensures forall k :: 0 <= k < |r| ==> '0' <= r[k] <= '9'
    decreases n
  {
    if n < 10 then [DigitChar(n)] else NatToString(n / 10) + [DigitChar(n % 10)]
  }

  function DigitChar(d: nat): (c: char)
    requires d < 10
    ensures '0' <= c <= '9'
  {
    ('0' as int + d) as char
  }

  /** `i.ToString()` in the invariant culture. */
  function IntToString(i: int): (r: string)
    ensures |r| > 0
  {
    if i < 0 then "-" + NatToString(-i) else NatToString(i)
  }

  /** Reads a string of decimal digits back into its value. */
  function ParseDigits(s: string): (n: nat)
    requires forall k :: 0 <= k < |s| ==> '0' <= s[k] <= '9'
  {
    if |s| == 0 then 0 else ParseDigits(s[..|s| - 1]) * 10 + (s[|s| - 1] as int - '0' as int)
  }

  lemma {:induction false} ParseNatToString(n: nat)
    ensures ParseDigits(NatToString(n)) == n
    decreases n
  {
    if n >= 10 {
      ParseNatToString(n / 10);
      var s := NatToString(n);
      assert s[..|s| - 1] == NatToString(n / 10);
    }
  }

  /** Distinct numbers have distinct decimal renderings. */
  lemma NatToStringInjective(m: nat, n: nat)
    requires NatToString(m) == NatToString(n)
    ensures m == n
  {
    ParseNatToString(m);
    ParseNatToString(n);
  }

  /** The first `c` in `a + [c] + x` is the one after `a` when `a` has none. */
  lemma {:induction false} IndexOfAfter(a: string, c: char, x: string)
    requires c !in a
    ensures IndexOf(a + [c] + x, c) == |a|
  {
    if |a| > 0 {
      var s := a + [c] + x;
      assert s[0] == a[0];
      assert s[1..] == a[1..] + [c] + x;
      IndexOfAfter(a[1..], c, x);
    }
  }

  /** `a + [c] + x == b + [c] + y`, where `c` occurs in neither `a` nor `b`, splits uniquely. */
  lemma SplitAtFirst(a: string, b: string, c: char, x: string, y: string)
    requires c !in a && c !in b
    requires a + [c] + x == b + [c] + y
    ensures a == b && x == y
  {
    var s := a + [c] + x;
    IndexOfAfter(a, c, x);
    IndexOfAfter(b, c, y);
    assert a == s[..|a|] == b;
    assert x == s[|a| + 1..] == y;
  }
}
