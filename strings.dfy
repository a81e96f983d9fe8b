/**
 * The handful of string operations of Rust's standard library that the
 * generator relies on: `join` with a one-character separator, right padding
 * by a `format!` width, `trim_matches` and decimal formatting of a counter.
 * Strings are sequences of characters; a string's length is its character
 * count.
 */
module Strings {

  function Max(a: int, b: int): int { if a < b then b else a }

  function Min(a: int, b: int): int { if a < b then a else b }

  lemma AppendAssociative(a: string, b: string, c: string)
    ensures (a + b) + c == a + (b + c)
  {
  }

  lemma AppendThree(s: string, a: string, b: string, c: string)
    ensures s + a + b + c == s + (a + b + c)
  {
  }

  lemma AppendFive(s: string, a: string, b: string, c: string, d: string, e: string)
    ensures s + a + b + c + d + e == s + (a + b + c + d + e)
  {
  }

  lemma ConcatEmpty<T>(a: seq<T>)
    ensures a + [] == a && [] + a == a
  {
  }

  lemma PrefixSnoc<T>(s: seq<T>, i: nat)
    requires i < |s|
    ensures s[..i + 1][..i] == s[..i]
  {
  }

  lemma PrefixWhole<T>(s: seq<T>)
    ensures s[..|s|] == s
  {
  }

  /** Dropping the last element of a concatenation with a nonempty right part. */
  lemma InitOfConcat<T>(a: seq<T>, b: seq<T>)
    requires b != []
    ensures (a + b)[..|a + b| - 1] == a + b[..|b| - 1]
    ensures (a + b)[|a + b| - 1] == b[|b| - 1]
  {
  }

  /** The pieces of a concatenation are found again at their offsets. */
  lemma SlicesOfConcat(a: string, b: string, c: string)
    ensures (a + b + c)[..|a|] == a
    ensures (a + b + c)[|a|..|a| + |b|] == b
  {
  }

  /** `parts.join(sep)`: the parts in order, one separator between neighbours. */
  function Join(parts: seq<string>, sep: char): string
  {
    if |parts| == 0 then ""
    else if |parts| == 1 then parts[0]
    else parts[0] + [sep] + Join(parts[1..], sep)
  }

  /** The position of the first occurrence of `c` in `s`. */
  function FirstIndex(s: string, c: char): (i: nat)
    requires c in s
    ensures i < |s| && s[i] == c
    ensures c !in s[..i]
  {
    if s[0] == c then 0
    else
      assert c in s[1..] by { assert s == [s[0]] + s[1..]; }
      1 + FirstIndex(s[1..], c)
  }

  /** Cutting `s` at every occurrence of `sep`; the reference inverse of `Join`. */
  function Split(s: string, sep: char): (parts: seq<string>)
    ensures |parts| > 0
    decreases |s|
  {
    if sep !in s then [s]
    else
      var i := FirstIndex(s, sep);
      [s[..i]] + Split(s[i + 1..], sep)
  }

  /** No part contains the separator. */
  predicate Free(parts: seq<string>, sep: char)
  {
    forall i :: 0 <= i < |parts| ==> sep !in parts[i]
  }

  /** Joining separator-free parts loses nothing: splitting gives the parts back. */
  lemma {:induction false} SplitJoin(parts: seq<string>, sep: char)
    requires |parts| > 0 && Free(parts, sep)
    ensures Split(Join(parts, sep), sep) == parts
  {
    if |parts| > 1 {
      var head, rest := parts[0], Join(parts[1..], sep);
      var s := head + [sep] + rest;
      assert Join(parts, sep) == s;
      assert sep !in s[..|head|] by { assert s[..|head|] == head; }
      assert s[|head|] == sep;
      var i := FirstIndex(s, sep);
      assert i == |head|;
      assert s[..i] == head;
      assert s[i + 1..] == rest;
      SplitJoin(parts[1..], sep);
    }
  }

  /** Hence joining separator-free, nonempty lists is injective. */
  lemma JoinInjective(a: seq<string>, b: seq<string>, sep: char)
    requires |a| > 0 && Free(a, sep)
    requires |b| > 0 && Free(b, sep)
    requires Join(a, sep) == Join(b, sep)
    ensures a == b
  {
    SplitJoin(a, sep);
    SplitJoin(b, sep);
  }

  /** A joined string contains the separator only between parts. */
  lemma {:induction false} JoinFree(parts: seq<string>, sep: char, c: char)
    requires c != sep && Free(parts, c)
    ensures c !in Join(parts, sep)
  {
    if |parts| > 1 {
      JoinFree(parts[1..], sep, c);
      assert Join(parts, sep) == parts[0] + [sep] + Join(parts[1..], sep);
    }
  }

  function Spaces(n: nat): (r: string)
    ensures |r| == n && forall k :: 0 <= k < n ==> r[k] == ' '
  {
    seq(n, _ => ' ')
  }

  /**
   * `format!("{:w}", s)` for a string: left-aligned in a field of `w`
   * characters, filled with spaces, never truncated.
   */
  function PadRight(s: string, w: nat): (r: string)
    ensures |r| == Max(|s|, w)
    ensures r[..|s|] == s
    ensures forall k :: |s| <= k < |r| ==> r[k] == ' '
  {
    if |s| < w then s + Spaces(w - |s|) else s
  }

  /** `trim_start_matches(c)`: drops every leading `c`. */
  function TrimStartMatches(s: string, c: char): (r: string)
    ensures |r| <= |s| && r == s[|s| - |r|..]
    ensures forall k :: 0 <= k < |s| - |r| ==> s[k] == c
    ensures r == [] || r[0] != c
  {
    if |s| > 0 && s[0] == c then TrimStartMatches(s[1..], c) else s
  }

  /** `trim_end_matches(c)`: drops every trailing `c`. */
  function TrimEndMatches(s: string, c: char): (r: string)
    ensures |r| <= |s| && r == s[..|r|]
    ensures forall k :: |r| <= k < |s| ==> s[k] == c
    ensures r == [] || r[|r| - 1] != c
  {
    if |s| > 0 && s[|s| - 1] == c then TrimEndMatches(s[..|s| - 1], c) else s
  }

  /** `trim_matches(c)`: drops every leading and every trailing `c`. */
  function TrimMatches(s: string, c: char): (r: string)
    ensures r == [] || (r[0] != c && r[|r| - 1] != c)
  {
    var t := TrimStartMatches(s, c);
    var r := TrimEndMatches(t, c);
    assert r != [] ==> r[0] == t[0];
    r
  }

  /** Where the trimmed slice starts in `s`. */
  function TrimStart(s: string, c: char): nat
  {
    |s| - |TrimStartMatches(s, c)|
  }

  /**
   * The trimmed string is the slice of `s` left after removing a run of `c`
   * at each end: it neither starts nor ends with `c`, and only `c` was cut.
   */
  lemma TrimMatchesSlice(s: string, c: char)
    ensures TrimStart(s, c) + |TrimMatches(s, c)| <= |s|
    ensures TrimMatches(s, c) == s[TrimStart(s, c)..TrimStart(s, c) + |TrimMatches(s, c)|]
    ensures forall k :: 0 <= k < TrimStart(s, c) ==> s[k] == c
    ensures forall k :: TrimStart(s, c) + |TrimMatches(s, c)| <= k < |s| ==> s[k] == c
  {
    var t := TrimStartMatches(s, c);
    var r := TrimEndMatches(t, c);
    var lo := |s| - |t|;
    assert r == s[lo..lo + |r|] by {
      assert r == t[..|r|];
      assert t == s[lo..];
    }
    forall k | lo + |r| <= k < |s| ensures s[k] == c {
      assert t[k - lo] == c;
      assert s[k] == t[k - lo];
    }
  }

  /** Trimming twice is trimming once. */
  lemma TrimMatchesIdempotent(s: string, c: char)
    ensures TrimMatches(TrimMatches(s, c), c) == TrimMatches(s, c)
  {
    var r := TrimMatches(s, c);
    TrimMatchesSlice(s, c);
    if r != [] {
      assert TrimStartMatches(r, c) == r;
      assert TrimEndMatches(r, c) == r;
    }
  }

  /** The character of a decimal digit. */
  function Digit(d: nat): (ch: char)
    requires d < 10
  {
    "0123456789"[d]
  }

  /** The value of a decimal digit character. */
  function DigitValue(ch: char): nat
  {
    if '0' <= ch <= '9' then (ch as int - '0' as int) as nat else 0
  }

  /** `format!("{}", n)` for a natural number. */
  function DecimalString(n: nat): (s: string)
    ensures |s| > 0
    ensures forall k :: 0 <= k < |s| ==> '0' <= s[k] <= '9'
    ensures |s| > 1 ==> s[0] != '0'
  {
    if n < 10 then [Digit(n)] else DecimalString(n / 10) + [Digit(n % 10)]
  }

  /** Reading a string of decimal digits. */
  function DecimalValue(s: string): nat
  {
    if s == [] then 0 else 10 * DecimalValue(s[..|s| - 1]) + DigitValue(s[|s| - 1])
  }

  /** Reading back a formatted number gives the number. */
  lemma {:induction false} DecimalRoundTrip(n: nat)
    ensures DecimalValue(DecimalString(n)) == n
  {
    var s := DecimalString(n);
    if n >= 10 {
      DecimalRoundTrip(n / 10);
      assert s[..|s| - 1] == DecimalString(n / 10);
    }
  }

  /** Hence different numbers are formatted differently. */
  lemma DecimalInjective(m: nat, n: nat)
    requires DecimalString(m) == DecimalString(n)
    ensures m == n
  {
    DecimalRoundTrip(m);
    DecimalRoundTrip(n);
  }

  /** The number of line breaks in a text. */
  function NewlineCount(s: string): nat
  {
    if s == [] then 0 else NewlineCount(s[..|s| - 1]) + (if s[|s| - 1] == '\n' then 1 else 0)
  }

  lemma {:induction false} NewlineCountAppend(a: string, b: string)
    ensures NewlineCount(a + b) == NewlineCount(a) + NewlineCount(b)
  {
    if b == [] {
      assert a + b == a;
    } else {
      var s, init := a + b, b[..|b| - 1];
      NewlineCountAppend(a, init);
      assert s[..|s| - 1] == a + init;
      assert s[|s| - 1] == b[|b| - 1];
    }
  }

  lemma {:induction false} NewlineCountNone(s: string)
    requires '\n' !in s
    ensures NewlineCount(s) == 0
  {
    if s != [] {
      var init := s[..|s| - 1];
      forall k | 0 <= k < |init| ensures init[k] != '\n' {
        assert init[k] == s[k];
      }
      NewlineCountNone(init);
    }
  }

  /** A line without a line break inside, closed by one: one line break in all. */
  lemma OneLine(line: string)
    requires '\n' !in line
    ensures NewlineCount(line + "\n") == 1
  {
    NewlineCountNone(line);
    assert (line + "\n")[..|line|] == line;
  }
}
