/**
 * The few Kotlin string operations the ticket machine relies on:
 * `equals(other, ignoreCase = true)` and `trim()`.
 * Only the ASCII repertoire is modelled (see README).
 */
module Text {

  /** Lower-case form of an ASCII letter; every other character is left alone. */
  function LowerChar(c: char): char {
    if 'A' <= c <= 'Z' then (c as int + 32) as char else c
  }

  function Lower(s: string): (r: string)
    ensures |r| == |s|
    ensures forall i :: 0 <= i < |s| ==> r[i] == LowerChar(s[i])
  {
    seq(|s|, i requires 0 <= i < |s| => LowerChar(s[i]))
  }

  /** Kotlin's `a.equals(b, ignoreCase = true)` on ASCII text. */
  predicate SameName(a: string, b: string) {
    Lower(a) == Lower(b)
  }

  /** Kotlin's `Char.isWhitespace()` restricted to ASCII: space, TAB..CR and the four separators FS..US. */
  predicate IsWhitespace(c: char) {
    c == ' ' || 9 <= c as int <= 13 || 28 <= c as int <= 31
  }

  function TrimStart(s: string): (r: string)
    ensures |r| <= |s| && r == s[|s| - |r|..]
    ensures r != [] ==> !IsWhitespace(r[0])
    ensures forall i :: 0 <= i < |s| - |r| ==> IsWhitespace(s[i])
  {
    if s != [] && IsWhitespace(s[0]) then TrimStart(s[1..]) else s
  }

  function TrimEnd(s: string): (r: string)
    ensures |r| <= |s| && r == s[..|r|]
    ensures r != [] ==> !IsWhitespace(r[|r| - 1])
    ensures forall i :: |r| <= i < |s| ==> IsWhitespace(s[i])
  {
    if s != [] && IsWhitespace(s[|s| - 1]) then TrimEnd(s[..|s| - 1]) else s
  }

  /** Every character of `s` is whitespace. */
  predicate AllWhitespace(s: string) {
    forall i :: 0 <= i < |s| ==> IsWhitespace(s[i])
  }

  /** What `TrimStart` drops is whitespace. */
  lemma TrimStartHead(s: string)
    ensures AllWhitespace(s[..|s| - |TrimStart(s)|])
  {
    var a := |s| - |TrimStart(s)|;
    forall i | 0 <= i < a
      ensures IsWhitespace(s[..a][i])
    {
      assert s[..a][i] == s[i];
    }
  }

  /** What `TrimEnd` drops is whitespace. */
  lemma TrimEndTail(t: string)
    ensures AllWhitespace(t[|TrimEnd(t)|..])
  {
    var m := |TrimEnd(t)|;
    forall i | 0 <= i < |t| - m
      ensures IsWhitespace(t[m..][i])
    {
      assert t[m..][i] == t[m + i];
    }
  }

  /** A prefix `r` of a suffix `t` of `s` is a middle slice of `s`, and what follows `r` in `t` ends `s`. */
  lemma SliceOfSuffix(s: string, t: string, r: string)
    requires |t| <= |s| && t == s[|s| - |t|..]
    requires |r| <= |t| && r == t[..|r|]
    ensures r == s[|s| - |t|..|s| - |t| + |r|]
    ensures s[|s| - |t| + |r|..] == t[|r|..]
  {
  }

  /**
   * Dropping a whitespace prefix (leaving `t`) and then a whitespace suffix
   * (leaving `r`) leaves a slice of `s` between a whitespace prefix and a
   * whitespace suffix.
   */
  lemma SliceBetween(s: string, t: string, r: string)
    requires |t| <= |s| && t == s[|s| - |t|..] && AllWhitespace(s[..|s| - |t|])
    requires |r| <= |t| && r == t[..|r|] && AllWhitespace(t[|r|..])
    ensures exists a, b :: 0 <= a <= b <= |s| && r == s[a..b] && AllWhitespace(s[..a]) && AllWhitespace(s[b..])
  {
    SliceOfSuffix(s, t, r);
  }

  /** Trimming both ends leaves a slice between a whitespace prefix and a whitespace suffix. */
  lemma TrimSlice(s: string)
    ensures var r := TrimEnd(TrimStart(s));
      exists a, b :: 0 <= a <= b <= |s| && r == s[a..b] && AllWhitespace(s[..a]) && AllWhitespace(s[b..])
  {
    TrimStartHead(s);
    TrimEndTail(TrimStart(s));
    SliceBetween(s, TrimStart(s), TrimEnd(TrimStart(s)));
  }

  /**
   * Kotlin's `String.trim()`: drops leading and trailing whitespace.
   * The result is the slice `s[a..b]` left after removing a whitespace
   * prefix and a whitespace suffix, and it neither starts nor ends with
   * whitespace. It is empty exactly when the input is whitespace only.
   */
  function Trim(s: string): (r: string)
    ensures |r| <= |s|
    ensures exists a, b :: 0 <= a <= b <= |s| && r == s[a..b] && AllWhitespace(s[..a]) && AllWhitespace(s[b..])
    ensures r != [] ==> !IsWhitespace(r[0]) && !IsWhitespace(r[|r| - 1])
    ensures r == [] <==> AllWhitespace(s)
  {
    TrimSlice(s);
    TrimEnd(TrimStart(s))
  }
}
