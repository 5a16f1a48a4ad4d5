/**
 * The parts of Go's `strings` and `strconv` packages the model needs:
 * prefixes, the first occurrence of a substring, single replacement,
 * base-10 rendering of integers, ASCII case folding and space trimming.
 */
module Strings {
  import opened Wrappers

  /** A Go byte. Go strings are byte sequences; the byte-level code uses this. */
  newtype byte = x: int | 0 <= x < 256

  predicate HasPrefix<T(==)>(s: seq<T>, p: seq<T>) {
    |p| <= |s| && s[..|p|] == p
  }

  /** strings.TrimPrefix: drops one leading copy of p, if present. */
  function TrimPrefix(s: string, p: string): (r: string)
    ensures HasPrefix(s, p) ==> p + r == s
    ensures !HasPrefix(s, p) ==> r == s
  {
    if HasPrefix(s, p) then s[|p|..] else s
  }

  predicate OccursAt<T(==)>(s: seq<T>, pat: seq<T>, i: int) {
    0 <= i && i + |pat| <= |s| && s[i..i + |pat|] == pat
  }

  /** The first position at or after i where pat occurs in s. */
  function IndexFrom<T(==)>(s: seq<T>, pat: seq<T>, i: nat): (r: Option<nat>)
    requires i <= |s|
    ensures r.Some? ==> i <= r.value && OccursAt(s, pat, r.value)
    ensures r.Some? ==> forall j :: i <= j < r.value ==> !OccursAt(s, pat, j)
    ensures r.None? ==> forall j :: i <= j ==> !OccursAt(s, pat, j)
    decreases |s| - i
  {
    if i + |pat| > |s| then None
    else if s[i..i + |pat|] == pat then Some(i)
    else
      assert |pat| > 0;
      IndexFrom(s, pat, i + 1)
  }

  /** strings.Index, with "not found" as None instead of -1. */
  function Index<T(==)>(s: seq<T>, pat: seq<T>): (r: Option<nat>)
    ensures r.Some? ==> OccursAt(s, pat, r.value) && forall j :: 0 <= j < r.value ==> !OccursAt(s, pat, j)
    ensures r.None? ==> forall j :: !OccursAt(s, pat, j)
  {
    IndexFrom(s, pat, 0)
  }

  /** strings.Replace(s, old, new, 1). */
  function ReplaceFirst(s: string, pat: string, rep: string): (r: string)
  {
    match Index(s, pat)
    case None => s
    case Some(i) => s[..i] + rep + s[i + |pat|..]
  }

  /** strings.Replace(s, old, new, 1) exchanges the first occurrence, and only it; without one it is the identity. */
  lemma ReplaceFirstSpec(s: string, pat: string, rep: string)
    ensures Index(s, pat).None? ==> ReplaceFirst(s, pat, rep) == s
    ensures Index(s, pat).Some? ==>
      var i := Index(s, pat).value;
      && ReplaceFirst(s, pat, rep)[..i] == s[..i]
      && ReplaceFirst(s, pat, rep)[i..i + |rep|] == rep
      && ReplaceFirst(s, pat, rep)[i + |rep|..] == s[i + |pat|..]
      && forall j :: 0 <= j < i ==> !OccursAt(s, pat, j)
  {
    match Index(s, pat)
    case None =>
    case Some(i) =>
      var r := s[..i] + rep + s[i + |pat|..];
      assert r[..i] == s[..i];
      assert r[i..i + |rep|] == rep;
      assert r[i + |rep|..] == s[i + |pat|..];
  }

  /** An occurrence after the replaced one survives, shifted by the change in length. */
  lemma ReplaceFirstKeepsLater(s: string, pat: string, rep: string, j: int)
    requires Index(s, pat).Some? && j >= Index(s, pat).value + |pat| && OccursAt(s, pat, j)
    ensures OccursAt(ReplaceFirst(s, pat, rep), pat, j - |pat| + |rep|)
  {
    var i := Index(s, pat).value;
    var r := ReplaceFirst(s, pat, rep);
    var k := j - |pat| + |rep|;
    assert r == s[..i] + rep + s[i + |pat|..];
    assert r[k..k + |pat|] == s[i + |pat|..][j - i - |pat|..j - i] == s[j..j + |pat|];
  }

  // ---- strconv.FormatInt(n, 10) ----

  predicate IsDigit(c: char) {
    '0' <= c <= '9'
  }

  function DigitChar(d: nat): (c: char)
    requires d < 10
    ensures IsDigit(c)
  {
    ['0', '1', '2', '3', '4', '5', '6', '7', '8', '9'][d]
  }

  function DigitValue(c: char): nat
    requires IsDigit(c)
  {
    (c as int - '0' as int) as nat
  }

  lemma DigitRoundTrip(d: nat)
    requires d < 10
    ensures DigitValue(DigitChar(d)) == d
  {
  }

  function NatToString(n: nat): (r: string)
    decreases n
  {
    if n < 10 then [DigitChar(n)] else NatToString(n / 10) + [DigitChar(n % 10)]
  }

  /** strconv.FormatInt(n, 10): an optional '-' and the digits of |n|. */
  function IntToString(n: int): string {
    if n < 0 then "-" + NatToString(-n) else NatToString(n)
  }

  predicate AllDigits(s: string) {
    forall i :: 0 <= i < |s| ==> IsDigit(s[i])
  }

  /** The value of a string of decimal digits, most significant first. */
  function DigitsValue(s: string): nat
    requires AllDigits(s)
  {
    if s == [] then 0 else DigitsValue(s[..|s| - 1]) * 10 + DigitValue(s[|s| - 1])
  }

  /** The rendering of a natural number is a non-empty digit string with no leading zero that reads back as the number. */
  lemma {:induction false} NatToStringSpec(n: nat)
    ensures |NatToString(n)| > 0 && AllDigits(NatToString(n))
    ensures DigitsValue(NatToString(n)) == n
    ensures NatToString(n)[0] == '0' ==> n == 0
    decreases n
  {
    var r := NatToString(n);
    if n < 10 {
      DigitRoundTrip(n);
      assert r[..|r| - 1] == [];
    } else {
      NatToStringSpec(n / 10);
      var p := NatToString(n / 10);
      assert r == p + [DigitChar(n % 10)];
      assert r[..|r| - 1] == p;
      DigitRoundTrip(n % 10);
    }
  }

  /** strconv.FormatInt(n, 10) is '-' exactly for negative n, followed by the digits of |n|. */
  lemma IntToStringSpec(n: int)
    ensures n < 0 ==>
              && |IntToString(n)| > 1 && IntToString(n)[0] == '-'
              && AllDigits(IntToString(n)[1..]) && DigitsValue(IntToString(n)[1..]) == -n
    ensures n >= 0 ==> AllDigits(IntToString(n)) && DigitsValue(IntToString(n)) == n
  {
    if n < 0 {
      NatToStringSpec(-n);
      assert IntToString(n)[1..] == NatToString(-n);
    } else {
      NatToStringSpec(n);
    }
  }

  /** The base-10 rendering is injective: different ids produce different strings. */
  lemma IntToStringInjective(a: int, b: int)
    requires IntToString(a) == IntToString(b)
    ensures a == b
  {
    IntToStringSpec(a);
    IntToStringSpec(b);
    NatToStringSpec(if a < 0 then -a else a);
    NatToStringSpec(if b < 0 then -b else b);
    if a < 0 && b < 0 {
      assert IntToString(a)[1..] == IntToString(b)[1..];
    }
  }

  // ---- strings.ToLower and strings.TrimSpace ----

  function ToLowerChar(c: char): char {
    if 'A' <= c <= 'Z' then (c as int + 32) as char else c
  }

  /** strings.ToLower restricted to ASCII letters. */
  function ToLower(s: string): (r: string)
    ensures |r| == |s|
    ensures forall i :: 0 <= i < |s| ==> r[i] == ToLowerChar(s[i])
  {
    seq(|s|, i requires 0 <= i < |s| => ToLowerChar(s[i]))
  }

  /** unicode.IsSpace. */
  predicate IsSpace(c: char) {
    c == '\t' || c == '\n' || c == '\U{000B}' || c == '\U{000C}' || c == '\r' || c == ' '
    || c == '\U{0085}' || c == '\U{00A0}' || c == '\U{1680}'
    || ('\U{2000}' <= c <= '\U{200A}') || c == '\U{2028}' || c == '\U{2029}'
    || c == '\U{202F}' || c == '\U{205F}' || c == '\U{3000}'
  }

  function TrimLeftSpace(s: string): (r: string)
  {
    if s != [] && IsSpace(s[0]) then TrimLeftSpace(s[1..]) else s
  }

  function TrimRightSpace(s: string): (r: string)
  {
    if s != [] && IsSpace(s[|s| - 1]) then TrimRightSpace(s[..|s| - 1]) else s
  }

  /** strings.TrimSpace. */
  function TrimSpace(s: string): string {
    TrimRightSpace(TrimLeftSpace(s))
  }

  predicate AllSpace(s: string) {
    forall i :: 0 <= i < |s| ==> IsSpace(s[i])
  }

  lemma {:induction false} TrimLeftSpaceEmpty(s: string)
    ensures TrimLeftSpace(s) == [] <==> AllSpace(s)
    ensures TrimLeftSpace(s) != [] ==> !IsSpace(TrimLeftSpace(s)[0])
  {
    if s != [] && IsSpace(s[0]) {
      TrimLeftSpaceEmpty(s[1..]);
      assert AllSpace(s[1..]) ==> AllSpace(s) by {
        if AllSpace(s[1..]) {
          forall i | 0 <= i < |s| ensures IsSpace(s[i]) {
            if i > 0 { assert s[i] == s[1..][i - 1]; }
          }
        }
      }
    }
  }

  lemma {:induction false} TrimRightSpaceNonEmpty(s: string)
    requires s != [] && !IsSpace(s[0])
    ensures TrimRightSpace(s) != []
  {
    if IsSpace(s[|s| - 1]) {
      assert |s| > 1;
      TrimRightSpaceNonEmpty(s[..|s| - 1]);
    }
  }

  /** TrimSpace leaves nothing exactly when every character is white space. */
  lemma TrimSpaceEmpty(s: string)
    ensures TrimSpace(s) == "" <==> AllSpace(s)
  {
    TrimLeftSpaceEmpty(s);
    var l := TrimLeftSpace(s);
    if l != [] {
      TrimRightSpaceNonEmpty(l);
    }
  }

  /** A byte per character, the low eight bits of its code; used for the ASCII constants of the logger. */
  function Ascii(s: string): (r: seq<byte>)
    ensures |r| == |s|
  {
    seq(|s|, i requires 0 <= i < |s| => (s[i] as int % 256) as byte)
  }
}
