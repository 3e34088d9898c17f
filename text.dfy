/**
 * Character and string helpers shared by the model: decimal digits,
 * decimal rendering of integers, substring search and ASCII case folding.
 */
module Text {

  predicate IsDigit(c: char) { '0' <= c <= '9' }

  predicate AllDigits(s: string) { forall i :: 0 <= i < |s| ==> IsDigit(s[i]) }

  function DigitValue(c: char): (d: nat)
    requires IsDigit(c)
    ensures d < 10
  {
    c as int - '0' as int
  }

  function DigitChar(d: nat): (c: char)
    requires d < 10
    ensures IsDigit(c) && DigitValue(c) == d
  {
    (d + '0' as int) as char
  }

  /** Decimal value of a string of digits, most significant digit first. */
  function DigitsValue(s: string): (v: nat)
    requires AllDigits(s)
  {
    if s == [] then 0 else 10 * DigitsValue(s[..|s| - 1]) + DigitValue(s[|s| - 1])
  }

  /** Decimal rendering of a natural number, as string interpolation of an `Int` prints it. */
  function NatToString(n: nat): (s: string)
    ensures |s| > 0 && AllDigits(s)
    ensures s[0] == '0' ==> n == 0
    ensures n < 10 ==> s == [DigitChar(n)]
  {
    if n < 10 then [DigitChar(n)] else NatToString(n / 10) + [DigitChar(n % 10)]
  }

  /** Printing a number and reading it back gives the number. */
  lemma {:induction false} NatToStringRoundTrip(n: nat)
    ensures DigitsValue(NatToString(n)) == n
  {
    if n >= 10 {
      var s := NatToString(n);
      assert s[..|s| - 1] == NatToString(n / 10);
      NatToStringRoundTrip(n / 10);
    }
  }

  predicate IsPrefix(p: string, s: string) { |p| <= |s| && s[..|p|] == p }

  /** `s.contains(q)`: q occurs in s as a contiguous substring. */
  predicate Contains(s: string, q: string)
    decreases |s|
  {
    IsPrefix(q, s) || (|s| > 0 && Contains(s[1..], q))
  }

  /** q occurs in s starting at position i. */
  predicate OccursAt(s: string, q: string, i: int)
  {
    0 <= i <= |s| - |q| && s[i..i + |q|] == q
  }

  /** Contains agrees with the positional definition of a substring occurrence. */
  lemma {:induction false} ContainsAt(s: string, q: string)
    ensures Contains(s, q) <==> exists i :: OccursAt(s, q, i)
  {
    if IsPrefix(q, s) {
      assert OccursAt(s, q, 0);
    } else if |s| == 0 {
    } else {
      ContainsAt(s[1..], q);
      if Contains(s[1..], q) {
        var j :| OccursAt(s[1..], q, j);
        TailSlice(s, j, |q|);
        assert OccursAt(s, q, j + 1);
      } else {
        forall i | 0 < i <= |s| - |q| ensures !OccursAt(s, q, i) {
          TailSlice(s, i - 1, |q|);
          assert !OccursAt(s[1..], q, i - 1);
        }
      }
    }
  }

  /** A slice of the tail is the slice of s one position further on. */
  lemma TailSlice(s: string, j: nat, k: nat)
    requires 0 < |s| && j + k <= |s| - 1
    ensures s[1..][j..j + k] == s[j + 1..j + 1 + k]
  {
    var a, b := s[1..][j..j + k], s[j + 1..j + 1 + k];
    assert |a| == |b| && forall m :: 0 <= m < k ==> a[m] == b[m];
  }

  /** ASCII case folding of one character. */
  function LowerChar(c: char): char
  {
    if 'A' <= c <= 'Z' then (c as int + 32) as char else c
  }

  function Lower(s: string): (r: string)
    ensures |r| == |s|
    ensures forall i :: 0 <= i < |s| ==> r[i] == LowerChar(s[i])
  {
    if s == [] then [] else [LowerChar(s[0])] + Lower(s[1..])
  }

  /** `s.localizedCaseInsensitiveContains(q)`, with ASCII case folding. */
  predicate CaseInsensitiveContains(s: string, q: string)
  {
    Contains(Lower(s), Lower(q))
  }
}
