/**
 * `Color(hex:)`: a hex colour string becomes alpha, red, green and blue
 * components in 0...255. The conversion of the components to fractions
 * of 1 is not part of this model.
 */
module HexColor {

  /** `CharacterSet.alphanumerics`, restricted to ASCII. */
  predicate IsAlphanumeric(c: char)
  {
    'A' <= c <= 'Z' || 'a' <= c <= 'z' || '0' <= c <= '9'
  }

  predicate IsHexDigit(c: char)
  {
    '0' <= c <= '9' || 'a' <= c <= 'f' || 'A' <= c <= 'F'
  }

  predicate AllHex(s: string)
  {
    forall i :: 0 <= i < |s| ==> IsHexDigit(s[i])
  }

  function HexDigitValue(c: char): (d: nat)
    requires IsHexDigit(c)
    ensures d < 16
  {
    if '0' <= c <= '9' then c as int - '0' as int
    else if 'a' <= c <= 'f' then c as int - 'a' as int + 10
    else c as int - 'A' as int + 10
  }

  function Pow16(n: nat): (p: nat)
    ensures p >= 1
  {
    if n == 0 then 1 else 16 * Pow16(n - 1)
  }

  /** Value of a string of hex digits, most significant first. */
  function HexValue(s: string): (v: nat)
    requires AllHex(s)
    ensures v < Pow16(|s|)
  {
    if s == [] then 0 else 16 * HexValue(s[..|s| - 1]) + HexDigitValue(s[|s| - 1])
  }

  /** Length of the longest run of hex digits at the start of s. */
  function HexPrefixLength(s: string): (n: nat)
    ensures n <= |s| && AllHex(s[..n])
    ensures n < |s| ==> !IsHexDigit(s[n])
  {
    if s != [] && IsHexDigit(s[0]) then
      var n := 1 + HexPrefixLength(s[1..]);
      assert s[..n] == [s[0]] + s[1..][..n - 1];
      n
    else 0
  }

  /** `Scanner.scanHexInt64`: the value of the leading hex digits, 0 when there are none. */
  function ScanHex(s: string): (v: nat)
    ensures v < Pow16(|s|)
  {
    var n := HexPrefixLength(s);
    PowMonotonic(n, |s|);
    HexValue(s[..n])
  }

  lemma {:induction false} PowMonotonic(m: nat, n: nat)
    requires m <= n
    ensures Pow16(m) <= Pow16(n)
  {
    if m < n {
      PowMonotonic(m, n - 1);
    }
  }

  /** Leading non-alphanumeric characters removed. */
  function TrimStart(s: string): (r: string)
    ensures |r| <= |s| && r == s[|s| - |r|..]
    ensures r != [] ==> IsAlphanumeric(r[0])
    ensures forall i :: 0 <= i < |s| - |r| ==> !IsAlphanumeric(s[i])
  {
    if s != [] && !IsAlphanumeric(s[0]) then
      var r := TrimStart(s[1..]);
      assert s[1..][|s| - 1 - |r|..] == s[|s| - |r|..];
      assert forall i :: 0 < i < |s| - |r| ==> s[1..][i - 1] == s[i];
      r
    else s
  }

  /** Trailing non-alphanumeric characters removed. */
  function TrimEnd(s: string): (r: string)
    ensures |r| <= |s| && r == s[..|r|]
    ensures r != [] ==> IsAlphanumeric(r[|r| - 1])
    ensures forall i :: |r| <= i < |s| ==> !IsAlphanumeric(s[i])
  {
    if s != [] && !IsAlphanumeric(s[|s| - 1]) then
      var r := TrimEnd(s[..|s| - 1]);
      assert forall i :: |r| <= i < |s| - 1 ==> s[..|s| - 1][i] == s[i];
      r
    else s
  }

  /** `trimmingCharacters(in: CharacterSet.alphanumerics.inverted)`. */
  function Trim(s: string): (r: string)
  {
    TrimEnd(TrimStart(s))
  }

  datatype Argb = Argb(a: nat, r: nat, g: nat, b: nat)

  /**
   * The components `Color(hex:)` computes: 3 digits are nibbles scaled by
   * 17, 6 digits are bytes with full alpha, 8 digits are alpha then RGB,
   * any other length gives (1, 1, 1, 0). Every component stays within a byte.
   */
  function Decode(hex: string): (c: Argb)
    ensures c.a <= 255 && c.r <= 255 && c.g <= 255 && c.b <= 255
  {
    var h := Trim(hex);
    Components(|h|, ScanHex(h))
  }

  /** The components of the scanned value v of a string of the given length. */
  function Components(length: nat, v: nat): (c: Argb)
    requires v < Pow16(length)
    ensures c.a <= 255 && c.r <= 255 && c.g <= 255 && c.b <= 255
  {
    if length == 3 then
      assert Pow16(3) == 4096;
      Argb(255, (v / 256) * 17, (v / 16 % 16) * 17, (v % 16) * 17)
    else if length == 6 then
      assert Pow16(6) == 16777216;
      Argb(255, v / 65536, v / 256 % 256, v % 256)
    else if length == 8 then
      assert Pow16(8) == 4294967296;
      Argb(v / 16777216, v / 65536 % 256, v / 256 % 256, v % 256)
    else
      Argb(1, 1, 1, 0)
  }

  /** A string of hex digits decodes by the components of its whole value. */
  lemma DecodeHexString(h: string)
    requires AllHex(h)
    ensures Decode(h) == Components(|h|, HexValue(h))
  {
    HexStringScansWhole(h);
  }

  lemma DivMod(x: nat, q: nat, r: nat, d: nat)
    requires 0 <= r < d && x == q * d + r
    ensures x / d == q && x % d == r
  {
    var q', r' := x / d, x % d;
    assert x == q' * d + r' && 0 <= r' < d;
    if q' < q {
      MulMonotonic(q' + 1, q, d);
    } else if q' > q {
      MulMonotonic(q + 1, q', d);
    }
  }

  lemma MulMonotonic(a: nat, b: nat, d: nat)
    requires a <= b
    ensures a * d <= b * d
  {
  }

  lemma {:induction false} HexPrefixWhole(h: string)
    requires AllHex(h)
    ensures HexPrefixLength(h) == |h|
  {
    if h != [] {
      HexPrefixWhole(h[1..]);
    }
  }

  /** A hex string is alphanumeric throughout, so trimming leaves it alone, and the scan reads all of it. */
  lemma HexStringScansWhole(h: string)
    requires AllHex(h)
    ensures Trim(h) == h
    ensures ScanHex(h) == HexValue(h)
  {
    HexPrefixWhole(h);
    assert h[..|h|] == h;
    HexStringTrimmed(h);
  }

  lemma HexStringTrimmed(h: string)
    requires AllHex(h)
    ensures Trim(h) == h
  {
    if h != [] {
      assert IsHexDigit(h[0]) && IsHexDigit(h[|h| - 1]);
      assert TrimStart(h) == h;
    }
  }

  /** The byte written by the two hex digits at position i. */
  function ByteAt(h: string, i: nat): (b: nat)
    requires AllHex(h) && i + 1 < |h|
    ensures b < 256
  {
    HexDigitValue(h[i]) * 16 + HexDigitValue(h[i + 1])
  }

  /** Two more digits of a prefix shift its value left by one byte. */
  lemma PrefixByte(h: string, k: nat)
    requires AllHex(h) && k + 2 <= |h|
    ensures HexValue(h[..k + 2]) == HexValue(h[..k]) * 256 + ByteAt(h, k)
  {
    assert h[..k + 2][..k + 1] == h[..k + 1];
    assert h[..k + 1][..k] == h[..k];
  }

  /** Six hex digits: full alpha and one byte per digit pair. */
  lemma SixDigits(h: string)
    requires AllHex(h) && |h| == 6
    ensures Decode(h) == Argb(255, ByteAt(h, 0), ByteAt(h, 2), ByteAt(h, 4))
  {
    DecodeHexString(h);
    SixDigitComponents(h);
  }

  lemma SixDigitComponents(h: string)
    requires AllHex(h) && |h| == 6
    ensures Components(6, HexValue(h)) == Argb(255, ByteAt(h, 0), ByteAt(h, 2), ByteAt(h, 4))
  {
    SixPrefixValue(h);
    assert h[..6] == h;
    SixComponents(ByteAt(h, 0), ByteAt(h, 2), ByteAt(h, 4));
  }

  lemma SixComponents(x: nat, y: nat, z: nat)
    requires x < 256 && y < 256 && z < 256
    ensures (x * 256 + y) * 256 + z < Pow16(6)
    ensures Components(6, (x * 256 + y) * 256 + z) == Argb(255, x, y, z)
  {
    var v := (x * 256 + y) * 256 + z;
    assert Pow16(6) == 16777216;
    DivMod(v, x, y * 256 + z, 65536);
    DivMod(v, x * 256 + y, z, 256);
    DivMod(x * 256 + y, x, y, 256);
  }

  /** Eight hex digits: alpha is the first digit pair, then red, green and blue. */
  lemma EightDigits(h: string)
    requires AllHex(h) && |h| == 8
    ensures Decode(h) == Argb(ByteAt(h, 0), ByteAt(h, 2), ByteAt(h, 4), ByteAt(h, 6))
  {
    DecodeHexString(h);
    EightDigitComponents(h);
  }

  lemma EightDigitComponents(h: string)
    requires AllHex(h) && |h| == 8
    ensures Components(8, HexValue(h)) == Argb(ByteAt(h, 0), ByteAt(h, 2), ByteAt(h, 4), ByteAt(h, 6))
  {
    EightDigitValue(h);
    EightComponents(ByteAt(h, 0), ByteAt(h, 2), ByteAt(h, 4), ByteAt(h, 6));
  }

  lemma EightDigitValue(h: string)
    requires AllHex(h) && |h| == 8
    ensures HexValue(h) == ((ByteAt(h, 0) * 256 + ByteAt(h, 2)) * 256 + ByteAt(h, 4)) * 256 + ByteAt(h, 6)
  {
    SixPrefixValue(h);
    PrefixByte(h, 6);
    assert h[..8] == h;
  }

  /** The first six digits of a string, as three bytes. */
  lemma SixPrefixValue(h: string)
    requires AllHex(h) && |h| >= 6
    ensures HexValue(h[..6]) == (ByteAt(h, 0) * 256 + ByteAt(h, 2)) * 256 + ByteAt(h, 4)
  {
    var b0, b2 := ByteAt(h, 0), ByteAt(h, 2);
    PrefixByte(h, 0);
    assert h[..0] == [];
    assert HexValue(h[..2]) == b0;
    PrefixByte(h, 2);
    assert HexValue(h[..4]) == b0 * 256 + b2;
    PrefixByte(h, 4);
  }

  lemma EightComponents(w: nat, x: nat, y: nat, z: nat)
    requires w < 256 && x < 256 && y < 256 && z < 256
    ensures ((w * 256 + x) * 256 + y) * 256 + z < Pow16(8)
    ensures Components(8, ((w * 256 + x) * 256 + y) * 256 + z) == Argb(w, x, y, z)
  {
    var v := ((w * 256 + x) * 256 + y) * 256 + z;
    assert Pow16(8) == 4294967296;
    DivMod(v, w, (x * 256 + y) * 256 + z, 16777216);
    DivMod(v, w * 256 + x, y * 256 + z, 65536);
    DivMod(w * 256 + x, w, x, 256);
    DivMod(v, (w * 256 + x) * 256 + y, z, 256);
    DivMod((w * 256 + x) * 256 + y, w * 256 + x, y, 256);
  }

  /** Three hex digits: each digit is a nibble scaled by 17, so "F" becomes 255. */
  lemma ThreeDigits(h: string)
    requires AllHex(h) && |h| == 3
    ensures Decode(h) == Argb(255, HexDigitValue(h[0]) * 17, HexDigitValue(h[1]) * 17, HexDigitValue(h[2]) * 17)
  {
    DecodeHexString(h);
    ThreeDigitValue(h);
    ThreeComponents(HexDigitValue(h[0]), HexDigitValue(h[1]), HexDigitValue(h[2]));
  }

  lemma ThreeDigitValue(h: string)
    requires AllHex(h) && |h| == 3
    ensures HexValue(h) == (16 * HexDigitValue(h[0]) + HexDigitValue(h[1])) * 16 + HexDigitValue(h[2])
  {
    assert h[..2][..1] == h[..1] && h[..1][..0] == [];
    assert HexValue(h[..1]) == HexDigitValue(h[0]);
    assert HexValue(h[..2]) == 16 * HexDigitValue(h[0]) + HexDigitValue(h[1]);
    assert h[..3] == h;
  }

  lemma ThreeComponents(d0: nat, d1: nat, d2: nat)
    requires d0 < 16 && d1 < 16 && d2 < 16
    ensures Components(3, (16 * d0 + d1) * 16 + d2) == Argb(255, d0 * 17, d1 * 17, d2 * 17)
  {
    var v := (16 * d0 + d1) * 16 + d2;
    DivMod(v, d0, d1 * 16 + d2, 256);
    DivMod(v, 16 * d0 + d1, d2, 16);
    DivMod(16 * d0 + d1, d0, d1, 16);
  }

  /** Any other length after trimming gives the fallback (1, 1, 1, 0). */
  lemma OtherLength(hex: string)
    requires |Trim(hex)| != 3 && |Trim(hex)| != 6 && |Trim(hex)| != 8
    ensures Decode(hex) == Argb(1, 1, 1, 0)
  {
  }

  /** Decoding depends on the trimmed string only. */
  lemma DecodeAfterTrim(x: string, y: string)
    requires Trim(x) == Trim(y)
    ensures Decode(x) == Decode(y)
  {
  }

  /** A leading '#' is trimmed away, so "#" followed by hex digits decodes like the digits alone. */
  lemma DecodeIgnoresHash(h: string)
    requires AllHex(h) && h != []
    ensures Trim(['#'] + h) == h
    ensures Decode(['#'] + h) == Decode(h)
  {
    HashTrimmed(h);
    HexStringTrimmed(h);
    DecodeAfterTrim(['#'] + h, h);
  }

  lemma HashTrimmed(h: string)
    requires AllHex(h) && h != []
    ensures Trim(['#'] + h) == h
  {
    var s := ['#'] + h;
    assert s[1..] == h && !IsAlphanumeric(s[0]);
    assert TrimStart(s) == TrimStart(h);
    HexStringTrimmed(h);
  }

  /** The seat map's background colour: "#021324" decodes like "021324", to (255, 2, 19, 36). */
  lemma BackgroundColour(hex: string, digits: string)
    requires hex == "#021324" && digits == "021324"
    ensures Decode(hex) == Decode(digits) == Argb(255, 2, 19, 36)
  {
    assert hex == ['#'] + digits;
    assert digits[0] == '0' && digits[1] == '2' && digits[2] == '1';
    assert digits[3] == '3' && digits[4] == '2' && digits[5] == '4';
    assert AllHex(digits);
    DecodeIgnoresHash(digits);
    SixDigits(digits);
    assert ByteAt(digits, 0) == 2 && ByteAt(digits, 2) == 19 && ByteAt(digits, 4) == 36;
  }
}
