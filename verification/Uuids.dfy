/** UUIDs as 128-bit numbers, which is how PostgreSQL orders them, and their text form. */
module Uuids {

  type Uuid = x: int | 0 <= x < 0x1_0000_0000_0000_0000_0000_0000_0000_0000

  const HEX_DIGITS := "0123456789abcdef"

  /** The last `digits` hexadecimal digits of `n`. */
  function Hex(n: nat, digits: nat): (s: string)
    ensures |s| == digits
    ensures forall c :: c in s ==> c in HEX_DIGITS
  {
    if digits == 0 then "" else Hex(n / 16, digits - 1) + [HEX_DIGITS[n % 16]]
  }

  function SixteenTo(digits: nat): nat {
    if digits == 0 then 1 else 16 * SixteenTo(digits - 1)
  }

  /** `id::text`: eight, four, four, four and twelve digits with dashes between. */
  function Text(id: Uuid): (s: string)
    ensures |s| == 36
    ensures forall c :: c in s ==> c in HEX_DIGITS || c == '-'
  {
    var h := Hex(id, 32);
    h[..8] + "-" + h[8..12] + "-" + h[12..16] + "-" + h[16..20] + "-" + h[20..]
  }

  lemma {:induction false} HexInjective(a: nat, b: nat, digits: nat)
    requires a < SixteenTo(digits) && b < SixteenTo(digits)
    requires Hex(a, digits) == Hex(b, digits)
    ensures a == b
    decreases digits
  {
    if digits > 0 {
      var s, t := Hex(a, digits), Hex(b, digits);
      assert s[..digits - 1] == Hex(a / 16, digits - 1) && t[..digits - 1] == Hex(b / 16, digits - 1);
      assert s[digits - 1] == HEX_DIGITS[a % 16] && t[digits - 1] == HEX_DIGITS[b % 16];
      DigitsDiffer(a % 16, b % 16);
      HexInjective(a / 16, b / 16, digits - 1);
    }
  }

  lemma DigitsDiffer(i: nat, j: nat)
    requires i < 16 && j < 16 && HEX_DIGITS[i] == HEX_DIGITS[j]
    ensures i == j
  {
  }

  lemma TextPieces(id: Uuid)
    ensures var s, h := Text(id), Hex(id, 32);
      s[..8] == h[..8] && s[9..13] == h[8..12] && s[14..18] == h[12..16] && s[19..23] == h[16..20] && s[24..] == h[20..]
  {
    var s, h := Text(id), Hex(id, 32);
    assert s[9..13] == h[8..12];
    assert s[14..18] == h[12..16];
    assert s[19..23] == h[16..20];
  }

  /** Distinct UUIDs have distinct texts. */
  lemma TextInjective(a: Uuid, b: Uuid)
    requires Text(a) == Text(b)
    ensures a == b
  {
    var g, h := Hex(a, 32), Hex(b, 32);
    TextPieces(a);
    TextPieces(b);
    assert g == g[..8] + g[8..12] + g[12..16] + g[16..20] + g[20..];
    assert h == h[..8] + h[8..12] + h[12..16] + h[16..20] + h[20..];
    SixteenTo32();
    HexInjective(a, b, 32);
  }

  lemma SixteenTo32()
    ensures SixteenTo(32) == 0x1_0000_0000_0000_0000_0000_0000_0000_0000
  {
    assert SixteenTo(8) == 0x1_0000_0000;
    assert SixteenTo(16) == 0x1_0000_0000_0000_0000;
    assert SixteenTo(24) == 0x1_0000_0000_0000_0000_0000_0000;
  }
}
