/**
 * Hex colour parsing (`hexToRgb` in src/utils/contrastUtils.ts).
 *
 * The source strips one leading '#', reads the rest with JavaScript's
 * `parseInt(hex, 16)` and cuts the number into three bytes with `>>` and `&`.
 * Both operators first convert their operand to a signed 32-bit integer
 * (ToInt32, which sends NaN to 0), so the function never fails: every string
 * yields some triple. This module writes those JavaScript conversions out and
 * proves what they do on well-formed and malformed input. `ParseHexColor` is
 * the strict parser the program's null check evidently expects.
 */
module HexColor {
  import opened Wrappers
  import opened JsText

  /** One colour channel. */
  type Byte = x: int | 0 <= x < 256

  /** An sRGB colour, one byte per channel. */
  datatype Rgb = Rgb(r: Byte, g: Byte, b: Byte)

  const Black := Rgb(0, 0, 0)
  const White := Rgb(255, 255, 255)

  // ---------------------------------------------------------------------------
  // Hex digits

  predicate IsHexDigit(c: char) {
    '0' <= c <= '9' || 'a' <= c <= 'f' || 'A' <= c <= 'F'
  }

  predicate AllHexDigits(s: string) {
    forall i :: 0 <= i < |s| ==> IsHexDigit(s[i])
  }

  function DigitValue(c: char): (v: nat)
    requires IsHexDigit(c)
    ensures v < 16
  {
    if '0' <= c <= '9' then c as int - '0' as int
    else if 'a' <= c <= 'f' then c as int - 'a' as int + 10
    else c as int - 'A' as int + 10
  }

  /** The upper-case digit for a value below 16. */
  function HexChar(v: nat): (c: char)
    requires v < 16
    ensures IsHexDigit(c) && DigitValue(c) == v
  {
    if v < 10 then ('0' as int + v) as char else ('A' as int + v - 10) as char
  }

  /** The big-endian value of a string of hex digits. */
  function HexValue(digits: string): nat
    requires AllHexDigits(digits)
  {
    if |digits| == 0 then 0
    else HexValue(digits[..|digits| - 1]) * 16 + DigitValue(digits[|digits| - 1])
  }

  /** The length of the longest prefix of `s` made of hex digits. */
  function HexPrefixLength(s: string): (n: nat)
    ensures n <= |s|
    ensures AllHexDigits(s[..n])
    ensures n < |s| ==> !IsHexDigit(s[n])
  {
    if |s| == 0 || !IsHexDigit(s[0]) then 0
    else
      var k := HexPrefixLength(s[1..]);
      assert s[..k + 1] == [s[0]] + s[1..][..k];
      k + 1
  }

  // ---------------------------------------------------------------------------
  // The JavaScript conversions hexToRgb relies on

  /** `hex.replace(/^#/, '')`: drops one leading '#', if any. */
  function StripHash(s: string): string {
    if |s| > 0 && s[0] == '#' then s[1..] else s
  }

  /**
   * `parseInt(s, 16)`: leading white space is skipped, then an optional
   * sign, an optional "0x"/"0X", then the longest run of hex digits; `None`
   * stands for NaN (no digit at all).
   */
  function ParseInt16(s: string): (n: Option<int>)
    ensures n.None? <==> HexPrefixLength(ParseInt16Digits(TrimStart(s))) == 0
  {
    var u := TrimStart(s);
    var digits := ParseInt16Digits(u);
    var k := HexPrefixLength(digits);
    if k == 0 then None
    else Some(ParseInt16Sign(u) * HexValue(digits[..k]))
  }

  /** The sign `parseInt` reads from the head of `s`. */
  function ParseInt16Sign(s: string): int {
    if |s| > 0 && s[0] == '-' then -1 else 1
  }

  /** What `parseInt(s, 16)` scans for digits once the sign and the "0x" prefix are gone. */
  function ParseInt16Digits(s: string): string {
    var rest := if |s| > 0 && (s[0] == '-' || s[0] == '+') then s[1..] else s;
    if |rest| >= 2 && rest[0] == '0' && (rest[1] == 'x' || rest[1] == 'X') then rest[2..] else rest
  }

  const TwoTo31: int := 0x8000_0000
  const TwoTo32: int := 0x1_0000_0000

  /** ECMAScript ToInt32 on a number; NaN becomes 0. */
  function ToInt32(n: Option<int>): (x: int)
    ensures -TwoTo31 <= x < TwoTo31
    ensures n.Some? ==> (x - n.value) % TwoTo32 == 0
    ensures n.None? ==> x == 0
  {
    match n
    case None => 0
    case Some(v) =>
      var m := v % TwoTo32;
      if m >= TwoTo31 then m - TwoTo32 else m
  }

  /** `(n >> shift) & 255` for a 32-bit operand: arithmetic shift, then the low byte. */
  function ShiftedByte(x: int, shift: nat): Byte
    requires shift == 0 || shift == 8 || shift == 16
  {
    (if shift == 16 then x / 0x10000 else if shift == 8 then x / 0x100 else x) % 256
  }

  /**
   * `hexToRgb`: as written, it declares a nullable result but always returns
   * a triple, whatever the input.
   */
  function HexToRgb(hex: string): (rgb: Option<Rgb>)
    ensures rgb.Some?
  {
    var bigint := ParseInt16(StripHash(hex));
    var n := ToInt32(bigint);
    Some(Rgb(ShiftedByte(n, 16), ShiftedByte(n, 8), ShiftedByte(n, 0)))
  }

  // ---------------------------------------------------------------------------
  // Encoding a colour as six hex digits

  function EncodeByte(v: Byte): (s: string)
    ensures |s| == 2 && AllHexDigits(s)
    ensures DigitValue(s[0]) * 16 + DigitValue(s[1]) == v
  {
    [HexChar(v / 16), HexChar(v % 16)]
  }

  /** The six-digit, upper-case hex encoding of a colour, without '#'. */
  function EncodeHex(c: Rgb): (s: string)
    ensures |s| == 6 && AllHexDigits(s)
  {
    EncodeByte(c.r) + EncodeByte(c.g) + EncodeByte(c.b)
  }

  /** A colour string in the canonical form: six hex digits, optionally after one '#'. */
  predicate IsWellFormedHex(s: string) {
    var t := StripHash(s);
    |t| == 6 && AllHexDigits(t)
  }

  /** The three bytes a six-digit string denotes, read big-endian two digits at a time. */
  function SixDigitColor(t: string): (c: Rgb)
    requires |t| == 6 && AllHexDigits(t)
  {
    Rgb(DigitValue(t[0]) * 16 + DigitValue(t[1]),
        DigitValue(t[2]) * 16 + DigitValue(t[3]),
        DigitValue(t[4]) * 16 + DigitValue(t[5]))
  }

  // ---------------------------------------------------------------------------
  // What hexToRgb does

  /** The value of six hex digits, digit by digit. */
  lemma {:induction false} HexValueSix(t: string)
    requires |t| == 6 && AllHexDigits(t)
    ensures HexValue(t) == (DigitValue(t[0]) * 16 + DigitValue(t[1])) * 0x10000
                           + (DigitValue(t[2]) * 16 + DigitValue(t[3])) * 0x100
                           + (DigitValue(t[4]) * 16 + DigitValue(t[5]))
  {
    var t5, t4, t3, t2, t1 := t[..5], t[..4], t[..3], t[..2], t[..1];
    assert t5[..4] == t4 && t4[..3] == t3 && t3[..2] == t2 && t2[..1] == t1 && t1[..0] == [];
    var d0, d1, d2, d3, d4, d5 :=
      DigitValue(t[0]), DigitValue(t[1]), DigitValue(t[2]), DigitValue(t[3]), DigitValue(t[4]), DigitValue(t[5]);
    assert HexValue(t1) == d0;
    assert HexValue(t2) == d0 * 16 + d1;
    assert HexValue(t3) == (d0 * 16 + d1) * 16 + d2;
    assert HexValue(t4) == ((d0 * 16 + d1) * 16 + d2) * 16 + d3;
    assert HexValue(t5) == (((d0 * 16 + d1) * 16 + d2) * 16 + d3) * 16 + d4;
    assert HexValue(t) == ((((d0 * 16 + d1) * 16 + d2) * 16 + d3) * 16 + d4) * 16 + d5;
  }

  /** Splitting a 24-bit value into bytes with shifts and masks gives back its bytes. */
  lemma ShiftedBytesOf24(r: Byte, g: Byte, b: Byte)
    ensures ShiftedByte(r * 0x10000 + g * 0x100 + b, 16) == r
    ensures ShiftedByte(r * 0x10000 + g * 0x100 + b, 8) == g
    ensures ShiftedByte(r * 0x10000 + g * 0x100 + b, 0) == b
  {
    var n := r * 0x10000 + g * 0x100 + b;
    assert n / 0x10000 == r;
    assert n / 0x100 == r * 0x100 + g;
  }

  /**
   * On six hex digits, with or without one leading '#', hexToRgb returns the
   * three big-endian bytes.
   */
  lemma HexToRgbSixDigits(s: string)
    requires IsWellFormedHex(s)
    ensures HexToRgb(s) == Some(SixDigitColor(StripHash(s)))
  {
    var t := StripHash(s);
    var c := SixDigitColor(t);
    ParseSixDigits(t);
    ShiftedBytesOf24(c.r, c.g, c.b);
  }

  /** `parseInt` reads six hex digits as their 24-bit value. */
  lemma ParseSixDigits(t: string)
    requires |t| == 6 && AllHexDigits(t)
    ensures var c := SixDigitColor(t);
      ParseInt16(t) == Some(c.r * 0x10000 + c.g * 0x100 + c.b)
      && ToInt32(ParseInt16(t)) == c.r * 0x10000 + c.g * 0x100 + c.b
  {
    var c := SixDigitColor(t);
    var v := c.r * 0x10000 + c.g * 0x100 + c.b;
    assert IsHexDigit(t[0]) && IsHexDigit(t[1]);
    assert TrimStart(t) == t;
    assert ParseInt16Sign(t) == 1;
    assert ParseInt16Digits(t) == t;
    assert HexPrefixLength(t) == 6;
    assert t[..6] == t;
    HexValueSix(t);
    assert HexValue(t) == v;
    assert ParseInt16(t) == Some(v);
    assert 0 <= v < TwoTo31;
    assert v % TwoTo32 == v;
  }

  /** Encoding a colour as six hex digits and parsing it gives the colour back, with or without '#'. */
  lemma HexRoundTrip(c: Rgb)
    ensures HexToRgb(EncodeHex(c)) == Some(c)
    ensures HexToRgb("#" + EncodeHex(c)) == Some(c)
  {
    var t := EncodeHex(c);
    assert StripHash(t) == t;
    assert StripHash("#" + t) == t;
    HexToRgbSixDigits(t);
    HexToRgbSixDigits("#" + t);
  }

  /**
   * A string with no leading hex digit, sign or white space (after the
   * optional '#') is NaN to `parseInt`, and NaN passes through `>>` and `&`
   * as 0: the result is black.
   */
  lemma NoLeadingDigitIsBlack(s: string)
    requires var t := StripHash(s); |t| == 0 || (!IsHexDigit(t[0]) && t[0] != '-' && t[0] != '+' && !IsJsWhitespace(t[0]))
    ensures HexToRgb(s) == Some(Black)
  {
    var t := StripHash(s);
    assert TrimStart(t) == t;
    if |t| > 0 {
      assert t[0] != '0';
      assert ParseInt16Digits(t) == t;
    }
  }

  /** "zzzzzz" is read as black rather than rejected. */
  lemma NonHexReadAsBlack()
    ensures HexToRgb("zzzzzz") == Some(Black)
    ensures HexToRgb("#zzzzzz") == Some(Black)
  {
    NoLeadingDigitIsBlack("zzzzzz");
    NoLeadingDigitIsBlack("#zzzzzz");
  }

  /** The three-digit shorthand "fff" is read as the number 0xFFF, that is (0, 15, 255), not white. */
  lemma ShorthandMisread()
    ensures HexToRgb("fff") == Some(Rgb(0, 15, 255))
    ensures HexToRgb("#fff") == Some(Rgb(0, 15, 255))
    ensures HexToRgb("#fff") != Some(White)
  {
    var t := "fff";
    assert StripHash("#fff") == t && StripHash(t) == t;
    assert TrimStart(t) == t;
    assert ParseInt16Digits(t) == t;
    assert t[..3] == t && t[..2] == "ff" && t[..2][..1] == "f" && "f"[..0] == [];
    assert HexValue(t) == 0xFFF;
    ShiftedBytesOf24(0, 15, 255);
  }

  /** `parseInt` skips leading white space, so " fff" after the '#' is read like "fff". */
  lemma LeadingWhitespaceSkipped()
    ensures HexToRgb("# fff") == HexToRgb("#fff")
    ensures HexToRgb(" fff") == Some(Rgb(0, 15, 255))
  {
    assert TrimStart(" fff") == TrimStart("fff") == "fff" by {
      assert " fff"[1..] == "fff";
    }
    assert StripHash("# fff") == " fff";
    ShorthandMisread();
  }

  // ---------------------------------------------------------------------------
  // The strict parser the null check at contrastUtils.ts:94 expects

  /**
   * Accepts exactly six hex digits after an optional '#', and signals a
   * malformed colour otherwise.
   */
  function ParseHexColor(s: string): (res: Result<Rgb>)
    ensures res.Ok? <==> IsWellFormedHex(s)
    ensures res.Err? ==> res.message == "MalformedColor"
    ensures res.Ok? ==> HexToRgb(s) == Some(res.value)
  {
    if IsWellFormedHex(s) then
      HexToRgbSixDigits(s);
      Ok(SixDigitColor(StripHash(s)))
    else Err("MalformedColor")
  }

  /** The strict parser round-trips every colour and rejects the shorthand and non-hex strings. */
  lemma ParseHexColorRoundTrip(c: Rgb)
    ensures ParseHexColor(EncodeHex(c)) == Ok(c)
    ensures ParseHexColor("#" + EncodeHex(c)) == Ok(c)
    ensures ParseHexColor("#fff").Err? && ParseHexColor("zzzzzz").Err?
  {
    HexRoundTrip(c);
    assert StripHash(EncodeHex(c)) == EncodeHex(c);
    assert StripHash("#" + EncodeHex(c)) == EncodeHex(c);
    assert !IsHexDigit("zzzzzz"[0]);
  }
}
