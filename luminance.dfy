/**
 * Relative luminance and contrast ratio (`calculateLuminance` and
 * `calculateContrastRatio` in src/utils/contrastUtils.ts), over exact reals.
 *
 * The source raises `(v + 0.055) / 1.055` to the power 2.4 with `Math.pow`.
 * That power is not expressible here, so every function that needs it takes
 * it as a parameter `pow` and requires `IsPow24(pow)`: the properties of
 * x^2.4 on [0, 1] that the proofs use. Everything proved below holds for every
 * curve with those properties, the true power among them.
 */
module Luminance {
  import opened Wrappers
  import opened HexColor

  /** The split point of the piecewise sRGB transform. */
  const Threshold: real := 0.03928

  /** The value the source raises to the power 2.4. */
  function PowBase(v: real): real {
    (v + 0.055) / 1.055
  }

  /**
   * The properties of x^2.4 that the model relies on: non-decreasing on
   * [0, 1], maps [0, 1] into [0, 1], sends 1 to 1, and at the first channel
   * on the curved branch (11) is no lower than the linear branch at the last
   * linear channel (10). The last holds for the true power (0.003346 against
   * 0.003035); the stronger "at least 0.03928 / 12.92 just above the split"
   * would not, since the two branches of the transform do not quite meet there.
   */
  ghost predicate IsPow24(pow: real -> real) {
    (forall x, y :: 0.0 <= x <= y <= 1.0 ==> pow(x) <= pow(y))
    && (forall x :: 0.0 <= x <= 1.0 ==> 0.0 <= pow(x) <= 1.0)
    && pow(1.0) == 1.0
    && pow(PowBase(11.0 / 255.0)) >= (10.0 / 255.0) / 12.92
  }

  function Square(x: real): real {
    x * x
  }

  /** The hypotheses on the power curve can be met (by x^2, for one). */
  lemma Pow24Satisfiable()
    ensures IsPow24(Square)
  {
    forall x: real, y: real | 0.0 <= x <= y <= 1.0
      ensures Square(x) <= Square(y)
    {
      SquareMonotone(x, y);
    }
    forall x: real | 0.0 <= x <= 1.0
      ensures 0.0 <= Square(x) <= 1.0
    {
      SquareMonotone(x, 1.0);
    }
    var b := PowBase(11.0 / 255.0);
    QuotientAtLeast(11.0 / 255.0 + 0.055, 1.055, 0.09);
    SquareMonotone(0.09, b);
    assert Square(b) >= (10.0 / 255.0) / 12.92;
  }

  lemma SquareMonotone(x: real, y: real)
    requires 0.0 <= x <= y
    ensures x * x <= y * y
  {
    assert x * x <= x * y;
  }

  /** The sRGB transform of one normalised channel value (the local `transform`). */
  function Linearize(v: real, pow: real -> real): real {
    if v <= Threshold then v / 12.92 else pow(PowBase(v))
  }

  /**
   * One channel, normalised by 255 and linearised. The linear branch is taken
   * exactly for the channel values 0 to 10.
   */
  function ChannelLinear(c: Byte, pow: real -> real): (l: real)
    requires IsPow24(pow)
    ensures 0.0 <= l <= 1.0
    ensures c <= 10 ==> l == (c as real / 255.0) / 12.92
    ensures c > 10 ==> l == pow(PowBase(c as real / 255.0))
  {
    var v := c as real / 255.0;
    assert c <= 10 <==> v <= Threshold;
    Linearize(v, pow)
  }

  /** `calculateLuminance`: the weighted sum of the three linearised channels. */
  function RelativeLuminance(rgb: Rgb, pow: real -> real): (l: real)
    requires IsPow24(pow)
    ensures 0.0 <= l <= 1.0
  {
    0.2126 * ChannelLinear(rgb.r, pow) + 0.7152 * ChannelLinear(rgb.g, pow) + 0.0722 * ChannelLinear(rgb.b, pow)
  }

  /** Black has luminance 0 and white luminance 1: the three weights sum to exactly 1. */
  lemma LuminanceOfBlackAndWhite(pow: real -> real)
    requires IsPow24(pow)
    ensures RelativeLuminance(Black, pow) == 0.0
    ensures RelativeLuminance(White, pow) == 1.0
  {
    assert PowBase(255 as real / 255.0) == 1.0;
  }

  /** The linearised channel is non-decreasing, across the split between the two branches too. */
  lemma ChannelLinearMonotone(c1: Byte, c2: Byte, pow: real -> real)
    requires IsPow24(pow)
    requires c1 <= c2
    ensures ChannelLinear(c1, pow) <= ChannelLinear(c2, pow)
  {
    var b2 := PowBase(c2 as real / 255.0);
    if c1 <= 10 < c2 {
      var b11 := PowBase(11.0 / 255.0);
      assert ChannelLinear(c1, pow) <= (10.0 / 255.0) / 12.92;
      assert 0.0 <= b11 <= b2 <= 1.0;
      assert pow(b11) <= pow(b2);
    } else if 10 < c1 {
      var b1 := PowBase(c1 as real / 255.0);
      assert 0.0 <= b1 <= b2 <= 1.0;
      assert pow(b1) <= pow(b2);
    }
  }

  /** Luminance is non-decreasing in each channel. */
  lemma LuminanceMonotone(x: Rgb, y: Rgb, pow: real -> real)
    requires IsPow24(pow)
    requires x.r <= y.r && x.g <= y.g && x.b <= y.b
    ensures RelativeLuminance(x, pow) <= RelativeLuminance(y, pow)
  {
    ChannelLinearMonotone(x.r, y.r, pow);
    ChannelLinearMonotone(x.g, y.g, pow);
    ChannelLinearMonotone(x.b, y.b, pow);
  }

  /**
   * `(lighter + 0.05) / (darker + 0.05)` for two luminances: at least 1, at
   * most 21, independent of the order of its arguments, and 1 exactly when
   * they are equal.
   */
  function RatioOfLuminances(l1: real, l2: real): (ratio: real)
    requires 0.0 <= l1 <= 1.0 && 0.0 <= l2 <= 1.0
    ensures 1.0 <= ratio <= 21.0
    ensures ratio == 1.0 <==> l1 == l2
    ensures l1 == 1.0 && l2 == 0.0 ==> ratio == 21.0
  {
    var lighter := if l1 >= l2 then l1 else l2;
    var darker := if l1 >= l2 then l2 else l1;
    var ratio := (lighter + 0.05) / (darker + 0.05);
    RatioBounds(lighter, darker, ratio);
    ratio
  }

  lemma RatioBounds(lighter: real, darker: real, ratio: real)
    requires 0.0 <= darker <= lighter <= 1.0
    requires ratio == (lighter + 0.05) / (darker + 0.05)
    ensures 1.0 <= ratio <= 21.0
    ensures ratio == 1.0 <==> lighter == darker
  {
    var a, d := lighter + 0.05, darker + 0.05;
    QuotientAtLeast(a, d, 1.0);
    QuotientAtMost(a, d, 21.0);
  }

  lemma QuotientAtLeast(a: real, d: real, k: real)
    requires d > 0.0 && a >= k * d
    ensures a / d >= k
  {
    assert (a - k * d) / d >= 0.0;
    assert (a - k * d) / d == a / d - k;
  }

  lemma QuotientAtMost(a: real, d: real, k: real)
    requires d > 0.0 && a <= k * d
    ensures a / d <= k
  {
    assert (k * d - a) / d >= 0.0;
    assert (k * d - a) / d == k - a / d;
  }

  /**
   * `calculateContrastRatio`: parse both strings, then combine their
   * luminances; a colour that fails to parse gives the ratio 1.
   */
  function ContrastRatio(color1: string, color2: string, pow: real -> real): (ratio: real)
    requires IsPow24(pow)
    ensures 1.0 <= ratio <= 21.0
  {
    var rgb1 := HexToRgb(color1);
    var rgb2 := HexToRgb(color2);
    if rgb1.None? || rgb2.None? then 1.0
    else RatioOfLuminances(RelativeLuminance(rgb1.value, pow), RelativeLuminance(rgb2.value, pow))
  }

  /** The contrast ratio does not depend on the order of the two colours. */
  lemma ContrastRatioSymmetric(color1: string, color2: string, pow: real -> real)
    requires IsPow24(pow)
    ensures ContrastRatio(color1, color2, pow) == ContrastRatio(color2, color1, pow)
  {
    var l1 := RelativeLuminance(HexToRgb(color1).value, pow);
    var l2 := RelativeLuminance(HexToRgb(color2).value, pow);
    assert RatioOfLuminances(l1, l2) == RatioOfLuminances(l2, l1);
  }

  /** Two strings that parse to the same triple have contrast ratio 1. */
  lemma ContrastRatioOfSameColor(color1: string, color2: string, pow: real -> real)
    requires IsPow24(pow)
    requires HexToRgb(color1) == HexToRgb(color2)
    ensures ContrastRatio(color1, color2, pow) == 1.0
  {
  }

  /** "#FFFFFF" and "#000000" parse to white and black. */
  lemma ParseWhiteAndBlack()
    ensures HexToRgb("#FFFFFF") == Some(White)
    ensures HexToRgb("#000000") == Some(Black)
  {
    assert StripHash("#FFFFFF") == "FFFFFF" && StripHash("#000000") == "000000";
    HexToRgbSixDigits("#FFFFFF");
    HexToRgbSixDigits("#000000");
    assert DigitValue('F') == 15 && DigitValue('0') == 0;
  }

  /** White against black has the maximal ratio 21. */
  lemma ContrastRatioWhiteOnBlack(pow: real -> real)
    requires IsPow24(pow)
    ensures ContrastRatio("#FFFFFF", "#000000", pow) == 21.0
  {
    ParseWhiteAndBlack();
    LuminanceOfBlackAndWhite(pow);
  }

  /**
   * The parse-failure branch of calculateContrastRatio is never taken: every
   * pair of strings gets the ratio of its two luminances.
   */
  lemma ContrastRatioNeverFallsBack(color1: string, color2: string, pow: real -> real)
    requires IsPow24(pow)
    ensures HexToRgb(color1).Some? && HexToRgb(color2).Some?
    ensures ContrastRatio(color1, color2, pow)
         == RatioOfLuminances(RelativeLuminance(HexToRgb(color1).value, pow),
                              RelativeLuminance(HexToRgb(color2).value, pow))
  {
  }

  /**
   * The contrast ratio with strict parsing: a malformed colour is an error
   * instead of the ratio 1, and a well-formed pair gets the same ratio as
   * calculateContrastRatio.
   */
  function ContrastRatioChecked(color1: string, color2: string, pow: real -> real): (res: Result<real>)
    requires IsPow24(pow)
    ensures res.Ok? <==> IsWellFormedHex(color1) && IsWellFormedHex(color2)
    ensures res.Err? ==> res.message == "MalformedColor"
    ensures res.Ok? ==> res.value == ContrastRatio(color1, color2, pow) && 1.0 <= res.value <= 21.0
  {
    match (ParseHexColor(color1), ParseHexColor(color2))
    case (Ok(c1), Ok(c2)) => Ok(RatioOfLuminances(RelativeLuminance(c1, pow), RelativeLuminance(c2, pow)))
    case (Err(e), _) => Err(e)
    case (_, Err(e)) => Err(e)
  }
}
