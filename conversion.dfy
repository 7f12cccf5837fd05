/**
 * Conversion of an on-chain token amount (fixed point, eight decimals) into
 * the whole-token figure the watcher stores: the amount divided by 10^8 and
 * rounded to the nearest integer, halves going up.
 */
module Conversion {

  /** One whole token in on-chain base units (eight decimal places). */
  const Scale: nat := 100_000_000

  /** Half a token in base units: the rounding threshold. */
  const Half: nat := 50_000_000

  /**
   * Whole tokens for a raw amount, rounded to nearest with ties upward.
   * The result is the unique r whose rounding window
   * [r * Scale - Half, r * Scale + Half) holds the amount.
   */
  function ToWholeTokens(amt: nat): (r: nat)
    ensures r * Scale <= amt + Half < r * Scale + Scale
  {
    (amt + Half) / Scale
  }

  /** The stored figure is never more than half a token away from the raw amount. */
  lemma NearestWholeToken(amt: nat)
    ensures -(Half as int) <= ToWholeTokens(amt) * Scale - amt <= Half
    ensures ToWholeTokens(amt) * Scale - amt == Half as int ==> amt % Scale == Half
  {
  }

  /** Any r whose rounding window holds the amount is the stored figure. */
  lemma ToWholeTokensUnique(amt: nat, r: nat)
    requires r * Scale <= amt + Half < r * Scale + Scale
    ensures r == ToWholeTokens(amt)
  {
  }

  /** A value exactly halfway between two whole tokens goes to the upper one. */
  lemma HalfRoundsUp(k: nat)
    ensures ToWholeTokens(k * Scale + Half) == k + 1
  {
    ToWholeTokensUnique(k * Scale + Half, k + 1);
  }

  /** A value just below the halfway point goes to the lower whole token. */
  lemma BelowHalfRoundsDown(k: nat, x: nat)
    requires x < Half
    ensures ToWholeTokens(k * Scale + x) == k
  {
    ToWholeTokensUnique(k * Scale + x, k);
  }

  /** Sample amounts and their rounded figures. */
  lemma ConversionExamples()
    ensures ToWholeTokens(100_000_000) == 1
    ensures ToWholeTokens(150_000_000) == 2
    ensures ToWholeTokens(149_999_999) == 1
    ensures ToWholeTokens(30_000_000) == 0
    ensures ToWholeTokens(50_000_000) == 1
    ensures ToWholeTokens(250_000_000) == 3
  {
  }
}
