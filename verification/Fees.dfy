/** The platform fee: a share of the amount in basis points, halved for senders of large
    volume, limited by a cap and by the amount itself. */
module Fees {
  import opened Wrappers

  const I128_HALF: int := 0x8000_0000_0000_0000_0000_0000_0000_0000
  const BPS_DIVISOR := 10_000
  const VOLUME_THRESHOLD: int := 100_000_000_000

  predicate InI128(x: int) {
    -I128_HALF <= x < I128_HALF
  }

  function Saturate(x: int): int {
    if x >= I128_HALF then I128_HALF - 1 else if x < -I128_HALF then -I128_HALF else x
  }

  /** Division that rounds towards zero. */
  function TruncDiv(n: int, d: int): int
    requires d > 0
  {
    if n >= 0 then n / d else -((-n) / d)
  }

  function EffectiveBps(bps: int, volume: int): int {
    if volume > VOLUME_THRESHOLD then TruncDiv(bps, 2) else bps
  }

  function Limited(raw: int, amount: int, cap: int): int {
    var capped := if raw > cap then cap else raw;
    if capped > amount then amount else capped
  }

  /** Fee and remainder of a swap output; an overflow traps. */
  function CalculateFee(amount: int, bps: int, cap: int): Option<(int, int)> {
    if !InI128(amount * bps) then None
    else
      var fee := Limited(TruncDiv(amount * bps, BPS_DIVISOR), amount, cap);
      if InI128(amount - fee) then Some((fee, amount - fee)) else None
  }

  /** The fee of a direct payment saturates where the product overflows. */
  function DirectFee(amount: int, bps: int, cap: int): int {
    Limited(TruncDiv(Saturate(amount * bps), BPS_DIVISOR), amount, cap)
  }

  /** The fee of a relayed payment is taken as if at one basis point where it overflows. */
  function MetaFee(amount: int, bps: int, cap: int): int {
    Limited(TruncDiv(if InI128(amount * bps) then amount * bps else amount, BPS_DIVISOR), amount, cap)
  }

  lemma TruncDivSign(n: int)
    ensures TruncDiv(n, BPS_DIVISOR) >= 0 <==> n > -BPS_DIVISOR
  {
  }

  /** A fee is a part of the amount exactly for settings that are not negative; with others
      the remainder exceeds what there is to pay it from. */
  lemma FeeIsPartOfAmount(amount: nat, bps: int, cap: int)
    requires CalculateFee(amount, bps, cap).Some?
    ensures var (fee, remainder) := CalculateFee(amount, bps, cap).value;
            && fee + remainder == amount
            && (0 <= fee <= amount && 0 <= remainder <= amount <==> cap >= 0 && amount * bps > -BPS_DIVISOR)
  {
    TruncDivSign(amount * bps);
  }

  lemma ProductSign(amount: nat, bps: nat)
    ensures amount * bps >= 0
  {
  }

  /** All three rules take a part of the amount when the settings are not negative. */
  lemma FeesArePartOfAmount(amount: nat, bps: nat, cap: nat)
    ensures 0 <= DirectFee(amount, bps, cap) <= amount
    ensures 0 <= MetaFee(amount, bps, cap) <= amount
    ensures CalculateFee(amount, bps, cap).Some? ==> 0 <= CalculateFee(amount, bps, cap).value.0 <= amount
  {
    ProductSign(amount, bps);
  }

  lemma FeeFits(amount: nat, bps: nat, cap: nat)
    requires amount < I128_HALF && amount * bps < I128_HALF
    ensures CalculateFee(amount, bps, cap).Some?
    ensures CalculateFee(amount, bps, cap).value.0 + CalculateFee(amount, bps, cap).value.1 == amount
  {
    FeesArePartOfAmount(amount, bps, cap);
  }

  lemma EffectiveBpsRange(bps: nat, volume: int)
    ensures 0 <= EffectiveBps(bps, volume) <= bps
  {
  }

  lemma DivStep(m: nat, n: nat, gap: nat)
    requires m <= n <= m + gap * BPS_DIVISOR
    ensures m / BPS_DIVISOR <= n / BPS_DIVISOR <= m / BPS_DIVISOR + gap
  {
  }

  lemma Scale(a: int, b: int, d: nat)
    requires a <= b
    ensures a * d <= b * d
  {
  }

  /** A larger amount pays no less fee and, at rates up to 100%, delivers no less either. */
  lemma FeeAndRemainderGrow(a: nat, b: nat, bps: nat, cap: nat)
    requires a <= b && bps <= BPS_DIVISOR
    requires CalculateFee(a, bps, cap).Some? && CalculateFee(b, bps, cap).Some?
    ensures CalculateFee(a, bps, cap).value.0 <= CalculateFee(b, bps, cap).value.0
    ensures CalculateFee(a, bps, cap).value.1 <= CalculateFee(b, bps, cap).value.1
  {
    var m, n, gap := a * bps, b * bps, b - a;
    ProductSign(a, bps);
    Scale(a, b, bps);
    assert n == m + gap * bps;
    Scale(bps, BPS_DIVISOR, gap);
    DivStep(m, n, gap);
    LimitedGrows(m / BPS_DIVISOR, n / BPS_DIVISOR, a, b, cap);
  }

  lemma LimitedGrows(q: nat, r: nat, a: nat, b: nat, cap: nat)
    requires a <= b && q <= r <= q + (b - a)
    ensures Limited(q, a, cap) <= Limited(r, b, cap)
    ensures a - Limited(q, a, cap) <= b - Limited(r, b, cap)
  {
  }

  /** The volume discount never makes a fee larger. */
  lemma DiscountLowersFee(amount: nat, bps: nat, cap: nat, volume: int)
    requires CalculateFee(amount, bps, cap).Some?
    ensures CalculateFee(amount, EffectiveBps(bps, volume), cap).Some?
    ensures CalculateFee(amount, EffectiveBps(bps, volume), cap).value.0 <= CalculateFee(amount, bps, cap).value.0
  {
    var reduced := EffectiveBps(bps, volume);
    EffectiveBpsRange(bps, volume);
    ProductSign(amount, reduced);
    Scale(reduced, bps, amount);
    FeesArePartOfAmount(amount, bps, cap);
  }

  // ---------- what a fee is, apart from how it is computed ----------

  /** The rate for a sender of this volume: the full one up to 100,000,000,000, half of it,
      rounded down, above. */
  ghost predicate IsRate(rate: int, bps: int, volume: int) {
    if volume <= 100_000_000_000 then rate == bps else 2 * rate <= bps < 2 * rate + 2
  }

  predicate FeeAllowed(f: int, amount: int, product: int, cap: int) {
    f <= amount && f <= cap && 10_000 * f <= product
  }

  /** The largest fee within the amount, the cap, and the share that `product`, in
      ten-thousandths, stands for. */
  ghost predicate IsFee(f: int, amount: int, product: int, cap: int) {
    && FeeAllowed(f, amount, product, cap)
    && forall g :: FeeAllowed(g, amount, product, cap) ==> g <= f
  }

  /** There is exactly one such rate and one such fee, and the fee is not negative. */
  lemma FeeIsUnique(bps: nat, volume: int, amount: nat, product: nat, cap: nat) returns (rate: nat, fee: nat)
    ensures IsRate(rate, bps, volume) && forall r :: IsRate(r, bps, volume) ==> r == rate
    ensures IsFee(fee, amount, product, cap) && forall f :: IsFee(f, amount, product, cap) ==> f == fee
  {
    rate := if volume <= 100_000_000_000 then bps else bps / 2;
    fee := Limited(product / 10_000, amount, cap);
    LimitedIsFee(product, amount, cap);
  }

  lemma LimitedIsFee(product: nat, amount: nat, cap: nat)
    ensures IsFee(Limited(TruncDiv(product, BPS_DIVISOR), amount, cap), amount, product, cap)
  {
  }

  lemma EffectiveBpsIsRate(bps: nat, volume: int, rate: int)
    requires IsRate(rate, bps, volume)
    ensures EffectiveBps(bps, volume) == rate
  {
  }

  /** The product of a direct payment stops at the largest amount there is. */
  lemma DirectFeeIsFee(amount: nat, rate: nat, cap: nat, fee: int)
    requires IsFee(fee, amount, if amount * rate < I128_HALF then amount * rate else I128_HALF - 1, cap)
    ensures DirectFee(amount, rate, cap) == fee
  {
    ProductSign(amount, rate);
    LimitedIsFee(Saturate(amount * rate), amount, cap);
  }

  /** Where the product of a relayed payment overflows, the amount stands in for it. */
  lemma MetaFeeIsFee(amount: nat, rate: nat, cap: nat, fee: int)
    requires IsFee(fee, amount, if amount * rate < I128_HALF then amount * rate else amount, cap)
    ensures MetaFee(amount, rate, cap) == fee
  {
    ProductSign(amount, rate);
    LimitedIsFee(if amount * rate < I128_HALF then amount * rate else amount, amount, cap);
  }

  lemma CalculatedFeeIsFee(amount: nat, rate: nat, cap: nat, fee: int)
    requires IsFee(fee, amount, amount * rate, cap)
    ensures CalculateFee(amount, rate, cap).Some? <==> amount * rate < I128_HALF && amount - fee < I128_HALF
    ensures CalculateFee(amount, rate, cap).Some? ==> CalculateFee(amount, rate, cap).value == (fee, amount - fee)
  {
    ProductSign(amount, rate);
    LimitedIsFee(amount * rate, amount, cap);
  }
}
