/** The fee/tax pricing model of one platform: inverting a net target to a
    base daily price (DP), and the forward computation of the even gross rate,
    the guest price and the host's net from a DP. All fractions are the
    configured percentages divided by 100; `pad` is 1 + padding/100. */
module Pricing {
  import opened Rounding
  import opened Domain

  /** Lower bound that keeps both divisions of the inversion defined. */
  const Epsilon: real := 0.0001

  /** The fee stack of a platform as fractions. */
  datatype Fractions = Fractions(guest: real, host: real, vat: real, tax: real, pad: real)

  function FractionsOf(p: FeeProfile): (f: Fractions)
    ensures 0.0 <= p.discountPaddingPct ==> f.pad >= 1.0
  {
    Fractions(
      p.guestFeePct / 100.0,
      p.hostCommissionPct / 100.0,
      p.vatPct / 100.0,
      p.incomeTaxPct / 100.0,
      1.0 + p.discountPaddingPct / 100.0)
  }

  /** The share of the gross rate the host keeps. */
  function KeptShare(host: real, vat: real, tax: real): real {
    (1.0 - host) * (1.0 - vat) * (1.0 - tax)
  }

  predicate IsFraction(x: real) {
    0.0 <= x <= 1.0
  }

  /** invGross: the gross that nets targetNet, with the kept share floored at Epsilon. */
  function InvGross(targetNet: real, host: real, vat: real, tax: real): (g: real)
    ensures KeptShare(host, vat, tax) >= Epsilon ==> g * KeptShare(host, vat, tax) == targetNet
    ensures targetNet >= 0.0 ==> g >= 0.0
  {
    targetNet / MaxReal(KeptShare(host, vat, tax), Epsilon)
  }

  /** deriveDP: the base daily price before padding and multiplier, with pad * mult floored at Epsilon. */
  function DeriveDP(targetNet: real, host: real, vat: real, tax: real, pad: real, mult: real): (dp: real)
    ensures pad * mult >= Epsilon ==> dp * (pad * mult) == InvGross(targetNet, host, vat, tax)
    ensures targetNet >= 0.0 ==> dp >= 0.0
  {
    InvGross(targetNet, host, vat, tax) / MaxReal(pad * mult, Epsilon)
  }

  datatype Prices = Prices(gross: int, guestPrice: int, net: int)

  /** up(gross * (1 + guest)) */
  function GuestPrice(gross: int, guest: real): (r: int)
    ensures gross >= 0 && guest >= 0.0 ==> r >= gross
  {
    var x := gross as real * (1.0 + guest);
    assert gross >= 0 && guest >= 0.0 ==> x >= gross as real;
    Ceil(x)
  }

  /** up(gross * (1 - host) * (1 - tax) * (1 - vat)) */
  function NetIncome(gross: int, host: real, vat: real, tax: real): (r: int)
    ensures gross >= 0 && IsFraction(host) && IsFraction(vat) && IsFraction(tax) ==> 0 <= r <= gross
  {
    var x := gross as real * (1.0 - host) * (1.0 - tax) * (1.0 - vat);
    assert gross >= 0 && IsFraction(host) && IsFraction(vat) && IsFraction(tax) ==> 0.0 <= x <= gross as real by {
      if gross >= 0 && IsFraction(host) && IsFraction(vat) && IsFraction(tax) {
        NetOfKeptShare(gross, host, vat, tax);
        ShareBounds(host, vat, tax);
        ScaleBounds(KeptShare(host, vat, tax), gross as real);
      }
    }
    Ceil(x)
  }

  /** Guest price and net recomputed from a given gross rate; shared by the forward step and by a
      locked override. */
  function FromGross(gross: int, guest: real, host: real, vat: real, tax: real): (r: Prices)
    ensures r.gross == gross
    ensures gross >= 0 && guest >= 0.0 ==> r.guestPrice >= gross
    ensures gross >= 0 && IsFraction(host) && IsFraction(vat) && IsFraction(tax) ==> 0 <= r.net <= gross
  {
    Prices(gross, GuestPrice(gross, guest), NetIncome(gross, host, vat, tax))
  }

  /** forwardPrices */
  function ForwardPrices(dp: real, guest: real, host: real, vat: real, tax: real, pad: real, mult: real): (r: Prices)
    ensures IsEven(r.gross)
    ensures dp * pad * mult - 0.5 < r.gross as real <= dp * pad * mult + 1.5
    ensures r == FromGross(r.gross, guest, host, vat, tax)
  {
    FromGross(ToEven(dp * pad * mult), guest, host, vat, tax)
  }

  /** Multiplying by a non-negative factor keeps the order. */
  lemma MulMono(x: real, y: real, k: real)
    requires x <= y && 0.0 <= k
    ensures x * k <= y * k
  {
  }

  /** Scaling a non-negative amount by a factor in [0, 1] keeps it in [0, amount]. */
  lemma ScaleBounds(k: real, g: real)
    requires 0.0 <= k <= 1.0 && 0.0 <= g
    ensures 0.0 <= g * k <= g
  {
    MulMono(k, 1.0, g);
    MulMono(0.0, k, g);
    assert k * g == g * k;
  }

  /** The product of three fractions is a fraction. */
  lemma ProductOfFractions(a: real, b: real, c: real)
    requires 0.0 <= a <= 1.0 && 0.0 <= b <= 1.0 && 0.0 <= c <= 1.0
    ensures 0.0 <= a * b * c <= 1.0
  {
    ScaleBounds(a, b);
    assert 0.0 <= a * b <= 1.0 by {
      assert b * a == a * b;
    }
    ScaleBounds(a * b, c);
    assert c * (a * b) == a * b * c;
  }

  /** With every fee a fraction, the kept share lies in [0, 1]. */
  lemma ShareBounds(host: real, vat: real, tax: real)
    requires IsFraction(host) && IsFraction(vat) && IsFraction(tax)
    ensures 0.0 <= KeptShare(host, vat, tax) <= 1.0
  {
    ProductOfFractions(1.0 - host, 1.0 - vat, 1.0 - tax);
  }

  /** The net formula multiplies in the order host, tax, VAT; in exact arithmetic this is the kept share. */
  lemma NetOfKeptShare(gross: int, host: real, vat: real, tax: real)
    ensures gross as real * (1.0 - host) * (1.0 - tax) * (1.0 - vat) == gross as real * KeptShare(host, vat, tax)
  {
    var g, a, b, c := gross as real, 1.0 - host, 1.0 - vat, 1.0 - tax;
    assert g * a * c * b == g * (a * b * c);
  }

  lemma DivMul(x: real, k: real)
    requires k != 0.0
    ensures (x / k) * k == x
  {
  }

  lemma MulAssoc(x: real, y: real, z: real)
    ensures x * y * z == x * (y * z)
  {
  }

  lemma Distrib(x: real, c: real, k: real)
    ensures (x + c) * k == x * k + c * k
  {
  }

  /** The inversion with both floors inactive is plain division. */
  lemma DeriveDPUnfloored(targetNet: real, host: real, vat: real, tax: real, pad: real, mult: real)
    requires KeptShare(host, vat, tax) >= Epsilon && pad * mult >= Epsilon
    ensures DeriveDP(targetNet, host, vat, tax, pad, mult) == (targetNet / KeptShare(host, vat, tax)) / (pad * mult)
  {
  }

  /** Undoing the padding and multiplier of the derived DP gives the inverted gross. */
  lemma DeriveDPScaled(targetNet: real, host: real, vat: real, tax: real, pad: real, mult: real)
    requires KeptShare(host, vat, tax) >= Epsilon && pad * mult >= Epsilon
    ensures DeriveDP(targetNet, host, vat, tax, pad, mult) * pad * mult == targetNet / KeptShare(host, vat, tax)
  {
    var g := targetNet / KeptShare(host, vat, tax);
    var dp := DeriveDP(targetNet, host, vat, tax, pad, mult);
    DeriveDPUnfloored(targetNet, host, vat, tax, pad, mult);
    DivMul(g, pad * mult);
    MulAssoc(dp, pad, mult);
  }

  /** The round trip of the engine: the unrounded DP, padded and multiplied, is exactly the gross
      that nets the target, so the forward gross of the DP is that gross rounded to even. */
  lemma DeriveThenForward(targetNet: real, guest: real, host: real, vat: real, tax: real, pad: real, mult: real)
    requires KeptShare(host, vat, tax) >= Epsilon && pad * mult >= Epsilon
    ensures ForwardPrices(DeriveDP(targetNet, host, vat, tax, pad, mult), guest, host, vat, tax, pad, mult).gross
         == ToEven(targetNet / KeptShare(host, vat, tax))
  {
    DeriveDPScaled(targetNet, host, vat, tax, pad, mult);
    var dp := DeriveDP(targetNet, host, vat, tax, pad, mult);
    ForwardGross(dp, guest, host, vat, tax, pad, mult);
  }

  lemma ForwardGross(dp: real, guest: real, host: real, vat: real, tax: real, pad: real, mult: real)
    ensures ForwardPrices(dp, guest, host, vat, tax, pad, mult).gross == ToEven(dp * pad * mult)
  {
  }

  /** Lower bound on g * k for a gross g at most half a unit below raw, where raw * k is the target. */
  lemma ScaledLowerBound(tr: real, raw: real, k: real, gr: real)
    requires 0.0 < k <= 1.0 && raw * k == tr
    requires raw - 0.5 < gr
    ensures tr - 1.0 < gr * k
  {
    MulMono(raw + -0.5, gr, k);
    Distrib(raw, -0.5, k);
    assert raw * k + -0.5 * k <= gr * k;
    assert tr + -0.5 * k <= gr * k;
  }

  /** Upper bound on g * k for a gross g at most one and a half units above raw. */
  lemma ScaledUpperBound(tr: real, raw: real, k: real, gr: real)
    requires 0.0 < k <= 1.0 && raw * k == tr
    requires gr <= raw + 1.5
    ensures gr * k <= tr + 2.0
  {
    MulMono(gr, raw + 1.5, k);
    Distrib(raw, 1.5, k);
    assert gr * k <= raw * k + 1.5 * k;
    assert gr * k <= tr + 1.5 * k;
  }

  /** The net recomputed from such a gross is between the target and two units above it. */
  lemma NetBoundsFromGross(t: int, raw: real, k: real, g: int)
    requires 0.0 < k <= 1.0 && raw * k == t as real
    requires raw - 0.5 < g as real <= raw + 1.5
    ensures t <= Ceil(g as real * k) <= t + 2
  {
    ScaledLowerBound(t as real, raw, k, g as real);
    ScaledUpperBound(t as real, raw, k, g as real);
    CeilAtMost(g as real * k, t + 2);
  }

  /** The net of a gross is the ceiling of the gross times the kept share. */
  lemma NetIncomeOfShare(gross: int, host: real, vat: real, tax: real)
    ensures NetIncome(gross, host, vat, tax) == Ceil(gross as real * KeptShare(host, vat, tax))
  {
    NetOfKeptShare(gross, host, vat, tax);
  }

  /** The forward prices are the prices of the rounded-to-even gross. */
  lemma ForwardUnfold(dp: real, guest: real, host: real, vat: real, tax: real, pad: real, mult: real)
    ensures ForwardPrices(dp, guest, host, vat, tax, pad, mult)
      == FromGross(ToEven(dp * pad * mult), guest, host, vat, tax)
  {
  }

  /** The forward net is the ceiling of the forward gross times the kept share. */
  lemma ForwardNet(dp: real, guest: real, host: real, vat: real, tax: real, pad: real, mult: real)
    ensures ForwardPrices(dp, guest, host, vat, tax, pad, mult).net
      == Ceil(ForwardPrices(dp, guest, host, vat, tax, pad, mult).gross as real * KeptShare(host, vat, tax))
  {
    var r := ForwardPrices(dp, guest, host, vat, tax, pad, mult);
    assert r == FromGross(r.gross, guest, host, vat, tax);
    NetIncomeOfShare(r.gross, host, vat, tax);
  }

  /** A whole-unit target divided by a share in (0, 1], rounded to even and multiplied back, comes
      out between the target and two units above it. */
  lemma TargetRoundTrip(t: int, k: real)
    requires 0.0 < k <= 1.0
    ensures t <= Ceil(ToEven(t as real / k) as real * k) <= t + 2
  {
    var raw := t as real / k;
    DivMul(t as real, k);
    NetBoundsFromGross(t, raw, k, ToEven(raw));
  }

  /** Forward/inverse consistency: for a whole-unit target and fees that are fractions, the net
      recomputed from the derived DP is never below the target and exceeds it by at most two
      units (half a unit from rounding to nearest, one from moving to even, then the ceiling). */
  lemma NetWithinRoundingOfTarget(targetNet: int, guest: real, host: real, vat: real, tax: real, pad: real, mult: real)
    requires IsFraction(host) && IsFraction(vat) && IsFraction(tax)
    requires KeptShare(host, vat, tax) >= Epsilon && pad * mult >= Epsilon
    ensures targetNet <= ForwardPrices(DeriveDP(targetNet as real, host, vat, tax, pad, mult), guest, host, vat, tax, pad, mult).net
    ensures ForwardPrices(DeriveDP(targetNet as real, host, vat, tax, pad, mult), guest, host, vat, tax, pad, mult).net <= targetNet + 2
  {
    ShareBounds(host, vat, tax);
    var dp := DeriveDP(targetNet as real, host, vat, tax, pad, mult);
    DeriveThenForward(targetNet as real, guest, host, vat, tax, pad, mult);
    ForwardNet(dp, guest, host, vat, tax, pad, mult);
    TargetRoundTrip(targetNet, KeptShare(host, vat, tax));
  }

  /** For a positive whole-unit target, fees that are fractions and a positive padding/multiplier
      product, every forward price is positive: gross at least 2, guest price at least gross, net at least 1. */
  lemma PricesPositive(targetNet: int, guest: real, host: real, vat: real, tax: real, pad: real, mult: real)
    requires targetNet >= 1 && guest >= 0.0
    requires IsFraction(host) && IsFraction(vat) && IsFraction(tax)
    requires KeptShare(host, vat, tax) >= Epsilon && pad * mult >= Epsilon
    ensures var r := ForwardPrices(DeriveDP(targetNet as real, host, vat, tax, pad, mult), guest, host, vat, tax, pad, mult);
            r.gross >= 2 && r.guestPrice >= r.gross && r.net >= 1
  {
    var k := KeptShare(host, vat, tax);
    ShareBounds(host, vat, tax);
    DeriveThenForward(targetNet as real, guest, host, vat, tax, pad, mult);
    NetWithinRoundingOfTarget(targetNet, guest, host, vat, tax, pad, mult);
    var raw := targetNet as real / k;
    DivMul(targetNet as real, k);
    AtLeastOne(targetNet as real, raw, k);
    assert Round(raw) >= 1;
  }

  /** Dividing a target of at least one by a share of at most one gives at least one. */
  lemma AtLeastOne(tr: real, raw: real, k: real)
    requires 1.0 <= tr && 0.0 < k <= 1.0 && raw * k == tr
    ensures raw >= 1.0
  {
  }
}
