/** Coupon arithmetic.  Fares and amounts are whole cents; a coupon's value has two decimals,
    so it is held in hundredths (of a percent, or of a dollar).  The computation itself is in
    exact dollars, rounded to cents as toFixed(2) rounds: to the nearest, halves up. */
module Coupons {
  import opened Options

  datatype DiscountType = PERCENTAGE | FIXED

  datatype Coupon = Coupon(
    discountType: DiscountType, value: nat, maxDiscount: Option<nat>, minRideFare: Option<nat>,
    usageLimit: Option<nat>, usagePerUser: nat, validFrom: int, validTo: int, isActive: bool)

  function Min(a: real, b: real): real { if a < b then a else b }

  function Dollars(cents: int): real { cents as real / 100.0 }

  /** Number(x.toFixed(2)), in cents. */
  function ToFixed2(x: real): int { (x * 100.0 + 0.5).Floor }

  /** Before the caps. */
  function RawDiscount(c: Coupon, f: real): real {
    if c.discountType == PERCENTAGE then f * (Dollars(c.value) / 100.0) else Dollars(c.value)
  }

  function Capped(d: real, f: real, max: Option<nat>): real {
    Min(if max.Some? then Min(d, Dollars(max.value)) else d, f)
  }

  function ExactDiscount(c: Coupon, fare: nat): real {
    Capped(RawDiscount(c, Dollars(fare)), Dollars(fare), c.maxDiscount)
  }

  function ComputeDiscount(c: Coupon, fare: nat): int {
    ToFixed2(ExactDiscount(c, fare))
  }

  /** What payForRide charges. */
  function Paid(c: Coupon, fare: nat): int {
    ToFixed2(Dollars(fare) - Dollars(ComputeDiscount(c, fare)))
  }

  /** validateCoupon: the checks in order, given the redemption counts. */
  predicate Redeemable(c: Coupon, fare: nat, now: int, redeemed: nat, redeemedByUser: nat) {
    && c.isActive
    && !(now < c.validFrom || now > c.validTo)
    && !(c.minRideFare.Some? && fare < c.minRideFare.value)
    && !(c.usageLimit.Some? && redeemed >= c.usageLimit.value)
    && !(redeemedByUser >= c.usagePerUser)
  }

  // ------------------------------------------------------------ properties

  lemma CentsRoundTrip(cents: int)
    ensures ToFixed2(Dollars(cents)) == cents
  {
  }

  lemma FloorMonotone(x: real, y: real)
    requires x <= y
    ensures x.Floor <= y.Floor
  {
  }

  /** The smaller of a number of cents and an optional cap, and of that and the fare. */
  function LeastCents(d: int, max: Option<nat>, fare: int): int {
    var e := if max.Some? && max.value < d then max.value as int else d;
    if e < fare then e else fare
  }

  /** Rounding commutes with the caps, which are whole cents. */
  lemma CapsRound(d: real, max: Option<nat>, fare: nat)
    ensures ToFixed2(Capped(d, Dollars(fare), max)) == LeastCents(ToFixed2(d), max, fare)
  {
    CentsRoundTrip(fare);
    RoundMonotone(d, Dollars(fare));
    RoundMonotone(Dollars(fare), d);
    if max.Some? {
      CentsRoundTrip(max.value);
      RoundMonotone(d, Dollars(max.value));
      RoundMonotone(Dollars(max.value), d);
      RoundMonotone(Dollars(max.value), Dollars(fare));
      RoundMonotone(Dollars(fare), Dollars(max.value));
    }
  }

  lemma RoundMonotone(x: real, y: real)
    ensures x <= y ==> ToFixed2(x) <= ToFixed2(y)
  {
    if x <= y { FloorMonotone(x * 100.0 + 0.5, y * 100.0 + 0.5); }
  }

  /** In whole cents: a percentage of the fare to the nearest cent, halves up, or a fixed amount;
      at most the cap and at most the fare.  `value` is in hundredths of a percent or in cents. */
  lemma DiscountInCents(c: Coupon, fare: nat)
    ensures ComputeDiscount(c, fare)
      == LeastCents(if c.discountType == PERCENTAGE then (fare * c.value + 5_000) / 10_000 else c.value,
                    c.maxDiscount, fare)
  {
    CapsRound(RawDiscount(c, Dollars(fare)), c.maxDiscount, fare);
    if c.discountType == PERCENTAGE {
      PercentInCents(fare, c.value);
    } else {
      CentsRoundTrip(c.value);
    }
  }

  lemma PercentInCents(fare: nat, value: nat)
    ensures ToFixed2(Dollars(fare) * (Dollars(value) / 100.0)) == (fare * value + 5_000) / 10_000
  {
    var p := fare * value;
    assert fare as real * value as real == p as real;
    var x := Dollars(fare) * (Dollars(value) / 100.0) * 100.0 + 0.5;
    assert x == (fare as real * value as real) / 10_000.0 + 0.5;
    var q := (p + 5_000) / 10_000;
    assert 10_000 * q <= p + 5_000 < 10_000 * q + 10_000;
    assert q as real <= x < q as real + 1.0;
  }

  /** The discount is within the fare and the cap, and is the cent nearest to the exact one. */
  lemma DiscountIsBounded(c: Coupon, fare: nat)
    ensures 0 <= ComputeDiscount(c, fare) <= fare
    ensures c.maxDiscount.Some? ==> ComputeDiscount(c, fare) <= c.maxDiscount.value
    ensures -0.005 <= Dollars(ComputeDiscount(c, fare)) - ExactDiscount(c, fare) <= 0.005
  {
  }

  /** The subtraction loses nothing: what is charged plus the discount is the fare. */
  lemma PaidPlusDiscountIsFare(c: Coupon, fare: nat)
    ensures Paid(c, fare) + ComputeDiscount(c, fare) == fare
    ensures 0 <= Paid(c, fare)
  {
  }

  /** Raw discounts grow by at most the fare's growth, unless they already exceed the fare. */
  lemma RawGrows(c: Coupon, f: real)
    requires 0.0 <= f
    ensures var d, e := RawDiscount(c, f), RawDiscount(c, f + 0.01);
      d <= e && (e <= d + 0.01 || (d >= f && e >= f + 0.01))
  {
  }

  lemma CapGrows(d: real, e: real, f: real, max: Option<nat>)
    requires d <= e && (e <= d + 0.01 || (d >= f && e >= f + 0.01))
    ensures Capped(d, f, max) <= Capped(e, f + 0.01, max) <= Capped(d, f, max) + 0.01
  {
  }

  /** One more cent of fare raises the exact discount by at most one cent, even for percentages
      above 100 and across the caps. */
  lemma ExactGrowsSlowly(c: Coupon, fare: nat)
    ensures ExactDiscount(c, fare) <= ExactDiscount(c, fare + 1) <= ExactDiscount(c, fare) + 0.01
  {
    var f := Dollars(fare);
    assert Dollars(fare + 1) == f + 0.01;
    RawGrows(c, f);
    CapGrows(RawDiscount(c, f), RawDiscount(c, f + 0.01), f, c.maxDiscount);
  }

  lemma RoundedGrowsSlowly(c: Coupon, fare: nat)
    ensures ComputeDiscount(c, fare) <= ComputeDiscount(c, fare + 1) <= ComputeDiscount(c, fare) + 1
  {
    ExactGrowsSlowly(c, fare);
    var x, y := ExactDiscount(c, fare) * 100.0 + 0.5, ExactDiscount(c, fare + 1) * 100.0 + 0.5;
    FloorMonotone(x, y);
    FloorMonotone(y, x + 1.0);
  }

  /** A higher fare never costs less, and never earns a smaller discount. */
  lemma {:induction false} PaidIsMonotone(c: Coupon, fare: nat, higher: nat)
    requires fare <= higher
    ensures Paid(c, fare) <= Paid(c, higher)
    ensures ComputeDiscount(c, fare) <= ComputeDiscount(c, higher)
    decreases higher
  {
    if fare < higher {
      PaidIsMonotone(c, fare, higher - 1);
      RoundedGrowsSlowly(c, higher - 1);
      PaidPlusDiscountIsFare(c, higher - 1);
      PaidPlusDiscountIsFare(c, higher);
    }
  }

  /** When an uncapped coupon makes a ride free: a fixed amount that covers the fare, or a
      percentage whose rest, in hundredths of a cent, rounds away. */
  lemma FreeRideIff(c: Coupon, fare: nat)
    requires c.maxDiscount == None
    ensures c.discountType == FIXED ==> (Paid(c, fare) == 0 <==> c.value >= fare)
    ensures c.discountType == PERCENTAGE ==> (Paid(c, fare) == 0 <==> fare * (100_00 - c.value) <= 50_00)
  {
    PaidPlusDiscountIsFare(c, fare);
    var f := Dollars(fare);
    if c.discountType == FIXED {
      CentsRoundTrip(c.value);
      CentsRoundTrip(fare);
    } else {
      var x := ExactDiscount(c, fare) * 100.0;
      PercentOfFare(c, fare);
      assert ComputeDiscount(c, fare) == fare <==> x + 0.5 >= fare as real by {
        assert (x + 0.5).Floor <= fare by { DiscountIsBounded(c, fare); }
      }
      assert (fare * c.value) as real / 10000.0 + 0.5 >= fare as real
        <==> (fare * c.value) as real + 5000.0 >= (fare * 100_00) as real;
      assert fare * (100_00 - c.value) == fare * 100_00 - fare * c.value;
    }
  }

  lemma PercentOfFare(c: Coupon, fare: nat)
    requires c.maxDiscount == None && c.discountType == PERCENTAGE
    ensures var exact, share := ExactDiscount(c, fare) * 100.0, (fare * c.value) as real / 10000.0;
      exact == Min(share, fare as real)
  {
  }

}
