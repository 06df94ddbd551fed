/** Rounding of a liquidation: what the bids pay at least, and what the rest still backs at least.
    Ratios are reals here; F scales them back. */
module LiquidationBounds {
  import opened FixedPoint
  import opened Tax
  import opened Totals
  import opened BidBook
  import opened LiquidationModel
  import opened DebtCover

  ghost function Ratio(raw: nat): real { raw as real / F as real }

  // The part of a value that is left after the largest premium, the bid fee and the tax.
  ghost function Keep(cfg: BidConfig): real
    requires cfg.maxPremiumRate <= F && cfg.bidFee <= F && cfg.taxRate <= F
  {
    Times(Times(Ratio(F - cfg.maxPremiumRate), Ratio(F - cfg.bidFee)), Ratio(F - cfg.taxRate))
  }

  // ----- flooring, in reals -----

  lemma RatioRange(raw: nat)
    requires raw <= F
    ensures 0.0 <= Ratio(raw) <= 1.0
  {
    CrossDivide(raw as real, F as real, 1.0, 1.0);
    QuotientNonNegative(raw as real, F as real);
  }

  lemma MulReal(a: nat, b: nat)
    ensures Mul(a, b) as real <= Times(Ratio(b), a as real) < Mul(a, b) as real + 1.0
  {
    MulFloor(a, b);
    var m, x, fr := Mul(a, b) as real, Times(Ratio(b), a as real), F as real;
    assert x * fr == (a * b) as real by {
      assert Ratio(b) * fr == b as real;
      assert x * fr == (Ratio(b) * fr) * a as real;
    }
    assert m * fr <= x * fr < (m + 1.0) * fr by {
      assert (Mul(a, b) * F) as real <= (a * b) as real < (Mul(a, b) * F + F) as real;
    }
    CancelLess(x, m + 1.0, fr);
    CancelAtMost(m, x, fr);
  }

  lemma CancelLess(a: real, b: real, c: real)
    requires c > 0.0 && a * c < b * c
    ensures a < b
  {
  }

  lemma CancelAtMost(a: real, b: real, c: real)
    requires c > 0.0 && a * c <= b * c
    ensures a <= b
  {
  }

  // Applying a ratio of at most one to something reduced by d loses at most d more.
  lemma ShrinkSlack(r: real, x: real, d: real)
    requires 0.0 <= r <= 1.0 && d >= 0.0
    ensures Times(r, x - d) >= Times(r, x) - d
  {
    TimesSum(r, x, -d);
    TimesMono(r, 1.0, d);
  }

  lemma FeeReal(required: nat, fee: nat)
    requires fee <= F
    ensures (required - Mul(required, fee)) as real >= Times(Ratio(F - fee), required as real)
  {
    MulReal(required, fee);
    RatioSplit(fee);
    TimesSplit(Ratio(F - fee), Ratio(fee), required as real);
  }

  lemma RatioSplit(raw: nat)
    requires raw <= F
    ensures Ratio(F - raw) + Ratio(raw) == 1.0
  {
    assert (F - raw) as real + raw as real == F as real;
    assert F as real / F as real == 1.0;
  }

  lemma TimesSplit(a: real, b: real, x: real)
    ensures Times(a, x) + Times(b, x) == Times(a + b, x)
  {
  }

  // amount / (1 + tax) is at least amount * (1 - tax).
  lemma NetScaled(amount: nat, rate: nat, n: nat)
    requires rate <= F && n * (F + rate) + F + rate > amount * F
    ensures (n + 1) * F >= amount * (F - rate)
  {
    var m, keep := n + 1, F - rate;
    assert m * (F + rate) == n * (F + rate) + F + rate;
    MulMono(amount * F, m * (F + rate), keep);
    DifferenceOfSquares(m, rate);
    Rotate(amount, F, keep);
    MulCancel(amount * keep, m * F, F);
  }

  lemma DifferenceOfSquares(m: nat, rate: nat)
    requires rate <= F
    ensures m * (F + rate) * (F - rate) <= m * F * F
  {
    SquareBound(F, rate);
    MulMono((F + rate) * (F - rate), F * F, m);
    Rotate(m, F + rate, F - rate);
    Rotate(m, F, F);
  }

  lemma SquareBound(a: nat, r: nat)
    requires r <= a
    ensures 0 <= (a + r) * (a - r) <= a * a
  {
    var d := a - r;
    Distribute(a + r, d, r);
    MulMono(0, a + r, d);
    assert (a + r) * r >= a * r;
    assert (a + r) * a == a * a + a * r;
  }

  lemma NetReal(amount: nat, rate: nat, cap: nat)
    requires rate <= F
    ensures DeductTax(amount, rate, cap) as real >= Times(Ratio(F - rate), amount as real) - 1.0
  {
    NetAtLeast(amount, rate, cap);
    var n := DeductTax(amount, rate, cap);
    NetScaled(amount, rate, n);
    TimesRatio(amount, F - rate);
    assert (n as real + 1.0) * F as real >= Times(Ratio(F - rate), amount as real) * F as real by {
      assert ((n + 1) * F) as real >= (amount * (F - rate)) as real;
    }
    CancelAtMost(Times(Ratio(F - rate), amount as real), n as real + 1.0, F as real);
  }

  lemma TimesRatio(a: nat, raw: nat)
    ensures Times(Ratio(raw), a as real) * F as real == (a * raw) as real
  {
    var r, fr := Ratio(raw), F as real;
    assert r * fr == raw as real;
    assert (r * a as real) * fr == (r * fr) * a as real;
  }

  // ----- what one bid pays -----

  /** A bid at any allowed premium pays the market at least value * Keep, short of three units. */
  lemma BidPays(cfg: BidConfig, premiumRate: nat, amount: nat, price: nat)
    requires cfg.maxPremiumRate <= F && cfg.bidFee <= F && cfg.taxRate <= F
    ensures RequiredStable(cfg, premiumRate, amount, price).Some?
    ensures var required := RequiredStable(cfg, premiumRate, amount, price).value;
            && SplitFee(cfg, required).Some?
            && DeductTax(SplitFee(cfg, required).value.repayment, cfg.taxRate, cfg.taxCap) as real
               >= Times(Keep(cfg), Times(Ratio(price), amount as real)) - 3.0
  {
    var v := Mul(amount, price);
    var discount := F - Min(premiumRate, cfg.maxPremiumRate);
    var required := Mul(v, discount);
    FeeWithin(cfg, required);
    var repayment := required - Mul(required, cfg.bidFee);
    var a, b, c := Ratio(F - cfg.maxPremiumRate), Ratio(F - cfg.bidFee), Ratio(F - cfg.taxRate);
    RatioRange(F - cfg.maxPremiumRate);
    RatioRange(F - cfg.bidFee);
    RatioRange(F - cfg.taxRate);
    MulReal(amount, price);
    MulReal(v, discount);
    RatioMono(F - cfg.maxPremiumRate, discount);
    TimesMono(a, Ratio(discount), v as real);
    FeeReal(required, cfg.bidFee);
    NetReal(repayment, cfg.taxRate, cfg.taxCap);
    var x := Times(Ratio(price), amount as real);
    PayChain(a, b, c, x, v as real, required as real, repayment as real);
  }

  lemma RatioMono(a: nat, b: nat)
    requires a <= b
    ensures Ratio(a) <= Ratio(b)
  {
    CrossDivide(a as real, F as real, b as real, F as real);
  }

  lemma PayChain(a: real, b: real, c: real, x: real, v: real, required: real, repayment: real)
    requires 0.0 <= a <= 1.0 && 0.0 <= b <= 1.0 && 0.0 <= c <= 1.0
    requires v >= x - 1.0 && required >= Times(a, v) - 1.0 && repayment >= Times(b, required)
    ensures Times(c, repayment) - 1.0 >= Times(Times(Times(a, b), c), x) - 3.0
  {
    TimesMonoRight(a, x - 1.0, v);
    ShrinkSlack(a, x, 1.0);
    assert required >= Times(a, x) - 2.0;
    TimesMonoRight(b, Times(a, x) - 2.0, required);
    ShrinkSlack(b, Times(a, x), 2.0);
    assert repayment >= Times(b, Times(a, x)) - 2.0;
    TimesMonoRight(c, Times(b, Times(a, x)) - 2.0, repayment);
    ShrinkSlack(c, Times(b, Times(a, x)), 2.0);
    Times4(a, b, c, x);
  }

  lemma Times4(a: real, b: real, c: real, x: real)
    ensures Times(c, Times(b, Times(a, x))) == Times(Times(Times(a, b), c), x)
  {
    TimesAssoc(b, a, x);
    TimesAssoc(c, Times(b, a), x);
    assert Times(b, a) == Times(a, b);
    assert Times(c, Times(a, b)) == Times(Times(a, b), c);
  }

  // The fixed-point deductor never exceeds the real one.
  lemma DeductorBelowKeep(cfg: BidConfig)
    requires cfg.maxPremiumRate <= F && cfg.bidFee <= F && cfg.taxRate <= F
    ensures FeeDeductor(cfg).Some? && Ratio(FeeDeductor(cfg).value) <= Keep(cfg)
  {
    var a, b, c := F - cfg.maxPremiumRate, F - cfg.bidFee, F - cfg.taxRate;
    MulRatio(a, b);
    MulRatio(Mul(a, b), c);
    RatioRange(c);
    TimesMono(Ratio(Mul(a, b)), Times(Ratio(a), Ratio(b)), Ratio(c));
  }

  lemma MulRatio(a: nat, b: nat)
    ensures Ratio(Mul(a, b)) <= Times(Ratio(a), Ratio(b))
  {
    MulReal(a, b);
    assert Times(Ratio(b), a as real) == Times(Ratio(a), Ratio(b)) * F as real by {
      assert Ratio(a) * F as real == a as real;
      assert Ratio(b) * (Ratio(a) * F as real) == (Ratio(a) * Ratio(b)) * F as real;
    }
    CrossDivide(Mul(a, b) as real, F as real, Times(Ratio(a), Ratio(b)), 1.0);
  }

  /** The fixed-point deductor is the real one short of less than two units of 10^-18. */
  lemma DeductorWithinTwo(cfg: BidConfig)
    requires cfg.maxPremiumRate <= F && cfg.bidFee <= F && cfg.taxRate <= F
    ensures FeeDeductor(cfg).Some?
    ensures Ratio(FeeDeductor(cfg).value) <= Keep(cfg) < Ratio(FeeDeductor(cfg).value + 2)
  {
    var a, b, c := F - cfg.maxPremiumRate, F - cfg.bidFee, F - cfg.taxRate;
    var ab := Mul(a, b);
    var d := Mul(ab, c);
    DeductorBelowKeep(cfg);
    MulReal(a, b);
    MulReal(ab, c);
    RatioRange(c);
    var fr := F as real;
    assert Times(Ratio(b), a as real) == Times(Ratio(a), Ratio(b)) * fr by {
      assert Ratio(a) * fr == a as real;
      assert Ratio(b) * (Ratio(a) * fr) == (Ratio(a) * Ratio(b)) * fr;
    }
    KeepAbove(Times(Ratio(a), Ratio(b)), Ratio(c), ab as real, d as real, fr);
    assert (d as real + 2.0) == (d + 2) as real;
  }

  lemma KeepAbove(ab: real, c: real, m: real, d: real, fr: real)
    requires fr > 0.0 && 0.0 <= c <= 1.0
    requires ab * fr < m + 1.0 && Times(c, m) < d + 1.0
    ensures Times(ab, c) < (d + 2.0) / fr
  {
    TimesMonoRight(c, ab * fr, m + 1.0);
    TimesSum(c, m, 1.0);
    assert Times(c, ab * fr) == Times(ab, c) * fr;
    assert (d + 2.0) / fr * fr == d + 2.0;
    CancelLess(Times(ab, c), (d + 2.0) / fr, fr);
  }
}
