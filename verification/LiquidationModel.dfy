/** How much collateral a liquidation takes: contracts/liquidation/src/contract.rs:226-288. */
module LiquidationModel {
  import opened FixedPoint
  import opened Tokens
  import opened BidBook

  datatype LiquidationConfig = LiquidationConfig(
    bids: BidConfig,
    safeRatio: nat,             // Decimal
    liquidationThreshold: nat
  )

  ghost predicate RatesOk(cfg: LiquidationConfig) {
    cfg.safeRatio <= F && cfg.bids.bidFee <= F && cfg.bids.maxPremiumRate <= F && cfg.bids.taxRate <= F
  }

  // zip stops at the shorter of the two.
  function CollateralsValue(s: Tokens, prices: seq<nat>): nat {
    if s == [] || prices == [] then 0 else Mul(s[0].1, prices[0]) + CollateralsValue(s[1..], prices[1..])
  }

  function FeeDeductor(cfg: BidConfig): Option<nat> {
    var a :- Sub(F, cfg.maxPremiumRate);
    var b :- Sub(F, cfg.bidFee);
    var c :- Sub(F, cfg.taxRate);
    Some(Mul(Mul(a, b), c))
  }

  // zip, scale, and drop what became zero.
  function Scale(s: Tokens, prices: seq<nat>, ratio: nat): Tokens {
    if s == [] || prices == [] then [] else
      (if Mul(s[0].1, ratio) > 0 then [(s[0].0, Mul(s[0].1, ratio))] else []) + Scale(s[1..], prices[1..], ratio)
  }

  function LiquidationRatio(cfg: LiquidationConfig, borrow: nat, limit: nat, value: nat, expected: nat): Option<nat> {
    var safe := Mul(limit, cfg.safeRatio);
    if value < cfg.liquidationThreshold then Div(Dec(borrow), Dec(expected))
    else
      var excess :- Sub(borrow, safe);
      var room :- Sub(expected, safe);
      Div(Dec(excess), Dec(room))
  }

  function LiquidationAmount(cfg: LiquidationConfig, borrow: nat, limit: nat, s: Tokens,
    prices: seq<nat>): Option<Tokens> {
    if borrow <= limit then Some([]) else
      var value := CollateralsValue(s, prices);
      var deductor :- FeeDeductor(cfg.bids);
      var expected := Mul(value, deductor);
      if expected <= borrow then Some(s) else
        var ratio :- LiquidationRatio(cfg, borrow, limit, value, expected);
        Some(Scale(s, prices, Min(F, ratio)))
  }

  // The accumulation loop of the query.
  method SumCollateralsValue(s: Tokens, prices: seq<nat>) returns (value: nat)
    ensures value == CollateralsValue(s, prices)
  {
    value := 0;
    var i := 0;
    assert s[0..] == s && prices[0..] == prices;
    while i < |s| && i < |prices|
      invariant i <= |s| && i <= |prices|
      invariant value + CollateralsValue(s[i..], prices[i..]) == CollateralsValue(s, prices)
    {
      assert s[i..][1..] == s[i + 1..] && prices[i..][1..] == prices[i + 1..];
      value := value + Mul(s[i].1, prices[i]);
      i := i + 1;
    }
  }

  // The chain of zip, map and filter.
  method ScaleCollaterals(s: Tokens, prices: seq<nat>, ratio: nat) returns (r: Tokens)
    ensures r == Scale(s, prices, ratio)
  {
    r := [];
    var i := 0;
    assert s[0..] == s && prices[0..] == prices && [] + Scale(s, prices, ratio) == Scale(s, prices, ratio);
    while i < |s| && i < |prices|
      invariant i <= |s| && i <= |prices|
      invariant r + Scale(s[i..], prices[i..], ratio) == Scale(s, prices, ratio)
    {
      var part := Mul(s[i].1, ratio);
      ScaleStep(s, prices, ratio, i, r, part);
      if part > 0 { r := r + [(s[i].0, part)]; }
      i := i + 1;
    }
    assert r + [] == r;
  }

  lemma {:induction false} ScaleStep(s: Tokens, prices: seq<nat>, ratio: nat, i: nat, r: Tokens, part: nat)
    requires i < |s| && i < |prices| && part == Mul(s[i].1, ratio)
    ensures r + Scale(s[i..], prices[i..], ratio)
         == (if part > 0 then r + [(s[i].0, part)] else r) + Scale(s[i + 1..], prices[i + 1..], ratio)
  {
    assert s[i..][1..] == s[i + 1..] && prices[i..][1..] == prices[i + 1..];
    Regroup(r, (s[i].0, part), Scale(s[i + 1..], prices[i + 1..], ratio));
  }

  method QueryLiquidationAmount(cfg: LiquidationConfig, borrow: nat, limit: nat, s: Tokens, prices: seq<nat>)
    returns (r: Option<Tokens>)
    ensures r == LiquidationAmount(cfg, borrow, limit, s, prices)
  {
    if borrow <= limit { return Some([]); }
    var value := SumCollateralsValue(s, prices);
    var deductor :- FeeDeductor(cfg.bids);
    var expected := Mul(value, deductor);
    if expected <= borrow { return Some(s); }
    var ratio :- LiquidationRatio(cfg, borrow, limit, value, expected);
    var scaled := ScaleCollaterals(s, prices, Min(F, ratio));
    return Some(scaled);
  }

  // ----- well defined, bounded, applicable -----

  // The ratio of two whole numbers, the smaller on top, is below one.
  lemma RatioBelowOne(a: nat, b: nat)
    requires a < b
    ensures Div(Dec(a), Dec(b)).Some? && Div(Dec(a), Dec(b)).value < F
    ensures Div(Dec(a), Dec(b)).value * b <= a * F < Div(Dec(a), Dec(b)).value * b + b
  {
    DivByDec(Dec(a), b);
    Floor(a * F, b);
    QuotientAtLeast(a * F, b, F);
  }

  /** With rates up to 1 nothing in the formula fails, and the ratio stays below 1. */
  lemma RatioDefined(cfg: LiquidationConfig, borrow: nat, limit: nat, value: nat, expected: nat)
    requires RatesOk(cfg) && limit < borrow < expected
    ensures LiquidationRatio(cfg, borrow, limit, value, expected).Some?
    ensures LiquidationRatio(cfg, borrow, limit, value, expected).value < F
    ensures Mul(limit, cfg.safeRatio) <= limit
  {
    PartOf(limit, cfg.safeRatio);
    var safe := Mul(limit, cfg.safeRatio);
    RatioBelowOne(borrow, expected);
    RatioBelowOne(borrow - safe, expected - safe);
  }

  lemma {:induction false} ScaleFacts(s: Tokens, prices: seq<nat>, ratio: nat)
    requires Strict(s) && |prices| == |s|
    ensures Canonical(Scale(s, prices, ratio))
    ensures forall x :: AllAbove(x, s) ==> AllAbove(x, Scale(s, prices, ratio))
    ensures forall x :: Amount(Scale(s, prices, ratio), x) == Mul(Amount(s, x), ratio)
    decreases |s|
  {
    if s != [] {
      var rest := Scale(s[1..], prices[1..], ratio);
      ScaleFacts(s[1..], prices[1..], ratio);
      var r := Scale(s, prices, ratio);
      assert r == if Mul(s[0].1, ratio) > 0 then [(s[0].0, Mul(s[0].1, ratio))] + rest else rest;
      AboveAbsent(rest, s[0].0, s[0].0);
      forall x | AllAbove(x, s) ensures AllAbove(x, r) { AboveHead(x, s); }
    }
  }

  // Taking part of every amount is covered by the holdings.
  lemma {:induction false} PartCovered(s: Tokens, part: Tokens)
    requires Canonical(s) && Canonical(part)
    requires forall x :: Amount(part, x) <= Amount(s, x)
    ensures DupFree(part) && Covers(s, part)
  {
    StrictHasNoDuplicates(part);
    forall t | t in part ensures Has(s, t.0) && Amount(s, t.0) >= t.1 {
      AmountOf(part, t);
      AmountPositive(s, t.0);
    }
  }

  /** On stored collaterals the query always answers, with amounts inside the holdings and above
      zero, so the overseer's subtraction succeeds and leaves exactly the differences. */
  lemma {:induction false} AmountsApply(cfg: LiquidationConfig, borrow: nat, limit: nat, s: Tokens, prices: seq<nat>)
    requires RatesOk(cfg) && Canonical(s) && |prices| == |s|
    ensures LiquidationAmount(cfg, borrow, limit, s, prices).Some?
    ensures var r := LiquidationAmount(cfg, borrow, limit, s, prices).value;
            && Canonical(r)
            && (forall x :: Amount(r, x) <= Amount(s, x))
            && DupFree(r) && Covers(s, r)
            && SubTokens(s, r).Some?
            && forall x :: Amount(SubTokens(s, r).value, x) == Amount(s, x) - Amount(r, x)
  {
    if borrow > limit {
      var value := CollateralsValue(s, prices);
      var expected := Mul(value, FeeDeductor(cfg.bids).value);
      if expected > borrow {
        RatioDefined(cfg, borrow, limit, value, expected);
        var ratio := LiquidationRatio(cfg, borrow, limit, value, expected).value;
        ScaleFacts(s, prices, ratio);
        forall x ensures Mul(Amount(s, x), ratio) <= Amount(s, x) { PartOf(Amount(s, x), ratio); }
      }
    }
    var r := LiquidationAmount(cfg, borrow, limit, s, prices).value;
    PartCovered(s, r);
    StrictHasNoDuplicates(s);
    SubRefinesMaps(s, r);
  }

  // ----- how much is taken -----

  // Taking the floored part excess / room of an amount, through a floored ratio.
  lemma PartInProportion(amount: nat, excess: nat, room: nat, ratio: nat)
    requires room > 0 && ratio * room <= excess * F < ratio * room + room
    ensures Mul(amount, ratio) * room <= amount * excess
    ensures amount * excess * F <= (Mul(amount, ratio) + 1) * room * F + amount * room
  {
    var part := Mul(amount, ratio);
    MulFloor(amount, ratio);
    MulMono(part * F, amount * ratio, room);
    MulMono(ratio * room, excess * F, amount);
    Rotate(part, F, room);
    Rotate(amount, ratio, room);
    Rotate(amount, excess, F);
    MulCancel(part * room, amount * excess, F);
    MulMono(excess * F, ratio * room + room, amount);
    Distribute(amount, ratio * room, room);
    MulMono(amount * ratio, part * F + F, room);
    Distribute(F, part, 1);
    Rotate(part + 1, F, room);
  }

  /** What the ratio of two parts of the loan and of the expected repayment comes to, token by token:
      at or below excess / room of what is held, and above it short of one unit and of amount / 10^18. */
  ghost predicate InProportion(s: Tokens, r: Tokens, excess: nat, room: nat) {
    forall x :: && Amount(r, x) * room <= Amount(s, x) * excess
                && Amount(s, x) * excess * F <= (Amount(r, x) + 1) * room * F + Amount(s, x) * room
  }

  lemma {:induction false} ScaledInProportion(s: Tokens, prices: seq<nat>, excess: nat, room: nat)
    requires Canonical(s) && |prices| == |s| && excess < room
    ensures Div(Dec(excess), Dec(room)).Some? && Div(Dec(excess), Dec(room)).value < F
    ensures InProportion(s, Scale(s, prices, Div(Dec(excess), Dec(room)).value), excess, room)
  {
    RatioBelowOne(excess, room);
    var ratio := Div(Dec(excess), Dec(room)).value;
    ScaleFacts(s, prices, ratio);
    forall x
      ensures && Mul(Amount(s, x), ratio) * room <= Amount(s, x) * excess
              && Amount(s, x) * excess * F <= (Mul(Amount(s, x), ratio) + 1) * room * F + Amount(s, x) * room
    {
      PartInProportion(Amount(s, x), excess, room, ratio);
    }
  }

  // The answer once the ratio is known.
  lemma {:induction false} AmountsFromRatio(cfg: LiquidationConfig, borrow: nat, limit: nat, s: Tokens,
                                            prices: seq<nat>, expected: nat, ratio: nat)
    requires FeeDeductor(cfg.bids).Some? && expected == Mul(CollateralsValue(s, prices), FeeDeductor(cfg.bids).value)
    requires limit < borrow < expected && ratio < F
    requires LiquidationRatio(cfg, borrow, limit, CollateralsValue(s, prices), expected) == Some(ratio)
    ensures LiquidationAmount(cfg, borrow, limit, s, prices) == Some(Scale(s, prices, ratio))
  {
  }

  lemma {:induction false} WholeAmounts(cfg: LiquidationConfig, borrow: nat, limit: nat, s: Tokens,
                                        prices: seq<nat>, expected: nat)
    requires Canonical(s) && |prices| == |s| && CollateralsValue(s, prices) < cfg.liquidationThreshold
    requires FeeDeductor(cfg.bids).Some? && expected == Mul(CollateralsValue(s, prices), FeeDeductor(cfg.bids).value)
    requires limit < borrow < expected
    ensures LiquidationAmount(cfg, borrow, limit, s, prices).Some?
    ensures InProportion(s, LiquidationAmount(cfg, borrow, limit, s, prices).value, borrow, expected)
  {
    ScaledInProportion(s, prices, borrow, expected);
    AmountsFromRatio(cfg, borrow, limit, s, prices, expected, Div(Dec(borrow), Dec(expected)).value);
  }

  lemma SafeRatio(cfg: LiquidationConfig, borrow: nat, limit: nat, value: nat, expected: nat,
                  safe: nat, excess: nat, room: nat)
    requires value >= cfg.liquidationThreshold && safe == Mul(limit, cfg.safeRatio)
    requires borrow == safe + excess && expected == safe + room
    ensures LiquidationRatio(cfg, borrow, limit, value, expected) == Div(Dec(excess), Dec(room))
  {
    assert Sub(borrow, safe) == Some(excess) && Sub(expected, safe) == Some(room);
  }

  lemma {:induction false} SafeAmounts(cfg: LiquidationConfig, borrow: nat, limit: nat, s: Tokens, prices: seq<nat>,
                                       expected: nat, safe: nat, excess: nat, room: nat)
    requires Canonical(s) && |prices| == |s| && CollateralsValue(s, prices) >= cfg.liquidationThreshold
    requires FeeDeductor(cfg.bids).Some? && expected == Mul(CollateralsValue(s, prices), FeeDeductor(cfg.bids).value)
    requires safe == Mul(limit, cfg.safeRatio) && limit < borrow < expected
    requires borrow == safe + excess && expected == safe + room
    ensures LiquidationAmount(cfg, borrow, limit, s, prices).Some?
    ensures InProportion(s, LiquidationAmount(cfg, borrow, limit, s, prices).value, excess, room)
  {
    ScaledInProportion(s, prices, excess, room);
    SafeRatio(cfg, borrow, limit, CollateralsValue(s, prices), expected, safe, excess, room);
    AmountsFromRatio(cfg, borrow, limit, s, prices, expected, Div(Dec(excess), Dec(room)).value);
  }

  /** The query takes nothing from a loan within its limit and everything when the collateral does not
      bring more than the loan. Otherwise it takes of every token the part loan / expected below the
      threshold, and (loan - safe) / (expected - safe) from it on, where safe is the floored
      safe_ratio of the limit. */
  lemma AmountsInProportion(cfg: LiquidationConfig, borrow: nat, limit: nat, s: Tokens, prices: seq<nat>)
    returns (expected: nat, safe: nat)
    requires RatesOk(cfg) && Canonical(s) && |prices| == |s|
    ensures FeeDeductor(cfg.bids).Some? && LiquidationAmount(cfg, borrow, limit, s, prices).Some?
    ensures expected == Mul(CollateralsValue(s, prices), FeeDeductor(cfg.bids).value)
    ensures safe == Mul(limit, cfg.safeRatio) <= limit
    ensures var r := LiquidationAmount(cfg, borrow, limit, s, prices).value;
            && (borrow <= limit ==> r == [])
            && (limit < borrow && expected <= borrow ==> r == s)
            && (limit < borrow < expected ==>
                  if CollateralsValue(s, prices) < cfg.liquidationThreshold then InProportion(s, r, borrow, expected)
                  else InProportion(s, r, borrow - safe, expected - safe))
  {
    expected, safe := Mul(CollateralsValue(s, prices), FeeDeductor(cfg.bids).value), Mul(limit, cfg.safeRatio);
    PartOf(limit, cfg.safeRatio);
    if limit < borrow < expected {
      if CollateralsValue(s, prices) < cfg.liquidationThreshold {
        WholeAmounts(cfg, borrow, limit, s, prices, expected);
      } else {
        SafeAmounts(cfg, borrow, limit, s, prices, expected, safe, borrow - safe, expected - safe);
      }
    }
  }
}
