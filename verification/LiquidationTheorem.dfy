/** A liquidation through all four contracts, and what it achieves. */
module LiquidationTheorem {
  import opened FixedPoint
  import opened Tax
  import opened Addresses
  import opened Totals
  import opened Tokens
  import opened CollateralModel
  import opened BidBook
  import opened LiquidationModel
  import opened LiquidationBounds
  import opened DebtCover
  import opened SystemModel
  import CollateralAgreement
  import MarketModel
  import MarketSafety
  import OverseerModel

  // ----- the bids of a liquidation -----

  datatype Received = Received(book: Book, repaid: nat, fees: nat)

  // The liquidator's bids on all amounts, one after the other.
  function ExecuteBids(b: Book, cfg: BidConfig, liquidator: Address, amounts: Tokens, o: Oracle): Option<Received>
    decreases |amounts|
  {
    if amounts == [] then Some(Received(b, 0, 0)) else
      var ex :- ExecuteBid(b, cfg, liquidator, amounts[0].0, amounts[0].1, PriceOf(o, amounts[0].0));
      var rest :- ExecuteBids(ex.book, cfg, liquidator, amounts[1..], o);
      Some(Received(rest.book, ex.repaid + rest.repaid, ex.feePaid + rest.fees))
  }

  predicate Whitelisted(cs: map<Address, Ledger>, amounts: Tokens) { forall t :: t in amounts ==> t.0 in cs }

  // All custody calls first, all bids after them.
  function Regrouped(t: Taken, cs: Option<map<Address, Ledger>>, got: Option<Received>): Option<Taken> {
    if cs.None? || got.None? then None
    else Some(Taken(cs.value, got.value.book, t.repaid + got.value.repaid, t.fees + got.value.fees))
  }

  // One message taken out of both groups.
  lemma {:induction false} RegroupOne(t: Taken, cfg: BidConfig, liquidator: Address, borrower: Address,
                                     amounts: Tokens, o: Oracle)
    requires amounts != [] && amounts[0].0 in t.custodies
    ensures var t' := LiquidateOne(t, cfg, liquidator, borrower, amounts[0], o);
            Regrouped(t, PerformAll(Liquidate, t.custodies, borrower, amounts),
                      ExecuteBids(t.book, cfg, liquidator, amounts, o)) ==
            if t'.None? then None
            else Regrouped(t'.value, PerformAll(Liquidate, t'.value.custodies, borrower, amounts[1..]),
                           ExecuteBids(t'.value.book, cfg, liquidator, amounts[1..], o))
  {
  }

  /** The custody calls and the bids, alternating in the transaction, come to the same as all calls
      followed by all bids. */
  lemma {:induction false} MessagesRegroup(t: Taken, cfg: BidConfig, liquidator: Address, borrower: Address,
                                           amounts: Tokens, o: Oracle)
    requires Whitelisted(t.custodies, amounts)
    ensures LiquidateEach(t, cfg, liquidator, borrower, amounts, o)
         == Regrouped(t, PerformAll(Liquidate, t.custodies, borrower, amounts),
                      ExecuteBids(t.book, cfg, liquidator, amounts, o))
    decreases |amounts|
  {
    if amounts != [] {
      assert amounts[0] in amounts;
      RegroupOne(t, cfg, liquidator, borrower, amounts, o);
      var t' := LiquidateOne(t, cfg, liquidator, borrower, amounts[0], o);
      if t'.Some? {
        MessagesRegroup(t'.value, cfg, liquidator, borrower, amounts[1..], o);
      }
    }
  }

  // ----- sums over a vector -----

  ghost function Worth(s: Tokens, prices: seq<nat>): real
    requires |s| == |prices|
  {
    if s == [] then 0.0 else Times(Ratio(prices[0]), s[0].1 as real) + Worth(s[1..], prices[1..])
  }

  // The rounding of the bids: each price once, and three units.
  ghost function PriceSlack(prices: seq<nat>): real {
    if prices == [] then 0.0 else Ratio(prices[0]) + 3.0 + PriceSlack(prices[1..])
  }

  lemma {:induction false} PricesMatch(s: Tokens, o: Oracle)
    requires BorrowLimit(s, o).Some?
    ensures |BorrowLimit(s, o).value.1| == |s|
    decreases |s|
  {
    if s != [] { PricesMatch(s[1..], o); }
  }

  lemma {:induction false} ValueBelowWorth(s: Tokens, prices: seq<nat>)
    requires |s| == |prices|
    ensures CollateralsValue(s, prices) as real <= Worth(s, prices)
    decreases |s|
  {
    if s != [] {
      MulReal(s[0].1, prices[0]);
      ValueBelowWorth(s[1..], prices[1..]);
    }
  }

  // ----- what all bids pay -----

  lemma ScaledBidChain(q: real, keep: real, p: real, amount: real, part: real, paid: real)
    requires q >= 0.0 && 0.0 <= keep <= 1.0 && p >= 0.0
    requires part >= Times(q, amount) - 1.0 && paid >= Times(keep, Times(p, part)) - 3.0
    ensures paid >= Times(Times(q, keep), Times(p, amount)) - p - 3.0
  {
    TimesMonoRight(p, Times(q, amount) - 1.0, part);
    TimesSum(p, Times(q, amount), -1.0);
    TimesMonoRight(keep, Times(p, Times(q, amount)) - p, Times(p, part));
    ShrinkSlack(keep, Times(p, Times(q, amount)), p);
    Reorder(q, keep, p, amount);
  }

  lemma Reorder(q: real, keep: real, p: real, amount: real)
    ensures Times(keep, Times(p, Times(q, amount))) == Times(Times(q, keep), Times(p, amount))
  {
    TimesAssoc(p, q, amount);
    TimesAssoc(q, p, amount);
    assert Times(p, q) == Times(q, p);
    TimesAssoc(keep, q, Times(p, amount));
    assert Times(keep, q) == Times(q, keep);
  }

  lemma KeepRange(cfg: BidConfig)
    requires cfg.maxPremiumRate <= F && cfg.bidFee <= F && cfg.taxRate <= F
    ensures 0.0 <= Keep(cfg) <= 1.0
  {
    var a, b, c := Ratio(F - cfg.maxPremiumRate), Ratio(F - cfg.bidFee), Ratio(F - cfg.taxRate);
    RatioRange(F - cfg.maxPremiumRate);
    RatioRange(F - cfg.bidFee);
    RatioRange(F - cfg.taxRate);
    TimesMono(0.0, a, b);
    TimesMono(a, 1.0, b);
    TimesMono(0.0, Times(a, b), c);
    TimesMono(Times(a, b), 1.0, c);
  }

  // One bid, for the scaled amount or for nothing when that is zero.
  lemma ScaledBidPays(cfg: BidConfig, premiumRate: nat, amount: nat, price: nat, ratio: nat, paid: nat)
    requires cfg.maxPremiumRate <= F && cfg.bidFee <= F && cfg.taxRate <= F && ratio <= F
    requires var part := Mul(amount, ratio);
             if part == 0 then paid == 0
             else var required := RequiredStable(cfg, premiumRate, part, price);
                  required.Some? && SplitFee(cfg, required.value).Some?
                  && paid == DeductTax(SplitFee(cfg, required.value).value.repayment, cfg.taxRate, cfg.taxCap)
    ensures paid as real
         >= Times(Times(Ratio(ratio), Keep(cfg)), Times(Ratio(price), amount as real)) - Ratio(price) - 3.0
  {
    var part := Mul(amount, ratio);
    MulReal(amount, ratio);
    KeepRange(cfg);
    RatioRange(ratio);
    QuotientNonNegative(price as real, F as real);
    if part > 0 {
      BidPays(cfg, premiumRate, part, price);
    } else {
      assert Times(Keep(cfg), Times(Ratio(price), 0.0)) == 0.0;
    }
    ScaledBidChain(Ratio(ratio), Keep(cfg), Ratio(price), amount as real, part as real, paid as real);
  }

  lemma {:induction false} BidsPay(b: Book, cfg: BidConfig, liquidator: Address, s: Tokens, prices: seq<nat>,
                                   ratio: nat, o: Oracle)
    requires cfg.maxPremiumRate <= F && cfg.bidFee <= F && cfg.taxRate <= F && ratio <= F
    requires BorrowLimit(s, o).Some? && BorrowLimit(s, o).value.1 == prices && |prices| == |s|
    requires ExecuteBids(b, cfg, liquidator, Scale(s, prices, ratio), o).Some?
    ensures ExecuteBids(b, cfg, liquidator, Scale(s, prices, ratio), o).value.repaid as real
         >= Times(Times(Ratio(ratio), Keep(cfg)), Worth(s, prices)) - PriceSlack(prices)
    decreases |s|
  {
    var k := Times(Ratio(ratio), Keep(cfg));
    if s == [] {
      assert Times(k, 0.0) == 0.0;
    } else {
      var rest := Scale(s[1..], prices[1..], ratio);
      var all := Scale(s, prices, ratio);
      var part := Mul(s[0].1, ratio);
      assert prices[1..] == BorrowLimit(s[1..], o).value.1;
      PricesMatch(s[1..], o);
      TimesSum(k, Times(Ratio(prices[0]), s[0].1 as real), Worth(s[1..], prices[1..]));
      if part > 0 {
        assert all == [(s[0].0, part)] + rest && all[1..] == rest;
        var ex := ExecuteBid(b, cfg, liquidator, s[0].0, part, Some(prices[0])).value;
        BidsPay(ex.book, cfg, liquidator, s[1..], prices[1..], ratio, o);
        ScaledBidPays(cfg, ReadBid(b, liquidator, s[0].0).value.premiumRate, s[0].1, prices[0], ratio, ex.repaid);
      } else {
        assert all == rest;
        BidsPay(b, cfg, liquidator, s[1..], prices[1..], ratio, o);
        ScaledBidPays(cfg, 0, s[0].1, prices[0], ratio, 0);
      }
    }
  }

  /** The bids together bring at least ratio * expected repayment, short of the price slack. */
  lemma {:induction false} BidsBringExpected(b: Book, cfg: BidConfig, liquidator: Address, s: Tokens,
                                            ratio: nat, o: Oracle)
    requires cfg.maxPremiumRate <= F && cfg.bidFee <= F && cfg.taxRate <= F && ratio <= F
    requires BorrowLimit(s, o).Some?
    requires ExecuteBids(b, cfg, liquidator, Scale(s, BorrowLimit(s, o).value.1, ratio), o).Some?
    ensures FeeDeductor(cfg).Some?
    ensures var prices := BorrowLimit(s, o).value.1;
            var expected := Mul(CollateralsValue(s, prices), FeeDeductor(cfg).value);
            (ExecuteBids(b, cfg, liquidator, Scale(s, prices, ratio), o).value.repaid as real
             >= Times(Ratio(ratio), expected as real) - PriceSlack(prices))
  {
    var prices := BorrowLimit(s, o).value.1;
    PricesMatch(s, o);
    BidsPay(b, cfg, liquidator, s, prices, ratio, o);
    var value := CollateralsValue(s, prices);
    ValueBelowWorth(s, prices);
    DeductorBelowKeep(cfg);
    KeepRange(cfg);
    MulReal(value, FeeDeductor(cfg).value);
    TimesMono(Ratio(FeeDeductor(cfg).value), Keep(cfg), value as real);
    TimesMonoRight(Keep(cfg), value as real, Worth(s, prices));
    RatioRange(ratio);
    TimesMonoRight(Ratio(ratio), Mul(value, FeeDeductor(cfg).value) as real, Times(Keep(cfg), Worth(s, prices)));
    TimesAssoc(Ratio(ratio), Keep(cfg), Worth(s, prices));
  }

  // ----- what is left -----

  function Remaining(s: Tokens, ratio: nat): Tokens
    requires ratio <= F
  {
    if s == [] then [] else
      PartOf(s[0].1, ratio);
      [(s[0].0, s[0].1 - Mul(s[0].1, ratio))] + Remaining(s[1..], ratio)
  }

  lemma {:induction false} RemainingFacts(s: Tokens, ratio: nat)
    requires Strict(s) && ratio <= F
    ensures Strict(Remaining(s, ratio))
    ensures forall x :: AllAbove(x, s) ==> AllAbove(x, Remaining(s, ratio))
    ensures forall x :: Amount(Remaining(s, ratio), x) == Amount(s, x) - Mul(Amount(s, x), ratio)
    decreases |s|
  {
    if s != [] {
      RemainingFacts(s[1..], ratio);
      var r := Remaining(s, ratio);
      assert r[1..] == Remaining(s[1..], ratio);
      forall x | AllAbove(x, s) ensures AllAbove(x, r) {
        AboveHead(x, s);
        AboveHead(x, r);
      }
    }
  }

  lemma {:induction false} LeftIsRemaining(s: Tokens, prices: seq<nat>, ratio: nat)
    requires Canonical(s) && |prices| == |s| && ratio <= F
    requires SubTokens(s, Scale(s, prices, ratio)).Some?
    ensures SubTokens(s, Scale(s, prices, ratio)).value == DropZeros(Remaining(s, ratio))
  {
    ScaleFacts(s, prices, ratio);
    SubRefinesMaps(s, Scale(s, prices, ratio));
    RemainingFacts(s, ratio);
    DropZerosFacts(Remaining(s, ratio));
    CanonicalUnique(SubTokens(s, Scale(s, prices, ratio)).value, DropZeros(Remaining(s, ratio)));
  }

  lemma {:induction false} DropZerosLimit(s: Tokens, o: Oracle)
    requires BorrowLimit(s, o).Some?
    ensures BorrowLimit(DropZeros(s), o).Some?
    ensures BorrowLimit(DropZeros(s), o).value.0 == BorrowLimit(s, o).value.0
    decreases |s|
  {
    if s != [] {
      DropZerosLimit(s[1..], o);
      var rest := DropZeros(s[1..]);
      assert DropZeros(s) == if s[0].1 > 0 then [s[0]] + rest else rest;
      if s[0].1 == 0 {
        assert Mul(0, o.prices[s[0].0]) == 0 && Mul(0, o.maxLtv[s[0].0]) == 0;
      } else {
        assert DropZeros(s)[1..] == rest;
      }
    }
  }

  // One token: what remains backs at least (1 - ratio) of what it backed, short of two units.
  lemma RemainingToken(amount: nat, price: nat, ltv: nat, ratio: nat)
    requires ratio <= F && ltv <= F
    ensures Mul(amount, ratio) <= amount
    ensures Mul(Mul(amount - Mul(amount, ratio), price), ltv) as real
         >= Times(Ratio(F - ratio), Mul(Mul(amount, price), ltv) as real) - 2.0
  {
    PartOf(amount, ratio);
    var left := amount - Mul(amount, ratio);
    var k, p, l := Ratio(F - ratio), Ratio(price), Ratio(ltv);
    FeeReal(amount, ratio);
    MulReal(left, price);
    MulReal(Mul(left, price), ltv);
    MulReal(amount, price);
    MulReal(Mul(amount, price), ltv);
    RatioRange(F - ratio);
    RatioRange(ltv);
    QuotientNonNegative(price as real, F as real);
    RemainingChain(k, p, l, amount as real, left as real, Mul(amount, price) as real, Mul(left, price) as real,
                   Mul(Mul(amount, price), ltv) as real, Mul(Mul(left, price), ltv) as real);
  }

  lemma RemainingChain(k: real, p: real, l: real, a: real, left: real, v: real, w: real, m: real, n: real)
    requires 0.0 <= k <= 1.0 && p >= 0.0 && 0.0 <= l <= 1.0
    requires left >= Times(k, a) && w > Times(p, left) - 1.0 && n > Times(l, w) - 1.0
    requires v <= Times(p, a) && m <= Times(l, v)
    ensures n >= Times(k, m) - 2.0
  {
    TimesMonoRight(p, Times(k, a), left);
    TimesMonoRight(k, v, Times(p, a));
    assert Times(p, Times(k, a)) == Times(k, Times(p, a)) by { Swap3(p, k, a); }
    assert w >= Times(k, v) - 1.0;
    TimesMonoRight(l, Times(k, v) - 1.0, w);
    ShrinkSlack(l, Times(k, v), 1.0);
    TimesMonoRight(k, m, Times(l, v));
    Swap3(l, k, v);
  }

  lemma Swap3(a: real, b: real, c: real)
    ensures Times(a, Times(b, c)) == Times(b, Times(a, c))
  {
  }

  lemma {:induction false} RemainingLimit(s: Tokens, ratio: nat, o: Oracle)
    requires ratio <= F && BorrowLimit(s, o).Some?
    requires forall t :: t in o.maxLtv ==> o.maxLtv[t] <= F
    ensures BorrowLimit(Remaining(s, ratio), o).Some?
    ensures BorrowLimit(Remaining(s, ratio), o).value.0 as real
         >= Times(Ratio(F - ratio), BorrowLimit(s, o).value.0 as real) - 2.0 * |s| as real
    decreases |s|
  {
    if s == [] {
      assert Times(Ratio(F - ratio), 0.0) == 0.0;
    } else {
      RemainingLimit(s[1..], ratio, o);
      var price, ltv := o.prices[s[0].0], o.maxLtv[s[0].0];
      RemainingToken(s[0].1, price, ltv, ratio);
      assert Remaining(s, ratio)[1..] == Remaining(s[1..], ratio);
      TimesSum(Ratio(F - ratio), Mul(Mul(s[0].1, price), ltv) as real, BorrowLimit(s[1..], o).value.0 as real);
    }
  }

  // ----- landing on the safe ratio -----

  // What the ratio's own rounding costs: expected / 10^18.
  lemma RatioCovers(excess: nat, room: nat, expected: nat)
    requires excess < room <= expected
    ensures Div(Dec(excess), Dec(room)).Some? && Div(Dec(excess), Dec(room)).value < F
    ensures Times(Ratio(Div(Dec(excess), Dec(room)).value), room as real) + Ratio(expected) >= excess as real
  {
    RatioBelowOne(excess, room);
    var q := Div(Dec(excess), Dec(room)).value;
    TimesRatio(room, q);
    assert (q * room + room) as real >= (excess * F) as real;
    assert Ratio(expected) * F as real == expected as real;
    CancelAtMost(excess as real, Times(Ratio(q), room as real) + Ratio(expected), F as real);
  }

  // Repaying ratio * expected of the loan leaves at most (1 - ratio) of the safe amount.
  lemma DebtAfterPartial(q: real, loan: real, safe: real, expected: real, cost: real)
    requires Times(q, expected - safe) + cost >= loan - safe
    ensures loan - Times(q, expected) <= Times(1.0 - q, safe) + cost
  {
    TimesSum(q, expected, -safe);
    TimesSplit(1.0 - q, q, safe);
  }

  // The safe amount scales with the limit that is left.
  lemma SafeAfterPartial(k: real, sr: real, safe: real, limit: real, left: real, d: real)
    requires 0.0 <= k <= 1.0 && 0.0 <= sr <= 1.0 && d >= 0.0
    requires safe <= Times(sr, limit) && left >= Times(k, limit) - d
    ensures Times(k, safe) <= Times(sr, left) + d
  {
    TimesMonoRight(k, safe, Times(sr, limit));
    TimesMonoRight(sr, Times(k, limit) - d, left);
    ShrinkSlack(sr, Times(k, limit), d);
    Swap3(k, sr, limit);
  }

  lemma {:induction false} PriceSlackNonNegative(prices: seq<nat>)
    ensures PriceSlack(prices) >= 0.0
    decreases |prices|
  {
    if prices != [] {
      PriceSlackNonNegative(prices[1..]);
      QuotientNonNegative(prices[0] as real, F as real);
    }
  }

  // The figures a liquidation starts from.
  datatype Figures = Figures(loan: nat, limit: nat, prices: seq<nat>, value: nat, expected: nat, tokens: nat)

  function FiguresFor(cfg: LiquidationConfig, cur: Tokens, o: Oracle, loan: nat): Option<Figures> {
    var limit :- BorrowLimit(cur, o);
    var deductor :- FeeDeductor(cfg.bids);
    var value := CollateralsValue(cur, limit.1);
    Some(Figures(loan, limit.0, limit.1, value, Mul(value, deductor), |cur|))
  }

  function FiguresOf(s: System, cfg: LiquidationConfig, env: MarketModel.Env,
    borrower: Address, o: Oracle): Option<Figures> {
    var info :- MarketModel.QueryBorrowerInfo(s.world.market, Some(env), borrower);
    FiguresFor(cfg, ReadCollaterals(s.vault, borrower), o, info.loanAmount)
  }

  // Rounding of the bids (each price once and three units a token) and of the ratio.
  ghost function Cost(f: Figures): real { PriceSlack(f.prices) + Ratio(f.expected) }

  /** `debt` is at or below safe_ratio of `limit`, or below the threshold at nothing: up to the cost
      and two units a token for the limit's own rounding. */
  ghost predicate Lands(cfg: LiquidationConfig, f: Figures, debt: real, limit: nat) {
    if f.value >= cfg.liquidationThreshold
    then debt <= Times(Ratio(cfg.safeRatio), limit as real) + Cost(f) + 2.0 * f.tokens as real
    else debt <= Cost(f)
  }

  lemma LoanAfterRepay(loan: nat, repaid: nat, newLoan: nat, bound: real)
    requires newLoan == if loan < repaid then 0 else loan - repaid
    requires loan as real - repaid as real <= bound && 0.0 <= bound
    ensures newLoan as real <= bound
  {
  }

  lemma SafeBranch(cfg: LiquidationConfig, f: Figures, ratio: nat, repaid: nat, left: nat)
    requires RatesOk(cfg) && f.limit < f.loan < f.expected && f.value >= cfg.liquidationThreshold
    requires LiquidationRatio(cfg, f.loan, f.limit, f.value, f.expected) == Some(ratio) && ratio < F
    requires repaid as real >= Times(Ratio(ratio), f.expected as real) - PriceSlack(f.prices)
    requires left as real >= Times(Ratio(F - ratio), f.limit as real) - 2.0 * f.tokens as real
    ensures Lands(cfg, f, f.loan as real - repaid as real, left)
  {
    var safe := Mul(f.limit, cfg.safeRatio);
    PartOf(f.limit, cfg.safeRatio);
    RatioCovers(f.loan - safe, f.expected - safe, f.expected);
    DebtAfterPartial(Ratio(ratio), f.loan as real, safe as real, f.expected as real, Ratio(f.expected));
    RatioRange(F - ratio);
    RatioSplit(ratio);
    RatioRange(cfg.safeRatio);
    MulReal(f.limit, cfg.safeRatio);
    SafeAfterPartial(Ratio(F - ratio), Ratio(cfg.safeRatio), safe as real, f.limit as real,
                     left as real, 2.0 * f.tokens as real);
  }

  lemma WholeBranch(cfg: LiquidationConfig, f: Figures, ratio: nat, repaid: nat, left: nat)
    requires f.loan < f.expected && f.value < cfg.liquidationThreshold
    requires LiquidationRatio(cfg, f.loan, f.limit, f.value, f.expected) == Some(ratio)
    requires repaid as real >= Times(Ratio(ratio), f.expected as real) - PriceSlack(f.prices)
    ensures Lands(cfg, f, f.loan as real - repaid as real, left)
  {
    RatioCovers(f.loan, f.expected, f.expected);
  }

  // In the partial branches: amounts, bids and what stays, put together.
  lemma {:induction false} PartialOutcome(b: Book, cfg: LiquidationConfig, liquidator: Address, cur: Tokens, o: Oracle,
                                         f: Figures, amounts: Tokens, repaid: nat)
    requires RatesOk(cfg) && LtvOk(o) && Canonical(cur)
    requires FiguresFor(cfg, cur, o, f.loan) == Some(f) && f.limit < f.loan < f.expected
    requires LiquidationAmount(cfg, f.loan, f.limit, cur, f.prices) == Some(amounts)
    requires ExecuteBids(b, cfg.bids, liquidator, amounts, o).Some?
    requires ExecuteBids(b, cfg.bids, liquidator, amounts, o).value.repaid == repaid
    requires SubTokens(cur, amounts).Some?
    ensures BorrowLimit(SubTokens(cur, amounts).value, o).Some?
    ensures Lands(cfg, f, f.loan as real - repaid as real, BorrowLimit(SubTokens(cur, amounts).value, o).value.0)
  {
    RatioDefined(cfg, f.loan, f.limit, f.value, f.expected);
    var ratio := LiquidationRatio(cfg, f.loan, f.limit, f.value, f.expected).value;
    assert amounts == Scale(cur, f.prices, ratio);
    PricesMatch(cur, o);
    BidsBringExpected(b, cfg.bids, liquidator, cur, ratio, o);
    LeftIsRemaining(cur, f.prices, ratio);
    RemainingLimit(cur, ratio, o);
    DropZerosLimit(Remaining(cur, ratio), o);
    var left := BorrowLimit(SubTokens(cur, amounts).value, o).value.0;
    if f.value >= cfg.liquidationThreshold {
      SafeBranch(cfg, f, ratio, repaid, left);
    } else {
      WholeBranch(cfg, f, ratio, repaid, left);
    }
  }

  lemma {:induction false} ScaleWhole(s: Tokens, prices: seq<nat>)
    requires |prices| == |s| && ZeroFree(s)
    ensures Scale(s, prices, F) == s
    decreases |s|
  {
    if s != [] {
      assert s[0] in s && s == [s[0]] + s[1..];
      assert forall t :: t in s[1..] ==> t in s;
      ScaleWhole(s[1..], prices[1..]);
      DivExact(s[0].1, F);
    }
  }

  // When all collateral is not worth the loan, all of it is sold.
  lemma {:induction false} SoldOut(b: Book, cfg: LiquidationConfig, liquidator: Address, cur: Tokens,
                                   o: Oracle, f: Figures, repaid: nat)
    requires RatesOk(cfg) && Canonical(cur) && FiguresFor(cfg, cur, o, f.loan) == Some(f)
    requires ExecuteBids(b, cfg.bids, liquidator, cur, o).Some?
    requires ExecuteBids(b, cfg.bids, liquidator, cur, o).value.repaid == repaid
    ensures SubTokens(cur, cur).Some? ==> SubTokens(cur, cur).value == []
    ensures repaid as real >= f.expected as real - PriceSlack(f.prices)
  {
    PricesMatch(cur, o);
    ScaleWhole(cur, f.prices);
    BidsBringExpected(b, cfg.bids, liquidator, cur, F, o);
    assert Ratio(F) == 1.0;
    SubRefinesMaps(cur, cur);
    if SubTokens(cur, cur).Some? {
      CanonicalUnique(SubTokens(cur, cur).value, []);
    }
  }

  // A refunded overpayment leaves no debt at all.
  lemma LandsAfterRefund(cfg: LiquidationConfig, f: Figures, left: nat, repaid: nat, newLoan: nat)
    requires RatesOk(cfg) && Lands(cfg, f, f.loan as real - repaid as real, left)
    requires newLoan == if f.loan < repaid then 0 else f.loan - repaid
    ensures Lands(cfg, f, newLoan as real, left)
  {
    PriceSlackNonNegative(f.prices);
    QuotientNonNegative(f.expected as real, F as real);
    RatioRange(cfg.safeRatio);
    TimesMono(0.0, Ratio(cfg.safeRatio), left as real);
    var room := if f.value >= cfg.liquidationThreshold
                then Times(Ratio(cfg.safeRatio), left as real) + 2.0 * f.tokens as real else 0.0;
    LoanAfterRepay(f.loan, repaid, newLoan, room + Cost(f));
  }

  /** Coins that arrived since the overseer looked are a repayment of just those coins. */
  lemma ReceivedIsRepaid(m: MarketModel.Ledger, env: MarketModel.Env, who: Address, received: nat)
    ensures RepayReceived(m, env, who, received) == MarketModel.RepayStable(m, env, who, received)
  {
    assert MarketSafety.Credit(m, received).(balance := m.balance) == m;
  }

  lemma MarketRepaid(m: MarketModel.Ledger, env: MarketModel.Env, who: Address, received: nat)
    requires MarketSafety.MarketOk(m) && RepayReceived(m, env, who, received).Some?
    ensures MarketModel.Settle(m, env, who, m.balance).Some?
    ensures var t := RepayReceived(m, env, who, received).value;
            var loan := MarketModel.Settle(m, env, who, m.balance).value.loan.loanAmount;
            && MarketSafety.MarketOk(t) && MarketSafety.Forward(m.state, t.state)
            && who in t.borrowers
            && t.borrowers[who].loanAmount == if loan < received then 0 else loan - received
  {
    ReceivedIsRepaid(m, env, who, received);
    MarketSafety.RepaySafe(m, env, who, received);
  }

  // The escrow survives the bids of a liquidation.
  lemma {:induction false} ExecuteBidsKeepBook(b: Book, cfg: BidConfig, liquidator: Address, amounts: Tokens, o: Oracle)
    requires BookOk(b) && Valid(liquidator) && forall t :: t in amounts ==> Valid(t.0)
    requires ExecuteBids(b, cfg, liquidator, amounts, o).Some?
    ensures BookOk(ExecuteBids(b, cfg, liquidator, amounts, o).value.book)
    decreases |amounts|
  {
    if amounts != [] {
      assert amounts[0] in amounts;
      var price := PriceOf(o, amounts[0].0);
      ExecuteKeepsBook(b, cfg, liquidator, amounts[0].0, amounts[0].1, price);
      var ex := ExecuteBid(b, cfg, liquidator, amounts[0].0, amounts[0].1, price).value;
      ExecuteBidsKeepBook(ex.book, cfg, liquidator, amounts[1..], o);
    }
  }

  // Every contract's own invariant; canonical addresses have the fixed length.
  ghost predicate SystemOk(s: System) {
    && OverseerModel.WorldOk(s.world)
    && Agree(s.vault)
    && BookOk(s.book)
    && forall t :: t in s.vault.custodies ==> Valid(t)
  }

  // What the overseer records is whitelisted.
  lemma HeldAmounts(v: Vault, borrower: Address, amounts: Tokens)
    requires Agree(v) && Covers(ReadCollaterals(v, borrower), amounts)
    ensures Whitelisted(v.custodies, amounts)
  {
    forall t | t in amounts ensures t.0 in v.custodies {
      CollateralAgreement.HeldIsRegistered(v, borrower, t.0);
    }
  }

  // A liquidation of amounts is the token side, the bids and the repayment, each by itself.
  lemma {:induction false} TakeInParts(s: System, cfg: BidConfig, env: MarketModel.Env, liquidator: Address,
                                      borrower: Address, amounts: Tokens, o: Oracle)
    requires Agree(s.vault)
    ensures var vault := TakeCollateral(s.vault, borrower, amounts);
            var got := ExecuteBids(s.book, cfg, liquidator, amounts, o);
            TakeAndRepay(s, cfg, env, liquidator, borrower, amounts, o) ==
            if vault.None? || got.None? then None
            else Conclude(s, env, borrower, SubTokens(ReadCollaterals(s.vault, borrower), amounts).value,
                          Taken(vault.value.custodies, got.value.book, got.value.repaid, got.value.fees))
  {
    var cur := ReadCollaterals(s.vault, borrower);
    if SubTokens(cur, amounts).Some? {
      SubRefinesMaps(cur, amounts);
      HeldAmounts(s.vault, borrower, amounts);
      MessagesRegroup(Taken(s.vault.custodies, s.book, 0, 0), cfg, liquidator, borrower, amounts, o);
    }
  }

  lemma TakeKeepsVault(v: Vault, borrower: Address, amounts: Tokens)
    requires Agree(v) && TakeCollateral(v, borrower, amounts).Some?
    ensures Agree(TakeCollateral(v, borrower, amounts).value) && Whitelisted(v.custodies, amounts)
    ensures TakeCollateral(v, borrower, amounts).value.custodies.Keys == v.custodies.Keys
    ensures SubTokens(ReadCollaterals(v, borrower), amounts)
         == Some(ReadCollaterals(TakeCollateral(v, borrower, amounts).value, borrower))
    ensures TakeCollateral(v, borrower, amounts).value.collaterals
         == StoreCollaterals(v.collaterals, borrower, SubTokens(ReadCollaterals(v, borrower), amounts).value)
  {
    CollateralAgreement.TakeKeepsAgreement(v, borrower, amounts);
    HeldAmounts(v, borrower, amounts);
    PerformAllFacts(Liquidate, v.custodies, borrower, amounts);
  }

  /** Whatever is taken and repaid, every contract keeps its invariant. */
  lemma TakeKeepsSystem(s: System, cfg: BidConfig, env: MarketModel.Env, liquidator: Address, borrower: Address,
                        amounts: Tokens, o: Oracle)
    requires SystemOk(s) && Valid(liquidator)
    requires TakeAndRepay(s, cfg, env, liquidator, borrower, amounts, o).Some?
    ensures SystemOk(TakeAndRepay(s, cfg, env, liquidator, borrower, amounts, o).value)
  {
    TakeInParts(s, cfg, env, liquidator, borrower, amounts, o);
    TakeKeepsVault(s.vault, borrower, amounts);
    ExecuteBidsKeepBook(s.book, cfg, liquidator, amounts, o);
    MarketRepaid(s.world.market, env, borrower, ExecuteBids(s.book, cfg, liquidator, amounts, o).value.repaid);
  }

  // The steps of a successful liquidation.
  lemma LiquidationSteps(s: System, cfg: LiquidationConfig, env: MarketModel.Env, liquidator: Address,
                         borrower: Address, o: Oracle) returns (amounts: Tokens, repaid: nat)
    requires SystemOk(s) && Valid(liquidator) && RatesOk(cfg)
    requires LiquidateCollateral(s, cfg, env, liquidator, borrower, o).Some?
    ensures FiguresOf(s, cfg, env, borrower, o).Some?
    ensures var t := LiquidateCollateral(s, cfg, env, liquidator, borrower, o).value;
            var f := FiguresOf(s, cfg, env, borrower, o).value;
            var cur := ReadCollaterals(s.vault, borrower);
            && SystemOk(t)
            && borrower in t.world.market.borrowers
            && t.world.market.borrowers[borrower].loanAmount == (if f.loan < repaid then 0 else f.loan - repaid)
            && f.limit < f.loan
            && FiguresFor(cfg, cur, o, f.loan) == Some(f)
            && LiquidationAmount(cfg, f.loan, f.limit, cur, f.prices) == Some(amounts)
            && ExecuteBids(s.book, cfg.bids, liquidator, amounts, o).Some?
            && ExecuteBids(s.book, cfg.bids, liquidator, amounts, o).value.repaid == repaid
            && SubTokens(cur, amounts) == Some(ReadCollaterals(t.vault, borrower))
  {
    var cur := ReadCollaterals(s.vault, borrower);
    var limit := BorrowLimit(cur, o).value;
    var loan := MarketModel.QueryBorrowerInfo(s.world.market, Some(env), borrower).value.loanAmount;
    amounts := LiquidationAmount(cfg, loan, limit.0, cur, limit.1).value;
    TakeKeepsSystem(s, cfg.bids, env, liquidator, borrower, amounts, o);
    TakeInParts(s, cfg.bids, env, liquidator, borrower, amounts, o);
    TakeKeepsVault(s.vault, borrower, amounts);
    repaid := ExecuteBids(s.book, cfg.bids, liquidator, amounts, o).value.repaid;
    MarketRepaid(s.world.market, env, borrower, repaid);
    DeductorBelowKeep(cfg.bids);
  }

  /** A successful liquidation keeps the market solvent, the custodies in agreement with the overseer
      and the bids in agreement with their indices and covered by coins. When the collateral is worth
      more than the loan after premium, fee and tax, the loan lands at or below safe_ratio of the
      limit that remains, and below the liquidation threshold at nothing: up to the explicit rounding
      in `Lands`. Otherwise everything is sold, for at least its expected value less the price slack. */
  lemma {:induction false} LiquidationAchieves(s: System, cfg: LiquidationConfig, env: MarketModel.Env,
                                              liquidator: Address, borrower: Address, o: Oracle)
    requires SystemOk(s) && Valid(liquidator)
    requires RatesOk(cfg) && LtvOk(o)
    requires LiquidateCollateral(s, cfg, env, liquidator, borrower, o).Some?
    ensures FiguresOf(s, cfg, env, borrower, o).Some?
    ensures var t := LiquidateCollateral(s, cfg, env, liquidator, borrower, o).value;
            var f := FiguresOf(s, cfg, env, borrower, o).value;
            && SystemOk(t)
            && borrower in t.world.market.borrowers
            && var loan := t.world.market.borrowers[borrower].loanAmount;
               && (f.expected > f.loan ==>
                     var left := BorrowLimit(ReadCollaterals(t.vault, borrower), o);
                     left.Some? && Lands(cfg, f, loan as real, left.value.0))
               && (f.expected <= f.loan ==>
                     && ReadCollaterals(t.vault, borrower) == []
                     && loan as real <= f.loan as real - f.expected as real + PriceSlack(f.prices))
  {
    var amounts, repaid := LiquidationSteps(s, cfg, env, liquidator, borrower, o);
    var t := LiquidateCollateral(s, cfg, env, liquidator, borrower, o).value;
    var f := FiguresOf(s, cfg, env, borrower, o).value;
    var cur := ReadCollaterals(s.vault, borrower);
    CollateralAgreement.CurrentCanonical(s.vault, borrower);
    if f.expected > f.loan {
      PartialOutcome(s.book, cfg, liquidator, cur, o, f, amounts, repaid);
      LandsAfterRefund(cfg, f, BorrowLimit(SubTokens(cur, amounts).value, o).value.0, repaid,
                       t.world.market.borrowers[borrower].loanAmount);
    } else {
      SoldOut(s.book, cfg, liquidator, cur, o, f, repaid);
      PriceSlackNonNegative(f.prices);
    }
  }
}
