/** Exactly when a liquidation goes through, read off the state it starts from. */
module LiquidationSuccess {
  import opened FixedPoint
  import opened Tax
  import opened Addresses
  import opened Tokens
  import opened CollateralModel
  import opened BidBook
  import opened LiquidationModel
  import opened SystemModel
  import opened LiquidationTheorem
  import CollateralAgreement
  import MarketModel
  import MarketSafety

  // ----- the bids -----

  /** The liquidator has a bid on the token that is large enough at the oracle's price. */
  predicate BidSuffices(b: Book, cfg: BidConfig, liquidator: Address, item: Token, o: Oracle) {
    && ReadBid(b, liquidator, item.0).Some? && item.0 in o.prices
    && var bid := ReadBid(b, liquidator, item.0).value;
       var required := RequiredStable(cfg, bid.premiumRate, item.1, o.prices[item.0]);
       required.Some? && required.value <= bid.amount
  }

  predicate BidsSuffice(b: Book, cfg: BidConfig, liquidator: Address, amounts: Tokens, o: Oracle) {
    forall item :: item in amounts ==> BidSuffices(b, cfg, liquidator, item, o)
  }

  // What the market receives for one item: the required coins less the fee, less the tax.
  function Payment(b: Book, cfg: BidConfig, liquidator: Address, item: Token, o: Oracle): nat
    requires cfg.bidFee <= F && BidSuffices(b, cfg, liquidator, item, o)
  {
    var premiumRate := ReadBid(b, liquidator, item.0).value.premiumRate;
    var required := RequiredStable(cfg, premiumRate, item.1, o.prices[item.0]).value;
    FeeWithin(cfg, required);
    DeductTax(SplitFee(cfg, required).value.repayment, cfg.taxRate, cfg.taxCap)
  }

  function Proceeds(b: Book, cfg: BidConfig, liquidator: Address, amounts: Tokens, o: Oracle): nat
    requires cfg.bidFee <= F && BidsSuffice(b, cfg, liquidator, amounts, o)
  {
    if amounts == [] then 0 else
      assert amounts[0] in amounts;
      Payment(b, cfg, liquidator, amounts[0], o) + Proceeds(b, cfg, liquidator, amounts[1..], o)
  }

  // Two books that hold the same bids of this liquidator on these tokens.
  ghost predicate SameBids(b: Book, c: Book, liquidator: Address, amounts: Tokens) {
    forall item :: item in amounts ==> ReadBid(b, liquidator, item.0) == ReadBid(c, liquidator, item.0)
  }

  lemma {:induction false} SameProceeds(b: Book, c: Book, cfg: BidConfig,
                                          liquidator: Address, amounts: Tokens, o: Oracle)
    requires cfg.bidFee <= F && SameBids(b, c, liquidator, amounts)
    ensures BidsSuffice(b, cfg, liquidator, amounts, o) <==> BidsSuffice(c, cfg, liquidator, amounts, o)
    ensures BidsSuffice(b, cfg, liquidator, amounts, o) ==>
              Proceeds(b, cfg, liquidator, amounts, o) == Proceeds(c, cfg, liquidator, amounts, o)
    decreases |amounts|
  {
    forall item | item in amounts
      ensures BidSuffices(b, cfg, liquidator, item, o) <==> BidSuffices(c, cfg, liquidator, item, o)
    {
      assert ReadBid(b, liquidator, item.0) == ReadBid(c, liquidator, item.0);
    }
    if amounts != [] {
      assert amounts[0] in amounts;
      SameProceeds(b, c, cfg, liquidator, amounts[1..], o);
    }
  }

  // A bid on one token does not touch the liquidator's bids on others.
  lemma OtherBidsStay(b: Book, cfg: BidConfig, liquidator: Address, item: Token, rest: Tokens, o: Oracle)
    requires Valid(liquidator) && Valid(item.0)
    requires forall t :: t in rest ==> Valid(t.0) && t.0 != item.0
    requires ExecuteBid(b, cfg, liquidator, item.0, item.1, PriceOf(o, item.0)).Some?
    ensures SameBids(b, ExecuteBid(b, cfg, liquidator, item.0, item.1, PriceOf(o, item.0)).value.book, liquidator, rest)
  {
    forall t | t in rest ensures Key(liquidator, t.0) != Key(liquidator, item.0) {
      if Key(liquidator, t.0) == Key(liquidator, item.0) {
        KeyInjective(liquidator, t.0, liquidator, item.0);
      }
    }
  }

  lemma OneBid(b: Book, cfg: BidConfig, liquidator: Address, item: Token, o: Oracle)
    requires BookOk(b) && Valid(liquidator) && Valid(item.0)
    requires cfg.bidFee <= F && cfg.maxPremiumRate <= F
    ensures var ex := ExecuteBid(b, cfg, liquidator, item.0, item.1, PriceOf(o, item.0));
            && (ex.Some? <==> BidSuffices(b, cfg, liquidator, item, o))
            && (ex.Some? ==> BookOk(ex.value.book) && ex.value.repaid == Payment(b, cfg, liquidator, item, o))
  {
    BucketsAgree(b, liquidator, item.0);
    ExecuteSafe(b, cfg, liquidator, item.0, item.1, PriceOf(o, item.0));
  }

  /** The bids of a liquidation go through exactly when each by itself is large enough. */
  lemma {:induction false} BidsGoThrough(b: Book, cfg: BidConfig, liquidator: Address, amounts: Tokens, o: Oracle)
    requires BookOk(b) && Valid(liquidator) && DupFree(amounts) && forall t :: t in amounts ==> Valid(t.0)
    requires cfg.bidFee <= F && cfg.maxPremiumRate <= F
    ensures ExecuteBids(b, cfg, liquidator, amounts, o).Some? <==> BidsSuffice(b, cfg, liquidator, amounts, o)
    ensures BidsSuffice(b, cfg, liquidator, amounts, o) ==>
              ExecuteBids(b, cfg, liquidator, amounts, o).value.repaid == Proceeds(b, cfg, liquidator, amounts, o)
    decreases |amounts|
  {
    if amounts != [] {
      var item, rest := amounts[0], amounts[1..];
      assert amounts == [item] + rest;
      DupFreeTail(amounts);
      OneBid(b, cfg, liquidator, item, o);
      assert BidsSuffice(b, cfg, liquidator, amounts, o)
         <==> BidSuffices(b, cfg, liquidator, item, o) && BidsSuffice(b, cfg, liquidator, rest, o);
      if BidSuffices(b, cfg, liquidator, item, o) {
        var ex := ExecuteBid(b, cfg, liquidator, item.0, item.1, PriceOf(o, item.0)).value;
        OtherBidsStay(b, cfg, liquidator, item, rest, o);
        SameProceeds(b, ex.book, cfg, liquidator, rest, o);
        BidsGoThrough(ex.book, cfg, liquidator, rest, o);
      }
    }
  }

  // ----- the liquidation -----

  // The amounts the query answers for the figures of a borrower.
  function AmountsFor(cfg: LiquidationConfig, f: Figures, cur: Tokens): Tokens {
    var r := LiquidationAmount(cfg, f.loan, f.limit, cur, f.prices);
    if r.Some? then r.value else []
  }

  /** A borrower can be liquidated by this liquidator: the loan is above the limit, the liquidator's
      bids suffice, and they bring some coins, of which those that repay the loan are recorded as
      liabilities. */
  predicate Liquidatable(s: System, cfg: LiquidationConfig, env: MarketModel.Env, liquidator: Address,
                         borrower: Address, o: Oracle)
    requires cfg.bids.bidFee <= F
  {
    var f := FiguresOf(s, cfg, env, borrower, o);
    var st := MarketModel.Settle(s.world.market, env, borrower, s.world.market.balance);
    && f.Some? && st.Some? && f.value.limit < f.value.loan
    && var amounts := AmountsFor(cfg, f.value, ReadCollaterals(s.vault, borrower));
       && BidsSuffice(s.book, cfg.bids, liquidator, amounts, o)
       && var paid := Proceeds(s.book, cfg.bids, liquidator, amounts, o);
          paid > 0 && Dec(Min(f.value.loan, paid)) <= st.value.state.totalLiabilities
  }

  // The amounts asked for are held by the borrower, in valid tokens.
  lemma AmountsTaken(s: System, cfg: LiquidationConfig, f: Figures, borrower: Address, o: Oracle)
    requires SystemOk(s) && RatesOk(cfg)
    requires FiguresFor(cfg, ReadCollaterals(s.vault, borrower), o, f.loan) == Some(f)
    ensures var cur := ReadCollaterals(s.vault, borrower);
            var amounts := AmountsFor(cfg, f, cur);
            && LiquidationAmount(cfg, f.loan, f.limit, cur, f.prices) == Some(amounts)
            && TakeCollateral(s.vault, borrower, amounts).Some?
            && DupFree(amounts) && forall t :: t in amounts ==> Valid(t.0)
  {
    var cur := ReadCollaterals(s.vault, borrower);
    CollateralAgreement.CurrentCanonical(s.vault, borrower);
    PricesMatch(cur, o);
    AmountsApply(cfg, f.loan, f.limit, cur, f.prices);
    CollateralAgreement.TakeKeepsAgreement(s.vault, borrower, AmountsFor(cfg, f, cur));
    HeldAmounts(s.vault, borrower, AmountsFor(cfg, f, cur));
  }

  lemma {:induction false} TakeSucceedsIff(s: System, cfg: BidConfig, env: MarketModel.Env, liquidator: Address,
                                          borrower: Address, amounts: Tokens, o: Oracle)
    requires SystemOk(s) && Valid(liquidator) && cfg.bidFee <= F && cfg.maxPremiumRate <= F
    requires TakeCollateral(s.vault, borrower, amounts).Some?
    requires DupFree(amounts) && forall t :: t in amounts ==> Valid(t.0)
    ensures MarketModel.Settle(s.world.market, env, borrower, s.world.market.balance).Some?
    ensures var st := MarketModel.Settle(s.world.market, env, borrower, s.world.market.balance).value;
            TakeAndRepay(s, cfg, env, liquidator, borrower, amounts, o).Some? <==>
              && BidsSuffice(s.book, cfg, liquidator, amounts, o)
              && var paid := Proceeds(s.book, cfg, liquidator, amounts, o);
                 paid > 0 && Dec(Min(st.loan.loanAmount, paid)) <= st.state.totalLiabilities
  {
    TakeInParts(s, cfg, env, liquidator, borrower, amounts, o);
    BidsGoThrough(s.book, cfg, liquidator, amounts, o);
    MarketSafety.RepaySafe(s.world.market, env, borrower, 0);
    if BidsSuffice(s.book, cfg, liquidator, amounts, o) {
      var paid := Proceeds(s.book, cfg, liquidator, amounts, o);
      ReceivedIsRepaid(s.world.market, env, borrower, paid);
      MarketSafety.RepaySafe(s.world.market, env, borrower, paid);
    }
  }

  /** With rates up to 1 a liquidation goes through exactly when the borrower is liquidatable: no
      subtraction, custody or escrow can get in the way. */
  lemma LiquidationSucceedsIff(s: System, cfg: LiquidationConfig, env: MarketModel.Env, liquidator: Address,
                               borrower: Address, o: Oracle)
    requires SystemOk(s) && Valid(liquidator) && RatesOk(cfg)
    ensures LiquidateCollateral(s, cfg, env, liquidator, borrower, o).Some?
       <==> Liquidatable(s, cfg, env, liquidator, borrower, o)
  {
    MarketSafety.RepaySafe(s.world.market, env, borrower, 0);
    var cur := ReadCollaterals(s.vault, borrower);
    var loan := MarketModel.QueryBorrowerInfo(s.world.market, Some(env), borrower).value.loanAmount;
    if BorrowLimit(cur, o).Some? && BorrowLimit(cur, o).value.0 < loan {
      var f := FiguresFor(cfg, cur, o, loan).value;
      AmountsTaken(s, cfg, f, borrower, o);
      TakeSucceedsIff(s, cfg.bids, env, liquidator, borrower, AmountsFor(cfg, f, cur), o);
    }
  }
}
