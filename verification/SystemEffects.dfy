/** Transactions across contracts: exactly when they go through, and every coin a liquidation moves. */
module SystemEffects {
  import opened FixedPoint
  import opened Tax
  import opened Addresses
  import opened Tokens
  import opened CollateralModel
  import opened CollateralEffects
  import opened BidBook
  import opened LiquidationModel
  import opened LiquidationTheorem
  import opened SystemModel
  import CollateralAgreement
  import MarketEffects
  import MarketModel
  import MarketSafety

  // Every token has a price and a ratio, and the loan is within what they allow.
  predicate Backed(s: Tokens, o: Oracle, loan: nat) {
    && Quoted(s, o)
    && var limit := BorrowLimit(s, o);
       limit.Some? && loan <= limit.value.0
  }

  predicate CanLend(m: MarketModel.Ledger, s: MarketModel.State, amount: nat, factor: nat) {
    && Dec(amount) + s.totalReserves <= Dec(m.balance)
    && s.totalLiabilities + Dec(amount) <= Mul(Dec(m.balance) + s.totalLiabilities - s.totalReserves, factor)
  }

  /** A borrow goes through exactly when the borrower's collaterals back the settled loan with the
      amount, and the market can lend that much. */
  lemma BorrowSucceedsIff(s: System, env: MarketModel.Env, who: Address, amount: nat, o: Oracle, factor: nat)
    returns (st: MarketModel.Settled)
    requires SystemOk(s)
    ensures MarketModel.Settle(s.world.market, env, who, s.world.market.balance) == Some(st)
    ensures BorrowStable(s, env, who, amount, o, factor).Some? <==>
              && Backed(ReadCollaterals(s.vault, who), o, st.loan.loanAmount + amount)
              && CanLend(s.world.market, st.state, amount, factor)
  {
    var cur := ReadCollaterals(s.vault, who);
    BorrowLimitBounds(cur, o);
    MarketSafety.SettleStep(s.world.market, env, who);
    st := MarketModel.Settle(s.world.market, env, who, s.world.market.balance).value;
    if BorrowLimit(cur, o).Some? {
      MarketSafety.BorrowSafe(s.world.market, env, who, amount, BorrowLimit(cur, o).value.0, factor);
    }
  }

  /** An unlock goes through exactly when the overseer records that much, and what stays backs the loan
      as the market settles it at that block. */
  lemma {:induction false} UnlockSucceedsIff(s: System, env: MarketModel.Env, who: Address, tokens: Tokens, o: Oracle)
    returns (st: MarketModel.Settled)
    requires SystemOk(s)
    ensures MarketModel.Settle(s.world.market, env, who, s.world.market.balance) == Some(st)
    ensures SystemModel.UnlockCollateral(s, env, who, tokens, o).Some? <==>
              && DupFree(tokens) && Covers(ReadCollaterals(s.vault, who), tokens)
              && var left := SubTokens(ReadCollaterals(s.vault, who), tokens);
                 left.Some? && Backed(left.value, o, st.loan.loanAmount)
  {
    MarketSafety.SettleStep(s.world.market, env, who);
    st := MarketModel.Settle(s.world.market, env, who, s.world.market.balance).value;
    CollateralAgreement.UnlockKeepsAgreement(s.vault, who, tokens, o, st.loan.loanAmount);
    var left := SubTokens(ReadCollaterals(s.vault, who), tokens);
    if left.Some? { BorrowLimitBounds(left.value, o); }
  }

  // ----- coins of a liquidation -----

  // The tax on all payments of a liquidator's bids.
  function TaxOnBids(b: Book, cfg: BidConfig, liquidator: Address, amounts: Tokens, o: Oracle): nat
    requires ExecuteBids(b, cfg, liquidator, amounts, o).Some?
    decreases |amounts|
  {
    if amounts == [] then 0 else
      var ex := ExecuteBid(b, cfg, liquidator, amounts[0].0, amounts[0].1, PriceOf(o, amounts[0].0)).value;
      ChainTax(ex.repaid, cfg.taxRate, cfg.taxCap) + ChainTax(ex.feePaid, cfg.taxRate, cfg.taxCap)
      + TaxOnBids(ex.book, cfg, liquidator, amounts[1..], o)
  }

  lemma {:induction false} BidsSpend(b: Book, cfg: BidConfig, liquidator: Address, amounts: Tokens, o: Oracle)
    requires ExecuteBids(b, cfg, liquidator, amounts, o).Some?
    ensures var got := ExecuteBids(b, cfg, liquidator, amounts, o).value;
            got.book.balance + got.repaid + got.fees + TaxOnBids(b, cfg, liquidator, amounts, o) == b.balance
    decreases |amounts|
  {
    if amounts != [] {
      var ex := ExecuteBid(b, cfg, liquidator, amounts[0].0, amounts[0].1, PriceOf(o, amounts[0].0)).value;
      BidsSpend(ex.book, cfg, liquidator, amounts[1..], o);
    }
  }

  /** What a liquidation does to the coins: the liquidation contract pays the repayment, the fees and the
      tax on them; the market keeps the repayment but for the taxed refund of what the loan did not need;
      the overseer keeps the fees. */
  lemma {:induction false} LiquidationCoins(s: System, cfg: LiquidationConfig, env: MarketModel.Env,
                                            liquidator: Address, borrower: Address, o: Oracle)
    returns (amounts: Tokens, paid: nat, fees: nat, repaid: nat)
    requires SystemOk(s) && LiquidateCollateral(s, cfg, env, liquidator, borrower, o).Some?
    ensures ExecuteBids(s.book, cfg.bids, liquidator, amounts, o).Some?
    ensures var t, m := LiquidateCollateral(s, cfg, env, liquidator, borrower, o).value, s.world.market;
            && t.book == ExecuteBids(s.book, cfg.bids, liquidator, amounts, o).value.book
            && (s.book.balance == t.book.balance + paid + fees
                                  + TaxOnBids(s.book, cfg.bids, liquidator, amounts, o))
            && t.world.buffer == s.world.buffer + fees && t.world.epoch == s.world.epoch
            && MarketModel.Settle(m, env, borrower, m.balance).Some?
            && MarketEffects.Repays(m, t.world.market, env, borrower, paid, repaid,
                                    MarketModel.Settle(m, env, borrower, m.balance).value)
  {
    var cur := ReadCollaterals(s.vault, borrower);
    var limit := BorrowLimit(cur, o).value;
    var info := MarketModel.QueryBorrowerInfo(s.world.market, Some(env), borrower).value;
    amounts := LiquidationAmount(cfg, info.loanAmount, limit.0, cur, limit.1).value;
    TakeInParts(s, cfg.bids, env, liquidator, borrower, amounts, o);
    BidsSpend(s.book, cfg.bids, liquidator, amounts, o);
    var got := ExecuteBids(s.book, cfg.bids, liquidator, amounts, o).value;
    paid, fees := got.repaid, got.fees;
    ReceivedIsRepaid(s.world.market, env, borrower, paid);
    repaid := MarketEffects.RepayEffect(s.world.market, env, borrower, paid);
  }
}
