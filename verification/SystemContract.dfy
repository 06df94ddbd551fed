/** The contracts together as they run: the handlers that query or drive other contracts. */
module SystemContract {
  import opened FixedPoint
  import opened Addresses
  import opened Tokens
  import opened TokenVectors
  import opened CollateralModel
  import opened CollateralContract
  import opened BidBook
  import opened BidContract
  import opened LiquidationModel
  import opened MarketContract
  import opened OverseerContract
  import opened SystemModel
  import MarketModel

  /** The overseer is one contract with two parts: its collaterals with the custodies, and its epochs
      with its coins and the market. */
  class Contracts {
    const collaterals: OverseerCollaterals
    const overseer: Overseer
    const liquidation: Liquidation

    constructor (collaterals: OverseerCollaterals, overseer: Overseer, liquidation: Liquidation)
      ensures this.collaterals == collaterals && this.overseer == overseer && this.liquidation == liquidation
    {
      this.collaterals, this.overseer, this.liquidation := collaterals, overseer, liquidation;
    }

    function View(): System
      reads collaterals, overseer, overseer.market, liquidation
    {
      System(collaterals.View(), liquidation.View(), overseer.View())
    }

    // What a handler must leave behind: the specified contracts, or the old ones.
    twostate predicate Became(spec: Option<System>, ok: bool)
      reads collaterals, overseer, overseer.market, liquidation
    {
      ok == spec.Some? && View() == if spec.Some? then spec.value else old(View())
    }

    method BorrowStable(env: MarketModel.Env, who: Address, amount: nat, o: Oracle) returns (ok: bool)
      modifies overseer.market
      ensures Became(SystemModel.BorrowStable(old(View()), env, who, amount, o, overseer.market.maxBorrowFactor), ok)
    {
      var limit := ComputeBorrowLimit(ReadCollaterals(collaterals.View(), who), o);
      if limit.None? { return false; }
      ok := overseer.market.BorrowStable(env, who, amount, limit.value.0);
    }

    method UnlockCollateral(env: MarketModel.Env, who: Address, tokens: Tokens, o: Oracle) returns (ok: bool)
      modifies collaterals
      ensures Became(SystemModel.UnlockCollateral(old(View()), env, who, tokens, o), ok)
    {
      var info := overseer.market.QueryBorrowerInfo(Some(env), who);
      if info.None? { return false; }
      ok := collaterals.UnlockCollateral(who, tokens, o, info.value.loanAmount);
    }

    method LiquidateCollateral(cfg: LiquidationConfig, env: MarketModel.Env, liquidator: Address, borrower: Address,
                               o: Oracle) returns (ok: bool)
      modifies collaterals, overseer, overseer.market, liquidation
      ensures Became(SystemModel.LiquidateCollateral(old(View()), cfg, env, liquidator, borrower, o), ok)
    {
      var curCollaterals := ReadCollaterals(collaterals.View(), borrower);
      var limit := ComputeBorrowLimit(curCollaterals, o);
      if limit.None? { return false; }
      var info := overseer.market.QueryBorrowerInfo(Some(env), borrower);
      if info.None? || limit.value.0 >= info.value.loanAmount { return false; }
      var amounts := QueryLiquidationAmount(cfg, info.value.loanAmount, limit.value.0, curCollaterals, limit.value.1);
      if amounts.None? { return false; }
      ok := TakeAndRepay(cfg.bids, env, liquidator, borrower, amounts.value, o);
    }

    method TakeAndRepay(cfg: BidConfig, env: MarketModel.Env, liquidator: Address, borrower: Address,
                        amounts: Tokens, o: Oracle) returns (ok: bool)
      modifies collaterals, overseer, overseer.market, liquidation
      ensures Became(SystemModel.TakeAndRepay(old(View()), cfg, env, liquidator, borrower, amounts, o), ok)
    {
      var cur := new TokenVec(ReadCollaterals(collaterals.View(), borrower));
      ok := cur.Sub(amounts);
      if !ok { return; }
      var start := Taken(collaterals.custodies, liquidation.View(), 0, 0);
      var taken := TakeEach(start, cfg, liquidator, borrower, amounts, o);
      if taken.None? { return false; }
      ok := Conclude(env, borrower, cur.elems, taken.value);
    }

    // The messages one after the other; the first failure ends the transaction.
    method TakeEach(start: Taken, cfg: BidConfig, liquidator: Address, borrower: Address, amounts: Tokens, o: Oracle)
      returns (r: Option<Taken>)
      ensures r == LiquidateEach(start, cfg, liquidator, borrower, amounts, o)
    {
      var t := start;
      var i := 0;
      assert amounts[0..] == amounts;
      while i < |amounts|
        invariant i <= |amounts|
        invariant LiquidateEach(start, cfg, liquidator, borrower, amounts, o)
               == LiquidateEach(t, cfg, liquidator, borrower, amounts[i..], o)
      {
        assert amounts[i..][0] == amounts[i] && amounts[i..][1..] == amounts[i + 1..];
        t :- LiquidateOne(t, cfg, liquidator, borrower, amounts[i], o);
        i := i + 1;
      }
      return Some(t);
    }

    // The market is told, and everything is stored; or nothing is.
    method Conclude(env: MarketModel.Env, borrower: Address, cur: Tokens, t: Taken) returns (ok: bool)
      modifies collaterals, overseer, overseer.market, liquidation
      ensures Became(SystemModel.Conclude(old(View()), env, borrower, cur, t), ok)
    {
      ok := PassOn(overseer.market, env, borrower, t.repaid);
      if ok { StoreTaken(borrower, cur, t); }
    }

    // The coins arrive at the market before its own message does.
    static method PassOn(market: Market, env: MarketModel.Env, borrower: Address, received: nat) returns (ok: bool)
      modifies market
      ensures var spec := RepayReceived(old(market.View()), env, borrower, received);
              ok == spec.Some? && market.View() == if spec.Some? then spec.value else old(market.View())
    {
      var prevBalance := market.balance;
      market.balance := prevBalance + received;
      ok := market.RepayStableFromLiquidation(env, borrower, prevBalance);
      if !ok { market.balance := prevBalance; }
    }

    method StoreTaken(borrower: Address, cur: Tokens, t: Taken)
      modifies collaterals, liquidation, overseer`balance
      ensures collaterals.View() == Vault(t.custodies, StoreCollaterals(old(collaterals.collaterals), borrower, cur))
      ensures liquidation.View() == t.book && overseer.balance == old(overseer.balance) + t.fees
    {
      collaterals.collaterals := StoreCollaterals(collaterals.collaterals, borrower, cur);
      collaterals.custodies := t.custodies;
      liquidation.bids, liquidation.byUser, liquidation.byCollateral := t.book.bids, t.book.byUser, t.book.byCollateral;
      liquidation.balance := t.book.balance;
      overseer.balance := overseer.balance + t.fees;
    }
  }
}
