/** The contracts together: transactions that read or change more than one of them, and runs that
    interleave all of them. */
module SystemModel {
  import opened FixedPoint
  import opened Addresses
  import opened Tokens
  import opened CollateralModel
  import opened BidBook
  import opened LiquidationModel
  import Agreement = CollateralAgreement
  import MarketModel
  import MarketSafety
  import OverseerModel

  /** Custodies and collaterals, bids, and the market beside the overseer's epoch state and coins. */
  datatype System = System(vault: Vault, book: Book, world: OverseerModel.World)

  function InitialSystem(tokens: set<Address>, height: nat, emission: nat): System {
    System(Agreement.InitialVault(tokens), EMPTY_BOOK, OverseerModel.InitialWorld(height, emission))
  }

  function WithMarket(s: System, market: MarketModel.Ledger): System {
    s.(world := s.world.(market := market))
  }

  // ----- across two contracts -----

  // borrow_stable asks the overseer for the limit of the collaterals stored there.
  function BorrowStable(s: System, env: MarketModel.Env, who: Address, amount: nat, o: Oracle,
                        maxBorrowFactor: nat): Option<System>
  {
    var limit :- BorrowLimit(ReadCollaterals(s.vault, who), o);
    var market :- MarketModel.BorrowStable(s.world.market, env, who, amount, limit.0, maxBorrowFactor);
    Some(WithMarket(s, market))
  }

  // unlock_collateral asks the market for the loan.
  function UnlockCollateral(s: System, env: MarketModel.Env, who: Address, tokens: Tokens, o: Oracle): Option<System> {
    var info :- MarketModel.QueryBorrowerInfo(s.world.market, Some(env), who);
    var vault :- CollateralModel.UnlockCollateral(s.vault, who, tokens, o, info.loanAmount);
    Some(s.(vault := vault))
  }

  // ----- a liquidation -----

  function PriceOf(o: Oracle, token: Address): Option<nat> {
    if token in o.prices then Some(o.prices[token]) else None
  }

  // What the messages have changed so far, with the coins sent to the market and to the overseer.
  datatype Taken = Taken(custodies: map<Address, Ledger>, book: Book, repaid: nat, fees: nat)

  /** One message: the custody gives up the tokens and hands them to the liquidation contract, which
      executes the liquidator's bid on them. A token that is not whitelisted gets no message. */
  function LiquidateOne(t: Taken, cfg: BidConfig, liquidator: Address, borrower: Address, item: Token,
                        o: Oracle): Option<Taken>
  {
    if item.0 !in t.custodies then Some(t) else
      var c :- Perform(Liquidate, t.custodies[item.0], borrower, item.1);
      var ex :- ExecuteBid(t.book, cfg, liquidator, item.0, item.1, PriceOf(o, item.0));
      Some(Taken(t.custodies[item.0 := c], ex.book, t.repaid + ex.repaid, t.fees + ex.feePaid))
  }

  function LiquidateEach(t: Taken, cfg: BidConfig, liquidator: Address, borrower: Address, amounts: Tokens,
                         o: Oracle): Option<Taken>
    decreases |amounts|
  {
    if amounts == [] then Some(t) else
      var t' :- LiquidateOne(t, cfg, liquidator, borrower, amounts[0], o);
      LiquidateEach(t', cfg, liquidator, borrower, amounts[1..], o)
  }

  /** The overseer's liquidate_collateral with all its messages: the loan as the market previews it,
      the limit, the amounts, one message per token, and the repayment of what arrived. */
  function LiquidateCollateral(s: System, cfg: LiquidationConfig, env: MarketModel.Env, liquidator: Address,
                               borrower: Address, o: Oracle): Option<System>
  {
    var cur := ReadCollaterals(s.vault, borrower);
    var limit :- BorrowLimit(cur, o);
    var info :- MarketModel.QueryBorrowerInfo(s.world.market, Some(env), borrower);
    if limit.0 >= info.loanAmount then None else
      var amounts :- LiquidationAmount(cfg, info.loanAmount, limit.0, cur, limit.1);
      TakeAndRepay(s, cfg.bids, env, liquidator, borrower, amounts, o)
  }

  function TakeAndRepay(s: System, cfg: BidConfig, env: MarketModel.Env, liquidator: Address, borrower: Address,
                        amounts: Tokens, o: Oracle): Option<System>
  {
    var cur :- SubTokens(ReadCollaterals(s.vault, borrower), amounts);
    var t :- LiquidateEach(Taken(s.vault.custodies, s.book, 0, 0), cfg, liquidator, borrower, amounts, o);
    Conclude(s, env, borrower, cur, t)
  }

  // The market sees what its balance gained; the fees stay with the overseer.
  function Conclude(s: System, env: MarketModel.Env, borrower: Address, cur: Tokens, t: Taken): Option<System> {
    var market :- RepayReceived(s.world.market, env, borrower, t.repaid);
    Some(System(Vault(t.custodies, StoreCollaterals(s.vault.collaterals, borrower, cur)), t.book,
                s.world.(market := market, buffer := s.world.buffer + t.fees)))
  }

  function RepayReceived(m: MarketModel.Ledger, env: MarketModel.Env, who: Address,
    received: nat): Option<MarketModel.Ledger> {
    MarketModel.RepayFromLiquidation(MarketSafety.Credit(m, received), env, who, m.balance)
  }

  // ----- runs -----

  /** `Own` is anything the market or the overseer does by itself, `Collateral` a deposit, withdrawal,
      lock or token transfer, and `Bids` anything sent to the liquidation contract. */
  datatype SystemTx =
    | Own(worldTx: OverseerModel.WorldTx)
    | Collateral(vaultTx: Agreement.VaultTx)
    | Bids(bidTx: BidTx)
    | Borrowing(env: MarketModel.Env, who: Address, amount: nat, o: Oracle, maxBorrowFactor: nat)
    | Unlocking(env: MarketModel.Env, who: Address, tokens: Tokens, o: Oracle)
    | Liquidation(cfg: LiquidationConfig, env: MarketModel.Env, liquidator: Address, borrower: Address, o: Oracle)

  // Borrowing, unlocking and liquidating only happen with what the other contracts answer.
  predicate Alone(tx: SystemTx) {
    match tx
    case Own(t) => !(t.MarketTx? && t.tx.Borrow?)
    case Collateral(t) => !t.UnlockTx? && !t.TakeTx?
    case _ => true
  }

  function ApplySystem(s: System, tx: SystemTx): Option<System> {
    if !Alone(tx) then None else
      match tx
      case Own(t) =>
        var w :- OverseerModel.ApplyWorld(s.world, t);
        Some(s.(world := w))
      case Collateral(t) =>
        var v :- Agreement.Apply(s.vault, t);
        Some(s.(vault := v))
      case Bids(t) =>
        var b :- BidBook.Apply(s.book, t);
        Some(s.(book := b))
      case Borrowing(env, who, amount, o, factor) => BorrowStable(s, env, who, amount, o, factor)
      case Unlocking(env, who, tokens, o) => UnlockCollateral(s, env, who, tokens, o)
      case Liquidation(cfg, env, liquidator, borrower, o) =>
        if !Valid(liquidator) then None else LiquidateCollateral(s, cfg, env, liquidator, borrower, o)
  }

  function NextSystem(s: System, tx: SystemTx): System {
    var r := ApplySystem(s, tx);
    if r.Some? then r.value else s
  }

  function RunSystem(s: System, txs: seq<SystemTx>): System
    decreases |txs|
  {
    if txs == [] then s else RunSystem(NextSystem(s, txs[0]), txs[1..])
  }
}
