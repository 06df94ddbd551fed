/** Runs that interleave all contracts: every invariant at once, and what holds between contracts. */
module SystemRun {
  import opened FixedPoint
  import opened Addresses
  import opened Tokens
  import opened CollateralModel
  import opened BidBook
  import opened LiquidationModel
  import opened LiquidationTheorem
  import opened SystemModel
  import Agreement = CollateralAgreement
  import DebtCover
  import MarketModel
  import MarketRun
  import MarketSafety
  import OverseerModel

  // ----- the invariant -----

  lemma CustodiesStayValid(v: Vault, tx: Agreement.VaultTx)
    requires Agree(v) && Agreement.Apply(v, tx).Some?
    requires tx.DepositTx? || tx.WithdrawTx? || tx.LockTx? || tx.UnlockTx? || tx.SendTx?
    ensures Agreement.Apply(v, tx).value.custodies.Keys == v.custodies.Keys
  {
    match tx
    case LockTx(who, tokens) =>
      Agreement.LockKeepsAgreement(v, who, tokens);
      PerformAllFacts(Lock, v.custodies, who, tokens);
    case UnlockTx(who, tokens, o, loan) =>
      Agreement.UnlockKeepsAgreement(v, who, tokens, o, loan);
      PerformAllFacts(Unlock, v.custodies, who, tokens);
    case _ =>
  }

  lemma VaultStep(s: System, tx: Agreement.VaultTx)
    requires SystemOk(s) && Agreement.Apply(s.vault, tx).Some?
    requires tx.DepositTx? || tx.WithdrawTx? || tx.LockTx? || tx.UnlockTx? || tx.SendTx?
    ensures SystemOk(s.(vault := Agreement.Apply(s.vault, tx).value))
  {
    Agreement.StepKeepsAgreement(s.vault, tx);
    CustodiesStayValid(s.vault, tx);
  }

  lemma BookStep(b: Book, tx: BidTx)
    requires BookOk(b) && BidBook.Apply(b, tx).Some?
    ensures BookOk(BidBook.Apply(b, tx).value)
  {
    assert [tx][1..] == [];
    RunKeepsBook(b, [tx]);
    assert BidBook.Run(b, [tx]) == BidBook.Apply(b, tx).value;
  }

  lemma BorrowStep(s: System, env: MarketModel.Env, who: Address, amount: nat, o: Oracle, maxBorrowFactor: nat)
    requires SystemOk(s) && BorrowStable(s, env, who, amount, o, maxBorrowFactor).Some?
    ensures SystemOk(BorrowStable(s, env, who, amount, o, maxBorrowFactor).value)
  {
    var limit := BorrowLimit(ReadCollaterals(s.vault, who), o).value.0;
    MarketSafety.BorrowSafe(s.world.market, env, who, amount, limit, maxBorrowFactor);
  }

  lemma StepKeepsSystem(s: System, tx: SystemTx)
    requires SystemOk(s)
    ensures SystemOk(NextSystem(s, tx))
  {
    if ApplySystem(s, tx).Some? {
      match tx
      case Own(t) => OverseerModel.WorldStepSafe(s.world, t);
      case Collateral(t) => VaultStep(s, t);
      case Bids(t) => BookStep(s.book, t);
      case Borrowing(env, who, amount, o, factor) => BorrowStep(s, env, who, amount, o, factor);
      case Unlocking(env, who, tokens, o) =>
        var info := MarketModel.QueryBorrowerInfo(s.world.market, Some(env), who).value;
        VaultStep(s, Agreement.UnlockTx(who, tokens, o, info.loanAmount));
      case Liquidation(cfg, env, liquidator, borrower, o) =>
        var cur := ReadCollaterals(s.vault, borrower);
        var limit := BorrowLimit(cur, o).value;
        var info := MarketModel.QueryBorrowerInfo(s.world.market, Some(env), borrower).value;
        var amounts := LiquidationAmount(cfg, info.loanAmount, limit.0, cur, limit.1).value;
        TakeKeepsSystem(s, cfg.bids, env, liquidator, borrower, amounts, o);
    }
  }

  lemma {:induction false} RunKeepsSystem(s: System, txs: seq<SystemTx>)
    requires SystemOk(s)
    ensures SystemOk(RunSystem(s, txs))
    decreases |txs|
  {
    if txs != [] {
      StepKeepsSystem(s, txs[0]);
      RunKeepsSystem(NextSystem(s, txs[0]), txs[1..]);
    }
  }

  lemma {:induction false} RunSystemAppend(s: System, a: seq<SystemTx>, b: seq<SystemTx>)
    ensures RunSystem(s, a + b) == RunSystem(RunSystem(s, a), b)
    decreases |a|
  {
    if a == [] {
      assert a + b == b;
    } else {
      assert (a + b)[0] == a[0] && (a + b)[1..] == a[1..] + b;
      RunSystemAppend(NextSystem(s, a[0]), a[1..], b);
    }
  }

  lemma {:induction false} RunSystemOne(s: System, tx: SystemTx)
    ensures RunSystem(s, [tx]) == NextSystem(s, tx)
  {
    assert [tx][1..] == [];
  }

  /** However the transactions of all contracts interleave, liquidations included, each state from
      init on is good for every contract: the market solvent, the overseer's rate and buffer covered,
      custodies and overseer in agreement, bids indexed and backed by coins. */
  lemma {:induction false} ReachableSystem(tokens: set<Address>, height: nat, emission: nat, txs: seq<SystemTx>)
    requires forall t :: t in tokens ==> Valid(t)
    ensures SystemOk(RunSystem(InitialSystem(tokens, height, emission), txs))
  {
    var s := InitialSystem(tokens, height, emission);
    Agreement.InitialAgrees(tokens);
    EmptyIsOk();
    RunKeepsSystem(s, txs);
  }

  lemma EmptyIsOk()
    ensures BookOk(EMPTY_BOOK)
  {
    assert Amounts(EMPTY_BOOK.bids) == map[];
  }

  // ----- market and overseer inside the system -----

  // A transaction of the system, as the market and the overseer's coins see it. A plain borrow is
  // refused only because it would name its own limit.
  lemma WorldPart(s: System, tx: SystemTx) returns (ws: seq<OverseerModel.WorldTx>)
    ensures NextSystem(s, tx).world == OverseerModel.RunWorld(s.world, ws)
  {
    ws := [];
    if ApplySystem(s, tx).Some? {
      match tx
      case Own(t) =>
        ws := [t];
        OverseerModel.RunWorldOne(s.world, t);
      case Borrowing(env, who, amount, o, factor) =>
        var limit := BorrowLimit(ReadCollaterals(s.vault, who), o).value.0;
        ws := [OverseerModel.MarketTx(MarketRun.Borrow(env, who, amount, limit, factor))];
        OverseerModel.RunWorldOne(s.world, ws[0]);
      case Liquidation(cfg, env, liquidator, borrower, o) =>
        var repaid, fees := Paid(s, cfg, env, liquidator, borrower, o);
        ws := [OverseerModel.MarketTx(MarketRun.Repay(env, borrower, repaid)), OverseerModel.Inflow(fees)];
        LiquidationPart(s, env, borrower, repaid, fees, ApplySystem(s, tx).value.world);
      case _ =>
    }
  }

  // What a successful liquidation brought to the market and to the overseer.
  lemma Paid(s: System, cfg: LiquidationConfig, env: MarketModel.Env, liquidator: Address, borrower: Address, o: Oracle)
    returns (repaid: nat, fees: nat)
    requires LiquidateCollateral(s, cfg, env, liquidator, borrower, o).Some?
    ensures var t := LiquidateCollateral(s, cfg, env, liquidator, borrower, o).value.world;
            && RepayReceived(s.world.market, env, borrower, repaid) == Some(t.market)
            && t == s.world.(market := t.market, buffer := s.world.buffer + fees)
  {
    var cur := ReadCollaterals(s.vault, borrower);
    var limit := BorrowLimit(cur, o).value;
    var info := MarketModel.QueryBorrowerInfo(s.world.market, Some(env), borrower).value;
    var amounts := LiquidationAmount(cfg, info.loanAmount, limit.0, cur, limit.1).value;
    var taken := LiquidateEach(Taken(s.vault.custodies, s.book, 0, 0),
                               cfg.bids, liquidator, borrower, amounts, o).value;
    repaid, fees := taken.repaid, taken.fees;
  }

  lemma LiquidationPart(s: System, env: MarketModel.Env, borrower: Address, repaid: nat,
                        fees: nat, t: OverseerModel.World)
    requires RepayReceived(s.world.market, env, borrower, repaid) == Some(t.market)
    requires t == s.world.(market := t.market, buffer := s.world.buffer + fees)
    ensures OverseerModel.RunWorld(s.world, [OverseerModel.MarketTx(MarketRun.Repay(env, borrower, repaid)),
                                             OverseerModel.Inflow(fees)]) == t
  {
    ReceivedIsRepaid(s.world.market, env, borrower, repaid);
    var a, b := OverseerModel.MarketTx(MarketRun.Repay(env, borrower, repaid)), OverseerModel.Inflow(fees);
    assert [a, b] == [a] + [b];
    OverseerModel.RunWorldAppend(s.world, [a], [b]);
    OverseerModel.RunWorldOne(s.world, a);
    OverseerModel.RunWorldOne(OverseerModel.NextWorld(s.world, a), b);
  }

  lemma {:induction false} SystemWorldIsWorldRun(s: System, txs: seq<SystemTx>) returns (ws: seq<OverseerModel.WorldTx>)
    ensures RunSystem(s, txs).world == OverseerModel.RunWorld(s.world, ws)
    decreases |txs|
  {
    if txs == [] {
      ws := [];
    } else {
      var head := WorldPart(s, txs[0]);
      var rest := SystemWorldIsWorldRun(NextSystem(s, txs[0]), txs[1..]);
      OverseerModel.RunWorldAppend(s.world, head, rest);
      ws := head + rest;
    }
  }

  /** The market of any run of the whole system goes through a market run, so debt cover and ANC
      conservation hold in it as well. */
  lemma SystemMarketIsMarketRun(s: System, txs: seq<SystemTx>) returns (ms: seq<MarketRun.Tx>)
    ensures RunSystem(s, txs).world.market == MarketRun.Run(s.world.market, ms)
  {
    var ws := SystemWorldIsWorldRun(s, txs);
    ms := OverseerModel.WorldMarketIsMarketRun(s.world, ws);
  }

  // ----- what borrowing and unlocking leave -----

  // Settled again in the block it was changed in, a loan does not grow.
  lemma LoanInSameBlock(l: MarketModel.Ledger, env: MarketModel.Env, who: Address, amount: nat, limit: nat, factor: nat)
    requires MarketSafety.MarketOk(l) && MarketModel.BorrowStable(l, env, who, amount, limit, factor).Some?
    ensures var t := MarketModel.BorrowStable(l, env, who, amount, limit, factor).value;
            var info := MarketModel.QueryBorrowerInfo(t, Some(env), who);
            info.Some? && info.value.loanAmount <= t.borrowers[who].loanAmount <= limit
  {
    MarketSafety.BorrowSafe(l, env, who, amount, limit, factor);
    MarketSafety.InterestStep(l.state, env, l.balance, l.supply);
    var t := MarketModel.BorrowStable(l, env, who, amount, limit, factor).value;
    MarketSafety.SettleStep(l, env, who);
    MarketSafety.SettleStep(t, env, who);
    var b, index := t.borrowers[who], t.state.globalInterestIndex;
    DebtCover.SettledLoan(b, index);
    MulCancel(Div(Mul(b.loanAmount, index), index).value, b.loanAmount, index);
  }

  /** A loan that was just taken is within the limit of the collaterals behind it: at the same prices
      and in the same block nobody can liquidate it. */
  lemma BorrowedIsBacked(s: System, env: MarketModel.Env, who: Address, amount: nat, o: Oracle, factor: nat,
                         cfg: LiquidationConfig, liquidator: Address)
    requires SystemOk(s) && BorrowStable(s, env, who, amount, o, factor).Some?
    ensures LiquidateCollateral(BorrowStable(s, env, who, amount, o, factor).value, cfg, env, liquidator, who, o).None?
  {
    var limit := BorrowLimit(ReadCollaterals(s.vault, who), o).value.0;
    LoanInSameBlock(s.world.market, env, who, amount, limit, factor);
  }

  /** Neither can a loan whose owner has just taken collateral back. */
  lemma UnlockedIsBacked(s: System, env: MarketModel.Env, who: Address, tokens: Tokens, o: Oracle,
                         cfg: LiquidationConfig, liquidator: Address)
    requires SystemModel.UnlockCollateral(s, env, who, tokens, o).Some?
    ensures LiquidateCollateral(SystemModel.UnlockCollateral(s, env, who, tokens, o).value,
                                cfg, env, liquidator, who, o).None?
  {
    var t := SystemModel.UnlockCollateral(s, env, who, tokens, o).value;
    assert ReadCollaterals(t.vault, who) == SubTokens(ReadCollaterals(s.vault, who), tokens).value;
  }

  // ----- coins -----

  lemma {:induction false} BidsPayFromEscrow(b: Book, cfg: BidConfig, liquidator: Address, amounts: Tokens, o: Oracle)
    requires ExecuteBids(b, cfg, liquidator, amounts, o).Some?
    ensures var got := ExecuteBids(b, cfg, liquidator, amounts, o).value;
            got.book.balance + got.repaid + got.fees <= b.balance
    decreases |amounts|
  {
    if amounts != [] {
      var ex := ExecuteBid(b, cfg, liquidator, amounts[0].0, amounts[0].1, PriceOf(o, amounts[0].0)).value;
      BidsPayFromEscrow(ex.book, cfg, liquidator, amounts[1..], o);
    }
  }

  // Stablecoins held by liquidation contract, market and overseer.
  function Coins(s: System): nat { s.book.balance + s.world.market.balance + s.world.buffer }

  lemma ConcludingMakesNoCoins(s: System, env: MarketModel.Env, borrower: Address, cur: Tokens, t: Taken)
    requires SystemModel.Conclude(s, env, borrower, cur, t).Some?
    requires t.book.balance + t.repaid + t.fees <= s.book.balance
    ensures Coins(SystemModel.Conclude(s, env, borrower, cur, t).value) <= Coins(s)
  {
    ReceivedIsRepaid(s.world.market, env, borrower, t.repaid);
  }

  /** A liquidation moves coins between the contracts and out of them; it never makes any. */
  lemma LiquidationMakesNoCoins(s: System, cfg: LiquidationConfig, env: MarketModel.Env, liquidator: Address,
                                borrower: Address, o: Oracle)
    requires Agree(s.vault) && LiquidateCollateral(s, cfg, env, liquidator, borrower, o).Some?
    ensures Coins(LiquidateCollateral(s, cfg, env, liquidator, borrower, o).value) <= Coins(s)
  {
    var cur := ReadCollaterals(s.vault, borrower);
    var limit := BorrowLimit(cur, o).value;
    var info := MarketModel.QueryBorrowerInfo(s.world.market, Some(env), borrower).value;
    var amounts := LiquidationAmount(cfg, info.loanAmount, limit.0, cur, limit.1).value;
    var left := SubTokens(cur, amounts).value;
    TakeInParts(s, cfg.bids, env, liquidator, borrower, amounts, o);
    BidsPayFromEscrow(s.book, cfg.bids, liquidator, amounts, o);
    var got := ExecuteBids(s.book, cfg.bids, liquidator, amounts, o).value;
    ConcludingMakesNoCoins(s, env, borrower, left,
                           Taken(TakeCollateral(s.vault, borrower, amounts).value.custodies,
                                 got.book, got.repaid, got.fees));
  }
}
