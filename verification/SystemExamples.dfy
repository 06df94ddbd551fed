/** A run of all contracts from init that ends in a liquidation. */
module SystemExamples {
  import opened FixedPoint
  import opened Tax
  import opened Addresses
  import opened Tokens
  import opened CollateralModel
  import opened BidBook
  import opened LiquidationModel
  import opened LiquidationTheorem
  import opened LiquidationSuccess
  import opened SystemModel
  import opened SystemRun
  import Agreement = CollateralAgreement
  import MarketModel
  import MarketRun
  import MarketSafety
  import RoundingExamples

  const HALF: nat := F / 2

  function Party(b: Byte): (a: Address)
    ensures Valid(a) && a[0] == b
  {
    seq(ADDRESS_LENGTH, i => b)
  }

  const TOKEN: Address := Party(1)
  const BORROWER: Address := Party(2)
  const LIQUIDATOR: Address := Party(3)

  // Loan-to-value one half.
  function At(price: nat): Oracle { Oracle(map[TOKEN := price], map[TOKEN := HALF]) }

  // No premium, fee or tax, a safe ratio of one half and no threshold.
  const CONFIG := LiquidationConfig(BidConfig(0, 0, 0, 0), HALF, 0)
  const ENV := MarketModel.Env(0, (b, l, r) => 0, 0, 0, 0)

  const SUBMIT := Bids(Submit(CONFIG.bids, LIQUIDATOR, TOKEN, 0, Some(1000)))
  const DEPOSIT := Collateral(Agreement.DepositTx(TOKEN, BORROWER, 1000))
  const LOCK := Collateral(Agreement.LockTx(BORROWER, [(TOKEN, 1000)]))
  const BORROW := Borrowing(ENV, BORROWER, 500, At(F), F)

  lemma OneToken(a: Address, n: nat)
    requires n > 0
    ensures Sort([(a, n)]) == [(a, n)] && DropZeros([(a, n)]) == [(a, n)]
    ensures AddTokens([], [(a, n)]) == Some([(a, n)])
    ensures Canonical([(a, n)])
  {
    assert [(a, n)][1..] == [];
    assert Insert((a, n), []) == [(a, n)];
  }

  lemma BidStands(s: System)
    requires s == InitialSystem({TOKEN}, 0, 0)
    ensures var t := NextSystem(s, SUBMIT);
            && t.vault == s.vault && t.world == s.world
            && ReadBid(t.book, LIQUIDATOR, TOKEN) == Some(Bid(1000, 0))
  {
  }

  lemma Deposited1000(s: System)
    requires s.vault == Agreement.InitialVault({TOKEN})
    ensures var t := NextSystem(s, DEPOSIT);
            && t.book == s.book && t.world == s.world
            && t.vault == Vault(map[TOKEN := Ledger(map[BORROWER := Deposit(1000, 1000)], 1000)], map[])
  {
  }

  lemma Locked1000(s: System)
    requires s.vault == Vault(map[TOKEN := Ledger(map[BORROWER := Deposit(1000, 1000)], 1000)], map[])
    ensures var t := NextSystem(s, LOCK);
            && t.book == s.book && t.world == s.world
            && ReadCollaterals(t.vault, BORROWER) == [(TOKEN, 1000)]
  {
    OneToken(TOKEN, 1000);
    var tokens := [(TOKEN, 1000)];
    assert tokens[1..] == [];
    assert PerformAll(Lock, s.vault.custodies, BORROWER, tokens).Some?;
    assert ReadCollaterals(s.vault, BORROWER) == [];
    assert LockCollateral(s.vault, BORROWER, tokens).value.collaterals == map[BORROWER := tokens];
  }

  // One token at one price.
  lemma LimitOf(n: nat, price: nat)
    ensures BorrowLimit([(TOKEN, n)], At(price)) == Some((Mul(Mul(n, price), HALF), [price]))
  {
    assert [(TOKEN, n)][1..] == [] && [price] + [] == [price];
  }

  lemma LimitAtOne()
    ensures BorrowLimit([(TOKEN, 1000)], At(F)) == Some((500, [F]))
  {
    LimitOf(1000, F);
    DivExact(1000, F);
    QuotientUnique(1000 * HALF, F, 500);
  }

  // A first loan of 500 from the market as it was initialised.
  lemma FirstLoan(m: MarketModel.Ledger)
    requires m == MarketModel.InitialLedger(0, 0)
    ensures MarketModel.BorrowStable(m, ENV, BORROWER, 500, 500, F).Some?
    ensures var t := MarketModel.BorrowStable(m, ENV, BORROWER, 500, 500, F).value;
            && MarketModel.Settle(t, ENV, BORROWER, t.balance).Some?
            && var st := MarketModel.Settle(t, ENV, BORROWER, t.balance).value;
               st.loan.loanAmount == 500 && st.state.totalLiabilities == Dec(500)
  {
    RoundingExamples.FirstLoan(m, ENV, BORROWER, 500);
    SettlesAsIs(MarketRun.Next(m, MarketRun.Borrow(ENV, BORROWER, 500, 500, F)));
  }

  lemma Borrowed500(s: System)
    requires ReadCollaterals(s.vault, BORROWER) == [(TOKEN, 1000)]
    requires MarketModel.BorrowStable(s.world.market, ENV, BORROWER, 500, 500, F).Some?
    ensures BorrowStable(s, ENV, BORROWER, 500, At(F), F)
         == Some(WithMarket(s, MarketModel.BorrowStable(s.world.market, ENV, BORROWER, 500, 500, F).value))
  {
    LimitAtOne();
  }

  lemma SettlesAsIs(m: MarketModel.Ledger)
    requires MarketSafety.MarketOk(m) && BORROWER in m.borrowers
    requires m.borrowers[BORROWER].loanAmount == 500 && m.borrowers[BORROWER].interestIndex == F
    requires m.state.globalInterestIndex == F && m.state.totalLiabilities == Dec(500)
    ensures MarketModel.Settle(m, ENV, BORROWER, m.balance).Some?
    ensures var st := MarketModel.Settle(m, ENV, BORROWER, m.balance).value;
            st.loan.loanAmount == 500 && st.state.totalLiabilities == Dec(500)
  {
    MarketSafety.SettleStep(m, ENV, BORROWER);
    DivExact(500, F);
  }

  const PRICE: nat := 4 * (F / 5)

  // At four fifths of the price: value 800 and limit 400.
  lemma FiguresAtDrop()
    ensures CollateralsValue([(TOKEN, 1000)], [PRICE]) == 800
    ensures FeeDeductor(CONFIG.bids) == Some(F) && Mul(800, F) == 800
    ensures FiguresFor(CONFIG, [(TOKEN, 1000)], At(PRICE), 500) == Some(Figures(500, 400, [PRICE], 800, 800, 1))
  {
    LimitOf(1000, PRICE);
    QuotientUnique(1000 * PRICE, F, 800);
    QuotientUnique(800 * HALF, F, 400);
    assert [(TOKEN, 1000)][1..] == [] && [PRICE][1..] == [];
    assert CollateralsValue([(TOKEN, 1000)], [PRICE]) == 800;
    DivExact(F, F);
    DivExact(800, F);
    assert FeeDeductor(CONFIG.bids) == Some(F);
    assert BorrowLimit([(TOKEN, 1000)], At(PRICE)) == Some((400, [PRICE]));
  }

  // (500 - 200) / (800 - 200): half of the collateral is to be sold.
  lemma RatioAtDrop()
    ensures LiquidationRatio(CONFIG, 500, 400, 800, 800) == Some(HALF)
  {
    QuotientUnique(400 * HALF, F, 200);
    DivByDec(Dec(300), 600);
    QuotientUnique(300 * F, 600, HALF);
  }

  lemma AmountsAtDrop()
    ensures LiquidationAmount(CONFIG, 500, 400, [(TOKEN, 1000)], [PRICE]) == Some([(TOKEN, 500)])
  {
    RatioAtDrop();
    FiguresAtDrop();
    QuotientUnique(1000 * HALF, F, 500);
    assert [(TOKEN, 1000)][1..] == [] && [PRICE][1..] == [] && [(TOKEN, 500)] + [] == [(TOKEN, 500)];
    assert Scale([(TOKEN, 1000)], [PRICE], HALF) == [(TOKEN, 500)];
  }

  lemma {:induction false} BidOn500(b: Book)
    requires ReadBid(b, LIQUIDATOR, TOKEN) == Some(Bid(1000, 0))
    ensures BidsSuffice(b, CONFIG.bids, LIQUIDATOR, [(TOKEN, 500)], At(PRICE))
    ensures Proceeds(b, CONFIG.bids, LIQUIDATOR, [(TOKEN, 500)], At(PRICE)) == 400
  {
    QuotientUnique(500 * PRICE, F, 400);
    DivExact(400, F);
    assert [(TOKEN, 500)][1..] == [];
    assert DeductTax(400, 0, 0) == 400;
  }

  // The loan at its limit, the collateral locked and the bid standing.
  lemma BeforeDrop() returns (txs: seq<SystemTx>)
    ensures var s := RunSystem(InitialSystem({TOKEN}, 0, 0), txs);
            && SystemOk(s)
            && ReadCollaterals(s.vault, BORROWER) == [(TOKEN, 1000)]
            && ReadBid(s.book, LIQUIDATOR, TOKEN) == Some(Bid(1000, 0))
            && var m := s.world.market;
               && MarketModel.Settle(m, ENV, BORROWER, m.balance).Some?
               && var st := MarketModel.Settle(m, ENV, BORROWER, m.balance).value;
                  st.loan.loanAmount == 500 && st.state.totalLiabilities == Dec(500)
  {
    var s0 := InitialSystem({TOKEN}, 0, 0);
    BidStands(s0);
    var s1 := NextSystem(s0, SUBMIT);
    Deposited1000(s1);
    var s2 := NextSystem(s1, DEPOSIT);
    Locked1000(s2);
    var s3 := NextSystem(s2, LOCK);
    FirstLoan(s3.world.market);
    Borrowed500(s3);
    txs := [SUBMIT] + ([DEPOSIT] + ([LOCK] + [BORROW]));
    RunSystemAppend(s0, [SUBMIT], [DEPOSIT] + ([LOCK] + [BORROW]));
    RunSystemAppend(s1, [DEPOSIT], [LOCK] + [BORROW]);
    RunSystemAppend(s2, [LOCK], [BORROW]);
    RunSystemOne(s0, SUBMIT);
    RunSystemOne(s1, DEPOSIT);
    RunSystemOne(s2, LOCK);
    RunSystemOne(s3, BORROW);
    ReachableSystem({TOKEN}, 0, 0, txs);
  }

  lemma HalfLeft()
    ensures SubTokens([(TOKEN, 1000)], [(TOKEN, 500)]) == Some([(TOKEN, 500)])
    ensures BorrowLimit([(TOKEN, 500)], At(PRICE)).Some?
    ensures Mul(BorrowLimit([(TOKEN, 500)], At(PRICE)).value.0, HALF) == 100
  {
    OneToken(TOKEN, 1000);
    OneToken(TOKEN, 500);
    assert [(TOKEN, 1000)][1..] == [] && [(TOKEN, 500)][1..] == [] && [(TOKEN, 500)] + [] == [(TOKEN, 500)];
    assert SubSorted([(TOKEN, 1000)], [(TOKEN, 500)]) == Some([(TOKEN, 500)]);
    LimitOf(500, PRICE);
    QuotientUnique(500 * PRICE, F, 400);
    QuotientUnique(400 * HALF, F, 200);
    QuotientUnique(200 * HALF, F, 100);
  }

  const DROP := Liquidation(CONFIG, ENV, LIQUIDATOR, BORROWER, At(PRICE))

  lemma DropApplies(s: System)
    ensures ApplySystem(s, DROP) == LiquidateCollateral(s, CONFIG, ENV, LIQUIDATOR, BORROWER, At(PRICE))
  {
  }

  lemma DropOutcome(s: System) returns (t: System)
    requires SystemOk(s) && ReadCollaterals(s.vault, BORROWER) == [(TOKEN, 1000)]
    requires ReadBid(s.book, LIQUIDATOR, TOKEN) == Some(Bid(1000, 0))
    requires var m := s.world.market;
             && MarketModel.Settle(m, ENV, BORROWER, m.balance).Some?
             && var st := MarketModel.Settle(m, ENV, BORROWER, m.balance).value;
                st.loan.loanAmount == 500 && st.state.totalLiabilities == Dec(500)
    ensures LiquidateCollateral(s, CONFIG, ENV, LIQUIDATOR, BORROWER, At(PRICE)) == Some(t)
    ensures ReadCollaterals(t.vault, BORROWER) == [(TOKEN, 500)]
    ensures BORROWER in t.world.market.borrowers && t.world.market.borrowers[BORROWER].loanAmount == 100
  {
    FiguresAtDrop();
    AmountsAtDrop();
    BidOn500(s.book);
    LiquidationSucceedsIff(s, CONFIG, ENV, LIQUIDATOR, BORROWER, At(PRICE));
    t := LiquidateCollateral(s, CONFIG, ENV, LIQUIDATOR, BORROWER, At(PRICE)).value;
    var amounts, repaid := LiquidationSteps(s, CONFIG, ENV, LIQUIDATOR, BORROWER, At(PRICE));
    OneToken(TOKEN, 500);
    StrictHasNoDuplicates(amounts);
    BidsGoThrough(s.book, CONFIG.bids, LIQUIDATOR, amounts, At(PRICE));
    HalfLeft();
  }

  /** From init: a bid, a deposit, a lock and a loan at the full limit; the price drops by a fifth, the
      liquidation goes through, and the loan of 500 lands at 100, the safe half of the limit that the
      remaining 500 tokens give. */
  lemma LiquidationHappens() returns (txs: seq<SystemTx>, t: System)
    ensures SystemOk(RunSystem(InitialSystem({TOKEN}, 0, 0), txs))
    ensures ApplySystem(RunSystem(InitialSystem({TOKEN}, 0, 0), txs), DROP) == Some(t)
    ensures ReadCollaterals(t.vault, BORROWER) == [(TOKEN, 500)]
    ensures BorrowLimit([(TOKEN, 500)], DROP.o).Some?
    ensures BORROWER in t.world.market.borrowers
    ensures t.world.market.borrowers[BORROWER].loanAmount
         == Mul(BorrowLimit([(TOKEN, 500)], DROP.o).value.0, DROP.cfg.safeRatio) == 100
  {
    txs := BeforeDrop();
    var s := RunSystem(InitialSystem({TOKEN}, 0, 0), txs);
    t := DropOutcome(s);
    DropApplies(s);
    HalfLeft();
  }
}
