/** Concrete runs from init where rounding, or the skim, defeats what one might expect. */
module RoundingExamples {
  import opened FixedPoint
  import opened Tax
  import opened Totals
  import opened Addresses
  import opened MarketModel
  import opened Solvency
  import opened MarketSafety
  import opened MarketRun
  import opened Books

  const HALF: nat := F / 2
  const WHO: Address := [1]

  // At the given borrow rate, without tax and with a target of zero.
  function Block(height: nat, rate: nat): Env { Env(height, (b, l, r) => rate, 0, 0, 0) }

  // ----- a loan that cannot be repaid in full -----

  // One block by its growth factor, and the index and the liabilities after it.
  datatype Figure = Figure(factor: nat, index: nat, liabilities: nat)

  // The index grows without rounding.
  predicate Follows(index: nat, liabilities: nat, f: Figure) {
    index * (F + f.factor) == f.index * F && f.liabilities == liabilities + Mul(liabilities, f.factor)
  }

  predicate AllFollow(index: nat, liabilities: nat, fs: seq<Figure>)
    decreases |fs|
  {
    fs == [] || (Follows(index, liabilities, fs[0]) && AllFollow(fs[0].index, fs[0].liabilities, fs[1..]))
  }

  function Blocks(height: nat, fs: seq<Figure>): seq<Tx>
    decreases |fs|
  {
    if fs == [] then [] else [Accrue(Block(height + 1, fs[0].factor))] + Blocks(height + 1, fs[1..])
  }

  predicate At(l: Ledger, height: nat, index: nat, liabilities: nat) {
    && l.state.lastInterestUpdated == height
    && l.state.globalInterestIndex == index && l.state.totalLiabilities == liabilities
  }

  // What an accrual does to index and liabilities, whatever the reserves do.
  lemma ExactBlock(l: Ledger, height: nat, f: Figure)
    requires MarketOk(l) && height == l.state.lastInterestUpdated + 1
    requires Follows(l.state.globalInterestIndex, l.state.totalLiabilities, f)
    ensures var t := Next(l, Accrue(Block(height, f.factor)));
            MarketOk(t) && t.borrowers == l.borrowers && At(t, height, f.index, f.liabilities)
  {
    SettleInterestSafe(l, Block(height, f.factor));
    MulDecLeft(1, f.factor);
    assert InterestFactor(l.state, height, f.factor) == f.factor;
    ExactMul(l.state.globalInterestIndex, F + f.factor, f.index);
  }

  lemma BlocksUnfold(l: Ledger, height: nat, fs: seq<Figure>)
    requires fs != []
    ensures Run(l, Blocks(height, fs))
         == Run(Next(l, Accrue(Block(height + 1, fs[0].factor))), Blocks(height + 1, fs[1..]))
  {
    var tx := Accrue(Block(height + 1, fs[0].factor));
    RunAppend(l, [tx], Blocks(height + 1, fs[1..]));
    RunOne(l, tx);
  }

  function Last(f: Figure, fs: seq<Figure>): Figure { if fs == [] then f else fs[|fs| - 1] }

  // From a ledger at the figures `f`.
  lemma {:induction false} ExactBlocks(l: Ledger, height: nat, f: Figure, fs: seq<Figure>)
    requires MarketOk(l) && At(l, height, f.index, f.liabilities) && AllFollow(f.index, f.liabilities, fs)
    ensures var t := Run(l, Blocks(height, fs));
            && MarketOk(t) && t.borrowers == l.borrowers
            && At(t, height + |fs|, Last(f, fs).index, Last(f, fs).liabilities)
    decreases |fs|
  {
    if fs != [] {
      BlocksUnfold(l, height, fs);
      ExactBlock(l, height + 1, fs[0]);
      ExactBlocks(Next(l, Accrue(Block(height + 1, fs[0].factor))), height + 1, fs[0], fs[1..]);
    }
  }

  lemma ExactMul(a: nat, b: nat, c: nat)
    requires a * b == c * F
    ensures Mul(a, b) == c
  {
    DivExact(c, F);
  }

  // A first loan in a block whose interest is already settled.
  lemma FirstLoan(l: Ledger, env: Env, who: Address, amount: nat)
    requires MarketOk(l) && l.borrowers == map[] && l.state.lastInterestUpdated >= env.height
    requires l.state.totalLiabilities == 0 && l.state.totalReserves == 0
    requires amount <= l.balance
    ensures var t := Next(l, Borrow(env, who, amount, amount, F));
            && MarketOk(t) && t.borrowers.Keys == {who}
            && t.borrowers[who].loanAmount == amount
            && t.borrowers[who].interestIndex == l.state.globalInterestIndex
            && t.state.totalLiabilities == Dec(amount)
            && t.state.globalInterestIndex == l.state.globalInterestIndex
            && t.state.lastInterestUpdated == l.state.lastInterestUpdated
  {
    SettleStep(l, env, who);
    var st := Settle(l, env, who, l.balance).value;
    assert st.loan.loanAmount == 0 by { NothingSettles(l.state.globalInterestIndex); }
    assert st.state.totalLiabilities == 0 && st.state.totalReserves == 0;
    BorrowSafe(l, env, who, amount, amount, F);
    DivExact(Dec(l.balance), F);
    MulMono(amount, l.balance, F);
  }

  lemma NothingSettles(index: nat)
    ensures Mul(0, index) == 0 && Div(0, F).value == 0
  {
  }

  function OpeningTxs(f: Figure): seq<Tx> {
    [Accrue(Block(1, f.factor)), Borrow(Block(1, f.factor), WHO, 1, 1, F)]
  }

  lemma FirstBlock(l: Ledger, f: Figure)
    requires l == InitialLedger(0, 0) && Follows(F, 0, f)
    ensures var t := Next(l, Accrue(Block(1, f.factor)));
            && MarketOk(t) && At(t, 1, f.index, 0)
            && t.borrowers == map[] && t.state.totalReserves == 0 && t.balance == INITIAL_DEPOSIT
  {
    ExactBlock(l, 1, f);
    QuietReserves(l, f.factor);
  }

  // Then one borrower takes one unit.
  lemma OneUnit(l: Ledger, env: Env, index: nat)
    requires MarketOk(l) && At(l, 1, index, 0) && env.height <= 1
    requires l.borrowers == map[] && l.state.totalReserves == 0 && l.balance == INITIAL_DEPOSIT
    ensures var t := Next(l, Borrow(env, WHO, 1, 1, F));
            && MarketOk(t) && At(t, 1, index, Dec(1))
            && t.borrowers.Keys == {WHO}
            && t.borrowers[WHO].loanAmount == 1 && t.borrowers[WHO].interestIndex == index
  {
    FirstLoan(l, env, WHO, 1);
  }

  lemma {:induction false} RunTwo(l: Ledger, a: Tx, b: Tx)
    ensures Run(l, [a, b]) == Next(Next(l, a), b)
  {
    assert [a, b] == [a] + [b];
    RunAppend(l, [a], [b]);
    RunOne(l, a);
    RunOne(Next(l, a), b);
  }

  // Without liabilities nothing is earned, so nothing is skimmed.
  lemma QuietReserves(l: Ledger, factor: nat)
    requires l == InitialLedger(0, 0)
    ensures var t := Next(l, Accrue(Block(1, factor)));
            t.state.totalReserves == 0 && t.state.totalLiabilities == 0 && t.balance == l.balance
  {
    SettleInterestSafe(l, Block(1, factor));
    MulDecLeft(1, factor);
    GrowNothing(l.state, factor);
    RateOfCash(Grow(l.state, factor), l.supply, l.balance, F);
    DepositRateFromOne(F);
  }

  lemma GrowNothing(s: State, factor: nat)
    ensures s.totalLiabilities == 0 || factor == 0 ==> Grow(s, factor).totalLiabilities == s.totalLiabilities
  {
    assert Mul(0, factor) == 0 == Mul(s.totalLiabilities, 0);
  }

  // A loan of one unit from index i, once the index is n times i: it has become n units.
  lemma StuckLoan(l: Ledger, env: Env, i: nat, m: nat, n: nat)
    requires MarketOk(l) && l.borrowers.Keys == {WHO} && l.state.lastInterestUpdated >= env.height
    requires l.borrowers[WHO].loanAmount == 1 && l.borrowers[WHO].interestIndex == i && i > 0
    requires l.state.globalInterestIndex == n * i == m * F
    requires 0 < n && l.state.totalLiabilities == Dec(n - 1)
    ensures Settle(l, env, WHO, l.balance).Some?
    ensures Settle(l, env, WHO, l.balance).value.loan.loanAmount == n
    ensures RepayStable(l, env, WHO, n).None?
    ensures TotalDebt(l.borrowers, l.state.globalInterestIndex) > l.state.totalLiabilities as real
  {
    SettleStep(l, env, WHO);
    ExactMul(1, n * i, m);
    QuotientUnique(m * F, i, n);
    RepaySafe(l, env, WHO, n);
    OnlyDebt(l.borrowers, i, n);
  }

  lemma OnlyDebt(m: Borrowers, i: nat, n: nat)
    requires m.Keys == {WHO} && m[WHO].loanAmount == 1 && m[WHO].interestIndex == i && i > 0
    ensures TotalDebt(m, n * i) == Dec(n) as real
  {
    var p := Principals(m);
    TotalRemove(p, WHO);
    assert p - {WHO} == map[];
    assert Total(p) == F as real / i as real;
    assert n as real * i as real * (F as real / i as real) == n as real * F as real;
  }

  // Blocks that make one unit n of them, and the liabilities n - 1.
  predicate Loses(f: Figure, fs: seq<Figure>, m: nat, n: nat) {
    && Follows(F, 0, f) && AllFollow(f.index, Dec(1), fs) && fs != []
    && 0 < f.index && 0 < n
    && Last(f, fs).index == n * f.index == m * F && Last(f, fs).liabilities == Dec(n - 1)
  }

  lemma {:induction false} LosingRun(f: Figure, fs: seq<Figure>, env: Env, m: nat, n: nat)
    requires Loses(f, fs, m, n) && env.height <= 1 + |fs|
    ensures var l := Run(InitialLedger(0, 0), OpeningTxs(f) + Blocks(1, fs));
            && MarketOk(l)
            && Settle(l, env, WHO, l.balance).Some?
            && Settle(l, env, WHO, l.balance).value.loan.loanAmount == n
            && RepayStable(l, env, WHO, n).None?
            && TotalDebt(l.borrowers, l.state.globalInterestIndex) > l.state.totalLiabilities as real
  {
    var l0, first := InitialLedger(0, 0), Block(1, f.factor);
    FirstBlock(l0, f);
    OneUnit(Next(l0, Accrue(first)), first, f.index);
    RunTwo(l0, Accrue(first), Borrow(first, WHO, 1, 1, F));
    ExactBlocks(Run(l0, OpeningTxs(f)), 1, f.(liabilities := Dec(1)), fs);
    RunAppend(l0, OpeningTxs(f), Blocks(1, fs));
    StuckLoan(Run(l0, OpeningTxs(f) + Blocks(1, fs)), env, f.index, m, n);
  }

  const FIRST: Figure := Figure(F, 2 * F, 0)

  // In the second of these blocks the liabilities lose half a unit of 10^-18, which the third makes
  // one whole coin. The index loses nothing.
  const SECOND: Figure := Figure(1, 2 * F + 2, F + 1)
  const THIRD: Figure := Figure(HALF, 3 * F + 3, F + 1 + HALF)
  const FOURTH: Figure := Figure(2 * F * F - F, 6 * F * (F + 1), Dec(3 * F + 2))

  lemma FiguresFollow()
    ensures Follows(F, 0, FIRST) && Follows(FIRST.index, Dec(1), SECOND)
    ensures Follows(SECOND.index, SECOND.liabilities, THIRD) && Follows(THIRD.index, THIRD.liabilities, FOURTH)
  {
    ExactMul(0, F, 0);
    ExactMul(F, 1, 1);
    QuotientUnique((F + 1) * HALF, F, HALF);
    ExactMul(F + 1 + HALF, 2 * F * F - F, (F + 1 + HALF) * (2 * F - 1));
  }

  lemma {:induction false} ThreeFollow(index: nat, liabilities: nat, a: Figure, b: Figure, c: Figure)
    requires Follows(index, liabilities, a) && Follows(a.index, a.liabilities, b) && Follows(b.index, b.liabilities, c)
    ensures AllFollow(index, liabilities, [a, b, c])
  {
    assert [a, b, c][1..] == [b, c] && [b, c][1..] == [c] && [c][1..] == [];
    assert AllFollow(b.index, b.liabilities, [c]);
    assert AllFollow(a.index, a.liabilities, [b, c]);
  }

  /** The recorded liabilities can round down more than a borrower's loan does: after five
      transactions from init a borrower owes 3F + 3 while 3F + 2 are recorded, so the full repayment
      reverts, and the debt cover needs its slack. */
  lemma FullRepaymentCanRevert() returns (txs: seq<Tx>, env: Env)
    ensures var l := Run(InitialLedger(0, 0), txs);
            && MarketOk(l)
            && Settle(l, env, WHO, l.balance).Some?
            && Settle(l, env, WHO, l.balance).value.loan.loanAmount == 3 * F + 3
            && RepayStable(l, env, WHO, 3 * F + 3).None?
            && TotalDebt(l.borrowers, l.state.globalInterestIndex) > l.state.totalLiabilities as real
  {
    var later := [SECOND, THIRD, FOURTH];
    txs, env := OpeningTxs(FIRST) + Blocks(1, later), Block(4, 0);
    FiguresFollow();
    ThreeFollow(FIRST.index, Dec(1), SECOND, THIRD, FOURTH);
    LosingRun(FIRST, later, env, 6 * (F + 1), 3 * F + 3);
  }

  // ----- a live rate that falls -----

  function Still(height: nat): Env { Block(height, 0) }

  // One block at borrow rate zero and target zero, from the figures it goes through.
  lemma StillAccrual(l: Ledger, height: nat, rate: nat, depositRate: nat, settled: nat)
    requires height == l.state.lastInterestUpdated + 1
    requires var g := Grow(l.state, 0);
             && ExchangeRate(g, l.supply, l.balance) == Some(rate)
             && DepositRate(rate, l.state.prevExchangeRate, 1) == Some(depositRate)
             && ExchangeRate(Skim(g, 1, depositRate, 0), l.supply, l.balance) == Some(settled)
    ensures Next(l, Accrue(Still(height)))
         == var skimmed := Skim(Grow(l.state, 0), 1, depositRate, 0);
            l.(state := skimmed.(prevAterraSupply := l.supply, prevExchangeRate := settled,
                                 lastInterestUpdated := height))
  {
    MulDecLeft(1, 0);
  }

  lemma RateOfCash(s: State, supply: nat, balance: nat, rate: nat)
    requires supply > 0 && Assets(s, balance) == rate * supply
    ensures ExchangeRate(s, supply, balance) == Some(rate)
  {
    DivByDec(Assets(s, balance), supply);
    DivExact(rate, supply);
  }

  lemma DepositRateFromOne(rate: nat)
    requires rate >= F
    ensures DepositRate(rate, F, 1) == Some(rate - F)
  {
    DivExact(rate, F);
    DivByDec(rate - F, 1);
  }

  // No loans, no reserves, and a stored rate of 1.
  ghost predicate Idle(l: Ledger, height: nat, balance: nat) {
    && MarketOk(l) && l.state.lastInterestUpdated == height
    && l.supply == l.state.prevAterraSupply == INITIAL_DEPOSIT && l.balance == balance
    && l.state.prevExchangeRate == F && l.state.totalLiabilities == l.state.totalReserves == 0
  }

  lemma StillBlock(l: Ledger)
    requires l == InitialLedger(0, 0)
    ensures Idle(Next(l, Accrue(Still(1))), 1, INITIAL_DEPOSIT)
  {
    StepSafe(l, Accrue(Still(1)));
    GrowNothing(l.state, 0);
    RateOfCash(Grow(l.state, 0), l.supply, l.balance, F);
    DepositRateFromOne(F);
    StillAccrual(l, 1, F, 0, F);
  }

  // A donation as large as the deposits doubles the live rate.
  lemma Doubled(l: Ledger)
    requires Idle(l, 1, INITIAL_DEPOSIT)
    ensures var t := Next(l, Donate(INITIAL_DEPOSIT));
            Idle(t, 1, 2 * INITIAL_DEPOSIT) && ExchangeRate(t.state, t.supply, t.balance) == Some(2 * F)
  {
    CreditSafe(l, INITIAL_DEPOSIT);
    var t := Credit(l, INITIAL_DEPOSIT);
    RateOfCash(t.state, t.supply, t.balance, 2 * F);
  }

  // At twice the rate the whole second half is above a target of zero.
  lemma SkimHalf(l: Ledger)
    requires Idle(l, 1, 2 * INITIAL_DEPOSIT)
    ensures var t := Next(l, Accrue(Still(2)));
            && MarketOk(t)
            && ExchangeRate(t.state, t.supply, t.balance) == Some(F)
            && t.supply == INITIAL_DEPOSIT && t.balance == 2 * INITIAL_DEPOSIT
            && t.state.lastInterestUpdated == 2
            && t.state.totalLiabilities == 0 && t.state.totalReserves == Dec(INITIAL_DEPOSIT)
  {
    var g := Grow(l.state, 0);
    StepSafe(l, Accrue(Still(2)));
    GrowNothing(l.state, 0);
    RateOfCash(g, l.supply, l.balance, 2 * F);
    DepositRateFromOne(2 * F);
    ExcessYieldExact(g, 1, F);
    DivExact(INITIAL_DEPOSIT, F);
    var skimmed := Skim(g, 1, F, 0);
    RateOfCash(skimmed, l.supply, l.balance, F);
    StillAccrual(l, 2, 2 * F, F, F);
    var t := Next(l, Accrue(Still(2)));
    RateOfCash(t.state, t.supply, t.balance, F);
  }

  const DONATED: seq<Tx> := [Accrue(Still(1)), Donate(INITIAL_DEPOSIT)]

  lemma DonatedRun()
    ensures var t := Run(InitialLedger(0, 0), DONATED);
            Idle(t, 1, 2 * INITIAL_DEPOSIT) && ExchangeRate(t.state, t.supply, t.balance) == Some(2 * F)
  {
    var l := InitialLedger(0, 0);
    StillBlock(l);
    Doubled(Next(l, Accrue(Still(1))));
    RunTwo(l, Accrue(Still(1)), Donate(INITIAL_DEPOSIT));
  }

  /** A donation doubles the live rate; at the next settlement the skim takes it all back. */
  lemma LiveRateCanFall() returns (txs: seq<Tx>, tx: Tx)
    ensures var l := Run(InitialLedger(0, 0), txs);
            var t := Next(l, tx);
            && MarketOk(l)
            && ExchangeRate(l.state, l.supply, l.balance) == Some(2 * F)
            && ExchangeRate(t.state, t.supply, t.balance) == Some(F)
  {
    txs, tx := DONATED, Accrue(Still(2));
    DonatedRun();
    SkimHalf(Run(InitialLedger(0, 0), DONATED));
  }

  // ----- sending reserves raises the live rate -----

  function Taxed(height: nat): Env { Env(height, (b, l, r) => 0, 0, HALF, INITIAL_DEPOSIT) }

  // At a tax of one half, one coin of the reserves is neither received nor taxed away.
  lemma TaxKeepsOne()
    ensures Outflow(INITIAL_DEPOSIT, HALF, INITIAL_DEPOSIT) == INITIAL_DEPOSIT - 1
  {
    DivExact(INITIAL_DEPOSIT, F);
    QuotientUnique(INITIAL_DEPOSIT * F, F + HALF, 666_666);
    QuotientUnique(666_666 * HALF, F, 333_333);
  }

  lemma SendAllReserves(l: Ledger)
    requires MarketOk(l) && l.state.lastInterestUpdated == 2
    requires l.supply == INITIAL_DEPOSIT && l.balance == 2 * INITIAL_DEPOSIT
    requires l.state.totalLiabilities == 0 && l.state.totalReserves == Dec(INITIAL_DEPOSIT)
    ensures var t := Next(l, Epoch(Taxed(2), 0, 0));
            && t.state.prevExchangeRate == F
            && ExchangeRate(t.state, t.supply, t.balance) == Some(F + 1_000_000_000_000)
  {
    var env := Taxed(2);
    assert Credit(l, 0) == l;
    EpochSafe(l, env, 0, 0);
    EpochInSteps(l, env, 0, 0);
    RateOfCash(l.state, l.supply, l.balance, F);
    var s := SettleEpoch(l.state, env, l.balance, 0, l.supply).value;
    assert s.totalReserves == Dec(INITIAL_DEPOSIT) && s.totalLiabilities == 0 && s.prevExchangeRate == F;
    DivExact(INITIAL_DEPOSIT, F);
    assert ReservesToSend(s, l.balance) == INITIAL_DEPOSIT;
    TaxKeepsOne();
    var t := SendReserves(l, env, s, l.balance, 0).value;
    RateOfCash(t.state, t.supply, t.balance, F + 1_000_000_000_000);
  }

  /** Tax rounding can leave a coin behind that was booked out of the reserves: the epoch then ends
      with a live rate above the one it stored. */
  lemma SendingReservesCanRaiseRate() returns (txs: seq<Tx>, tx: Tx)
    ensures tx.Epoch?
    ensures var l := Run(InitialLedger(0, 0), txs);
            var t := Next(l, tx);
            && MarketOk(l)
            && t.state.prevExchangeRate == F
            && ExchangeRate(t.state, t.supply, t.balance) == Some(F + 1_000_000_000_000)
  {
    txs, tx := DONATED + [Accrue(Still(2))], Epoch(Taxed(2), 0, 0);
    var l := Run(InitialLedger(0, 0), DONATED);
    DonatedRun();
    SkimHalf(l);
    RunAppend(InitialLedger(0, 0), DONATED, [Accrue(Still(2))]);
    RunOne(l, Accrue(Still(2)));
    SendAllReserves(Next(l, Accrue(Still(2))));
  }
}
