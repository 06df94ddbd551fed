/** The other side of the debt cover: what the market books as liabilities is owed by borrowers, up to
    an explicit gap from flooring the index and the loans. */
module DebtFloor {
  import opened FixedPoint
  import opened Totals
  import opened Addresses
  import opened MarketModel
  import opened MarketSafety
  import opened MarketRun
  import opened Books
  import opened DebtCover
  import opened Accrual

  // The index loses less than one raw unit of every principal.
  ghost function GapAfterInterest(gap: real, s: State, m: Borrowers, height: nat, borrowRate: nat): real {
    if s.lastInterestUpdated >= height then gap
    else Times(Growth(InterestFactor(s, height, borrowRate)), gap) + Total(Principals(m))
  }

  ghost function GapAfterOpening(gap: real, l: Ledger, env: Env): real {
    GapAfterInterest(gap, l.state, l.borrowers, env.height,
                     env.borrowRate(l.balance, l.state.totalLiabilities, l.state.totalReserves))
  }

  // A settlement floors one loan twice: at most two coins.
  const SETTLEMENT: real := Dec(2) as real

  ghost function NextGap(l: Ledger, gap: real, tx: Tx): real {
    if Apply(l, tx).None? || tx.Donate? then gap
    else GapAfterOpening(gap, l, tx.env) + if tx.Borrow? || tx.Repay? || tx.Claim? then SETTLEMENT else 0.0
  }

  ghost function RunGap(l: Ledger, gap: real, txs: seq<Tx>): real
    decreases |txs|
  {
    if txs == [] then gap else RunGap(Next(l, txs[0]), NextGap(l, gap, txs[0]), txs[1..])
  }

  ghost predicate FloorOk(s: State, m: Borrowers, gap: real) {
    gap >= 0.0 && s.totalLiabilities as real <= TotalDebt(m, s.globalInterestIndex) + gap
  }

  // ----- accrual -----

  lemma GrowthFromBelow(index: nat, liabilities: nat, factor: nat)
    ensures Mul(index, F + factor) as real + 1.0 >= Times(Growth(factor), index as real)
    ensures liabilities as real + Mul(liabilities, factor) as real <= Times(Growth(factor), liabilities as real)
  {
    GrownFloor(index, factor);
    GrownFloor(liabilities, factor);
    ScaledGrowth(index, factor);
    ScaledGrowth(liabilities, factor);
    assert ((Mul(index, F + factor) + 1) * F) as real >= (index * (F + factor)) as real;
    assert ((liabilities + Mul(liabilities, factor)) * F) as real <= (liabilities * (F + factor)) as real;
  }

  // Liabilities within debts and gap stay so when the liabilities and the index grow by c.
  lemma FloorChain(c: real, index: real, index': real, p: real, tl: real, tl': real, gap: real)
    requires c >= 1.0 && p >= 0.0 && index' + 1.0 >= Times(c, index)
    requires tl' <= Times(c, tl) && tl <= Times(index, p) + gap
    ensures tl' <= Times(index', p) + (Times(c, gap) + p)
  {
    TimesMonoRight(c, tl, Times(index, p) + gap);
    TimesSum(c, Times(index, p), gap);
    TimesAssoc(c, index, p);
    TimesMono(Times(c, index), index' + 1.0, p);
    assert Times(index' + 1.0, p) == Times(index', p) + p;
  }

  lemma InterestKeepsFloor(s: State, m: Borrowers, gap: real, height: nat, balance: nat, supply: nat, rate: nat,
                           target: nat)
    requires FloorOk(s, m, gap) && ComputeInterestRaw(s, height, balance, supply, rate, target).Some?
    ensures FloorOk(ComputeInterestRaw(s, height, balance, supply, rate, target).value, m,
                    GapAfterInterest(gap, s, m, height, rate))
  {
    if s.lastInterestUpdated < height {
      var factor := InterestFactor(s, height, rate);
      var c, p := Growth(factor), Total(Principals(m));
      PrincipalsNonNegative(m);
      GrowthFromBelow(s.globalInterestIndex, s.totalLiabilities, factor);
      QuotientNonNegative(factor as real, F as real);
      TimesMonoRight(c, 0.0, gap);
      FloorChain(c, s.globalInterestIndex as real, Mul(s.globalInterestIndex, F + factor) as real, p,
                 s.totalLiabilities as real, (s.totalLiabilities + Mul(s.totalLiabilities, factor)) as real, gap);
    }
  }

  lemma OpeningKeepsFloor(l: Ledger, gap: real, env: Env)
    requires MarketOk(l) && FloorOk(l.state, l.borrowers, gap)
    ensures ComputeInterest(l.state, env, l.balance, l.supply).Some?
    ensures var s1 := ComputeInterest(l.state, env, l.balance, l.supply).value;
            && FloorOk(s1, l.borrowers, GapAfterOpening(gap, l, env))
            && ComputeReward(s1, env.height).Some?
            && FloorOk(ComputeReward(s1, env.height).value, l.borrowers, GapAfterOpening(gap, l, env))
  {
    OpenStep(l, env);
    InterestKeepsFloor(l.state, l.borrowers, gap, env.height, l.balance, l.supply,
                       env.borrowRate(l.balance, l.state.totalLiabilities, l.state.totalReserves), env.targetRate);
  }

  // ----- borrowers -----

  // Settled from index i to g, a loan keeps its weight but for two coins.
  lemma SettledWeight(b: BorrowerInfo, g: nat, settled: nat)
    requires b.interestIndex > 0 && b.loanAmount * g <= (settled + 2) * b.interestIndex
    ensures Times(g as real, Principal(b)) <= Dec(settled) as real + SETTLEMENT
  {
    var i, l := b.interestIndex as real, b.loanAmount as real;
    DivideTimes(g as real, l * F as real, i);
    assert (b.loanAmount * g) as real <= ((settled + 2) * b.interestIndex) as real;
    assert l * F as real * g as real == (l * g as real) * F as real;
    WeightBound(l * g as real, (settled + 2) as real, i, F as real);
    assert Dec(settled + 2) as real == Dec(settled) as real + SETTLEMENT;
  }

  lemma WeightBound(a: real, n: real, i: real, f: real)
    requires i > 0.0 && f >= 0.0 && a <= n * i
    ensures a * f / i <= n * f
  {
    TimesMonoRight(f, a, n * i);
    CrossDivide(a * f, i, n * f, 1.0);
  }

  /** Settle one borrower, then move its loan to `loan`: the debts rise by the difference, short of at
      most two coins. */
  lemma DebtAfterChangeAtLeast(l: Ledger, env: Env, who: Address, loan: nat, b: BorrowerInfo)
    requires MarketOk(l)
    requires Settle(l, env, who, l.balance).Some?
    requires b.interestIndex == Settle(l, env, who, l.balance).value.loan.interestIndex && b.loanAmount == loan
    ensures var st := Settle(l, env, who, l.balance).value;
            var index := st.state.globalInterestIndex;
            (TotalDebt(l.borrowers[who := b], index) + SETTLEMENT
             >= TotalDebt(l.borrowers, index) + Dec(loan) as real - Dec(st.loan.loanAmount) as real)
  {
    SettleStep(l, env, who);
    var st := Settle(l, env, who, l.balance).value;
    var before, index := ReadBorrower(l.borrowers, who), st.state.globalInterestIndex;
    SettledWithinTwo(before.loanAmount, index, before.interestIndex);
    SettledWeight(before, index, st.loan.loanAmount);
    PrincipalAtIndex(b);
    DebtAfterUpdate(l.borrowers, who, b, index);
    TimesSum(index as real, Principal(b) - Principal(before), Principal(before));
  }

  lemma FloorOkAfter(s: State, t: State, m: Borrowers, m': Borrowers, gap: real)
    requires FloorOk(s, m, gap) && t.globalInterestIndex == s.globalInterestIndex
    requires TotalDebt(m', s.globalInterestIndex) + SETTLEMENT
          >= TotalDebt(m, s.globalInterestIndex) + t.totalLiabilities as real - s.totalLiabilities as real
    ensures FloorOk(t, m', gap + SETTLEMENT)
  {
  }

  // Debts and liabilities move alike, but for what the settlement floors.
  lemma BorrowerTxDebt(l: Ledger, tx: Tx, s: State, t: State, m: Borrowers)
    requires MarketOk(l) && (tx.Borrow? || tx.Repay? || tx.Claim?) && Apply(l, tx).Some?
    requires Settle(l, tx.env, tx.who, l.balance).Some? && s == Settle(l, tx.env, tx.who, l.balance).value.state
    requires t == Next(l, tx).state && m == Next(l, tx).borrowers
    ensures t.globalInterestIndex == s.globalInterestIndex
    ensures TotalDebt(m, s.globalInterestIndex) + SETTLEMENT
         >= TotalDebt(l.borrowers, s.globalInterestIndex) + t.totalLiabilities as real - s.totalLiabilities as real
  {
    DebtAfterChangeAtLeast(l, tx.env, tx.who, m[tx.who].loanAmount, m[tx.who]);
  }

  lemma BorrowerTxKeepsFloor(l: Ledger, gap: real, tx: Tx)
    requires MarketOk(l) && FloorOk(l.state, l.borrowers, gap)
    requires (tx.Borrow? || tx.Repay? || tx.Claim?) && Apply(l, tx).Some?
    ensures FloorOk(Next(l, tx).state, Next(l, tx).borrowers, NextGap(l, gap, tx))
  {
    OpeningKeepsFloor(l, gap, tx.env);
    SettleStep(l, tx.env, tx.who);
    var s, t := Settle(l, tx.env, tx.who, l.balance).value.state, Next(l, tx);
    BorrowerTxDebt(l, tx, s, t.state, t.borrowers);
    FloorOkAfter(s, t.state, l.borrowers, t.borrowers, GapAfterOpening(gap, l, tx.env));
  }

  lemma OtherTxKeepsFloor(l: Ledger, gap: real, tx: Tx)
    requires MarketOk(l) && FloorOk(l.state, l.borrowers, gap)
    requires (tx.Deposit? || tx.Redeem? || tx.Accrue? || tx.Epoch?) && Apply(l, tx).Some?
    ensures FloorOk(Next(l, tx).state, Next(l, tx).borrowers, NextGap(l, gap, tx))
  {
    OpeningKeepsFloor(l, gap, tx.env);
    if tx.Epoch? { EpochOpening(l, tx.env, tx.distributed, tx.newEmission); }
  }

  lemma StepKeepsFloor(l: Ledger, gap: real, tx: Tx)
    requires MarketOk(l) && FloorOk(l.state, l.borrowers, gap)
    ensures FloorOk(Next(l, tx).state, Next(l, tx).borrowers, NextGap(l, gap, tx))
  {
    if Apply(l, tx).Some? && !tx.Donate? {
      if tx.Borrow? || tx.Repay? || tx.Claim? {
        BorrowerTxKeepsFloor(l, gap, tx);
      } else {
        OtherTxKeepsFloor(l, gap, tx);
      }
    }
  }

  lemma {:induction false} RunKeepsFloor(l: Ledger, gap: real, txs: seq<Tx>)
    requires MarketOk(l) && FloorOk(l.state, l.borrowers, gap)
    ensures FloorOk(Run(l, txs).state, Run(l, txs).borrowers, RunGap(l, gap, txs))
    decreases |txs|
  {
    if txs != [] {
      StepSafe(l, txs[0]);
      StepKeepsFloor(l, gap, txs[0]);
      RunKeepsFloor(Next(l, txs[0]), NextGap(l, gap, txs[0]), txs[1..]);
    }
  }

  // ----- how large the gap can be -----

  // In units of the index, borrowers owe at most what was ever lent.
  ghost predicate LentOk(m: Borrowers, k: Books) { Total(Principals(m)) <= k.borrowed as real }

  // At an index of at least one, coins weigh at most themselves.
  lemma NewPrincipal(b: BorrowerInfo, settled: BorrowerInfo, amount: nat)
    requires b.interestIndex == settled.interestIndex >= F && b.loanAmount <= settled.loanAmount + amount
    ensures Principal(b) <= Principal(settled) + amount as real
  {
    CoinsAtIndex(b.loanAmount as real, settled.loanAmount as real, amount as real, settled.interestIndex as real,
                 F as real);
  }

  lemma CoinsAtIndex(loan: real, settled: real, amount: real, i: real, f: real)
    requires i >= f > 0.0 && loan <= settled + amount && amount >= 0.0
    ensures loan * f / i <= settled * f / i + amount
  {
    TimesMonoRight(f, loan, settled + amount);
    TimesSum(f, settled, amount);
    CrossDivide(loan * f, i, settled * f + amount * f, i);
    TimesMonoRight(amount, f, i);
    CrossDivide(amount * f, i, amount, 1.0);
    SumOfQuotients(settled * f, amount * f, i);
  }

  lemma SumOfQuotients(a: real, b: real, i: real)
    requires i > 0.0
    ensures (a + b) / i == a / i + b / i
  {
  }

  lemma PrincipalsAfterUpdate(m: Borrowers, who: Address, b: BorrowerInfo)
    ensures Total(Principals(m[who := b])) == Total(Principals(m)) + Principal(b) - Principal(ReadBorrower(m, who))
  {
    assert Principals(m[who := b]) == Principals(m)[who := Principal(b)];
    TotalUpdate(Principals(m), who, Principal(b));
    assert At(Principals(m), who) == Principal(ReadBorrower(m, who));
  }

  lemma LentAfterSettle(l: Ledger, env: Env, who: Address, amount: nat, b: BorrowerInfo)
    requires MarketOk(l) && Settle(l, env, who, l.balance).Some?
    requires var st := Settle(l, env, who, l.balance).value;
             b.interestIndex == st.loan.interestIndex && b.loanAmount <= st.loan.loanAmount + amount
    ensures Total(Principals(l.borrowers[who := b])) <= Total(Principals(l.borrowers)) + amount as real
  {
    SettleStep(l, env, who);
    var st, before := Settle(l, env, who, l.balance).value, ReadBorrower(l.borrowers, who);
    SettledLoan(before, st.state.globalInterestIndex);
    SettledPrincipal(before, st.loan);
    NewPrincipal(b, st.loan, amount);
    PrincipalsAfterUpdate(l.borrowers, who, b);
  }

  lemma BorrowerTxKeepsLent(l: Ledger, k: Books, tx: Tx, m: Borrowers)
    requires MarketOk(l) && LentOk(l.borrowers, k)
    requires (tx.Borrow? || tx.Repay? || tx.Claim?) && Apply(l, tx).Some? && m == Next(l, tx).borrowers
    ensures Total(Principals(m)) <= Total(Principals(l.borrowers)) + (if tx.Borrow? then tx.amount else 0) as real
  {
    LentAfterSettle(l, tx.env, tx.who, if tx.Borrow? then tx.amount else 0, m[tx.who]);
  }

  lemma NextBorrowed(l: Ledger, k: Books, tx: Tx)
    ensures NextBooks(l, k, tx).borrowed
         == k.borrowed + if tx.Borrow? && Apply(l, tx).Some? then tx.amount else 0
  {
  }

  lemma StepKeepsLent(l: Ledger, k: Books, tx: Tx)
    requires MarketOk(l) && LentOk(l.borrowers, k)
    ensures LentOk(Next(l, tx).borrowers, NextBooks(l, k, tx))
  {
    NextBorrowed(l, k, tx);
    if (tx.Borrow? || tx.Repay? || tx.Claim?) && Apply(l, tx).Some? {
      BorrowerTxKeepsLent(l, k, tx, Next(l, tx).borrowers);
    }
  }

  lemma {:induction false} BorrowedGrows(l: Ledger, k: Books, txs: seq<Tx>)
    ensures k.borrowed <= RunBooks(l, k, txs).borrowed
    decreases |txs|
  {
    if txs != [] {
      NextBorrowed(l, k, txs[0]);
      BorrowedGrows(Next(l, txs[0]), NextBooks(l, k, txs[0]), txs[1..]);
    }
  }

  // What one transaction can add once `borrowed` coins were lent: their weight, in raw units, and one
  // settlement.
  ghost function GapUnit(borrowed: nat): real { borrowed as real + SETTLEMENT }

  lemma NextGapBounds(l: Ledger, gap: real, tx: Tx)
    requires gap >= 0.0
    ensures gap <= NextGap(l, gap, tx) <= Times(StepGrowth(l, tx), gap) + (Total(Principals(l.borrowers)) + SETTLEMENT)
  {
    StepGrowthAtLeastOne(l, tx);
    PrincipalsNonNegative(l.borrowers);
    TimesMono(1.0, StepGrowth(l, tx), gap);
  }

  lemma GapStep(l: Ledger, k: Books, gap: real, tx: Tx, unit: real, s: real)
    requires LentOk(l.borrowers, k) && unit >= GapUnit(k.borrowed)
    requires 0.0 <= gap <= Times(unit, s) && s >= 0.0
    ensures 0.0 <= NextGap(l, gap, tx) <= Times(unit, Times(StepGrowth(l, tx), s + 1.0))
  {
    StepGrowthAtLeastOne(l, tx);
    NextGapBounds(l, gap, tx);
    GapCompounds(StepGrowth(l, tx), gap, unit, s);
  }

  lemma GapCompounds(g: real, gap: real, unit: real, s: real)
    requires g >= 1.0 && unit >= 0.0 && gap <= Times(unit, s)
    ensures Times(g, gap) + unit <= Times(unit, Times(g, s + 1.0))
  {
    TimesMonoRight(g, gap, Times(unit, s));
    TimesSum(unit, s, 1.0);
    TimesMono(1.0, g, unit);
    TimesSum(g, Times(unit, s), unit);
    assert Times(g, Times(unit, s + 1.0)) == Times(unit, Times(g, s + 1.0)) by { Swap(g, unit, s + 1.0); }
  }

  lemma Swap(a: real, b: real, c: real)
    ensures Times(a, Times(b, c)) == Times(b, Times(a, c))
  {
  }

  lemma {:induction false} RunGapGrows(l: Ledger, gap: real, txs: seq<Tx>)
    requires gap >= 0.0
    ensures gap <= RunGap(l, gap, txs)
    decreases |txs|
  {
    if txs != [] {
      NextGapBounds(l, gap, txs[0]);
      RunGapGrows(Next(l, txs[0]), NextGap(l, gap, txs[0]), txs[1..]);
    }
  }

  lemma {:induction false} RunGapCompounds(l: Ledger, k: Books, gap: real, txs: seq<Tx>, unit: real, s: real)
    requires MarketOk(l) && LentOk(l.borrowers, k)
    requires unit >= GapUnit(RunBooks(l, k, txs).borrowed)
    requires 0.0 <= gap <= Times(unit, s) && s >= 0.0
    ensures RunGap(l, gap, txs) <= Times(unit, Compound(Growths(l, txs), s))
    decreases |txs|
  {
    if txs != [] {
      var tx, rest := txs[0], Growths(Next(l, txs[0]), txs[1..]);
      var s' := Times(StepGrowth(l, tx), s + 1.0);
      BorrowedGrows(l, k, txs);
      StepSafe(l, tx);
      StepKeepsLent(l, k, tx);
      GapStep(l, k, gap, tx, unit, s);
      StepGrowthAtLeastOne(l, tx);
      TimesMono(1.0, StepGrowth(l, tx), s + 1.0);
      RunGapCompounds(Next(l, tx), NextBooks(l, k, tx), NextGap(l, gap, tx), txs[1..], unit, s');
      assert Growths(l, txs)[1..] == rest;
    }
  }

  lemma {:induction false} GapFromStart(l: Ledger, txs: seq<Tx>, unit: real)
    requires MarketOk(l) && l.borrowers == map[] && unit == GapUnit(RunBooks(l, EMPTY_BOOKS, txs).borrowed)
    ensures RunGap(l, 0.0, txs) <= Times(unit, Times(RunGrowth(l, txs), |txs| as real))
  {
    assert Principals(map[]) == map[];
    RunGapCompounds(l, EMPTY_BOOKS, 0.0, txs, unit, 0.0);
    GrowthsGrow(l, txs);
    CompoundBound(Growths(l, txs), 0.0);
    TimesMonoRight(unit, Compound(Growths(l, txs), 0.0), Times(RunGrowth(l, txs), |txs| as real));
  }

  lemma {:induction false} FloorFromStart(l: Ledger, txs: seq<Tx>)
    requires MarketOk(l) && l.state.totalLiabilities == 0 && l.borrowers == map[]
    ensures FloorOk(Run(l, txs).state, Run(l, txs).borrowers, RunGap(l, 0.0, txs))
  {
    assert Principals(map[]) == map[];
    RunKeepsFloor(l, 0.0, txs);
  }

  /** In every reachable state the debts of all borrowers together are at least the liabilities less the
      gap; and after n transactions the gap is at most n times two coins and one raw unit for each coin
      ever lent, grown like a loan taken at the start. */
  lemma {:induction false} ReachableDebtFloor(height: nat, emission: nat, txs: seq<Tx>)
    ensures var l0 := InitialLedger(height, emission);
            var l, borrowed := Run(l0, txs), RunBooks(l0, EMPTY_BOOKS, txs).borrowed;
            && TotalDebt(l.borrowers, l.state.globalInterestIndex) + RunGap(l0, 0.0, txs)
               >= l.state.totalLiabilities as real
            && 0.0 <= RunGap(l0, 0.0, txs)
                   <= Times(GapUnit(borrowed), Times(RunGrowth(l0, txs), |txs| as real))
  {
    var l0 := InitialLedger(height, emission);
    FloorFromStart(l0, txs);
    GapFromStart(l0, txs, GapUnit(RunBooks(l0, EMPTY_BOOKS, txs).borrowed));
  }
}
