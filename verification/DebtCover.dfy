/** Borrowers never owe more than the market books as liabilities, up to an explicit slack. */
module DebtCover {
  import opened FixedPoint
  import opened Totals
  import opened Addresses
  import opened MarketModel
  import opened MarketSafety
  import opened MarketRun
  import opened Books

  ghost predicate DebtOk(s: State, m: Borrowers, k: Books) {
    && k.slack >= 0.0
    && s.totalLiabilities + Dec(k.repaid) == Dec(k.borrowed) + k.interest
    && TotalDebt(m, s.globalInterestIndex) <= s.totalLiabilities as real + k.slack
  }

  lemma PrincipalsNonNegative(m: Borrowers)
    ensures Total(Principals(m)) >= 0.0
  {
    forall a | a in m ensures Principal(m[a]) >= 0.0 {
      PrincipalNonNegative(m[a]);
    }
    var p := Principals(m);
    if p.Keys != {} {
      var a :| a in p;
      TotalCovers(p, a);
    } else {
      assert p == map[];
    }
  }

  lemma PrincipalNonNegative(b: BorrowerInfo)
    ensures Principal(b) >= 0.0
  {
    if b.interestIndex != 0 {
      QuotientNonNegative(b.loanAmount as real * F as real, b.interestIndex as real);
    }
  }

  lemma QuotientNonNegative(a: real, b: real)
    requires a >= 0.0 && b > 0.0
    ensures a / b >= 0.0
  {
  }

  // ----- accrual -----

  // The index is rounded down, the liabilities lose less than one unit of 10^-18.
  lemma GrowthRounding(index: nat, liabilities: nat, factor: nat)
    ensures Mul(index, F + factor) as real <= Times(Growth(factor), index as real)
    ensures liabilities as real + Mul(liabilities, factor) as real + 1.0 > Times(Growth(factor), liabilities as real)
  {
    MulFloor(index, F + factor);
    MulFloor(liabilities, factor);
    ScaledGrowth(index, factor);
    ScaledGrowth(liabilities, factor);
    assert (liabilities + Mul(liabilities, factor) + 1) * F > liabilities * (F + factor);
  }

  lemma ScaledGrowth(x: nat, factor: nat)
    ensures Times(Growth(factor), x as real) * F as real == (x * (F + factor)) as real
  {
    var fr := F as real;
    assert factor as real / fr * fr == factor as real;
    assert Growth(factor) * fr == fr + factor as real;
    assert (Growth(factor) * x as real) * fr == (Growth(factor) * fr) * x as real;
    assert (fr + factor as real) * x as real == (x * (F + factor)) as real;
  }

  lemma TimesMono(c: real, d: real, x: real)
    requires c <= d && x >= 0.0
    ensures Times(c, x) <= Times(d, x)
  {
  }

  lemma TimesMonoRight(c: real, x: real, y: real)
    requires c >= 0.0 && x <= y
    ensures Times(c, x) <= Times(c, y)
  {
  }

  lemma TimesAssoc(a: real, b: real, c: real)
    ensures Times(Times(a, b), c) == Times(a, Times(b, c))
  {
  }

  lemma InterestKeepsDebt(s: State, m: Borrowers, k: Books, height: nat, balance: nat,
                          supply: nat, rate: nat, target: nat)
    requires DebtOk(s, m, k)
    requires ComputeInterestRaw(s, height, balance, supply, rate, target).Some?
    ensures DebtOk(ComputeInterestRaw(s, height, balance, supply, rate, target).value, m,
                   BookInterest(k, s, height, rate))
  {
    if s.lastInterestUpdated < height {
      var factor := InterestFactor(s, height, rate);
      var c := Growth(factor);
      var index, index' := s.globalInterestIndex, Mul(s.globalInterestIndex, F + factor);
      var p := Total(Principals(m));
      PrincipalsNonNegative(m);
      GrowthRounding(index, s.totalLiabilities, factor);
      assert c >= 1.0 by { QuotientNonNegative(factor as real, F as real); }
      calc {
        TotalDebt(m, index');
      <= { TimesMono(index' as real, Times(c, index as real), p); }
        Times(Times(c, index as real), p);
      == { TimesAssoc(c, index as real, p); }
        Times(c, TotalDebt(m, index));
      <= { TimesMonoRight(c, TotalDebt(m, index), s.totalLiabilities as real + k.slack); }
        Times(c, s.totalLiabilities as real + k.slack);
      == { TimesSum(c, s.totalLiabilities as real, k.slack); }
        Times(c, s.totalLiabilities as real) + Times(c, k.slack);
      }
      TimesMonoRight(c, 0.0, k.slack);
    }
  }

  lemma RewardKeepsDebt(s: State, m: Borrowers, k: Books, height: nat)
    requires DebtOk(s, m, k) && ComputeReward(s, height).Some?
    ensures DebtOk(ComputeReward(s, height).value, m, BookReward(k, s, m, height))
  {
  }

  lemma OpeningKeepsDebt(l: Ledger, k: Books, env: Env)
    requires MarketOk(l) && DebtOk(l.state, l.borrowers, k)
    ensures ComputeInterest(l.state, env, l.balance, l.supply).Some?
    ensures var s1 := ComputeInterest(l.state, env, l.balance, l.supply).value;
            ComputeReward(s1, env.height).Some?
            && DebtOk(ComputeReward(s1, env.height).value, l.borrowers, BookOpening(k, l, env))
  {
    OpenStep(l, env);
    var rate := env.borrowRate(l.balance, l.state.totalLiabilities, l.state.totalReserves);
    InterestKeepsDebt(l.state, l.borrowers, k, env.height, l.balance, l.supply, rate, env.targetRate);
    var s1 := ComputeInterest(l.state, env, l.balance, l.supply).value;
    RewardKeepsDebt(s1, l.borrowers, BookInterest(k, l.state, env.height, rate), env.height);
  }

  // ----- borrowers -----

  // Settling rounds the loan down twice.
  lemma SettledLoan(b: BorrowerInfo, index: nat)
    requires b.interestIndex > 0
    ensures var r := Div(Mul(b.loanAmount, index), b.interestIndex);
            r.Some? && r.value * b.interestIndex <= b.loanAmount * index
  {
    MulFloor(b.loanAmount, index);
    DivFloor(Mul(b.loanAmount, index), b.interestIndex);
  }

  lemma SettledPrincipal(b: BorrowerInfo, c: BorrowerInfo)
    requires b.interestIndex > 0 && c.interestIndex > 0
    requires c.loanAmount * b.interestIndex <= b.loanAmount * c.interestIndex
    ensures Principal(c) <= Principal(b)
  {
    CrossDivide(c.loanAmount as real * F as real, c.interestIndex as real,
                b.loanAmount as real * F as real, b.interestIndex as real);
  }

  lemma CrossDivide(a: real, x: real, b: real, y: real)
    requires x > 0.0 && y > 0.0 && a * y <= b * x
    ensures a / x <= b / y
  {
    assert a / x * (x * y) == a * y by { assert a / x * x == a; }
    assert b / y * (x * y) == b * x by { assert b / y * y == b; }
    if a / x > b / y {
      StrictProduct(b / y, a / x, x * y);
    }
  }

  lemma StrictProduct(a: real, b: real, c: real)
    requires a < b && c > 0.0
    ensures a * c < b * c
  {
  }

  lemma DebtAfterUpdate(m: Borrowers, who: Address, b: BorrowerInfo, index: nat)
    ensures TotalDebt(m[who := b], index)
         == TotalDebt(m, index) + Times(index as real, Principal(b) - Principal(ReadBorrower(m, who)))
  {
    assert Principals(m[who := b]) == Principals(m)[who := Principal(b)];
    TotalUpdate(Principals(m), who, Principal(b));
    assert At(Principals(m), who) == Principal(ReadBorrower(m, who));
    var d := Principal(b) - Principal(ReadBorrower(m, who));
    TimesSum(index as real, Total(Principals(m)), d);
  }

  // At its own index a settled loan weighs exactly its amount.
  lemma PrincipalAtIndex(b: BorrowerInfo)
    requires b.interestIndex > 0
    ensures Times(b.interestIndex as real, Principal(b)) == Dec(b.loanAmount) as real
  {
  }

  lemma LoanChange(b: BorrowerInfo, loan: nat)
    requires b.interestIndex > 0
    ensures Times(b.interestIndex as real, Principal(b.(loanAmount := loan)) - Principal(b))
         == Dec(loan) as real - Dec(b.loanAmount) as real
  {
    var c := b.(loanAmount := loan);
    PrincipalAtIndex(b);
    PrincipalAtIndex(c);
    TimesSum(b.interestIndex as real, Principal(c), -Principal(b));
  }

  /** Settle one borrower, then move its loan to `loan`: the debts rise by at most the difference. */
  lemma DebtAfterLoanChange(l: Ledger, env: Env, who: Address, loan: nat, b: BorrowerInfo)
    requires MarketOk(l)
    requires Settle(l, env, who, l.balance).Some?
    requires var st := Settle(l, env, who, l.balance).value;
             b.interestIndex == st.loan.interestIndex && b.loanAmount == loan
    ensures var st := Settle(l, env, who, l.balance).value;
            var index := st.state.globalInterestIndex;
            (TotalDebt(l.borrowers[who := b], index)
             <= TotalDebt(l.borrowers, index) + Dec(loan) as real - Dec(st.loan.loanAmount) as real)
  {
    SettleStep(l, env, who);
    var st := Settle(l, env, who, l.balance).value;
    var old', index := ReadBorrower(l.borrowers, who), st.state.globalInterestIndex;
    SettledLoan(old', index);
    SettledPrincipal(old', st.loan);
    LoanChange(st.loan, loan);
    assert Principal(b) == Principal(st.loan.(loanAmount := loan));
    DebtAfterUpdate(l.borrowers, who, b, index);
    TimesMonoRight(index as real, Principal(b) - Principal(old'), Principal(b) - Principal(st.loan));
  }

  // ----- runs -----

  // A change of liabilities matched by the debts and by the books.
  lemma DebtOkAfter(s: State, t: State, m: Borrowers, m': Borrowers, k: Books, k': Books)
    requires DebtOk(s, m, k) && t.globalInterestIndex == s.globalInterestIndex
    requires k'.slack == k.slack && k'.interest == k.interest
    requires t.totalLiabilities - s.totalLiabilities
          == Dec(k'.borrowed) - Dec(k.borrowed) - Dec(k'.repaid) + Dec(k.repaid)
    requires TotalDebt(m', s.globalInterestIndex)
          <= TotalDebt(m, s.globalInterestIndex) + t.totalLiabilities as real - s.totalLiabilities as real
    ensures DebtOk(t, m', k')
  {
  }

  lemma BorrowerTxKeepsDebt(l: Ledger, k: Books, tx: Tx)
    requires MarketOk(l) && DebtOk(l.state, l.borrowers, k)
    requires (tx.Borrow? || tx.Repay? || tx.Claim?) && Apply(l, tx).Some?
    ensures DebtOk(Next(l, tx).state, Next(l, tx).borrowers, NextBooks(l, k, tx))
  {
    OpeningKeepsDebt(l, k, tx.env);
    var st := Settle(l, tx.env, tx.who, l.balance).value;
    var t := Next(l, tx);
    var b := t.borrowers[tx.who];
    DebtAfterLoanChange(l, tx.env, tx.who, b.loanAmount, b);
    DebtOkAfter(st.state, t.state, l.borrowers, t.borrowers, BookOpening(k, l, tx.env), NextBooks(l, k, tx));
  }

  lemma DepositorTxKeepsDebt(l: Ledger, k: Books, tx: Tx)
    requires MarketOk(l) && DebtOk(l.state, l.borrowers, k)
    requires (tx.Deposit? || tx.Redeem?) && Apply(l, tx).Some?
    ensures DebtOk(Next(l, tx).state, Next(l, tx).borrowers, NextBooks(l, k, tx))
  {
    OpeningKeepsDebt(l, k, tx.env);
  }

  lemma EpochKeepsDebt(l: Ledger, k: Books, tx: Tx)
    requires MarketOk(l) && DebtOk(l.state, l.borrowers, k)
    requires tx.Epoch? && Apply(l, tx).Some?
    ensures DebtOk(Next(l, tx).state, Next(l, tx).borrowers, NextBooks(l, k, tx))
  {
    EpochOpening(l, tx.env, tx.distributed, tx.newEmission);
    OpeningKeepsDebt(l, k, tx.env);
  }

  lemma StepKeepsDebt(l: Ledger, k: Books, tx: Tx)
    requires MarketOk(l) && DebtOk(l.state, l.borrowers, k)
    ensures DebtOk(Next(l, tx).state, Next(l, tx).borrowers, NextBooks(l, k, tx))
  {
    if Apply(l, tx).Some? {
      match tx
      case Deposit(_, _) => DepositorTxKeepsDebt(l, k, tx);
      case Redeem(_, _) => DepositorTxKeepsDebt(l, k, tx);
      case Borrow(_, _, _, _, _) => BorrowerTxKeepsDebt(l, k, tx);
      case Repay(_, _, _) => BorrowerTxKeepsDebt(l, k, tx);
      case Claim(_, _) => BorrowerTxKeepsDebt(l, k, tx);
      case Accrue(env) =>
        var rate := env.borrowRate(l.balance, l.state.totalLiabilities, l.state.totalReserves);
        InterestKeepsDebt(l.state, l.borrowers, k, env.height, l.balance, l.supply, rate, env.targetRate);
      case Epoch(_, _, _) => EpochKeepsDebt(l, k, tx);
      case Donate(_) =>
    }
  }

  lemma {:induction false} RunKeepsDebt(l: Ledger, k: Books, txs: seq<Tx>)
    requires MarketOk(l) && DebtOk(l.state, l.borrowers, k)
    ensures DebtOk(Run(l, txs).state, Run(l, txs).borrowers, RunBooks(l, k, txs))
    decreases |txs|
  {
    if txs != [] {
      StepSafe(l, txs[0]);
      StepKeepsDebt(l, k, txs[0]);
      RunKeepsDebt(Next(l, txs[0]), NextBooks(l, k, txs[0]), txs[1..]);
    }
  }

  /** In every reachable state the liabilities are exactly lent - repaid + interest, and all debts
      together stay within them plus the slack. */
  lemma {:induction false} ReachableDebtCover(height: nat, emission: nat, txs: seq<Tx>)
    ensures var l := Run(InitialLedger(height, emission), txs);
            var k := RunBooks(InitialLedger(height, emission), EMPTY_BOOKS, txs);
            && l.state.totalLiabilities + Dec(k.repaid) == Dec(k.borrowed) + k.interest
            && TotalDebt(l.borrowers, l.state.globalInterestIndex) <= l.state.totalLiabilities as real + k.slack
  {
    assert Principals(map[]) == map[];
    RunKeepsDebt(InitialLedger(height, emission), EMPTY_BOOKS, txs);
  }

  // ----- repayments -----

  lemma PrincipalsCover(m: Borrowers, who: Address, index: nat)
    ensures Times(index as real, Principal(ReadBorrower(m, who))) <= TotalDebt(m, index)
  {
    forall a | a in m ensures Principal(m[a]) >= 0.0 {
      PrincipalNonNegative(m[a]);
    }
    if who in m {
      TotalCovers(Principals(m), who);
    } else {
      PrincipalsNonNegative(m);
    }
    TimesMonoRight(index as real, Principal(ReadBorrower(m, who)), Total(Principals(m)));
  }

  /** No settled loan is above the settled liabilities by more than the slack. */
  lemma LoanWithinLiabilities(l: Ledger, k: Books, env: Env, who: Address)
    requires MarketOk(l) && DebtOk(l.state, l.borrowers, k)
    ensures Settle(l, env, who, l.balance).Some?
    ensures var st := Settle(l, env, who, l.balance).value;
            Dec(st.loan.loanAmount) as real <= st.state.totalLiabilities as real + BookOpening(k, l, env).slack
  {
    SettleStep(l, env, who);
    OpeningKeepsDebt(l, k, env);
    var st := Settle(l, env, who, l.balance).value;
    var before, index := ReadBorrower(l.borrowers, who), st.state.globalInterestIndex;
    SettledLoan(before, index);
    SettledPrincipal(before, st.loan);
    PrincipalAtIndex(st.loan);
    TimesMonoRight(index as real, Principal(st.loan), Principal(before));
    PrincipalsCover(l.borrowers, who, index);
  }

  /** In every reachable state a repayment of some coins fails only when it would leave less than
      the slack of the loan: only a last bit of debt can be stuck. */
  lemma {:induction false} ReachableRepayment(height: nat, emission: nat, txs: seq<Tx>,
                                             env: Env, who: Address, amount: nat)
    ensures var l := Run(InitialLedger(height, emission), txs);
            var k := RunBooks(InitialLedger(height, emission), EMPTY_BOOKS, txs);
            && Settle(l, env, who, l.balance).Some?
            && var loan := Settle(l, env, who, l.balance).value.loan.loanAmount;
               (amount > 0 && RepayStable(l, env, who, amount).None? ==>
                  (Dec(loan) - Dec(Min(loan, amount))) as real < BookOpening(k, l, env).slack)
  {
    var l0 := InitialLedger(height, emission);
    assert Principals(map[]) == map[];
    RunSafe(l0, txs);
    RunKeepsDebt(l0, EMPTY_BOOKS, txs);
    var l := Run(l0, txs);
    LoanWithinLiabilities(l, RunBooks(l0, EMPTY_BOOKS, txs), env, who);
    RepaySafe(l, env, who, amount);
  }

  // ----- how large the slack can be -----

  // The growth of loans over one transaction, and over a run.
  ghost function StepGrowth(l: Ledger, tx: Tx): real {
    if Apply(l, tx).None? || tx.Donate? || l.state.lastInterestUpdated >= tx.env.height then 1.0
    else Growth(InterestFactor(l.state, tx.env.height,
                               tx.env.borrowRate(l.balance, l.state.totalLiabilities, l.state.totalReserves)))
  }

  ghost function Growths(l: Ledger, txs: seq<Tx>): (gs: seq<real>)
    ensures |gs| == |txs|
    decreases |txs|
  {
    if txs == [] then [] else [StepGrowth(l, txs[0])] + Growths(Next(l, txs[0]), txs[1..])
  }

  ghost function Product(gs: seq<real>): real {
    if gs == [] then 1.0 else Times(Product(gs[1..]), gs[0])
  }

  ghost function RunGrowth(l: Ledger, txs: seq<Tx>): real { Product(Growths(l, txs)) }

  // One unit added at each step, everything so far growing with it.
  ghost function Compound(gs: seq<real>, s: real): real
    decreases |gs|
  {
    if gs == [] then s else Compound(gs[1..], Times(gs[0], s + 1.0))
  }

  ghost predicate AllGrow(gs: seq<real>) { forall i :: 0 <= i < |gs| ==> gs[i] >= 1.0 }

  lemma NextSlack(l: Ledger, k: Books, tx: Tx)
    ensures NextBooks(l, k, tx).slack == k.slack
         || NextBooks(l, k, tx).slack == Times(StepGrowth(l, tx), k.slack) + 1.0
  {
  }

  lemma StepSlack(l: Ledger, k: Books, tx: Tx)
    requires k.slack >= 0.0
    ensures StepGrowth(l, tx) >= 1.0
    ensures 0.0 <= NextBooks(l, k, tx).slack <= Times(StepGrowth(l, tx), k.slack + 1.0)
  {
    StepGrowthAtLeastOne(l, tx);
    NextSlack(l, k, tx);
    OneMore(StepGrowth(l, tx), k.slack, NextBooks(l, k, tx).slack);
  }

  lemma OneMore(g: real, s: real, s': real)
    requires g >= 1.0 && s >= 0.0 && (s' == s || s' == Times(g, s) + 1.0)
    ensures 0.0 <= s' <= Times(g, s + 1.0)
  {
    TimesMonoRight(g, 0.0, s);
    TimesMono(1.0, g, s + 1.0);
    TimesSum(g, s, 1.0);
  }

  lemma StepGrowthAtLeastOne(l: Ledger, tx: Tx)
    ensures StepGrowth(l, tx) >= 1.0
  {
    if !(Apply(l, tx).None? || tx.Donate? || l.state.lastInterestUpdated >= tx.env.height) {
      var rate := tx.env.borrowRate(l.balance, l.state.totalLiabilities, l.state.totalReserves);
      QuotientNonNegative(InterestFactor(l.state, tx.env.height, rate) as real, F as real);
    }
  }

  lemma {:induction false} CompoundMono(gs: seq<real>, s: real, s': real)
    requires AllGrow(gs) && s <= s'
    ensures Compound(gs, s) <= Compound(gs, s')
    decreases |gs|
  {
    if gs != [] {
      TimesMonoRight(gs[0], s + 1.0, s' + 1.0);
      CompoundMono(gs[1..], Times(gs[0], s + 1.0), Times(gs[0], s' + 1.0));
    }
  }

  // All units together grow at most like units that were there from the start.
  lemma {:induction false} CompoundBound(gs: seq<real>, s: real)
    requires AllGrow(gs)
    ensures Product(gs) >= 1.0 && Compound(gs, s) <= Times(Product(gs), s + |gs| as real)
    decreases |gs|
  {
    if gs != [] {
      var g, r, rest := gs[0], Product(gs[1..]), (|gs| - 1) as real;
      CompoundBound(gs[1..], Times(g, s + 1.0));
      TimesMono(1.0, g, rest);
      TimesSum(g, s + 1.0, rest);
      TimesMonoRight(r, Times(g, s + 1.0) + rest, Times(g, s + 1.0 + rest));
      TimesAssoc(r, g, s + 1.0 + rest);
      TimesMonoRight(r, 1.0, g);
    }
  }

  lemma {:induction false} GrowthsGrow(l: Ledger, txs: seq<Tx>)
    ensures AllGrow(Growths(l, txs))
    decreases |txs|
  {
    if txs != [] {
      StepGrowthAtLeastOne(l, txs[0]);
      GrowthsGrow(Next(l, txs[0]), txs[1..]);
    }
  }

  lemma {:induction false} SlackCompounds(l: Ledger, k: Books, txs: seq<Tx>)
    requires k.slack >= 0.0
    ensures 0.0 <= RunBooks(l, k, txs).slack <= Compound(Growths(l, txs), k.slack)
    decreases |txs|
  {
    if txs != [] {
      var k1, rest := NextBooks(l, k, txs[0]), Growths(Next(l, txs[0]), txs[1..]);
      StepSlack(l, k, txs[0]);
      SlackCompounds(Next(l, txs[0]), k1, txs[1..]);
      GrowthsGrow(Next(l, txs[0]), txs[1..]);
      CompoundMono(rest, k1.slack, Times(StepGrowth(l, txs[0]), k.slack + 1.0));
      assert Growths(l, txs)[1..] == rest;
    }
  }

  /** After n transactions the slack is at most n units of 10^-18, grown like a loan taken at the
      start. */
  lemma {:induction false} SlackBound(l: Ledger, k: Books, txs: seq<Tx>)
    requires k.slack >= 0.0
    ensures RunGrowth(l, txs) >= 1.0
    ensures 0.0 <= RunBooks(l, k, txs).slack <= Times(RunGrowth(l, txs), k.slack + |txs| as real)
  {
    GrowthsGrow(l, txs);
    SlackCompounds(l, k, txs);
    CompoundBound(Growths(l, txs), k.slack);
  }
}
