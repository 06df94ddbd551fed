/** ANC is never handed out beyond the emission, although borrowers settle lazily, at different
    times and at different interest indices. */
module AncRewards {
  import opened FixedPoint
  import opened Totals
  import opened Addresses
  import opened MarketModel
  import opened MarketSafety
  import opened MarketRun
  import opened Books
  import opened DebtCover

  ghost predicate AncOk(s: State, m: Borrowers, k: Books) {
    && k.ancSlack >= 0.0
    && Dec(k.claimed) as real + TotalEntitled(m, s.globalRewardIndex) <= k.emitted as real + k.ancSlack
  }

  // ----- shares -----

  ghost function Shares(m: Borrowers): map<Address, real> { map a | a in m :: Share(m[a]) as real }

  lemma ShareBelowPrincipal(b: BorrowerInfo)
    ensures Share(b) as real <= Times(F as real, Principal(b))
  {
    if b.interestIndex != 0 {
      var x := b.interestIndex as real;
      Floor(b.loanAmount * F * F, b.interestIndex);
      assert (Share(b) * b.interestIndex) as real <= (b.loanAmount * F * F) as real;
      CrossDivide(Share(b) as real, 1.0, (b.loanAmount * F * F) as real, x);
      assert Times(F as real, Principal(b)) == (b.loanAmount * F * F) as real / x by {
        DivideTimes(F as real, b.loanAmount as real * F as real, x);
      }
    }
  }

  lemma SharesBelowPrincipals(m: Borrowers)
    ensures Total(Shares(m)) <= Times(F as real, Total(Principals(m)))
  {
    var scaled := map a | a in m :: Times(F as real, Principals(m)[a]);
    forall a | a in m ensures Shares(m)[a] <= scaled[a] {
      ShareBelowPrincipal(m[a]);
    }
    TotalMono(Shares(m), scaled);
    TotalScale(scaled, Principals(m), F as real);
  }

  // The number of shares is whole, and weighs at most the debts.
  lemma SharesAgainstDebt(m: Borrowers, g: nat) returns (n: int)
    ensures Total(Shares(m)) == n as real
    ensures Times(n as real, g as real) <= Times(F as real, TotalDebt(m, g))
  {
    n := TotalIntegral(Shares(m));
    SharesBelowPrincipals(m);
    var p := Total(Principals(m));
    TimesMono(Total(Shares(m)), Times(F as real, p), g as real);
    TimesRotate(F as real, p, g as real);
  }

  lemma TimesRotate(a: real, b: real, c: real)
    ensures Times(Times(a, b), c) == Times(a, Times(c, b))
  {
  }

  // The number of shares compared with the divisor that ComputeReward uses.
  lemma SharesAgainstDivisor(s: State, m: Borrowers, slack: real) returns (n: int)
    requires s.globalInterestIndex >= F && slack >= 0.0
    requires TotalDebt(m, s.globalInterestIndex) <= s.totalLiabilities as real + slack
    ensures Total(Shares(m)) == n as real
    ensures var divisor := s.totalLiabilities * F / s.globalInterestIndex;
            (Covered(s, m) ==> n <= divisor) && n as real <= divisor as real + 1.0 + slack
  {
    var g, tl := s.globalInterestIndex, s.totalLiabilities;
    n := SharesAgainstDebt(m, g);
    DivFloor(tl, g);
    var divisor := Div(tl, g).value;
    if Covered(s, m) {
      TimesMonoRight(F as real, TotalDebt(m, g), tl as real);
      CoveredShares(n, g, tl);
    }
    TimesMonoRight(F as real, TotalDebt(m, g), tl as real + slack);
    TimesSum(F as real, tl as real, slack);
    TimesMono(F as real, g as real, slack);
    DivisorSlack(n, g, divisor, tl * F, slack);
  }

  lemma CoveredShares(n: int, g: nat, liabilities: nat)
    requires g > 0
    requires Times(n as real, g as real) <= Times(F as real, liabilities as real)
    ensures n <= liabilities * F / g
  {
    assert n * g <= liabilities * F by {
      assert (n * g) as real <= (liabilities * F) as real;
    }
    if n > 0 {
      QuotientAtLeast(liabilities * F, g, n);
    }
  }

  lemma DivisorSlack(n: int, g: nat, divisor: nat, product: nat, slack: real)
    requires g > 0 && product < divisor * g + g
    requires Times(n as real, g as real) <= product as real + Times(g as real, slack)
    ensures n as real <= divisor as real + 1.0 + slack
  {
    var gr := g as real;
    assert product as real <= Times(gr, divisor as real + 1.0) by {
      assert (divisor * g + g) as real == gr * (divisor as real + 1.0);
    }
    TimesSum(gr, divisor as real + 1.0, slack);
    if n as real > divisor as real + 1.0 + slack {
      StrictProduct(divisor as real + 1.0 + slack, n as real, gr);
    }
  }

  // ----- accrual -----

  lemma EntitledAfterStep(b: BorrowerInfo, rewardIndex: nat, step: nat)
    ensures Entitled(b, rewardIndex + step)
         == Entitled(b, rewardIndex) + Times(step as real / F as real, Share(b) as real)
  {
    var w, d, x, fr := Share(b) as real, (rewardIndex - b.rewardIndex) as real, step as real, F as real;
    assert (rewardIndex + step - b.rewardIndex) as real == d + x;
    assert w * (d + x) / fr == w * d / fr + x / fr * w by {
      assert w * (d + x) == w * d + w * x;
      assert w * x / fr == x / fr * w;
    }
  }

  lemma EntitlementsAfterStep(m: Borrowers, rewardIndex: nat, step: nat, newIndex: nat)
    requires newIndex == rewardIndex + step
    ensures TotalEntitled(m, newIndex)
         == TotalEntitled(m, rewardIndex) + Times(step as real / F as real, Total(Shares(m)))
  {
    var c := step as real / F as real;
    var gain := map a | a in m :: Times(c, Shares(m)[a]);
    forall a | a in m
      ensures Entitlements(m, newIndex)[a] == Entitlements(m, rewardIndex)[a] + gain[a]
    {
      EntitledAfterStep(m[a], rewardIndex, step);
    }
    TotalAdd(Entitlements(m, newIndex), Entitlements(m, rewardIndex), gain);
    TotalScale(gain, Shares(m), c);
  }

  // A step of accrued * F / divisor pays at most `accrued` to `divisor` shares.
  lemma StepPayout(step: nat, divisor: nat, accrued: nat)
    requires step * divisor <= accrued * F
    ensures Times(step as real / F as real, divisor as real) <= accrued as real
  {
    var fr := F as real;
    assert (step * divisor) as real <= (accrued * F) as real;
    assert step as real / fr * divisor as real == (step * divisor) as real / fr;
    CrossDivide((step * divisor) as real, fr, accrued as real, 1.0);
  }

  // A step of the reward index, in figures: what it accrues and what it divides by.
  lemma RewardStepFigures(s: State, height: nat) returns (step: nat, divisor: nat, accrued: nat)
    requires s.globalInterestIndex > 0 && s.lastRewardUpdated < height
    ensures ComputeReward(s, height).Some?
    ensures ComputeReward(s, height).value.globalRewardIndex == s.globalRewardIndex + step
    ensures step == RewardStepSize(s, height) && step * divisor <= accrued * F
    ensures divisor == s.totalLiabilities * F / s.globalInterestIndex
    ensures accrued == Emission(height - s.lastRewardUpdated, s.ancEmissionRate)
  {
    divisor := s.totalLiabilities * F / s.globalInterestIndex;
    accrued := Emission(height - s.lastRewardUpdated, s.ancEmissionRate);
    MulDecLeft(height - s.lastRewardUpdated, s.ancEmissionRate);
    step := RewardStepSize(s, height);
    if divisor != 0 { Floor(accrued * F, divisor); }
  }

  // What a step pays out to n shares that are within the divisor, or beyond it by the slack.
  lemma PayoutBound(step: nat, divisor: nat, accrued: nat, n: int, covered: bool, slack: real)
    requires step * divisor <= accrued * F && slack >= 0.0
    requires covered ==> n <= divisor
    requires n as real <= divisor as real + 1.0 + slack
    ensures var c := step as real / F as real;
            && Times(1.0 + slack, c) >= 0.0
            && (covered ==> Times(c, n as real) <= accrued as real)
            && Times(c, n as real) <= accrued as real + Times(1.0 + slack, c)
  {
    var c := step as real / F as real;
    StepPayout(step, divisor, accrued);
    QuotientNonNegative(step as real, F as real);
    if covered { TimesMonoRight(c, n as real, divisor as real); }
    TimesMonoRight(c, n as real, divisor as real + (1.0 + slack));
    TimesSum(c, divisor as real, 1.0 + slack);
    TimesMonoRight(c, 0.0, 1.0 + slack);
    TimesCommute(c, 1.0 + slack);
  }

  lemma TimesCommute(a: real, b: real)
    ensures Times(a, b) == Times(b, a)
  {
  }

  // What the books allow for a step beyond the emission.
  ghost function StepAllowance(k: Books, s: State, m: Borrowers, step: nat): real {
    if Covered(s, m) then 0.0 else Times(1.0 + k.slack, step as real / F as real)
  }

  lemma RewardPayout(s: State, m: Borrowers, k: Books, height: nat)
    requires s.globalInterestIndex >= F && s.lastRewardUpdated < height && DebtOk(s, m, k)
    ensures ComputeReward(s, height).Some?
    ensures var step := RewardStepSize(s, height);
            && ComputeReward(s, height).value.globalRewardIndex == s.globalRewardIndex + step
            && StepAllowance(k, s, m, step) >= 0.0
            && Times(step as real / F as real, Total(Shares(m)))
               <= Emission(height - s.lastRewardUpdated, s.ancEmissionRate) as real + StepAllowance(k, s, m, step)
  {
    var step, divisor, accrued := RewardStepFigures(s, height);
    var n := SharesAgainstDivisor(s, m, k.slack);
    PayoutBound(step, divisor, accrued, n, Covered(s, m), k.slack);
  }

  lemma AncAfterStep(s: State, t: State, m: Borrowers, k: Books, height: nat, step: nat, paid: real)
    requires AncOk(s, m, k) && s.lastRewardUpdated < height && step == RewardStepSize(s, height)
    requires TotalEntitled(m, t.globalRewardIndex) == TotalEntitled(m, s.globalRewardIndex) + paid
    requires StepAllowance(k, s, m, step) >= 0.0
    requires paid <= Emission(height - s.lastRewardUpdated, s.ancEmissionRate) as real + StepAllowance(k, s, m, step)
    ensures AncOk(t, m, BookReward(k, s, m, height))
  {
    BookRewardFields(k, s, m, height, step);
    CombineAnc(k, BookReward(k, s, m, height), TotalEntitled(m, s.globalRewardIndex), paid,
               Emission(height - s.lastRewardUpdated, s.ancEmissionRate), StepAllowance(k, s, m, step));
  }

  lemma RewardKeepsAnc(s: State, m: Borrowers, k: Books, height: nat)
    requires s.globalInterestIndex >= F
    requires DebtOk(s, m, k) && AncOk(s, m, k)
    requires ComputeReward(s, height).Some?
    ensures AncOk(ComputeReward(s, height).value, m, BookReward(k, s, m, height))
  {
    if s.lastRewardUpdated < height {
      RewardPayout(s, m, k, height);
      var step := RewardStepSize(s, height);
      var t := ComputeReward(s, height).value;
      EntitlementsAfterStep(m, s.globalRewardIndex, step, t.globalRewardIndex);
      AncAfterStep(s, t, m, k, height, step, Times(step as real / F as real, Total(Shares(m))));
    }
  }

  lemma BookRewardFields(k: Books, s: State, m: Borrowers, height: nat, step: nat)
    requires s.lastRewardUpdated < height && step == RewardStepSize(s, height)
    ensures var k' := BookReward(k, s, m, height);
            && k'.claimed == k.claimed
            && k'.emitted == k.emitted + Emission(height - s.lastRewardUpdated, s.ancEmissionRate)
            && k'.ancSlack == k.ancSlack + StepAllowance(k, s, m, step)
  {
  }

  lemma CombineAnc(k: Books, k': Books, entitled: real, paid: real, accrued: nat, extra: real)
    requires k.ancSlack >= 0.0 && extra >= 0.0 && paid <= accrued as real + extra
    requires Dec(k.claimed) as real + entitled <= k.emitted as real + k.ancSlack
    requires k'.claimed == k.claimed && k'.emitted == k.emitted + accrued && k'.ancSlack == k.ancSlack + extra
    ensures k'.ancSlack >= 0.0
    ensures Dec(k'.claimed) as real + (entitled + paid) <= k'.emitted as real + k'.ancSlack
  {
  }

  lemma OpeningKeepsAnc(l: Ledger, k: Books, env: Env)
    requires MarketOk(l) && DebtOk(l.state, l.borrowers, k) && AncOk(l.state, l.borrowers, k)
    ensures ComputeInterest(l.state, env, l.balance, l.supply).Some?
    ensures var s1 := ComputeInterest(l.state, env, l.balance, l.supply).value;
            ComputeReward(s1, env.height).Some?
            && AncOk(ComputeReward(s1, env.height).value, l.borrowers, BookOpening(k, l, env))
  {
    OpenStep(l, env);
    InterestStep(l.state, env, l.balance, l.supply);
    var rate := env.borrowRate(l.balance, l.state.totalLiabilities, l.state.totalReserves);
    InterestKeepsDebt(l.state, l.borrowers, k, env.height, l.balance, l.supply, rate, env.targetRate);
    var s1 := ComputeInterest(l.state, env, l.balance, l.supply).value;
    RewardKeepsAnc(s1, l.borrowers, BookInterest(k, l.state, env.height, rate), env.height);
  }

  // ----- settlement -----

  lemma SettledShare(b: BorrowerInfo, loan: nat, index: nat)
    requires b.interestIndex > 0 && index > 0
    requires loan * b.interestIndex <= b.loanAmount * index
    ensures Div(Dec(loan), index).value <= Share(b)
  {
    var share, i, l := Div(Dec(loan), index).value, b.interestIndex, b.loanAmount;
    DivFloor(Dec(loan), index);
    calc {
      share * i * index;
    ==
      share * index * i;
    <= { MulMono(share * index, loan * F * F, i); }
      loan * F * F * i;
    ==
      loan * i * (F * F);
    <= { MulMono(loan * i, l * index, F * F); }
      l * index * (F * F);
    ==
      l * F * F * index;
    }
    MulCancel(share * i, l * F * F, index);
    QuotientAtLeast(l * F * F, i, share);
  }

  // What a settlement adds to the pending rewards was already accounted for.
  lemma SettledEntitlement(s: State, b: BorrowerInfo, settled: BorrowerInfo)
    requires BorrowerOk(s, b) && s.globalInterestIndex > 0
    requires settled.interestIndex == s.globalInterestIndex
    requires settled.loanAmount * b.interestIndex <= b.loanAmount * s.globalInterestIndex
    requires settled.rewardIndex == s.globalRewardIndex
    requires settled.pendingRewards == b.pendingRewards
               + Mul(Div(Dec(settled.loanAmount), s.globalInterestIndex).value, s.globalRewardIndex - b.rewardIndex)
    ensures Entitled(settled, s.globalRewardIndex) <= Entitled(b, s.globalRewardIndex)
  {
    var share, delta := Div(Dec(settled.loanAmount), s.globalInterestIndex).value, s.globalRewardIndex - b.rewardIndex;
    SettledShare(b, settled.loanAmount, s.globalInterestIndex);
    MulFloor(share, delta);
    MulMono(share, Share(b), delta);
    assert (Mul(share, delta) * F) as real <= (Share(b) * delta) as real;
    CrossDivide(Mul(share, delta) as real, 1.0, (Share(b) * delta) as real, F as real);
    assert Unsettled(settled, s.globalRewardIndex) == 0.0;
  }

  lemma EntitledAfterUpdate(m: Borrowers, who: Address, b: BorrowerInfo, rewardIndex: nat)
    ensures TotalEntitled(m[who := b], rewardIndex)
         == TotalEntitled(m, rewardIndex) + Entitled(b, rewardIndex) - Entitled(ReadBorrower(m, who), rewardIndex)
  {
    assert Entitlements(m[who := b], rewardIndex) == Entitlements(m, rewardIndex)[who := Entitled(b, rewardIndex)];
    TotalUpdate(Entitlements(m, rewardIndex), who, Entitled(b, rewardIndex));
    assert Unsettled(BorrowerInfo(F, 0, 0, 0), rewardIndex) == 0.0 by {
      assert Share(BorrowerInfo(F, 0, 0, 0)) == 0;
    }
  }

  /** Settle one borrower, store it with any loan and with `claimed` whole ANC paid out. */
  lemma AncAfterSettle(l: Ledger, env: Env, who: Address, claimed: nat, b: BorrowerInfo)
    requires MarketOk(l)
    requires Settle(l, env, who, l.balance).Some?
    requires var st := Settle(l, env, who, l.balance).value;
             && b.rewardIndex == st.loan.rewardIndex
             && b.pendingRewards + Dec(claimed) == st.loan.pendingRewards
    ensures var st := Settle(l, env, who, l.balance).value;
            var r := st.state.globalRewardIndex;
            TotalEntitled(l.borrowers[who := b], r) + Dec(claimed) as real <= TotalEntitled(l.borrowers, r)
  {
    SettleStep(l, env, who);
    OpenStep(l, env);
    var st := Settle(l, env, who, l.balance).value;
    var before := ReadBorrower(l.borrowers, who);
    SettledLoan(before, st.state.globalInterestIndex);
    SettledEntitlement(st.state, before, st.loan);
    EntitledAfterUpdate(l.borrowers, who, b, st.state.globalRewardIndex);
    assert Unsettled(b, st.state.globalRewardIndex) == 0.0;
    assert Unsettled(st.loan, st.state.globalRewardIndex) == 0.0;
  }

  // ----- runs -----

  // A payout matched by the entitlements and by the books.
  lemma AncOkAfter(s: State, t: State, m: Borrowers, m': Borrowers, k: Books, k': Books)
    requires AncOk(s, m, k) && t.globalRewardIndex == s.globalRewardIndex
    requires k'.emitted == k.emitted && k'.ancSlack == k.ancSlack && k'.claimed >= k.claimed
    requires TotalEntitled(m', s.globalRewardIndex) + Dec(k'.claimed - k.claimed) as real
          <= TotalEntitled(m, s.globalRewardIndex)
    ensures AncOk(t, m', k')
  {
  }

  lemma BorrowerTxKeepsAnc(l: Ledger, k: Books, tx: Tx)
    requires MarketOk(l) && DebtOk(l.state, l.borrowers, k) && AncOk(l.state, l.borrowers, k)
    requires (tx.Borrow? || tx.Repay? || tx.Claim?) && Apply(l, tx).Some?
    ensures AncOk(Next(l, tx).state, Next(l, tx).borrowers, NextBooks(l, k, tx))
  {
    OpeningKeepsAnc(l, k, tx.env);
    var st := Settle(l, tx.env, tx.who, l.balance).value;
    var t := Next(l, tx);
    var claimed := if tx.Claim? then ClaimAmount(st.loan) else 0;
    AncAfterSettle(l, tx.env, tx.who, claimed, t.borrowers[tx.who]);
    AncOkAfter(st.state, t.state, l.borrowers, t.borrowers, BookOpening(k, l, tx.env), NextBooks(l, k, tx));
  }

  lemma DepositorTxKeepsAnc(l: Ledger, k: Books, tx: Tx)
    requires MarketOk(l) && DebtOk(l.state, l.borrowers, k) && AncOk(l.state, l.borrowers, k)
    requires (tx.Deposit? || tx.Redeem?) && Apply(l, tx).Some?
    ensures AncOk(Next(l, tx).state, Next(l, tx).borrowers, NextBooks(l, k, tx))
  {
    OpeningKeepsAnc(l, k, tx.env);
  }

  lemma EpochKeepsAnc(l: Ledger, k: Books, tx: Tx)
    requires MarketOk(l) && DebtOk(l.state, l.borrowers, k) && AncOk(l.state, l.borrowers, k)
    requires tx.Epoch? && Apply(l, tx).Some?
    ensures AncOk(Next(l, tx).state, Next(l, tx).borrowers, NextBooks(l, k, tx))
  {
    EpochOpening(l, tx.env, tx.distributed, tx.newEmission);
    OpeningKeepsAnc(l, k, tx.env);
  }

  lemma StepKeepsAnc(l: Ledger, k: Books, tx: Tx)
    requires MarketOk(l) && DebtOk(l.state, l.borrowers, k) && AncOk(l.state, l.borrowers, k)
    ensures AncOk(Next(l, tx).state, Next(l, tx).borrowers, NextBooks(l, k, tx))
  {
    if Apply(l, tx).Some? {
      match tx
      case Deposit(_, _) => DepositorTxKeepsAnc(l, k, tx);
      case Redeem(_, _) => DepositorTxKeepsAnc(l, k, tx);
      case Borrow(_, _, _, _, _) => BorrowerTxKeepsAnc(l, k, tx);
      case Repay(_, _, _) => BorrowerTxKeepsAnc(l, k, tx);
      case Claim(_, _) => BorrowerTxKeepsAnc(l, k, tx);
      case Accrue(env) =>
      case Epoch(_, _, _) => EpochKeepsAnc(l, k, tx);
      case Donate(_) =>
    }
  }

  lemma {:induction false} RunKeepsAnc(l: Ledger, k: Books, txs: seq<Tx>)
    requires MarketOk(l) && DebtOk(l.state, l.borrowers, k) && AncOk(l.state, l.borrowers, k)
    ensures AncOk(Run(l, txs).state, Run(l, txs).borrowers, RunBooks(l, k, txs))
    decreases |txs|
  {
    if txs != [] {
      StepSafe(l, txs[0]);
      StepKeepsDebt(l, k, txs[0]);
      StepKeepsAnc(l, k, txs[0]);
      RunKeepsAnc(Next(l, txs[0]), NextBooks(l, k, txs[0]), txs[1..]);
    }
  }

  // ----- how large the slack can be -----

  // At most what one unit more than the debt slack would be entitled to since init.
  ghost predicate AncSlackOk(s: State, k: Books) {
    k.slack >= 0.0 && k.ancSlack <= Times(1.0 + k.slack, s.globalRewardIndex as real / F as real)
  }

  lemma InterestKeepsSlack(s: State, k: Books, height: nat, borrowRate: nat)
    requires AncSlackOk(s, k)
    ensures AncSlackOk(s, BookInterest(k, s, height, borrowRate))
  {
    if s.lastInterestUpdated < height {
      var factor := InterestFactor(s, height, borrowRate);
      QuotientNonNegative(factor as real, F as real);
      QuotientNonNegative(s.globalRewardIndex as real, F as real);
      TimesMono(1.0, Growth(factor), k.slack);
      TimesMono(1.0 + k.slack, 1.0 + BookInterest(k, s, height, borrowRate).slack,
                s.globalRewardIndex as real / F as real);
    }
  }

  lemma RewardKeepsSlack(s: State, m: Borrowers, k: Books, height: nat)
    requires s.globalInterestIndex > 0 && AncSlackOk(s, k)
    ensures ComputeReward(s, height).Some?
    ensures AncSlackOk(ComputeReward(s, height).value, BookReward(k, s, m, height))
  {
    if s.lastRewardUpdated < height {
      var step := RewardStepSize(s, height);
      var c := step as real / F as real;
      QuotientNonNegative(step as real, F as real);
      TimesMonoRight(1.0 + k.slack, 0.0, c);
      TimesSum(1.0 + k.slack, s.globalRewardIndex as real / F as real, c);
      assert (s.globalRewardIndex + step) as real / F as real == s.globalRewardIndex as real / F as real + c;
    }
  }

  lemma OpeningKeepsSlack(l: Ledger, k: Books, env: Env)
    requires MarketOk(l) && AncSlackOk(l.state, k)
    ensures ComputeInterest(l.state, env, l.balance, l.supply).Some?
    ensures var s1 := ComputeInterest(l.state, env, l.balance, l.supply).value;
            ComputeReward(s1, env.height).Some?
            && AncSlackOk(ComputeReward(s1, env.height).value, BookOpening(k, l, env))
  {
    InterestStep(l.state, env, l.balance, l.supply);
    var rate := env.borrowRate(l.balance, l.state.totalLiabilities, l.state.totalReserves);
    InterestKeepsSlack(l.state, k, env.height, rate);
    RewardKeepsSlack(ComputeInterest(l.state, env, l.balance, l.supply).value, l.borrowers,
                     BookInterest(k, l.state, env.height, rate), env.height);
  }

  lemma AccrueKeepsSlack(l: Ledger, k: Books, env: Env)
    requires MarketOk(l) && AncSlackOk(l.state, k)
    ensures AncSlackOk(Next(l, Accrue(env)).state, NextBooks(l, k, Accrue(env)))
  {
    InterestStep(l.state, env, l.balance, l.supply);
    InterestKeepsSlack(l.state, k, env.height,
                       env.borrowRate(l.balance, l.state.totalLiabilities, l.state.totalReserves));
  }

  lemma AncSlackOkAfter(s: State, t: State, k: Books, k': Books)
    requires AncSlackOk(s, k) && t.globalRewardIndex == s.globalRewardIndex
    requires k'.slack == k.slack && k'.ancSlack == k.ancSlack
    ensures AncSlackOk(t, k')
  {
  }

  // Everything but a plain accrual or donation opens with both accruals and leaves indices alone.
  lemma OpenedKeepsSlack(l: Ledger, k: Books, tx: Tx)
    requires MarketOk(l) && AncSlackOk(l.state, k)
    requires !tx.Accrue? && !tx.Donate? && Apply(l, tx).Some?
    ensures AncSlackOk(Next(l, tx).state, NextBooks(l, k, tx))
  {
    OpeningKeepsSlack(l, k, tx.env);
    if tx.Epoch? { EpochOpening(l, tx.env, tx.distributed, tx.newEmission); }
    var s := ComputeReward(ComputeInterest(l.state, tx.env, l.balance, l.supply).value, tx.env.height).value;
    AncSlackOkAfter(s, Next(l, tx).state, BookOpening(k, l, tx.env), NextBooks(l, k, tx));
  }

  lemma StepKeepsSlack(l: Ledger, k: Books, tx: Tx)
    requires MarketOk(l) && AncSlackOk(l.state, k)
    ensures AncSlackOk(Next(l, tx).state, NextBooks(l, k, tx))
  {
    if Apply(l, tx).Some? {
      match tx
      case Accrue(env) => AccrueKeepsSlack(l, k, env);
      case Donate(_) =>
      case _ => OpenedKeepsSlack(l, k, tx);
    }
  }

  /** The ANC slack never exceeds what 1 + debt slack units of 10^-18 would have earned since init. */
  lemma {:induction false} AncSlackBound(l: Ledger, k: Books, txs: seq<Tx>)
    requires MarketOk(l) && AncSlackOk(l.state, k)
    ensures AncSlackOk(Run(l, txs).state, RunBooks(l, k, txs))
    decreases |txs|
  {
    if txs != [] {
      StepSafe(l, txs[0]);
      StepKeepsSlack(l, k, txs[0]);
      AncSlackBound(Next(l, txs[0]), NextBooks(l, k, txs[0]), txs[1..]);
    }
  }

  // Before any loan nothing is owed, claimed or emitted.
  lemma {:induction false} RunFromStart(l: Ledger, txs: seq<Tx>)
    requires MarketOk(l) && l.borrowers == map[]
    requires l.state.totalLiabilities == 0 && l.state.globalRewardIndex == 0
    ensures AncOk(Run(l, txs).state, Run(l, txs).borrowers, RunBooks(l, EMPTY_BOOKS, txs))
    ensures AncSlackOk(Run(l, txs).state, RunBooks(l, EMPTY_BOOKS, txs))
  {
    assert Principals(l.borrowers) == map[] && Entitlements(l.borrowers, 0) == map[];
    assert Times(1.0, 0.0) == 0.0 == 0.0 / F as real;
    RunKeepsAnc(l, EMPTY_BOOKS, txs);
    AncSlackBound(l, EMPTY_BOOKS, txs);
  }

  /** In every reachable state: claimed + pending + unsettled ANC is at most what was emitted, plus
      what 1 + debt slack units of 10^-18 would have earned since init. */
  lemma {:induction false} ReachableAnc(height: nat, emission: nat, txs: seq<Tx>)
    ensures var l := Run(InitialLedger(height, emission), txs);
            var k := RunBooks(InitialLedger(height, emission), EMPTY_BOOKS, txs);
            && (Dec(k.claimed) as real + TotalEntitled(l.borrowers, l.state.globalRewardIndex)
                <= k.emitted as real + k.ancSlack)
            && k.ancSlack <= Times(1.0 + k.slack, l.state.globalRewardIndex as real / F as real)
  {
    RunFromStart(InitialLedger(height, emission), txs);
  }

  // ----- runs without rounding against the market -----

  // Whenever `tx` accrues rewards, the debts are within the liabilities at that moment.
  ghost predicate CoveredAt(l: Ledger, tx: Tx) {
    tx.Accrue? || tx.Donate? ||
    var s1 := ComputeInterest(l.state, tx.env, l.balance, l.supply);
    s1.Some? ==> Covered(s1.value, l.borrowers)
  }

  ghost predicate CoveredRun(l: Ledger, txs: seq<Tx>)
    decreases |txs|
  {
    txs == [] || (CoveredAt(l, txs[0]) && CoveredRun(Next(l, txs[0]), txs[1..]))
  }

  lemma {:induction false} CoveredRunHasNoSlack(l: Ledger, k: Books, txs: seq<Tx>)
    requires CoveredRun(l, txs)
    ensures RunBooks(l, k, txs).ancSlack == k.ancSlack
    decreases |txs|
  {
    if txs != [] {
      CoveredRunHasNoSlack(Next(l, txs[0]), NextBooks(l, k, txs[0]), txs[1..]);
    }
  }

  /** On runs where the debts stay covered, ANC is never handed out beyond what was emitted. */
  lemma {:induction false} CoveredAnc(height: nat, emission: nat, txs: seq<Tx>)
    requires CoveredRun(InitialLedger(height, emission), txs)
    ensures var l := Run(InitialLedger(height, emission), txs);
            var k := RunBooks(InitialLedger(height, emission), EMPTY_BOOKS, txs);
            (Dec(k.claimed) as real + TotalEntitled(l.borrowers, l.state.globalRewardIndex) <= k.emitted as real)
  {
    ReachableAnc(height, emission, txs);
    CoveredRunHasNoSlack(InitialLedger(height, emission), EMPTY_BOOKS, txs);
  }
}
