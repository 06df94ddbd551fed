/** The other side of ANC conservation: what was emitted reaches borrowers, but for what accrued while
    nothing was lent, the part of liabilities that no borrower owes, and rounding. */
module AncFloor {
  import opened FixedPoint
  import opened Totals
  import opened Addresses
  import opened MarketModel
  import opened MarketSafety
  import opened MarketRun
  import opened Books
  import opened DebtCover
  import opened AncRewards
  import opened Accrual
  import opened DebtFloor

  /** Emission that reached no borrower, in raw units: `idle` accrued while nothing was lent. */
  datatype Unpaid = Unpaid(idle: nat, gap: real)

  function Divisor(s: State): nat
    requires s.globalInterestIndex > 0
  {
    s.totalLiabilities * F / s.globalInterestIndex
  }

  // The shares that the divisor counts and no borrower holds.
  ghost function Unowned(s: State, m: Borrowers): real
    requires s.globalInterestIndex > 0
  {
    var free := Divisor(s) as real - Total(Shares(m));
    if free > 0.0 then free else 0.0
  }

  // The index step loses less than one raw unit for every share.
  ghost function AccrualLoss(s: State, m: Borrowers, height: nat): real
    requires s.globalInterestIndex > 0
  {
    Times(RewardStepSize(s, height) as real / F as real, Unowned(s, m)) + Divisor(s) as real / F as real
  }

  ghost function UnpaidAfterReward(u: Unpaid, s: State, m: Borrowers, height: nat): Unpaid {
    if s.lastRewardUpdated >= height || s.globalInterestIndex == 0 then u
    else if Divisor(s) == 0 then u.(idle := u.idle + Emission(height - s.lastRewardUpdated, s.ancEmissionRate))
    else u.(gap := u.gap + AccrualLoss(s, m, height))
  }

  ghost function UnpaidAfterOpening(u: Unpaid, l: Ledger, env: Env): Unpaid {
    var s1 := ComputeInterest(l.state, env, l.balance, l.supply);
    if s1.None? then u else UnpaidAfterReward(u, s1.value, l.borrowers, env.height)
  }

  // A settlement floors a loan by at most two coins, and then the reward.
  ghost function SettlementLoss(delta: int): real { 2.0 * delta as real + 1.0 }

  ghost function TxLoss(l: Ledger, tx: Tx, st: Settled): real
    requires tx.Borrow? || tx.Repay? || tx.Claim?
  {
    SettlementLoss(st.state.globalRewardIndex - ReadBorrower(l.borrowers, tx.who).rewardIndex)
  }

  ghost function NextUnpaid(l: Ledger, u: Unpaid, tx: Tx): Unpaid {
    if Apply(l, tx).None? || tx.Donate? || tx.Accrue? then u
    else
      var o := UnpaidAfterOpening(u, l, tx.env);
      if !(tx.Borrow? || tx.Repay? || tx.Claim?) || Settle(l, tx.env, tx.who, l.balance).None? then o
      else
        var st := Settle(l, tx.env, tx.who, l.balance).value;
        o.(gap := o.gap + TxLoss(l, tx, st))
  }

  ghost function RunUnpaid(l: Ledger, u: Unpaid, txs: seq<Tx>): Unpaid
    decreases |txs|
  {
    if txs == [] then u else RunUnpaid(Next(l, txs[0]), NextUnpaid(l, u, txs[0]), txs[1..])
  }

  ghost predicate AncFloorOk(s: State, m: Borrowers, k: Books, u: Unpaid) {
    && u.gap >= 0.0
    && k.emitted as real <= Dec(k.claimed) as real + TotalEntitled(m, s.globalRewardIndex) + u.idle as real + u.gap
  }

  // ----- accrual -----

  // The largest step for `accrued` pays all of it, but for unowned shares and one unit a share.
  lemma StepPayoutAtLeast(step: nat, divisor: nat, accrued: nat, shares: real, unowned: real)
    requires accrued * F < (step + 1) * divisor && shares + unowned >= divisor as real
    ensures accrued as real <= Times(step as real / F as real, shares)
                               + (Times(step as real / F as real, unowned) + divisor as real / F as real)
  {
    var c, fr := step as real / F as real, F as real;
    QuotientNonNegative(step as real, fr);
    TimesMonoRight(c, divisor as real, shares + unowned);
    TimesSum(c, shares, unowned);
    StepShare(step as real, divisor as real, accrued as real, fr) by {
      assert (accrued * F) as real <= ((step + 1) * divisor) as real;
    }
  }

  lemma StepShare(step: real, divisor: real, accrued: real, f: real)
    requires f > 0.0 && accrued * f <= (step + 1.0) * divisor
    ensures accrued <= Times(step / f, divisor) + divisor / f
  {
    assert Times(step / f, divisor) == step * divisor / f;
    SumOfQuotients(step * divisor, divisor, f);
    assert (step + 1.0) * divisor == step * divisor + divisor;
    CrossDivide(accrued, 1.0, step * divisor + divisor, f);
  }

  lemma RewardFigures(s: State, height: nat) returns (step: nat, accrued: nat)
    requires s.globalInterestIndex > 0 && s.lastRewardUpdated < height
    ensures ComputeReward(s, height).Some?
    ensures ComputeReward(s, height).value.globalRewardIndex == s.globalRewardIndex + step
    ensures step == RewardStepSize(s, height) && (Divisor(s) > 0 ==> accrued * F < (step + 1) * Divisor(s))
    ensures accrued == Emission(height - s.lastRewardUpdated, s.ancEmissionRate)
  {
    RewardAccrues(s, height);
    step := RewardStepSize(s, height);
    accrued := Emission(height - s.lastRewardUpdated, s.ancEmissionRate);
  }

  lemma CombineFloor(emitted: real, claimed: real, entitled: real, unpaid: real, accrued: real, paid: real, lost: real)
    requires emitted <= claimed + entitled + unpaid && accrued <= paid + lost
    ensures emitted + accrued <= claimed + (entitled + paid) + (unpaid + lost)
  {
  }

  lemma PaidNonNegative(step: nat, m: Borrowers)
    ensures Times(step as real / F as real, Total(Shares(m))) >= 0.0
  {
    QuotientNonNegative(step as real, F as real);
    SharesNonNegative(m);
    TimesMonoRight(step as real / F as real, 0.0, Total(Shares(m)));
  }

  lemma SharesNonNegative(m: Borrowers)
    ensures Total(Shares(m)) >= 0.0
  {
    var p := Shares(m);
    if p.Keys != {} {
      var a :| a in p;
      TotalCovers(p, a);
    } else {
      assert p == map[];
    }
  }

  lemma LossNonNegative(s: State, m: Borrowers, height: nat)
    requires s.globalInterestIndex > 0
    ensures AccrualLoss(s, m, height) >= 0.0
  {
    QuotientNonNegative(RewardStepSize(s, height) as real, F as real);
    TimesMonoRight(RewardStepSize(s, height) as real / F as real, 0.0, Unowned(s, m));
    QuotientNonNegative(Divisor(s) as real, F as real);
  }

  lemma RewardKeepsFloor(s: State, m: Borrowers, k: Books, u: Unpaid, height: nat)
    requires s.globalInterestIndex > 0 && AncFloorOk(s, m, k, u)
    ensures ComputeReward(s, height).Some?
    ensures AncFloorOk(ComputeReward(s, height).value, m, BookReward(k, s, m, height),
                       UnpaidAfterReward(u, s, m, height))
  {
    if s.lastRewardUpdated < height {
      var step, accrued := RewardFigures(s, height);
      var t := ComputeReward(s, height).value;
      EntitlementsAfterStep(m, s.globalRewardIndex, step, t.globalRewardIndex);
      BookRewardFields(k, s, m, height, step);
      var paid := Times(step as real / F as real, Total(Shares(m)));
      PaidNonNegative(step, m);
      LossNonNegative(s, m, height);
      var idle := Divisor(s) == 0;
      if !idle { StepPayoutAtLeast(step, Divisor(s), accrued, Total(Shares(m)), Unowned(s, m)); }
      CombineFloor(k.emitted as real, Dec(k.claimed) as real, TotalEntitled(m, s.globalRewardIndex),
                   u.idle as real + u.gap, accrued as real, paid,
                   if idle then accrued as real else AccrualLoss(s, m, height));
    }
  }

  lemma OpeningKeepsAncFloor(l: Ledger, k: Books, u: Unpaid, env: Env)
    requires MarketOk(l) && AncFloorOk(l.state, l.borrowers, k, u)
    ensures ComputeInterest(l.state, env, l.balance, l.supply).Some?
    ensures var s1 := ComputeInterest(l.state, env, l.balance, l.supply).value;
            && ComputeReward(s1, env.height).Some?
            && AncFloorOk(ComputeReward(s1, env.height).value, l.borrowers, BookOpening(k, l, env),
                          UnpaidAfterOpening(u, l, env))
  {
    OpenStep(l, env);
    InterestStep(l.state, env, l.balance, l.supply);
    var rate := env.borrowRate(l.balance, l.state.totalLiabilities, l.state.totalReserves);
    RewardKeepsFloor(ComputeInterest(l.state, env, l.balance, l.supply).value, l.borrowers,
                     BookInterest(k, l.state, env.height, rate), u, env.height);
  }

  // ----- settlement -----

  // Settled from index i to g, a borrower keeps its share but for two coins.
  lemma SettledShareAtLeast(loan: nat, i: nat, g: nat, settled: nat)
    requires i >= F && g >= F && loan * g <= (settled + 2) * i
    ensures loan * F * F / i <= settled * F * F / g + 2 * F
  {
    var q, share := loan * F * F / i, settled * F * F / g;
    Floor(loan * F * F, i);
    Floor(settled * F * F, g);
    ShareProduct(q, loan, i, g, settled);
    MulMono(F, g, 2 * F);
    assert (settled + 2) * F * F == settled * F * F + F * (2 * F);
    assert (share + 2 * F + 1) * g == share * g + g * (2 * F) + g;
    StrictCancel(q, share + 2 * F + 1, g);
  }

  lemma ShareProduct(q: nat, loan: nat, i: nat, g: nat, settled: nat)
    requires i > 0 && q * i <= loan * F * F && loan * g <= (settled + 2) * i
    ensures q * g <= (settled + 2) * F * F
  {
    MulMono(q * i, loan * F * F, g);
    MulMono(loan * g, (settled + 2) * i, F * F);
    assert loan * F * F * g == loan * g * (F * F);
    assert (settled + 2) * i * (F * F) == (settled + 2) * F * F * i;
    Rotate(q, i, g);
    MulCancel(q * g, (settled + 2) * F * F, i);
  }

  lemma CreditedAtLeast(before: nat, share: nat, delta: nat)
    requires before <= share + 2 * F
    ensures before as real * delta as real / F as real <= Mul(share, delta) as real + SettlementLoss(delta)
  {
    MulFloor(share, delta);
    MulMono(before, share + 2 * F, delta);
    var bound := Mul(share, delta) + 2 * delta + 1;
    assert before * delta <= bound * F by {
      assert (share + 2 * F) * delta == share * delta + 2 * delta * F;
      assert bound * F == Mul(share, delta) * F + 2 * delta * F + F;
    }
    assert (before * delta) as real <= (bound * F) as real;
    CrossDivide((before * delta) as real, F as real, bound as real, 1.0);
  }

  lemma UnsettledAtMost(b: BorrowerInfo, rewardIndex: nat, share: nat)
    requires b.rewardIndex <= rewardIndex && Share(b) <= share + 2 * F
    ensures Unsettled(b, rewardIndex)
         <= Mul(share, rewardIndex - b.rewardIndex) as real + SettlementLoss(rewardIndex - b.rewardIndex)
  {
    CreditedAtLeast(Share(b), share, rewardIndex - b.rewardIndex);
  }

  lemma SettledShareOf(b: BorrowerInfo, g: nat, settled: nat) returns (share: nat)
    requires b.interestIndex >= F && g >= F && b.loanAmount * g <= (settled + 2) * b.interestIndex
    ensures Div(Dec(settled), g) == Some(share) && Share(b) <= share + 2 * F
  {
    share := Div(Dec(settled), g).value;
    SettledShareAtLeast(b.loanAmount, b.interestIndex, g, settled);
  }

  lemma SettledEntitlementAtLeast(s: State, b: BorrowerInfo, settled: BorrowerInfo)
    requires BorrowerOk(s, b)
    requires b.loanAmount * s.globalInterestIndex <= (settled.loanAmount + 2) * b.interestIndex
    requires ComputeBorrowerReward(s, b.(loanAmount := settled.loanAmount, interestIndex := settled.interestIndex))
          == Some(settled)
    ensures Entitled(b, s.globalRewardIndex)
         <= settled.pendingRewards as real + SettlementLoss(s.globalRewardIndex - b.rewardIndex)
  {
    var share := SettledShareOf(b, s.globalInterestIndex, settled.loanAmount);
    UnsettledAtMost(b, s.globalRewardIndex, share);
  }

  /** Settle one borrower, store it with any loan and with `claimed` whole ANC paid out: it loses at most
      one raw unit and twice what a coin earned since its last settlement. */
  lemma AncAfterSettleAtLeast(l: Ledger, env: Env, who: Address, claimed: nat, b: BorrowerInfo)
    requires MarketOk(l)
    requires Settle(l, env, who, l.balance).Some?
    requires var st := Settle(l, env, who, l.balance).value;
             && b.rewardIndex == st.loan.rewardIndex
             && b.pendingRewards + Dec(claimed) == st.loan.pendingRewards
    ensures var st := Settle(l, env, who, l.balance).value;
            var r := st.state.globalRewardIndex;
            (TotalEntitled(l.borrowers, r) <= TotalEntitled(l.borrowers[who := b], r) + Dec(claimed) as real
                                              + SettlementLoss(r - ReadBorrower(l.borrowers, who).rewardIndex))
  {
    SettleStep(l, env, who);
    OpenStep(l, env);
    var st := Settle(l, env, who, l.balance).value;
    var before := ReadBorrower(l.borrowers, who);
    SettledWithinTwo(before.loanAmount, st.state.globalInterestIndex, before.interestIndex);
    SettledEntitlementAtLeast(st.state, before, st.loan);
    EntitledAfterUpdate(l.borrowers, who, b, st.state.globalRewardIndex);
    assert Unsettled(b, st.state.globalRewardIndex) == 0.0;
  }

  // ----- runs -----

  lemma AncFloorOkAfter(s: State, t: State, m: Borrowers, m': Borrowers, k: Books, k': Books, u: Unpaid, loss: real)
    requires AncFloorOk(s, m, k, u) && t.globalRewardIndex == s.globalRewardIndex && loss >= 0.0
    requires k'.emitted == k.emitted && k'.claimed >= k.claimed
    requires TotalEntitled(m, s.globalRewardIndex)
          <= TotalEntitled(m', s.globalRewardIndex) + Dec(k'.claimed - k.claimed) as real + loss
    ensures AncFloorOk(t, m', k', u.(gap := u.gap + loss))
  {
  }

  // What a borrower transaction claims, and what it loses.
  lemma BorrowerTxAnc(l: Ledger, tx: Tx, st: Settled, m: Borrowers, claimed: nat)
    requires MarketOk(l) && (tx.Borrow? || tx.Repay? || tx.Claim?) && Apply(l, tx).Some?
    requires Settle(l, tx.env, tx.who, l.balance) == Some(st) && m == Next(l, tx).borrowers
    requires claimed == if tx.Claim? then ClaimAmount(st.loan) else 0
    ensures Next(l, tx).state.globalRewardIndex == st.state.globalRewardIndex
    ensures TotalEntitled(l.borrowers, st.state.globalRewardIndex)
         <= TotalEntitled(m, st.state.globalRewardIndex) + Dec(claimed) as real + TxLoss(l, tx, st)
  {
    AncAfterSettleAtLeast(l, tx.env, tx.who, claimed, m[tx.who]);
  }

  lemma BorrowerTxBooks(l: Ledger, k: Books, u: Unpaid, tx: Tx, st: Settled)
    requires (tx.Borrow? || tx.Repay? || tx.Claim?) && Apply(l, tx).Some?
    requires Settle(l, tx.env, tx.who, l.balance) == Some(st)
    ensures NextBooks(l, k, tx).emitted == BookOpening(k, l, tx.env).emitted
    ensures NextBooks(l, k, tx).claimed
         == BookOpening(k, l, tx.env).claimed + if tx.Claim? then ClaimAmount(st.loan) else 0
    ensures var o := UnpaidAfterOpening(u, l, tx.env);
            NextUnpaid(l, u, tx) == o.(gap := o.gap + TxLoss(l, tx, st))
  {
  }

  lemma BorrowerTxKeepsAncFloor(l: Ledger, k: Books, u: Unpaid, tx: Tx)
    requires MarketOk(l) && AncFloorOk(l.state, l.borrowers, k, u)
    requires (tx.Borrow? || tx.Repay? || tx.Claim?) && Apply(l, tx).Some?
    ensures AncFloorOk(Next(l, tx).state, Next(l, tx).borrowers, NextBooks(l, k, tx), NextUnpaid(l, u, tx))
  {
    SettleStep(l, tx.env, tx.who);
    var st := Settle(l, tx.env, tx.who, l.balance).value;
    BorrowerTxFloor(l, k, u, tx, st, Next(l, tx).state, Next(l, tx).borrowers, BookOpening(k, l, tx.env),
                    NextBooks(l, k, tx));
    BorrowerTxBooks(l, k, u, tx, st);
  }

  lemma BorrowerTxFloor(l: Ledger, k: Books, u: Unpaid, tx: Tx, st: Settled, t: State, m: Borrowers,
                        o: Books, k': Books)
    requires MarketOk(l) && AncFloorOk(l.state, l.borrowers, k, u)
    requires (tx.Borrow? || tx.Repay? || tx.Claim?) && Apply(l, tx).Some?
    requires Settle(l, tx.env, tx.who, l.balance) == Some(st)
    requires t == Next(l, tx).state && m == Next(l, tx).borrowers
    requires o == BookOpening(k, l, tx.env) && k' == NextBooks(l, k, tx)
    ensures var left := UnpaidAfterOpening(u, l, tx.env);
            AncFloorOk(t, m, k', left.(gap := left.gap + TxLoss(l, tx, st)))
  {
    var claimed := if tx.Claim? then ClaimAmount(st.loan) else 0;
    OpeningKeepsAncFloor(l, k, u, tx.env);
    SettleStep(l, tx.env, tx.who);
    BorrowerTxAnc(l, tx, st, m, claimed);
    BorrowerTxBooks(l, k, u, tx, st);
    AncFloorOkAfter(st.state, t, l.borrowers, m, o, k', UnpaidAfterOpening(u, l, tx.env), TxLoss(l, tx, st));
  }

  lemma OtherTxKeepsAncFloor(l: Ledger, k: Books, u: Unpaid, tx: Tx)
    requires MarketOk(l) && AncFloorOk(l.state, l.borrowers, k, u)
    requires (tx.Deposit? || tx.Redeem? || tx.Epoch?) && Apply(l, tx).Some?
    ensures AncFloorOk(Next(l, tx).state, Next(l, tx).borrowers, NextBooks(l, k, tx), NextUnpaid(l, u, tx))
  {
    OpeningKeepsAncFloor(l, k, u, tx.env);
    if tx.Epoch? { EpochOpening(l, tx.env, tx.distributed, tx.newEmission); }
  }

  lemma StepKeepsAncFloor(l: Ledger, k: Books, u: Unpaid, tx: Tx)
    requires MarketOk(l) && AncFloorOk(l.state, l.borrowers, k, u)
    ensures AncFloorOk(Next(l, tx).state, Next(l, tx).borrowers, NextBooks(l, k, tx), NextUnpaid(l, u, tx))
  {
    if Apply(l, tx).Some? {
      match tx
      case Deposit(_, _) => OtherTxKeepsAncFloor(l, k, u, tx);
      case Redeem(_, _) => OtherTxKeepsAncFloor(l, k, u, tx);
      case Borrow(_, _, _, _, _) => BorrowerTxKeepsAncFloor(l, k, u, tx);
      case Repay(_, _, _) => BorrowerTxKeepsAncFloor(l, k, u, tx);
      case Claim(_, _) => BorrowerTxKeepsAncFloor(l, k, u, tx);
      case Accrue(env) => InterestStep(l.state, env, l.balance, l.supply);
      case Epoch(_, _, _) => OtherTxKeepsAncFloor(l, k, u, tx);
      case Donate(_) =>
    }
  }

  lemma {:induction false} RunKeepsAncFloor(l: Ledger, k: Books, u: Unpaid, txs: seq<Tx>)
    requires MarketOk(l) && AncFloorOk(l.state, l.borrowers, k, u)
    ensures AncFloorOk(Run(l, txs).state, Run(l, txs).borrowers, RunBooks(l, k, txs), RunUnpaid(l, u, txs))
    decreases |txs|
  {
    if txs != [] {
      StepSafe(l, txs[0]);
      StepKeepsAncFloor(l, k, u, txs[0]);
      RunKeepsAncFloor(Next(l, txs[0]), NextBooks(l, k, txs[0]), NextUnpaid(l, u, txs[0]), txs[1..]);
    }
  }

  // ----- how large the gap can be -----

  lemma SharesNearPrincipals(m: Borrowers)
    ensures Times(F as real, Total(Principals(m))) <= Total(Shares(m)) + |m| as real
  {
    var scaled := map a | a in m :: Times(F as real, Principals(m)[a]);
    var ones := map a | a in m :: 1.0;
    var most := map a | a in m :: Shares(m)[a] + ones[a];
    forall a | a in m ensures scaled[a] <= most[a] {
      ShareNearPrincipal(m[a]);
    }
    TotalMono(scaled, most);
    TotalScale(scaled, Principals(m), F as real);
    TotalAdd(most, Shares(m), ones);
    assert ones.Keys == m.Keys;
    TotalOfOnes(ones);
    assert |ones| == |ones.Keys| == |m.Keys| == |m|;
  }

  lemma {:induction false} TotalOfOnes<K>(m: map<K, real>)
    requires forall k :: k in m ==> m[k] == 1.0
    ensures Total(m) == |m| as real
    decreases |m|
  {
    if m.Keys == {} {
      assert m == map[];
    } else {
      var k :| k in m;
      TotalRemove(m, k);
      assert (m - {k}).Keys == m.Keys - {k};
      TotalOfOnes(m - {k});
    }
  }

  lemma ShareNearPrincipal(b: BorrowerInfo)
    ensures Times(F as real, Principal(b)) <= Share(b) as real + 1.0
  {
    if b.interestIndex != 0 {
      var x, top := b.interestIndex as real, b.loanAmount * F * F;
      Floor(top, b.interestIndex);
      assert top as real <= (Share(b) * b.interestIndex + b.interestIndex) as real;
      CrossDivide(top as real, x, Share(b) as real + 1.0, 1.0);
      DivideTimes(F as real, b.loanAmount as real * F as real, x);
    }
  }

  /** The shares no borrower holds are within the gap of the debts and one unit for each borrower; and
      the divisor is within what was lent and that gap. */
  lemma UnownedWithin(s: State, m: Borrowers, gap: real)
    requires s.globalInterestIndex >= F && FloorOk(s, m, gap)
    ensures Unowned(s, m) <= gap + |m| as real
    ensures Divisor(s) as real <= Times(F as real, Total(Principals(m))) + gap
  {
    var g := s.globalInterestIndex;
    Floor(s.totalLiabilities * F, g);
    assert Times(g as real, Divisor(s) as real) <= Times(F as real, s.totalLiabilities as real) by {
      assert (Divisor(s) * g) as real <= (s.totalLiabilities * F) as real;
    }
    DivisorWithin(Divisor(s) as real, g as real, F as real, s.totalLiabilities as real, Total(Principals(m)), gap);
    SharesNearPrincipals(m);
  }

  lemma DivisorWithin(divisor: real, g: real, f: real, liabilities: real, p: real, gap: real)
    requires g >= f > 0.0 && gap >= 0.0
    requires Times(g, divisor) <= Times(f, liabilities) && liabilities <= Times(g, p) + gap
    ensures divisor <= Times(f, p) + gap
  {
    TimesMonoRight(f, liabilities, Times(g, p) + gap);
    TimesSum(f, Times(g, p), gap);
    Swap(f, g, p);
    TimesMono(f, g, gap);
    TimesSum(g, Times(f, p), gap);
    CancelTimes(g, divisor, Times(f, p) + gap);
  }

  lemma CancelTimes(c: real, x: real, y: real)
    requires c > 0.0 && Times(c, x) <= Times(c, y)
    ensures x <= y
  {
    if y < x { StrictProduct(y, x, c); }
  }

  // What reward index `r` paid, in whole decimals.
  ghost function Earned(r: int): real { r as real / F as real }

  lemma EarnedSum(a: int, b: int)
    ensures Earned(a + b) == Earned(a) + Earned(b)
  {
    SumOfQuotients(a as real, b as real, F as real);
  }

  // One accrual loses what its step pays to unowned shares, and one raw unit for each share.
  lemma AccrualLossWithin(s: State, m: Borrowers, height: nat, gap: real, w: real)
    requires s.globalInterestIndex >= F && FloorOk(s, m, gap) && gap + |m| as real <= w
    ensures AccrualLoss(s, m, height)
         <= Times(Earned(RewardStepSize(s, height)), w) + (Total(Principals(m)) + w / F as real)
  {
    var c := Earned(RewardStepSize(s, height));
    UnownedWithin(s, m, gap);
    QuotientNonNegative(RewardStepSize(s, height) as real, F as real);
    TimesMonoRight(c, Unowned(s, m), w);
    PerShare(Divisor(s) as real, Total(Principals(m)), w, F as real);
  }

  lemma PerShare(divisor: real, p: real, w: real, f: real)
    requires f > 0.0 && divisor <= Times(f, p) + w
    ensures divisor / f <= p + w / f
  {
    assert Times(f, p) + w == f * (p + w / f);
    CrossDivide(divisor, f, p + w / f, 1.0);
  }

  lemma RewardLossWithin(u: Unpaid, s: State, m: Borrowers, height: nat, gap: real, w: real)
    requires s.globalInterestIndex >= F && FloorOk(s, m, gap) && gap + |m| as real <= w
    ensures ComputeReward(s, height).Some?
    ensures var d := ComputeReward(s, height).value.globalRewardIndex - s.globalRewardIndex;
            d >= 0 && UnpaidAfterReward(u, s, m, height).gap
                      <= u.gap + Times(Earned(d), w) + (Total(Principals(m)) + w / F as real)
  {
    PrincipalsNonNegative(m);
    QuotientNonNegative(w, F as real);
    if s.lastRewardUpdated < height {
      var step, _ := RewardFigures(s, height);
      QuotientNonNegative(step as real, F as real);
      TimesMonoRight(Earned(step), 0.0, w);
      AccrualLossWithin(s, m, height, gap, w);
    }
  }

  // The reward index once both accruals are done.
  predicate OpenedAt(l: Ledger, env: Env, r: nat) {
    var s1 := ComputeInterest(l.state, env, l.balance, l.supply);
    && s1.Some? && ComputeReward(s1.value, env.height).Some?
    && ComputeReward(s1.value, env.height).value.globalRewardIndex == r
  }

  lemma OpeningLossWithin(l: Ledger, u: Unpaid, env: Env, gap: real, w: real, r: nat)
    requires MarketOk(l) && FloorOk(l.state, l.borrowers, gap) && OpenedAt(l, env, r)
    requires GapAfterOpening(gap, l, env) + |l.borrowers| as real <= w
    ensures r >= l.state.globalRewardIndex
    ensures UnpaidAfterOpening(u, l, env).gap
         <= u.gap + Times(Earned(r - l.state.globalRewardIndex), w)
            + (Total(Principals(l.borrowers)) + w / F as real)
  {
    InterestStep(l.state, env, l.balance, l.supply);
    OpeningKeepsFloor(l, gap, env);
    RewardLossWithin(u, ComputeInterest(l.state, env, l.balance, l.supply).value, l.borrowers, env.height,
                     GapAfterOpening(gap, l, env), w);
  }

  // Every transaction but a donation and a plain accrual opens with both accruals, and settles at most
  // one borrower.
  lemma BorrowerLossWithin(l: Ledger, u: Unpaid, tx: Tx, r: nat)
    requires MarketOk(l) && (tx.Borrow? || tx.Repay? || tx.Claim?) && Apply(l, tx).Some?
    requires r == Next(l, tx).state.globalRewardIndex
    ensures OpenedAt(l, tx.env, r)
    ensures NextUnpaid(l, u, tx).gap <= UnpaidAfterOpening(u, l, tx.env).gap + SettlementLoss(r)
  {
    OpenStep(l, tx.env);
    SettleStep(l, tx.env, tx.who);
  }

  lemma TxLossWithin(l: Ledger, u: Unpaid, tx: Tx, r: nat)
    requires MarketOk(l) && Apply(l, tx).Some? && !tx.Donate? && !tx.Accrue?
    requires r == Next(l, tx).state.globalRewardIndex
    ensures OpenedAt(l, tx.env, r)
    ensures NextUnpaid(l, u, tx).gap <= UnpaidAfterOpening(u, l, tx.env).gap + SettlementLoss(r)
  {
    if tx.Borrow? || tx.Repay? || tx.Claim? {
      BorrowerLossWithin(l, u, tx, r);
    } else {
      OpenStep(l, tx.env);
      if tx.Epoch? { EpochOpening(l, tx.env, tx.distributed, tx.newEmission); }
    }
  }

  lemma IdleTx(l: Ledger, u: Unpaid, tx: Tx)
    requires MarketOk(l) && (Apply(l, tx).None? || tx.Donate? || tx.Accrue?)
    ensures NextUnpaid(l, u, tx) == u && Next(l, tx).state.globalRewardIndex == l.state.globalRewardIndex
  {
    if tx.Accrue? { InterestStep(l.state, tx.env, l.balance, l.supply); }
  }

  lemma NextGapOfOpening(l: Ledger, gap: real, tx: Tx)
    requires Apply(l, tx).Some? && !tx.Donate?
    ensures GapAfterOpening(gap, l, tx.env) <= NextGap(l, gap, tx)
  {
  }

  lemma IdleLossWithin(l: Ledger, u: Unpaid, tx: Tx, gap: real, w: real, v: real, r: nat)
    requires MarketOk(l) && FloorOk(l.state, l.borrowers, gap)
    requires Apply(l, tx).None? || tx.Donate? || tx.Accrue?
    requires NextGap(l, gap, tx) + |l.borrowers| as real <= w && r == Next(l, tx).state.globalRewardIndex
    requires Total(Principals(l.borrowers)) + w / F as real + SettlementLoss(r) <= v
    ensures r == l.state.globalRewardIndex && NextUnpaid(l, u, tx).gap == u.gap && v >= 0.0
  {
    PrincipalsNonNegative(l.borrowers);
    NextGapBounds(l, gap, tx);
    QuotientNonNegative(w, F as real);
    IdleTx(l, u, tx);
  }

  /** What one transaction loses: at most what its reward step pays to `w` shares, and `v`. */
  lemma StepLossWithin(l: Ledger, u: Unpaid, tx: Tx, gap: real, w: real, v: real, r: nat)
    requires MarketOk(l) && FloorOk(l.state, l.borrowers, gap)
    requires NextGap(l, gap, tx) + |l.borrowers| as real <= w && r == Next(l, tx).state.globalRewardIndex
    requires Total(Principals(l.borrowers)) + w / F as real + SettlementLoss(r) <= v
    ensures r >= l.state.globalRewardIndex
    ensures NextUnpaid(l, u, tx).gap <= u.gap + Times(Earned(r - l.state.globalRewardIndex), w) + v
  {
    if Apply(l, tx).Some? && !tx.Donate? && !tx.Accrue? {
      NextGapOfOpening(l, gap, tx);
      TxLossWithin(l, u, tx, r);
      OpeningLossWithin(l, u, tx.env, gap, w, r);
    } else {
      IdleLossWithin(l, u, tx, gap, w, v, r);
      assert Times(Earned(0), w) == 0.0;
    }
  }

  lemma BorrowersKept(l: Ledger, tx: Tx)
    ensures l.borrowers.Keys <= Next(l, tx).borrowers.Keys
  {
  }

  lemma {:induction false} RunKeepsBorrowers(l: Ledger, txs: seq<Tx>)
    ensures l.borrowers.Keys <= Run(l, txs).borrowers.Keys
    decreases |txs|
  {
    if txs != [] {
      BorrowersKept(l, txs[0]);
      RunKeepsBorrowers(Next(l, txs[0]), txs[1..]);
    }
  }

  lemma {:induction false} FewerBorrowers(l: Ledger, txs: seq<Tx>)
    ensures |l.borrowers| <= |Run(l, txs).borrowers|
  {
    RunKeepsBorrowers(l, txs);
    SubsetSize(l.borrowers.Keys, Run(l, txs).borrowers.Keys);
    assert |l.borrowers| == |l.borrowers.Keys| && |Run(l, txs).borrowers| == |Run(l, txs).borrowers.Keys|;
  }

  // `w` covers the shares no borrower holds, `v` the rounding of one transaction, to the end of the run.
  ghost predicate LossCaps(l: Ledger, k: Books, gap: real, txs: seq<Tx>, w: real, v: real) {
    && RunGap(l, gap, txs) + |Run(l, txs).borrowers| as real <= w
    && (RunBooks(l, k, txs).borrowed as real + w / F as real + SettlementLoss(Run(l, txs).state.globalRewardIndex)
        <= v)
  }

  lemma CapsOfRest(l: Ledger, k: Books, gap: real, txs: seq<Tx>, w: real, v: real)
    requires txs != [] && LossCaps(l, k, gap, txs, w, v)
    ensures LossCaps(Next(l, txs[0]), NextBooks(l, k, txs[0]), NextGap(l, gap, txs[0]), txs[1..], w, v)
  {
  }

  // The first transaction of a run, against bounds taken at its end.
  lemma FirstLossWithin(l: Ledger, k: Books, u: Unpaid, gap: real, txs: seq<Tx>, w: real, v: real, r: nat)
    requires txs != [] && r == Next(l, txs[0]).state.globalRewardIndex
    requires MarketOk(l) && FloorOk(l.state, l.borrowers, gap) && LentOk(l.borrowers, k)
    requires LossCaps(l, k, gap, txs, w, v)
    ensures LossWithin(NextUnpaid(l, u, txs[0]).gap - u.gap, r - l.state.globalRewardIndex, 1, w, v)
  {
    StepSafe(l, txs[0]);
    NextGapBounds(l, gap, txs[0]);
    RunGapGrows(Next(l, txs[0]), NextGap(l, gap, txs[0]), txs[1..]);
    FewerBorrowers(l, txs);
    BorrowedGrows(l, k, txs);
    RunSafe(Next(l, txs[0]), txs[1..]);
    StepLossWithin(l, u, txs[0], gap, w, v, r);
  }

  // Over n transactions whose reward steps sum up to d.
  ghost predicate LossWithin(lost: real, d: int, n: nat, w: real, v: real) {
    lost <= Times(Earned(d), w) + Times(n as real, v)
  }

  lemma LossSum(u0: real, u1: real, u2: real, r0: int, r1: int, r2: int, n1: nat, n2: nat, w: real, v: real)
    requires LossWithin(u1 - u0, r1 - r0, n1, w, v) && LossWithin(u2 - u1, r2 - r1, n2, w, v)
    ensures LossWithin(u2 - u0, r2 - r0, n1 + n2, w, v)
  {
    EarnedSum(r1 - r0, r2 - r1);
    assert Times(Earned(r1 - r0) + Earned(r2 - r1), w) == Times(Earned(r1 - r0), w) + Times(Earned(r2 - r1), w);
    assert Times((n1 + n2) as real, v) == Times(n1 as real, v) + Times(n2 as real, v);
  }

  lemma NoLoss(w: real, v: real)
    ensures LossWithin(0.0, 0, 0, w, v)
  {
    assert Earned(0) == 0.0;
  }

  ghost predicate RunLossOk(l: Ledger, u: Unpaid, txs: seq<Tx>, w: real, v: real) {
    LossWithin(RunUnpaid(l, u, txs).gap - u.gap, Run(l, txs).state.globalRewardIndex - l.state.globalRewardIndex,
               |txs|, w, v)
  }

  lemma LossOfRest(l: Ledger, u: Unpaid, txs: seq<Tx>, w: real, v: real)
    requires txs != [] && RunLossOk(Next(l, txs[0]), NextUnpaid(l, u, txs[0]), txs[1..], w, v)
    requires LossWithin(NextUnpaid(l, u, txs[0]).gap - u.gap,
                        Next(l, txs[0]).state.globalRewardIndex - l.state.globalRewardIndex, 1, w, v)
    ensures RunLossOk(l, u, txs, w, v)
  {
    LossSum(u.gap, NextUnpaid(l, u, txs[0]).gap, RunUnpaid(l, u, txs).gap, l.state.globalRewardIndex,
            Next(l, txs[0]).state.globalRewardIndex, Run(l, txs).state.globalRewardIndex, 1, |txs| - 1, w, v);
  }

  lemma StepKeepsFloors(l: Ledger, k: Books, gap: real, tx: Tx)
    requires MarketOk(l) && FloorOk(l.state, l.borrowers, gap) && LentOk(l.borrowers, k)
    ensures MarketOk(Next(l, tx)) && LentOk(Next(l, tx).borrowers, NextBooks(l, k, tx))
    ensures FloorOk(Next(l, tx).state, Next(l, tx).borrowers, NextGap(l, gap, tx))
  {
    StepSafe(l, tx);
    StepKeepsFloor(l, gap, tx);
    StepKeepsLent(l, k, tx);
  }

  lemma {:induction false} RunLossWithin(l: Ledger, k: Books, u: Unpaid, gap: real, txs: seq<Tx>, w: real, v: real)
    requires MarketOk(l) && FloorOk(l.state, l.borrowers, gap) && LentOk(l.borrowers, k)
    requires LossCaps(l, k, gap, txs, w, v)
    ensures RunLossOk(l, u, txs, w, v)
    decreases |txs|
  {
    if txs == [] {
      NoLoss(w, v);
    } else {
      FirstLossWithin(l, k, u, gap, txs, w, v, Next(l, txs[0]).state.globalRewardIndex);
      CapsOfRest(l, k, gap, txs, w, v);
      StepKeepsFloors(l, k, gap, txs[0]);
      RunLossWithin(Next(l, txs[0]), NextBooks(l, k, txs[0]), NextUnpaid(l, u, txs[0]), NextGap(l, gap, txs[0]),
                    txs[1..], w, v);
      LossOfRest(l, u, txs, w, v);
    }
  }

  // ----- from init -----

  const ALL_PAID := Unpaid(0, 0.0)

  lemma {:induction false} AncFloorFromStart(l: Ledger, txs: seq<Tx>)
    requires MarketOk(l) && l.borrowers == map[] && l.state.totalLiabilities == 0
    ensures AncFloorOk(Run(l, txs).state, Run(l, txs).borrowers, RunBooks(l, EMPTY_BOOKS, txs),
                       RunUnpaid(l, ALL_PAID, txs))
  {
    assert Entitlements(l.borrowers, l.state.globalRewardIndex) == map[];
    RunKeepsAncFloor(l, EMPTY_BOOKS, ALL_PAID, txs);
  }

  lemma {:induction false} LossFromStart(l: Ledger, txs: seq<Tx>, w: real, v: real)
    requires MarketOk(l) && l.borrowers == map[] && l.state.totalLiabilities == 0 && l.state.globalRewardIndex == 0
    requires w == RunGap(l, 0.0, txs) + |Run(l, txs).borrowers| as real
    requires v == RunBooks(l, EMPTY_BOOKS, txs).borrowed as real + w / F as real
                  + SettlementLoss(Run(l, txs).state.globalRewardIndex)
    ensures RunUnpaid(l, ALL_PAID, txs).gap
         <= Times(Earned(Run(l, txs).state.globalRewardIndex), w) + Times(|txs| as real, v)
  {
    assert Principals(map[]) == map[];
    assert FloorOk(l.state, l.borrowers, 0.0) && LentOk(l.borrowers, EMPTY_BOOKS);
    RunLossWithin(l, EMPTY_BOOKS, ALL_PAID, 0.0, txs, w, v);
  }

  /** In every reachable state: claimed, pending and unsettled ANC together are at least the emission,
      less what accrued while nothing was lent, and less a gap. The gap is at most what the shares no
      borrower holds (the gap of the debts, and one unit for each borrower) earned since init, and for
      each transaction one raw unit for each coin lent and what a settlement floors. */
  lemma {:induction false} ReachableAncFloor(height: nat, emission: nat, txs: seq<Tx>)
    ensures var l0 := InitialLedger(height, emission);
            var l, k, u := Run(l0, txs), RunBooks(l0, EMPTY_BOOKS, txs), RunUnpaid(l0, ALL_PAID, txs);
            var unowned := RunGap(l0, 0.0, txs) + |l.borrowers| as real;
            && (Dec(k.claimed) as real + TotalEntitled(l.borrowers, l.state.globalRewardIndex) + u.idle as real + u.gap
                >= k.emitted as real)
            && u.gap <= Times(Earned(l.state.globalRewardIndex), unowned)
                        + Times(|txs| as real, k.borrowed as real + unowned / F as real
                                               + SettlementLoss(l.state.globalRewardIndex))
  {
    var l0 := InitialLedger(height, emission);
    AncFloorFromStart(l0, txs);
    var w := RunGap(l0, 0.0, txs) + |Run(l0, txs).borrowers| as real;
    LossFromStart(l0, txs, w, RunBooks(l0, EMPTY_BOOKS, txs).borrowed as real + w / F as real
                              + SettlementLoss(Run(l0, txs).state.globalRewardIndex));
  }

  // Whenever `tx` accrues rewards, something is lent.
  ghost predicate LentAt(l: Ledger, tx: Tx) {
    tx.Accrue? || tx.Donate? || l.state.lastRewardUpdated >= tx.env.height ||
    var s1 := ComputeInterest(l.state, tx.env, l.balance, l.supply);
    s1.Some? ==> s1.value.globalInterestIndex > 0 && Divisor(s1.value) > 0
  }

  ghost predicate LentRun(l: Ledger, txs: seq<Tx>)
    decreases |txs|
  {
    txs == [] || (LentAt(l, txs[0]) && LentRun(Next(l, txs[0]), txs[1..]))
  }

  lemma LentIsNotIdle(l: Ledger, u: Unpaid, tx: Tx)
    requires MarketOk(l) && LentAt(l, tx)
    ensures NextUnpaid(l, u, tx).idle == u.idle
  {
    if Apply(l, tx).Some? && !tx.Donate? && !tx.Accrue? {
      InterestStep(l.state, tx.env, l.balance, l.supply);
      InterestLeavesRewards(l.state, tx.env, l.balance, l.supply);
    }
  }

  lemma InterestLeavesRewards(s: State, env: Env, balance: nat, supply: nat)
    requires ComputeInterest(s, env, balance, supply).Some?
    ensures ComputeInterest(s, env, balance, supply).value.lastRewardUpdated == s.lastRewardUpdated
  {
  }

  /** While something is lent at each accrual of rewards, no emission is idle. */
  lemma {:induction false} NoIdleEmission(l: Ledger, u: Unpaid, txs: seq<Tx>)
    requires MarketOk(l) && LentRun(l, txs)
    ensures RunUnpaid(l, u, txs).idle == u.idle
    decreases |txs|
  {
    if txs != [] {
      StepSafe(l, txs[0]);
      LentIsNotIdle(l, u, txs[0]);
      NoIdleEmission(Next(l, txs[0]), NextUnpaid(l, u, txs[0]), txs[1..]);
    }
  }
}
