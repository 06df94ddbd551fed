/** How much accrues: interest on loans and liabilities, and ANC on the reward index, from both sides
    and in the figures a user knows (blocks, rates, amounts). */
module Accrual {
  import opened FixedPoint
  import opened Addresses
  import opened MarketModel
  import opened MarketSafety

  // ----- interest -----

  // x grown by a factor and floored, as the index and the liabilities grow.
  lemma GrownFloor(x: nat, factor: nat)
    ensures Mul(x, F + factor) * F <= x * (F + factor) < Mul(x, F + factor) * F + F
    ensures (x + Mul(x, factor)) * F <= x * (F + factor) < (x + Mul(x, factor)) * F + F
  {
    MulFloor(x, F + factor);
    MulFloor(x, factor);
    Distribute(x, F, factor);
    Distribute(F, x, Mul(x, factor));
  }

  /** Over n blocks at rate r the liabilities and the interest index grow by the factor 1 + n * r, short
      of less than one raw unit; the rest of what accrual stores is of this moment. */
  lemma InterestAccrues(s: State, height: nat, balance: nat, supply: nat, borrowRate: nat, target: nat)
    requires height > s.lastInterestUpdated
    requires ComputeInterestRaw(s, height, balance, supply, borrowRate, target).Some?
    ensures var n := height - s.lastInterestUpdated;
            var t := ComputeInterestRaw(s, height, balance, supply, borrowRate, target).value;
            && t.totalLiabilities * F <= s.totalLiabilities * (F + n * borrowRate) < t.totalLiabilities * F + F
            && t.globalInterestIndex * F <= s.globalInterestIndex * (F + n * borrowRate) < t.globalInterestIndex * F + F
            && t.lastInterestUpdated == height && t.prevAterraSupply == supply
            && t.lastRewardUpdated == s.lastRewardUpdated && t.globalRewardIndex == s.globalRewardIndex
            && t.ancEmissionRate == s.ancEmissionRate
  {
    var n := height - s.lastInterestUpdated;
    MulDecLeft(n, borrowRate);
    GrownFloor(s.totalLiabilities, n * borrowRate);
    GrownFloor(s.globalInterestIndex, n * borrowRate);
  }

  // A settled loan against the growth of the index since it was last settled at `index`.
  lemma GrownLoan(loan: nat, index: nat, newIndex: nat, factor: nat)
    requires index >= F && newIndex * F <= index * (F + factor) < newIndex * F + F
    ensures Div(Mul(loan, newIndex), index).Some?
    ensures var settled := Div(Mul(loan, newIndex), index).value;
            settled * F <= loan * (F + factor) <= (settled + 2) * F + loan
  {
    SettledWithinTwo(loan, newIndex, index);
    var settled := Div(Mul(loan, newIndex), index).value;
    LoanAtMost(loan, index, newIndex, factor, settled);
    LoanAtLeast(loan, index, newIndex, factor, settled);
  }

  lemma SettledWithinTwo(loan: nat, g: nat, i: nat)
    requires i >= F
    ensures Div(Mul(loan, g), i).Some?
    ensures var settled := Div(Mul(loan, g), i).value; settled * i <= loan * g <= (settled + 2) * i
  {
    MulFloor(loan, g);
    DivFloor(Mul(loan, g), i);
    var settled := Div(Mul(loan, g), i).value;
    assert (settled + 2) * i == settled * i + i + i;
  }

  lemma LoanAtMost(loan: nat, i: nat, g: nat, factor: nat, settled: nat)
    requires i >= F && g * F <= i * (F + factor) && settled * i <= loan * g
    ensures settled * F <= loan * (F + factor)
  {
    MulMono(settled * i, loan * g, F);
    MulMono(g * F, i * (F + factor), loan);
    Rotate(settled, i, F);
    Rotate(loan, g, F);
    Rotate(loan, i, F + factor);
    MulCancel(settled * F, loan * (F + factor), i);
  }

  lemma LoanAtLeast(loan: nat, i: nat, g: nat, factor: nat, settled: nat)
    requires i >= F && i * (F + factor) < g * F + F && loan * g <= (settled + 2) * i
    ensures loan * (F + factor) <= (settled + 2) * F + loan
  {
    MulMono(i * (F + factor), g * F + F, loan);
    Rotate(loan, i, F + factor);
    Distribute(loan, g * F, F);
    Rotate(loan, g, F);
    MulMono(loan * g, (settled + 2) * i, F);
    Rotate(settled + 2, i, F);
    MulMono(F, i, loan);
    Distribute(i, (settled + 2) * F, loan);
    MulCancel(loan * (F + factor), (settled + 2) * F + loan, i);
  }

  /** A loan settled when the interest last was, and again n blocks later at borrow rate r: it has
      grown by 1 + n * r, short of at most two coins and loan / 10^18. */
  lemma LoanAfterBlocks(l: Ledger, env: Env, who: Address)
    requires MarketOk(l) && env.height > l.state.lastInterestUpdated
    requires who in l.borrowers && l.borrowers[who].interestIndex == l.state.globalInterestIndex
    ensures Settle(l, env, who, l.balance).Some?
    ensures var n := env.height - l.state.lastInterestUpdated;
            var r := env.borrowRate(l.balance, l.state.totalLiabilities, l.state.totalReserves);
            var before, after := l.borrowers[who].loanAmount, Settle(l, env, who, l.balance).value.loan.loanAmount;
            after * F <= before * (F + n * r) <= (after + 2) * F + before
  {
    SettleStep(l, env, who);
    InterestStep(l.state, env, l.balance, l.supply);
    var r := env.borrowRate(l.balance, l.state.totalLiabilities, l.state.totalReserves);
    InterestAccrues(l.state, env.height, l.balance, l.supply, r, env.targetRate);
    var s1 := ComputeInterest(l.state, env, l.balance, l.supply).value;
    GrownLoan(l.borrowers[who].loanAmount, l.state.globalInterestIndex, s1.globalInterestIndex,
              (env.height - l.state.lastInterestUpdated) * r);
  }

  // Nothing lent and nothing given away: the rate stays at one, and nothing is skimmed.
  lemma RateOfOne(s: State, blocks: nat)
    requires s.totalLiabilities == 0 && s.totalReserves == 0 && blocks > 0
    ensures ExchangeRate(s, INITIAL_DEPOSIT, INITIAL_DEPOSIT) == Some(F)
    ensures DepositRate(F, F, blocks) == Some(0)
  {
    DivExact(F, Dec(INITIAL_DEPOSIT));
    DivExact(F, F);
  }

  /** Counted from instantiation at `height`: the index grows from one over the blocks since, nothing
      is owed, one aUST is still worth one coin, and ANC accrues from this block on at the rate given. */
  lemma FirstAccrual(height: nat, emission: nat, env: Env)
    requires env.height > height
    ensures var l := InitialLedger(height, emission);
            && ComputeInterest(l.state, env, l.balance, l.supply).Some?
            && var s := ComputeInterest(l.state, env, l.balance, l.supply).value;
               && s.globalInterestIndex == F + (env.height - height) * env.borrowRate(1_000_000, 0, 0)
               && s.totalLiabilities == 0 && s.totalReserves == 0 && s.prevExchangeRate == F
               && ComputeReward(s, env.height) == Some(s.(lastRewardUpdated := env.height))
               && s.globalRewardIndex == 0 && s.ancEmissionRate == emission
  {
    var l := InitialLedger(height, emission);
    InterestStep(l.state, env, l.balance, l.supply);
    RateOfOne(Grow(l.state, InterestFactor(l.state, env.height, env.borrowRate(1_000_000, 0, 0))), env.height - height);
    InterestAccrues(l.state, env.height, l.balance, l.supply, env.borrowRate(1_000_000, 0, 0), env.targetRate);
    var s := ComputeInterest(l.state, env, l.balance, l.supply).value;
    RewardAccrues(s, env.height);
  }

  // ----- ANC -----

  /** Over n blocks at emission rate e, with a liabilities-to-index divisor above zero, the reward index
      moves by the largest step that does not hand out more than n * e to that many shares. */
  lemma RewardAccrues(s: State, height: nat)
    requires s.globalInterestIndex > 0 && height > s.lastRewardUpdated
    ensures ComputeReward(s, height).Some?
    ensures var n := height - s.lastRewardUpdated;
            var divisor := s.totalLiabilities * F / s.globalInterestIndex;
            var t := ComputeReward(s, height).value;
            && t == s.(globalRewardIndex := t.globalRewardIndex, lastRewardUpdated := height)
            && var d := t.globalRewardIndex - s.globalRewardIndex;
               && d >= 0 && (divisor == 0 ==> d == 0)
               && (divisor > 0 ==> d * divisor <= n * s.ancEmissionRate * F < (d + 1) * divisor)
  {
    MulDecLeft(height - s.lastRewardUpdated, s.ancEmissionRate);
    var accrued := (height - s.lastRewardUpdated) * s.ancEmissionRate;
    var divisor := Div(s.totalLiabilities, s.globalInterestIndex).value;
    if divisor > 0 {
      Floor(accrued * F, divisor);
      Distribute(divisor, accrued * F / divisor, 1);
    }
  }

  /** Settling credits a borrower with the ANC on its shares (loan per unit of index) since its last
      settlement, short of less than one raw unit. */
  lemma RewardCredited(s: State, b: BorrowerInfo)
    requires s.globalInterestIndex > 0 && b.rewardIndex <= s.globalRewardIndex
    ensures ComputeBorrowerReward(s, b).Some?
    ensures var c := ComputeBorrowerReward(s, b).value;
            var share, delta := b.loanAmount * F * F / s.globalInterestIndex, s.globalRewardIndex - b.rewardIndex;
            && c.rewardIndex == s.globalRewardIndex
            && c.loanAmount == b.loanAmount && c.interestIndex == b.interestIndex
            && c.pendingRewards >= b.pendingRewards
            && (c.pendingRewards - b.pendingRewards) * F <= share * delta
                 < (c.pendingRewards - b.pendingRewards) * F + F
  {
    MulFloor(Div(Dec(b.loanAmount), s.globalInterestIndex).value, s.globalRewardIndex - b.rewardIndex);
  }
}
