/** What each market transaction gives and takes: amounts minted, paid, lent, repaid and claimed, from
    both sides, and everything it leaves alone. */
module MarketEffects {
  import opened FixedPoint
  import opened Tax
  import opened Addresses
  import opened MarketModel
  import opened Solvency
  import opened MarketSafety
  import opened RateTheorems
  import opened OverseerModel

  // What sending an amount costs: all of it but three units, at a tax rate of at most 1.
  lemma SendingCosts(amount: nat, env: Env)
    ensures Outflow(amount, env.taxRate, env.taxCap) <= amount
    ensures env.taxRate <= F ==> amount <= Outflow(amount, env.taxRate, env.taxCap) + 3
  {
    OutflowWithinGross(amount, env.taxRate, env.taxCap);
    if env.taxRate <= F { OutflowNearGross(amount, env.taxRate, env.taxCap); }
  }

  // ----- depositors -----

  // The opening of a depositor transaction: the settled state and the live rate.
  lemma Quoted(l: Ledger, env: Env) returns (s: State, rate: nat)
    requires MarketOk(l)
    ensures ComputeInterest(l.state, env, l.balance, l.supply).Some?
    ensures ComputeReward(ComputeInterest(l.state, env, l.balance, l.supply).value, env.height) == Some(s)
    ensures Solvent(s, l.balance, l.supply) && ExchangeRate(s, l.supply, l.balance) == Some(rate) && rate >= F
  {
    OpenStep(l, env);
    s := ComputeReward(ComputeInterest(l.state, env, l.balance, l.supply).value, env.height).value;
    RateIsCoverage(s, l.supply, l.balance, s.prevExchangeRate);
    rate := ExchangeRate(s, l.supply, l.balance).value;
  }

  lemma LargestMint(amount: nat, rate: nat)
    requires rate > 0
    ensures Div(amount, rate).Some?
    ensures var mint := Div(amount, rate).value; mint * rate <= amount * F < (mint + 1) * rate
  {
    DivFloor(amount, rate);
    Distribute(rate, Div(amount, rate).value, 1);
  }

  /** A deposit takes the coins and mints the most aUST that they pay for at the live rate. */
  lemma DepositEffect(l: Ledger, env: Env, amount: nat) returns (s: State, rate: nat, mint: nat)
    requires MarketOk(l) && amount > 0
    ensures ComputeInterest(l.state, env, l.balance, l.supply).Some?
    ensures ComputeReward(ComputeInterest(l.state, env, l.balance, l.supply).value, env.height) == Some(s)
    ensures ExchangeRate(s, l.supply, l.balance) == Some(rate)
    ensures mint * rate <= amount * F < (mint + 1) * rate
    ensures DepositStable(l, env, amount)
         == Some(l.(state := s.(prevAterraSupply := s.prevAterraSupply + mint),
                    balance := l.balance + amount, supply := l.supply + mint))
  {
    s, rate := Quoted(l, env);
    LargestMint(amount, rate);
    mint := Div(amount, rate).value;
  }

  /** A redemption burns the aUST and costs the market what they are worth at the live rate, short of
      less than one coin: the recipient's part and the tax on it. */
  lemma RedeemEffect(l: Ledger, env: Env, burn: nat) returns (s: State, rate: nat, worth: nat)
    requires MarketOk(l) && RedeemStable(l, env, burn).Some?
    ensures ComputeInterest(l.state, env, l.balance, l.supply).Some?
    ensures ComputeReward(ComputeInterest(l.state, env, l.balance, l.supply).value, env.height) == Some(s)
    ensures ExchangeRate(s, l.supply, l.balance) == Some(rate)
    ensures worth * F <= burn * rate < worth * F + F
    ensures var t := RedeemStable(l, env, burn).value;
            && t.supply == l.supply - burn && t.borrowers == l.borrowers
            && t.balance == l.balance - Outflow(worth, env.taxRate, env.taxCap)
            && Outflow(worth, env.taxRate, env.taxCap) <= worth
            && (env.taxRate <= F ==> worth <= Outflow(worth, env.taxRate, env.taxCap) + 3)
            && burn <= s.prevAterraSupply && t.state == s.(prevAterraSupply := s.prevAterraSupply - burn)
  {
    s, rate := Quoted(l, env);
    worth := Mul(burn, rate);
    MulFloor(burn, rate);
    MulCancel(worth, l.balance, F);
    SendingCosts(worth, env);
  }

  lemma LossBound(amount: nat, rate: nat, newRate: nat, mint: nat)
    requires rate <= newRate && amount * F < (mint + 1) * rate
    ensures amount * F < Mul(mint, newRate) * F + F + rate
  {
    MulFloor(mint, newRate);
    MulMono(rate, newRate, mint);
    Distribute(rate, mint, 1);
  }

  // In the block of a deposit the live rate is settled already.
  lemma RateAfterDeposit(l: Ledger, env: Env, amount: nat) returns (rate: nat)
    requires MarketOk(l) && amount > 0
    ensures DepositStable(l, env, amount).Some?
    ensures var t := DepositStable(l, env, amount).value;
            && ExchangeRate(t.state, t.supply, t.balance) == Some(rate)
            && forall burn: nat :: RedeemValue(t, env, burn) == Some((t.state, Mul(burn, rate)))
  {
    DepositKeepsRate(l, env, amount);
    InterestStep(l.state, env, l.balance, l.supply);
    RewardStep(ComputeInterest(l.state, env, l.balance, l.supply).value, env.height);
    var t := DepositStable(l, env, amount).value;
    OpeningIsIdle(t, env);
    rate := ExchangeRate(t.state, t.supply, t.balance).value;
  }

  /** Depositing d and at once redeeming what was minted loses less than one coin and one unit of aUST
      at the rate it was minted at. */
  lemma RoundTripLoss(l: Ledger, env: Env, amount: nat) returns (s: State, rate: nat, mint: nat, paid: nat)
    requires MarketOk(l) && amount > 0
    ensures ComputeInterest(l.state, env, l.balance, l.supply).Some?
    ensures ComputeReward(ComputeInterest(l.state, env, l.balance, l.supply).value, env.height) == Some(s)
    ensures ExchangeRate(s, l.supply, l.balance) == Some(rate)
    ensures DepositStable(l, env, amount).Some?
    ensures var t := DepositStable(l, env, amount).value;
            && t.supply == l.supply + mint
            && RedeemValue(t, env, mint) == Some((t.state, paid))
    ensures amount * F < paid * F + F + rate
  {
    s, rate, mint := DepositEffect(l, env, amount);
    var newRate := RateAfterDeposit(l, env, amount);
    DepositKeepsRate(l, env, amount);
    paid := Mul(mint, newRate);
    LossBound(amount, rate, newRate, mint);
  }

  // ----- borrowers -----

  predicate OthersKept(m: map<Address, BorrowerInfo>, m': map<Address, BorrowerInfo>, who: Address) {
    && m'.Keys == m.Keys + {who}
    && forall a :: a in m && a != who ==> m'[a] == m[a]
  }

  /** A borrow adds the amount to the settled loan and to the liabilities, and costs the market the
      borrower's part and the tax on it: within three units of the amount. */
  lemma BorrowEffect(l: Ledger, env: Env, who: Address, amount: nat, borrowLimit: nat, maxBorrowFactor: nat)
    requires MarketOk(l) && BorrowStable(l, env, who, amount, borrowLimit, maxBorrowFactor).Some?
    ensures Settle(l, env, who, l.balance).Some?
    ensures var st := Settle(l, env, who, l.balance).value;
            var t := BorrowStable(l, env, who, amount, borrowLimit, maxBorrowFactor).value;
            && OthersKept(l.borrowers, t.borrowers, who)
            && t.borrowers[who].loanAmount == st.loan.loanAmount + amount
            && t.borrowers[who].interestIndex == st.state.globalInterestIndex
            && t.borrowers[who].rewardIndex == st.state.globalRewardIndex
            && t.borrowers[who].pendingRewards == st.loan.pendingRewards
            && t.state == st.state.(totalLiabilities := st.state.totalLiabilities + Dec(amount))
            && t.supply == l.supply && amount <= l.balance
            && t.balance == l.balance - Outflow(amount, env.taxRate, env.taxCap)
            && Outflow(amount, env.taxRate, env.taxCap) <= amount
            && (env.taxRate <= F ==> amount <= Outflow(amount, env.taxRate, env.taxCap) + 3)
  {
    SettleStep(l, env, who);
    BorrowSafe(l, env, who, amount, borrowLimit, maxBorrowFactor);
    MulCancel(amount, l.balance, F);
    SendingCosts(amount, env);
  }

  // What a repayment of `amount` does to the settled ledger, with `repaid` of it off the loan.
  predicate Repays(l: Ledger, t: Ledger, env: Env, who: Address, amount: nat, repaid: nat, st: Settled) {
    && repaid <= amount && repaid <= st.loan.loanAmount && (repaid == amount || repaid == st.loan.loanAmount)
    && OthersKept(l.borrowers, t.borrowers, who)
    && t.borrowers[who] == st.loan.(loanAmount := st.loan.loanAmount - repaid)
    && Dec(repaid) <= st.state.totalLiabilities
    && t.state == st.state.(totalLiabilities := st.state.totalLiabilities - Dec(repaid))
    && t.supply == l.supply
    && var refund: int := l.balance + amount - t.balance;
       refund == Outflow(amount - repaid, env.taxRate, env.taxCap) <= amount - repaid
       && (env.taxRate <= F ==> amount - repaid <= refund + 3)
  }

  lemma TakeEffect(l: Ledger, env: Env, who: Address, amount: nat, st: Settled) returns (repaid: nat)
    requires TakeRepayment(l, env, who, amount, st).Some?
    ensures Repays(l, TakeRepayment(l, env, who, amount, st).value, env, who, amount, repaid, st)
  {
    repaid := Min(st.loan.loanAmount, amount);
    SendingCosts(0, env);
    SendingCosts(amount - repaid, env);
  }

  /** A repayment takes the smaller of coins and settled loan off the loan and off the liabilities, and
      gives the rest of the coins back, less their tax. */
  lemma RepayEffect(l: Ledger, env: Env, who: Address, amount: nat) returns (repaid: nat)
    requires MarketOk(l) && RepayStable(l, env, who, amount).Some?
    ensures Settle(l, env, who, l.balance).Some?
    ensures Repays(l, RepayStable(l, env, who, amount).value, env, who, amount, repaid,
                   Settle(l, env, who, l.balance).value)
  {
    var st := Settle(l, env, who, l.balance).value;
    assert RepayStable(l, env, who, amount) == TakeRepayment(l, env, who, amount, st);
    repaid := TakeEffect(l, env, who, amount, st);
  }

  /** A claim pays the whole ANC of the settled rewards and keeps the fraction; nothing else moves. */
  lemma ClaimEffect(l: Ledger, env: Env, who: Address)
    requires MarketOk(l)
    ensures Settle(l, env, who, l.balance).Some? && ClaimRewards(l, env, who).Some?
    ensures var st := Settle(l, env, who, l.balance).value;
            var t := ClaimRewards(l, env, who).value;
            && OthersKept(l.borrowers, t.borrowers, who)
            && Dec(ClaimAmount(st.loan)) + t.borrowers[who].pendingRewards == st.loan.pendingRewards
            && t.borrowers[who].pendingRewards < F
            && t.borrowers[who] == st.loan.(pendingRewards := t.borrowers[who].pendingRewards)
            && t.state == st.state && t.balance == l.balance && t.supply == l.supply
  {
    SettleStep(l, env, who);
    ClaimSafe(l, env, who);
    MulFloor(Settle(l, env, who, l.balance).value.loan.pendingRewards, 1);
  }

  // ----- epoch -----

  lemma WholeCoins(reserves: nat)
    ensures Mul(reserves, 1) == reserves / F && Dec(reserves / F) <= reserves < Dec(reserves / F) + F
  {
    Floor(reserves, F);
  }

  lemma SendEffect(l: Ledger, env: Env, s: State, cash: nat, newEmission: nat)
    requires SendReserves(l, env, s, cash, newEmission).Some?
    ensures var t := SendReserves(l, env, s, cash, newEmission).value;
            var whole := s.totalReserves / F;
            && t.borrowers == l.borrowers && t.supply == l.supply
            && t.state == s.(totalReserves := t.state.totalReserves, ancEmissionRate := newEmission)
            && (if 0 < whole < cash
                then && t.state.totalReserves == s.totalReserves - Dec(whole)
                     && t.balance == l.balance - Outflow(whole, env.taxRate, env.taxCap)
                else t.state.totalReserves == s.totalReserves && t.balance == l.balance)
  {
    WholeCoins(s.totalReserves);
    SendingCosts(0, env);
  }

  /** The epoch step sends all whole coins of the reserves exactly when there are some and the cash,
      without the distributed coins, is more; it stores the new emission rate. */
  lemma EpochEffect(l: Ledger, env: Env, distributed: nat, newEmission: nat)
    requires MarketOk(l)
    ensures SettleEpoch(l.state, env, l.balance, distributed, l.supply).Some?
    ensures ExecuteEpoch(Credit(l, distributed), env, distributed, newEmission).Some?
    ensures var s := SettleEpoch(l.state, env, l.balance, distributed, l.supply).value;
            var t := ExecuteEpoch(Credit(l, distributed), env, distributed, newEmission).value;
            var whole := s.totalReserves / F;
            && t.borrowers == l.borrowers && t.supply == l.supply
            && t.state == s.(totalReserves := t.state.totalReserves, ancEmissionRate := newEmission)
            && (if 0 < whole < l.balance
                then && t.state.totalReserves == s.totalReserves - Dec(whole)
                     && t.balance == l.balance + distributed - Outflow(whole, env.taxRate, env.taxCap)
                else t.state.totalReserves == s.totalReserves && t.balance == l.balance + distributed)
  {
    EpochSafe(l, env, distributed, newEmission);
    EpochInSteps(l, env, distributed, newEmission);
    var s := SettleEpoch(l.state, env, l.balance, distributed, l.supply).value;
    SendEffect(Credit(l, distributed), env, s, l.balance, newEmission);
  }

  // ----- queries -----

  /** Without a block height nothing accrues: the loan is answered as stored, an unknown borrower as one
      without a loan, and the rate as what the stored assets cover of each aUST, floored. */
  lemma QueriesAsStored(l: Ledger, who: Address, distributed: nat)
    requires MarketOk(l) && distributed <= l.balance
    ensures QueryBorrowerInfo(l, None, who)
         == Some(if who in l.borrowers then l.borrowers[who] else BorrowerInfo(F, 0, 0, 0))
    ensures QueryEpochState(l, None, distributed).Some?
    ensures var answer := QueryEpochState(l, None, distributed).value;
            && answer.aterraSupply == l.supply
            && answer.exchangeRate * l.supply <= Assets(l.state, l.balance)
               < answer.exchangeRate * l.supply + l.supply
  {
    RateBounds(l.state, l.supply, l.balance);
  }

  /** With one they are answered as the next transaction of that block would settle them: the loan, and
      the rate that the epoch step stores. */
  lemma QueriesAsSettled(l: Ledger, env: Env, who: Address, distributed: nat, newEmission: nat)
    requires MarketOk(l) && env.height >= l.state.lastInterestUpdated
    ensures Settle(l, env, who, l.balance).Some?
    ensures QueryBorrowerInfo(l, Some(env), who) == Some(Settle(l, env, who, l.balance).value.loan)
    ensures var t := ExecuteEpoch(Credit(l, distributed), env, distributed, newEmission);
            t.Some? && QueryEpochState(Credit(l, distributed), Some(env), distributed)
                       == Some(EpochAnswer(t.value.state.prevExchangeRate, l.supply))
  {
    SettleStep(l, env, who);
    PreviewIsExecution(l, env, distributed, newEmission);
  }
}
