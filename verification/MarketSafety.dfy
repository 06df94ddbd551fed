/** What every market transaction keeps, and exactly when it fails. */
module MarketSafety {
  import opened FixedPoint
  import opened Tax
  import opened Addresses
  import opened MarketModel
  import opened Solvency

  ghost predicate BorrowerOk(s: State, b: BorrowerInfo) {
    F <= b.interestIndex <= s.globalInterestIndex && b.rewardIndex <= s.globalRewardIndex
  }

  ghost predicate MarketOk(l: Ledger) {
    && SolventLedger(l)
    && forall who :: who in l.borrowers ==> BorrowerOk(l.state, l.borrowers[who])
  }

  // Indices and the stored exchange rate only move up.
  ghost predicate Forward(s: State, t: State) {
    && t.prevExchangeRate >= s.prevExchangeRate
    && t.globalInterestIndex >= s.globalInterestIndex
    && t.globalRewardIndex >= s.globalRewardIndex
    && t.lastInterestUpdated >= s.lastInterestUpdated
    && t.lastRewardUpdated >= s.lastRewardUpdated
  }

  lemma InterestStep(s: State, env: Env, balance: nat, supply: nat)
    requires Solvent(s, balance, supply)
    ensures ComputeInterest(s, env, balance, supply).Some?
    ensures var t := ComputeInterest(s, env, balance, supply).value;
            && Solvent(t, balance, supply) && Forward(s, t)
            && t.lastInterestUpdated >= env.height
            && t.globalRewardIndex == s.globalRewardIndex
  {
    InterestKeepsSolvent(s, env.height, balance, supply,
                         env.borrowRate(balance, s.totalLiabilities, s.totalReserves), env.targetRate);
  }

  lemma RewardStep(s: State, height: nat)
    requires s.globalInterestIndex > 0
    ensures ComputeReward(s, height).Some?
    ensures var t := ComputeReward(s, height).value;
            && Forward(s, t)
            && t == s.(globalRewardIndex := t.globalRewardIndex, lastRewardUpdated := t.lastRewardUpdated)
  {
  }

  /** Opening a transaction never fails. */
  lemma OpenStep(l: Ledger, env: Env)
    requires SolventLedger(l)
    ensures ComputeInterest(l.state, env, l.balance, l.supply).Some?
    ensures var s1 := ComputeInterest(l.state, env, l.balance, l.supply).value;
            && ComputeReward(s1, env.height).Some?
            && var s2 := ComputeReward(s1, env.height).value;
               Solvent(s2, l.balance, l.supply) && Forward(l.state, s2)
  {
    InterestStep(l.state, env, l.balance, l.supply);
    RewardStep(ComputeInterest(l.state, env, l.balance, l.supply).value, env.height);
  }

  /** Nor does settling a borrower, known or new. */
  lemma SettleStep(l: Ledger, env: Env, who: Address)
    requires MarketOk(l)
    ensures Settle(l, env, who, l.balance).Some?
    ensures var st := Settle(l, env, who, l.balance).value;
            && Solvent(st.state, l.balance, l.supply) && Forward(l.state, st.state)
            && BorrowerOk(st.state, st.loan)
            && st.loan.interestIndex == st.state.globalInterestIndex
            && st.loan.rewardIndex == st.state.globalRewardIndex
  {
    OpenStep(l, env);
  }

  lemma BorrowersStayOk(l: Ledger, s: State, who: Address, b: BorrowerInfo)
    requires MarketOk(l) && Forward(l.state, s) && BorrowerOk(s, b)
    ensures var m := l.borrowers[who := b]; forall a :: a in m ==> BorrowerOk(s, m[a])
  {
  }

  // ----- one lemma per transaction -----

  /** A deposit fails exactly on zero coins: one worth less than a unit of aUST mints nothing. */
  lemma DepositSafe(l: Ledger, env: Env, amount: nat)
    requires MarketOk(l)
    ensures DepositStable(l, env, amount).Some? <==> amount > 0
    ensures amount > 0 ==> var t := DepositStable(l, env, amount).value; MarketOk(t) && Forward(l.state, t.state)
  {
    OpenStep(l, env);
    if amount > 0 {
      var s1 := ComputeInterest(l.state, env, l.balance, l.supply).value;
      var s := ComputeReward(s1, env.height).value;
      RateIsCoverage(s, l.supply, l.balance, s.prevExchangeRate);
      RateBounds(s, l.supply, l.balance);
      var rate := ExchangeRate(s, l.supply, l.balance).value;
      DivFloor(amount, rate);
      var mint := Div(amount, rate).value;
      MintKeepsCoverage(Assets(s, l.balance), s.prevExchangeRate, rate, l.supply, mint, amount);
    }
  }

  lemma MintKeepsCoverage(assets: int, prev: nat, rate: nat, supply: nat, mint: nat, amount: nat)
    requires rate >= prev && rate * supply <= assets && mint * rate <= Dec(amount)
    ensures assets + Dec(amount) >= prev * (supply + mint)
  {
    MulMono(prev, rate, supply + mint);
    assert rate * (supply + mint) == rate * supply + mint * rate;
  }

  function UserSupply(l: Ledger): int { l.supply - INITIAL_DEPOSIT }

  // The amount a burn is worth at the settled rate.
  function RedeemValue(l: Ledger, env: Env, burn: nat): Option<(State, nat)> {
    var s1 :- ComputeInterest(l.state, env, l.balance, l.supply);
    var s2 :- ComputeReward(s1, env.height);
    var rate :- ExchangeRate(s2, l.supply, l.balance);
    Some((s2, Mul(burn, rate)))
  }

  /** A redemption fails exactly when users do not hold that much aUST, or when the cash outside
      the reserves does not pay for it. */
  lemma RedeemSafe(l: Ledger, env: Env, burn: nat)
    requires MarketOk(l)
    ensures RedeemValue(l, env, burn).Some?
    ensures RedeemStable(l, env, burn).Some? <==>
            (burn <= UserSupply(l)
             && Dec(RedeemValue(l, env, burn).value.1)
                + RedeemValue(l, env, burn).value.0.totalReserves <= Dec(l.balance))
    ensures RedeemStable(l, env, burn).Some? ==>
              var t := RedeemStable(l, env, burn).value; MarketOk(t) && Forward(l.state, t.state)
  {
    OpenStep(l, env);
    var s1 := ComputeInterest(l.state, env, l.balance, l.supply).value;
    var s := ComputeReward(s1, env.height).value;
    RateIsCoverage(s, l.supply, l.balance, s.prevExchangeRate);
    RateBounds(s, l.supply, l.balance);
    var rate := ExchangeRate(s, l.supply, l.balance).value;
    var redeem := Mul(burn, rate);
    if burn <= UserSupply(l) && Dec(redeem) + s.totalReserves <= Dec(l.balance) {
      OutflowWithinGross(redeem, env.taxRate, env.taxCap);
      MulCancel(redeem, l.balance, F);
      BurnKeepsCoverage(Assets(s, l.balance), s.prevExchangeRate, rate, l.supply, burn);
    }
  }

  lemma BurnKeepsCoverage(assets: int, prev: nat, rate: nat, supply: nat, burn: nat)
    requires burn <= supply && rate >= prev && rate * supply <= assets
    ensures assets - Dec(Mul(burn, rate)) >= prev * (supply - burn)
  {
    MulFloor(burn, rate);
    MulMono(prev, rate, supply - burn);
    assert (supply - burn) * rate == rate * supply - burn * rate;
  }

  /** A borrow fails exactly on the three checks of the source. */
  lemma BorrowSafe(l: Ledger, env: Env, who: Address, amount: nat, borrowLimit: nat, maxBorrowFactor: nat)
    requires MarketOk(l)
    ensures Settle(l, env, who, l.balance).Some?
    ensures Assets(Settle(l, env, who, l.balance).value.state, l.balance) >= 0
    ensures var st := Settle(l, env, who, l.balance).value;
            BorrowStable(l, env, who, amount, borrowLimit, maxBorrowFactor).Some? <==>
              (&& amount + st.loan.loanAmount <= borrowLimit
               && st.state.totalLiabilities + Dec(amount) <= Mul(Assets(st.state, l.balance), maxBorrowFactor)
               && Dec(amount) + st.state.totalReserves <= Dec(l.balance))
    ensures BorrowStable(l, env, who, amount, borrowLimit, maxBorrowFactor).Some? ==>
              var t := BorrowStable(l, env, who, amount, borrowLimit, maxBorrowFactor).value;
              MarketOk(t) && Forward(l.state, t.state)
  {
    SettleStep(l, env, who);
    var st := Settle(l, env, who, l.balance).value;
    OutflowWithinGross(amount, env.taxRate, env.taxCap);
    if Dec(amount) <= Dec(l.balance) {
      MulCancel(amount, l.balance, F);
    }
    BorrowersStayOk(l, st.state, who, st.loan.(loanAmount := st.loan.loanAmount + amount));
  }

  /** A repayment fails exactly on zero coins, or when the recorded total is below the part of the
      loan being repaid (which rounding makes possible, see DebtCover). */
  lemma RepaySafe(l: Ledger, env: Env, who: Address, amount: nat)
    requires MarketOk(l)
    ensures Settle(l, env, who, l.balance).Some?
    ensures var st := Settle(l, env, who, l.balance).value;
            RepayStable(l, env, who, amount).Some? <==>
              (amount > 0 && Dec(Min(st.loan.loanAmount, amount)) <= st.state.totalLiabilities)
    ensures RepayStable(l, env, who, amount).Some? ==>
              var t := RepayStable(l, env, who, amount).value;
              && MarketOk(t) && Forward(l.state, t.state)
              && var st := Settle(l, env, who, l.balance).value;
                 t.borrowers[who].loanAmount == if st.loan.loanAmount < amount then 0 else st.loan.loanAmount - amount
  {
    SettleStep(l, env, who);
    var st := Settle(l, env, who, l.balance).value;
    var repaid := Min(st.loan.loanAmount, amount);
    OutflowWithinGross(amount - repaid, env.taxRate, env.taxCap);
    BorrowersStayOk(l, st.state, who, st.loan.(loanAmount := st.loan.loanAmount - repaid));
  }

  /** Claiming never fails, and leaves less than one whole ANC pending. */
  lemma ClaimSafe(l: Ledger, env: Env, who: Address)
    requires MarketOk(l)
    ensures ClaimRewards(l, env, who).Some?
    ensures var t := ClaimRewards(l, env, who).value;
            MarketOk(t) && Forward(l.state, t.state) && t.borrowers[who].pendingRewards < F
  {
    SettleStep(l, env, who);
    var st := Settle(l, env, who, l.balance).value;
    MulFloor(st.loan.pendingRewards, 1);
    BorrowersStayOk(l, st.state, who, st.loan.(pendingRewards := st.loan.pendingRewards - Dec(ClaimAmount(st.loan))));
  }

  lemma SettleInterestSafe(l: Ledger, env: Env)
    requires MarketOk(l)
    ensures SettleInterest(l, env).Some?
    ensures var t := SettleInterest(l, env).value; MarketOk(t) && Forward(l.state, t.state)
  {
    OpenStep(l, env);
  }

  function Credit(l: Ledger, amount: nat): Ledger { l.(balance := l.balance + amount) }

  lemma CreditSafe(l: Ledger, amount: nat)
    requires MarketOk(l)
    ensures MarketOk(Credit(l, amount))
  {
  }

  lemma SettleEpochSafe(s: State, env: Env, balance: nat, distributed: nat, supply: nat)
    requires Solvent(s, balance, supply)
    ensures SettleEpoch(s, env, balance, distributed, supply).Some?
    ensures var t := SettleEpoch(s, env, balance, distributed, supply).value;
            Solvent(t, balance + distributed, supply) && Forward(s, t)
  {
    InterestStep(s, env, balance, supply);
    var s1 := ComputeInterest(s, env, balance, supply).value;
    RateIsCoverage(s1, supply, balance + distributed, s1.prevExchangeRate);
    RateBounds(s1, supply, balance + distributed);
    RewardStep(s1.(prevExchangeRate := ExchangeRate(s1, supply, balance + distributed).value), env.height);
  }

  lemma SendReservesSafe(l: Ledger, env: Env, s: State, cash: nat, newEmission: nat)
    requires Solvent(s, l.balance, l.supply) && cash <= l.balance
    ensures SendReserves(l, env, s, cash, newEmission).Some?
    ensures var t := SendReserves(l, env, s, cash, newEmission).value;
            SolventLedger(t) && Forward(s, t.state) && t.borrowers == l.borrowers
  {
    var sent := ReservesToSend(s, cash);
    MulFloor(s.totalReserves, 1);
    OutflowWithinGross(sent, env.taxRate, env.taxCap);
  }

  // The market settles without the distributed coins, then sends from what it holds with them.
  lemma EpochInSteps(l: Ledger, env: Env, distributed: nat, newEmission: nat)
    requires MarketOk(l)
    ensures SettleEpoch(l.state, env, l.balance, distributed, l.supply).Some?
    ensures var s := SettleEpoch(l.state, env, l.balance, distributed, l.supply).value;
            && Solvent(s, l.balance + distributed, l.supply) && Forward(l.state, s)
            && ExecuteEpoch(Credit(l, distributed), env, distributed, newEmission)
               == SendReserves(Credit(l, distributed), env, s, l.balance, newEmission)
  {
    SettleEpochSafe(l.state, env, l.balance, distributed, l.supply);
    EpochUnfolds(l, env, distributed, newEmission);
  }

  lemma EpochUnfolds(l: Ledger, env: Env, distributed: nat, newEmission: nat)
    requires SettleEpoch(l.state, env, l.balance, distributed, l.supply).Some?
    ensures ExecuteEpoch(Credit(l, distributed), env, distributed, newEmission)
         == SendReserves(Credit(l, distributed), env,
                         SettleEpoch(l.state, env, l.balance, distributed, l.supply).value, l.balance, newEmission)
  {
    assert Sub(Credit(l, distributed).balance, distributed) == Some(l.balance);
  }

  /** The epoch step, called after `distributed` coins arrived, never fails. */
  lemma EpochSafe(l: Ledger, env: Env, distributed: nat, newEmission: nat)
    requires MarketOk(l)
    ensures ExecuteEpoch(Credit(l, distributed), env, distributed, newEmission).Some?
    ensures var t := ExecuteEpoch(Credit(l, distributed), env, distributed, newEmission).value;
            MarketOk(t) && Forward(l.state, t.state)
  {
    EpochInSteps(l, env, distributed, newEmission);
    var s := SettleEpoch(l.state, env, l.balance, distributed, l.supply).value;
    SendReservesSafe(Credit(l, distributed), env, s, l.balance, newEmission);
  }

  /** For borrowers an epoch is nothing but the two accruals, without the distributed coins. */
  lemma EpochOpening(l: Ledger, env: Env, distributed: nat, newEmission: nat)
    requires MarketOk(l)
    ensures ComputeInterest(l.state, env, l.balance, l.supply).Some?
    ensures var s1 := ComputeInterest(l.state, env, l.balance, l.supply).value;
            var t := ExecuteEpoch(Credit(l, distributed), env, distributed, newEmission);
            && t.Some?
            && ComputeReward(s1, env.height).Some?
            && var s2 := ComputeReward(s1, env.height).value;
               && t.value.borrowers == l.borrowers
               && t.value.state.totalLiabilities == s2.totalLiabilities
               && t.value.state.globalInterestIndex == s2.globalInterestIndex
               && t.value.state.globalRewardIndex == s2.globalRewardIndex
  {
    InterestStep(l.state, env, l.balance, l.supply);
    EpochSafe(l, env, distributed, newEmission);
  }
}
