/** The market contract as it runs: handlers load the stored structs, update the loaded copies in
    place, and store them at the end. Each handler is proved against its function in MarketModel. */
module MarketContract {
  import opened FixedPoint
  import opened Tax
  import opened Addresses
  import opened MarketModel

  /** A `State` loaded from storage: the `&mut State` that the accrual functions work on. */
  class StateRecord {
    var totalLiabilities: nat
    var totalReserves: nat
    var lastInterestUpdated: nat
    var lastRewardUpdated: nat
    var globalInterestIndex: nat
    var globalRewardIndex: nat
    var ancEmissionRate: nat
    var prevAterraSupply: nat
    var prevExchangeRate: nat

    constructor Load(s: State)
      ensures Value() == s
    {
      totalLiabilities, totalReserves := s.totalLiabilities, s.totalReserves;
      lastInterestUpdated, lastRewardUpdated := s.lastInterestUpdated, s.lastRewardUpdated;
      globalInterestIndex, globalRewardIndex := s.globalInterestIndex, s.globalRewardIndex;
      ancEmissionRate := s.ancEmissionRate;
      prevAterraSupply, prevExchangeRate := s.prevAterraSupply, s.prevExchangeRate;
    }

    function Value(): State
      reads this
    {
      State(totalLiabilities, totalReserves, lastInterestUpdated, lastRewardUpdated, globalInterestIndex,
            globalRewardIndex, ancEmissionRate, prevAterraSupply, prevExchangeRate)
    }

    method ComputeInterestRaw(height: nat, balance: nat, supply: nat, borrowRate: nat, target: nat)
      returns (r: Option<()>)
      modifies this
      ensures r.Some?
              <==> MarketModel.ComputeInterestRaw(old(Value()), height, balance, supply, borrowRate, target).Some?
      ensures r.Some? ==>
                Value()
                == MarketModel.ComputeInterestRaw(old(Value()), height, balance, supply, borrowRate, target).value
    {
      if lastInterestUpdated >= height {
        return Some(());
      }
      var passedBlocks := Dec(height - lastInterestUpdated);
      var interestFactor := Mul(passedBlocks, borrowRate);
      var interestAccrued := Mul(totalLiabilities, interestFactor);
      globalInterestIndex := Mul(globalInterestIndex, F + interestFactor);
      totalLiabilities := totalLiabilities + interestAccrued;

      var exchangeRate :- ExchangeRate(Value(), supply, balance);
      var effectiveDepositRate :- Div(exchangeRate, prevExchangeRate);
      var gain :- Sub(effectiveDepositRate, F);
      var depositRate := Div(gain, passedBlocks).value;  // at least one block passed
      if depositRate > target {
        var excessDepositRate := depositRate - target;
        var prevDeposits := Dec(Mul(prevAterraSupply, prevExchangeRate));
        totalReserves := totalReserves + Mul(Mul(prevDeposits, passedBlocks), excessDepositRate);
        exchangeRate :- ExchangeRate(Value(), supply, balance);
      }
      prevAterraSupply := supply;
      prevExchangeRate := exchangeRate;
      lastInterestUpdated := height;
      return Some(());
    }

    method ComputeInterest(env: Env, balance: nat, supply: nat) returns (r: Option<()>)
      modifies this
      ensures r.Some? <==> MarketModel.ComputeInterest(old(Value()), env, balance, supply).Some?
      ensures r.Some? ==> Value() == MarketModel.ComputeInterest(old(Value()), env, balance, supply).value
    {
      if lastInterestUpdated >= env.height {
        return Some(());
      }
      r := ComputeInterestRaw(env.height, balance, supply,
                              env.borrowRate(balance, totalLiabilities, totalReserves), env.targetRate);
    }

    method ComputeReward(height: nat) returns (r: Option<()>)
      modifies this
      ensures r.Some? <==> MarketModel.ComputeReward(old(Value()), height).Some?
      ensures r.Some? ==> Value() == MarketModel.ComputeReward(old(Value()), height).value
    {
      if lastRewardUpdated >= height {
        return Some(());
      }
      var rewardAccrued := Mul(Dec(height - lastRewardUpdated), ancEmissionRate);
      var borrowAmount :- Div(totalLiabilities, globalInterestIndex);
      if rewardAccrued != 0 && borrowAmount != 0 {
        globalRewardIndex := globalRewardIndex + Div(rewardAccrued, borrowAmount).value;
      }
      lastRewardUpdated := height;
      return Some(());
    }

    method SettleEpoch(env: Env, cash: nat, distributed: nat, supply: nat) returns (r: Option<()>)
      modifies this
      ensures r.Some? <==> MarketModel.SettleEpoch(old(Value()), env, cash, distributed, supply).Some?
      ensures r.Some? ==> Value() == MarketModel.SettleEpoch(old(Value()), env, cash, distributed, supply).value
    {
      r := ComputeInterest(env, cash, supply);
      if r.None? { return; }
      prevExchangeRate :- ExchangeRate(Value(), supply, cash + distributed);
      r := ComputeReward(env.height);
    }
  }

  /** A `BorrowerInfo` loaded from storage. */
  class BorrowerRecord {
    var interestIndex: nat
    var rewardIndex: nat
    var loanAmount: nat
    var pendingRewards: nat

    constructor Load(b: BorrowerInfo)
      ensures Value() == b
    {
      interestIndex, rewardIndex := b.interestIndex, b.rewardIndex;
      loanAmount, pendingRewards := b.loanAmount, b.pendingRewards;
    }

    function Value(): BorrowerInfo
      reads this
    {
      BorrowerInfo(interestIndex, rewardIndex, loanAmount, pendingRewards)
    }

    method ComputeBorrowerInterest(state: StateRecord) returns (r: Option<()>)
      modifies this
      ensures r.Some? <==> MarketModel.ComputeBorrowerInterest(state.Value(), old(Value())).Some?
      ensures r.Some? ==> Value() == MarketModel.ComputeBorrowerInterest(state.Value(), old(Value())).value
    {
      loanAmount :- Div(Mul(loanAmount, state.globalInterestIndex), interestIndex);
      interestIndex := state.globalInterestIndex;
      return Some(());
    }

    method ComputeBorrowerReward(state: StateRecord) returns (r: Option<()>)
      modifies this
      ensures r.Some? <==> MarketModel.ComputeBorrowerReward(state.Value(), old(Value())).Some?
      ensures r.Some? ==> Value() == MarketModel.ComputeBorrowerReward(state.Value(), old(Value())).value
    {
      var share :- Div(Dec(loanAmount), state.globalInterestIndex);
      var delta :- Sub(state.globalRewardIndex, rewardIndex);
      pendingRewards := pendingRewards + Mul(share, delta);
      rewardIndex := state.globalRewardIndex;
      return Some(());
    }
  }

  // The opening shared by the borrower handlers, on loaded copies.
  method SettleRecords(state: StateRecord, loan: BorrowerRecord, ghost l: Ledger, env: Env, ghost who: Address,
                       balance: nat, supply: nat) returns (r: Option<()>)
    requires state.Value() == l.state && loan.Value() == ReadBorrower(l.borrowers, who) && supply == l.supply
    modifies state, loan
    ensures r.Some? <==> Settle(l, env, who, balance).Some?
    ensures r.Some? ==> Settled(state.Value(), loan.Value()) == Settle(l, env, who, balance).value
  {
    r := state.ComputeInterest(env, balance, supply);
    if r.None? { return; }
    r := loan.ComputeBorrowerInterest(state);
    if r.None? { return; }
    r := state.ComputeReward(env.height);
    if r.None? { return; }
    r := loan.ComputeBorrowerReward(state);
  }

  /** The contract with its storage, its stablecoin balance and the aUST supply it controls. A
      handler that fails leaves all of them as they were. */
  class Market {
    var state: State
    var borrowers: map<Address, BorrowerInfo>
    var balance: nat
    var supply: nat
    const maxBorrowFactor: nat

    constructor New(height: nat, emissionRate: nat, maxBorrowFactor: nat)
      ensures View() == InitialLedger(height, emissionRate)
      ensures this.maxBorrowFactor == maxBorrowFactor
    {
      state, borrowers := InitialState(height, emissionRate), map[];
      balance, supply := INITIAL_DEPOSIT, INITIAL_DEPOSIT;
      this.maxBorrowFactor := maxBorrowFactor;
    }

    // init: no contract comes into being without exactly the initial deposit.
    static method Init(height: nat, emissionRate: nat, maxBorrowFactor: nat, deposit: nat) returns (m: Market?)
      ensures m != null <==> Instantiate(height, emissionRate, deposit).Some?
      ensures m != null ==>
                && fresh(m) && m.maxBorrowFactor == maxBorrowFactor
                && Some(m.View()) == Instantiate(height, emissionRate, deposit)
    {
      if deposit != INITIAL_DEPOSIT { return null; }
      m := new Market.New(height, emissionRate, maxBorrowFactor);
    }

    function View(): Ledger
      reads this
    {
      Ledger(state, borrowers, balance, supply)
    }

    // What a handler must leave behind: the specified ledger, or the old one.
    twostate predicate Became(spec: Option<Ledger>, ok: bool)
      reads this
    {
      ok == spec.Some? && View() == if spec.Some? then spec.value else old(View())
    }

    method DepositStable(env: Env, amount: nat) returns (ok: bool)
      modifies this
      ensures Became(MarketModel.DepositStable(old(View()), env, amount), ok)
    {
      if amount == 0 { return false; }
      var record := new StateRecord.Load(state);
      var r := record.ComputeInterest(env, balance, supply);
      if r.None? { return false; }
      r := record.ComputeReward(env.height);
      if r.None? { return false; }
      var rate := ExchangeRate(record.Value(), supply, balance);
      if rate.None? { return false; }
      var mint := Div(amount, rate.value);
      if mint.None? { return false; }
      record.prevAterraSupply := record.prevAterraSupply + mint.value;
      state := record.Value();
      balance := balance + amount;
      supply := supply + mint.value;
      return true;
    }

    method RedeemStable(env: Env, burn: nat) returns (ok: bool)
      modifies this
      ensures Became(MarketModel.RedeemStable(old(View()), env, burn), ok)
    {
      if burn + INITIAL_DEPOSIT > supply { return false; }
      var record := new StateRecord.Load(state);
      var r := record.ComputeInterest(env, balance, supply);
      if r.None? { return false; }
      r := record.ComputeReward(env.height);
      if r.None? { return false; }
      var rate := ExchangeRate(record.Value(), supply, balance);
      if rate.None? { return false; }
      var redeem := Mul(burn, rate.value);
      if Dec(redeem) + record.totalReserves > Dec(balance) { return false; }
      var out := Outflow(redeem, env.taxRate, env.taxCap);
      if record.prevAterraSupply < burn || balance < out { return false; }
      record.prevAterraSupply := record.prevAterraSupply - burn;
      state := record.Value();
      balance := balance - out;
      supply := supply - burn;
      return true;
    }

    method BorrowStable(env: Env, who: Address, amount: nat, borrowLimit: nat) returns (ok: bool)
      modifies this
      ensures Became(MarketModel.BorrowStable(old(View()), env, who, amount, borrowLimit, maxBorrowFactor), ok)
    {
      var record := new StateRecord.Load(state);
      var loan := new BorrowerRecord.Load(ReadBorrower(borrowers, who));
      var r := SettleRecords(record, loan, View(), env, who, balance, supply);
      if r.None? || borrowLimit < amount + loan.loanAmount { return false; }
      ok := Lend(record, loan, env, who, amount);
    }

    method Lend(record: StateRecord, loan: BorrowerRecord, env: Env, who: Address, amount: nat) returns (ok: bool)
      modifies this, record, loan
      ensures Became(MarketModel.Lend(old(View()), env, who, amount, maxBorrowFactor,
                                      old(Settled(record.Value(), loan.Value()))), ok)
    {
      var allowed := AssertMaxBorrowFactor(record.Value(), balance, amount);
      if !allowed { return false; }
      var out := Outflow(amount, env.taxRate, env.taxCap);
      if balance < out { return false; }
      loan.loanAmount := loan.loanAmount + amount;
      record.totalLiabilities := record.totalLiabilities + Dec(amount);
      state := record.Value();
      borrowers := borrowers[who := loan.Value()];
      balance := balance - out;
      return true;
    }

    method AssertMaxBorrowFactor(s: State, currentBalance: nat, borrowAmount: nat) returns (ok: bool)
      ensures ok <==> BorrowAllowed(s, currentBalance, borrowAmount, maxBorrowFactor) == Some(true)
    {
      var cash, demand := Dec(currentBalance), Dec(borrowAmount);
      if cash + s.totalLiabilities < s.totalReserves { return false; }
      var assets := cash + s.totalLiabilities - s.totalReserves;
      if s.totalLiabilities + demand > Mul(assets, maxBorrowFactor) { return false; }
      return demand + s.totalReserves <= cash;
    }

    method RepayStable(env: Env, who: Address, amount: nat) returns (ok: bool)
      modifies this
      ensures Became(MarketModel.RepayStable(old(View()), env, who, amount), ok)
    {
      if amount == 0 { return false; }
      var record := new StateRecord.Load(state);
      var loan := new BorrowerRecord.Load(ReadBorrower(borrowers, who));
      var r := SettleRecords(record, loan, View(), env, who, balance, supply);
      if r.None? { return false; }
      ok := TakeRepayment(record, loan, env, who, amount);
    }

    method TakeRepayment(record: StateRecord, loan: BorrowerRecord, env: Env, who: Address, amount: nat)
      returns (ok: bool)
      modifies this, record, loan
      ensures Became(MarketModel.TakeRepayment(old(View()), env, who, amount,
                                               old(Settled(record.Value(), loan.Value()))), ok)
    {
      var repayAmount, refund := amount, 0;
      if loan.loanAmount < amount {
        repayAmount := loan.loanAmount;
        loan.loanAmount := 0;
        refund := Outflow(amount - repayAmount, env.taxRate, env.taxCap);
      } else {
        loan.loanAmount := loan.loanAmount - repayAmount;
      }
      if record.totalLiabilities < Dec(repayAmount) || balance + amount < refund { return false; }
      record.totalLiabilities := record.totalLiabilities - Dec(repayAmount);
      borrowers := borrowers[who := loan.Value()];
      state := record.Value();
      balance := balance + amount - refund;
      return true;
    }

    // The bids' payments are already in the balance; `prevBalance` was read before they arrived.
    method RepayStableFromLiquidation(env: Env, who: Address, prevBalance: nat) returns (ok: bool)
      modifies this
      ensures Became(MarketModel.RepayFromLiquidation(old(View()), env, who, prevBalance), ok)
    {
      if balance < prevBalance { return false; }
      ghost var before := View();
      var received := balance - prevBalance;
      ghost var spec := MarketModel.RepayStable(before.(balance := prevBalance), env, who, received);
      assert MarketModel.RepayFromLiquidation(before, env, who, prevBalance) == spec;
      balance := prevBalance;
      assert View() == before.(balance := prevBalance);
      ok := RepayStable(env, who, received);
      if !ok {
        balance := prevBalance + received;
        assert View() == before;
      }
    }

    method ClaimRewards(env: Env, who: Address) returns (ok: bool, claimed: nat)
      modifies this
      ensures Became(MarketModel.ClaimRewards(old(View()), env, who), ok)
      ensures ok ==> claimed == ClaimAmount(Settle(old(View()), env, who, old(balance)).value.loan)
    {
      claimed := 0;
      var record := new StateRecord.Load(state);
      var loan := new BorrowerRecord.Load(ReadBorrower(borrowers, who));
      var r := SettleRecords(record, loan, View(), env, who, balance, supply);
      if r.None? { return false, 0; }
      claimed := Mul(loan.pendingRewards, 1);
      MulFloor(loan.pendingRewards, 1);
      loan.pendingRewards := loan.pendingRewards - Dec(claimed);
      state := record.Value();
      borrowers := borrowers[who := loan.Value()];
      return true, claimed;
    }

    method SettleInterest(env: Env) returns (ok: bool)
      modifies this
      ensures Became(MarketModel.SettleInterest(old(View()), env), ok)
    {
      var record := new StateRecord.Load(state);
      var r := record.ComputeInterest(env, balance, supply);
      if r.None? { return false; }
      state := record.Value();
      return true;
    }

    method ExecuteEpochOperations(env: Env, distributed: nat, newEmission: nat) returns (ok: bool)
      modifies this
      ensures Became(MarketModel.ExecuteEpoch(old(View()), env, distributed, newEmission), ok)
    {
      if balance < distributed { return false; }
      var cash := balance - distributed;
      var record := new StateRecord.Load(state);
      var r := record.SettleEpoch(env, cash, distributed, supply);
      if r.None? { return false; }
      ok := SendReserves(record, env, cash, newEmission);
    }

    method SendReserves(record: StateRecord, env: Env, cash: nat, newEmission: nat) returns (ok: bool)
      modifies this, record
      ensures Became(MarketModel.SendReserves(old(View()), env, old(record.Value()), cash, newEmission), ok)
    {
      var reserves := Mul(record.totalReserves, 1);
      var out := 0;
      if reserves != 0 && cash > reserves {
        if record.totalReserves < Dec(reserves) { return false; }
        record.totalReserves := record.totalReserves - Dec(reserves);
        out := Outflow(reserves, env.taxRate, env.taxCap);
      }
      if balance < out { return false; }
      record.ancEmissionRate := newEmission;
      state := record.Value();
      balance := balance - out;
      return true;
    }

    // Accrual on a loaded copy that is never stored.
    method QueryEpochState(at: Option<Env>, distributed: nat) returns (r: Option<EpochAnswer>)
      ensures r == MarketModel.QueryEpochState(View(), at, distributed)
    {
      if balance < distributed { return None; }
      var cash := balance - distributed;
      var record := new StateRecord.Load(state);
      if at.Some? {
        if at.value.height < state.lastInterestUpdated { return None; }
        var done := record.ComputeInterest(at.value, cash, supply);
        if done.None? { return None; }
      }
      var rate :- ExchangeRate(record.Value(), supply, cash + distributed);
      return Some(EpochAnswer(rate, supply));
    }

    method QueryBorrowerInfo(at: Option<Env>, who: Address) returns (r: Option<BorrowerInfo>)
      ensures r == MarketModel.QueryBorrowerInfo(View(), at, who)
    {
      var loan := new BorrowerRecord.Load(ReadBorrower(borrowers, who));
      if at.Some? {
        var record := new StateRecord.Load(state);
        var done := SettleRecords(record, loan, View(), at.value, who, balance, supply);
        if done.None? { return None; }
      }
      return Some(loan.Value());
    }
  }
}
