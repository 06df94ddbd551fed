/** The market's ledger as values: contracts/market/src/{state,borrow,deposit,contract}.rs.

    `State` and `BorrowerInfo` are the stored structs. Each function here is the meaning of one
    source function; `None` is an `Err` or a panic, both of which revert the transaction. */
module MarketModel {
  import opened FixedPoint
  import opened Tax
  import opened Addresses

  // INITIAL_DEPOSIT_AMOUNT: minted to the market itself at init and never moved.
  const INITIAL_DEPOSIT: nat := 1_000_000

  datatype State = State(
    totalLiabilities: nat,      // Decimal
    totalReserves: nat,         // Decimal
    lastInterestUpdated: nat,
    lastRewardUpdated: nat,
    globalInterestIndex: nat,   // Decimal
    globalRewardIndex: nat,     // Decimal
    ancEmissionRate: nat,       // Decimal
    prevAterraSupply: nat,
    prevExchangeRate: nat       // Decimal
  )

  datatype BorrowerInfo = BorrowerInfo(
    interestIndex: nat,   // Decimal
    rewardIndex: nat,     // Decimal
    loanAmount: nat,
    pendingRewards: nat   // Decimal
  )

  /** Storage of the market together with the two balances it lives on: the stablecoins it holds
      and the aUST supply, which only the market mints and burns. */
  datatype Ledger = Ledger(
    state: State,
    borrowers: map<Address, BorrowerInfo>,
    balance: nat,
    supply: nat
  )

  /** What a transaction reads from outside: the block, the interest model (a function of market
      balance, liabilities and reserves), the overseer's target rate and the tax parameters. */
  datatype Env = Env(
    height: nat,
    borrowRate: (nat, nat, nat) -> nat,
    targetRate: nat,
    taxRate: nat,
    taxCap: nat
  )

  function InitialState(height: nat, emissionRate: nat): State {
    State(0, 0, height, height, F, 0, emissionRate, 0, F)
  }

  function InitialLedger(height: nat, emissionRate: nat): Ledger {
    Ledger(InitialState(height, emissionRate), map[], INITIAL_DEPOSIT, INITIAL_DEPOSIT)
  }

  /** init, with the stablecoins sent along. */
  function Instantiate(height: nat, emissionRate: nat, deposit: nat): Option<Ledger> {
    if deposit != INITIAL_DEPOSIT then None else Some(InitialLedger(height, emissionRate))
  }

  function ReadBorrower(borrowers: map<Address, BorrowerInfo>, who: Address): BorrowerInfo {
    if who in borrowers then borrowers[who] else BorrowerInfo(F, 0, 0, 0)
  }

  // ----- interest -----

  function ExchangeRate(s: State, supply: nat, balance: nat): Option<nat> {
    if supply == 0 then Some(F) else
      var assets :- Sub(Dec(balance) + s.totalLiabilities, s.totalReserves);
      Div(assets, Dec(supply))
  }

  function InterestFactor(s: State, height: nat, borrowRate: nat): nat
    requires s.lastInterestUpdated <= height
  {
    Mul(Dec(height - s.lastInterestUpdated), borrowRate)
  }

  // Loans grow by the factor before the exchange rate is looked at.
  function Grow(s: State, factor: nat): State {
    s.(globalInterestIndex := Mul(s.globalInterestIndex, F + factor),
       totalLiabilities := s.totalLiabilities + Mul(s.totalLiabilities, factor))
  }

  function ExcessYield(s: State, passed: nat, excessRate: nat): nat {
    Mul(Mul(Dec(Mul(s.prevAterraSupply, s.prevExchangeRate)), passed), excessRate)
  }

  function DepositRate(rate: nat, prevRate: nat, blocks: nat): Option<nat> {
    var effective :- Div(rate, prevRate);
    var gain :- Sub(effective, F);
    Div(gain, Dec(blocks))
  }

  // Moves what depositors earned beyond the target into the reserves.
  function Skim(s: State, blocks: nat, depositRate: nat, target: nat): State {
    if depositRate > target then
      s.(totalReserves := s.totalReserves + ExcessYield(s, Dec(blocks), depositRate - target))
    else s
  }

  function ComputeInterestRaw(s: State, height: nat, balance: nat, supply: nat,
                              borrowRate: nat, target: nat): Option<State>
  {
    if s.lastInterestUpdated >= height then Some(s) else
      var blocks := height - s.lastInterestUpdated;
      var grown := Grow(s, InterestFactor(s, height, borrowRate));
      var rate :- ExchangeRate(grown, supply, balance);
      var depositRate :- DepositRate(rate, s.prevExchangeRate, blocks);
      var skimmed := Skim(grown, blocks, depositRate, target);
      var settled :- ExchangeRate(skimmed, supply, balance);
      Some(skimmed.(prevAterraSupply := supply, prevExchangeRate := settled, lastInterestUpdated := height))
  }

  function ComputeInterest(s: State, env: Env, balance: nat, supply: nat): Option<State> {
    ComputeInterestRaw(s, env.height, balance, supply,
                       env.borrowRate(balance, s.totalLiabilities, s.totalReserves), env.targetRate)
  }

  function ComputeBorrowerInterest(s: State, b: BorrowerInfo): Option<BorrowerInfo> {
    var loan :- Div(Mul(b.loanAmount, s.globalInterestIndex), b.interestIndex);
    Some(b.(loanAmount := loan, interestIndex := s.globalInterestIndex))
  }

  // ----- ANC rewards -----

  function ComputeReward(s: State, height: nat): Option<State> {
    if s.lastRewardUpdated >= height then Some(s) else
      var accrued := Mul(Dec(height - s.lastRewardUpdated), s.ancEmissionRate);
      var borrowed :- Div(s.totalLiabilities, s.globalInterestIndex);
      var step := if accrued != 0 && borrowed != 0 then accrued * F / borrowed else 0;
      Some(s.(globalRewardIndex := s.globalRewardIndex + step, lastRewardUpdated := height))
  }

  function ComputeBorrowerReward(s: State, b: BorrowerInfo): Option<BorrowerInfo> {
    var share :- Div(Dec(b.loanAmount), s.globalInterestIndex);
    var delta :- Sub(s.globalRewardIndex, b.rewardIndex);
    Some(b.(pendingRewards := b.pendingRewards + Mul(share, delta), rewardIndex := s.globalRewardIndex))
  }

  // ----- settlement: the opening of every borrower handler -----

  datatype Settled = Settled(state: State, loan: BorrowerInfo)

  /** `balance` excludes the coins sent with the message. */
  function Settle(l: Ledger, env: Env, who: Address, balance: nat): Option<Settled> {
    var s1 :- ComputeInterest(l.state, env, balance, l.supply);
    var b1 :- ComputeBorrowerInterest(s1, ReadBorrower(l.borrowers, who));
    var s2 :- ComputeReward(s1, env.height);
    var b2 :- ComputeBorrowerReward(s2, b1);
    Some(Settled(s2, b2))
  }

  // ----- transactions -----

  function DepositStable(l: Ledger, env: Env, amount: nat): Option<Ledger> {
    if amount == 0 then None else
      var s1 :- ComputeInterest(l.state, env, l.balance, l.supply);
      var s2 :- ComputeReward(s1, env.height);
      var rate :- ExchangeRate(s2, l.supply, l.balance);
      var mint :- Div(amount, rate);
      Some(l.(state := s2.(prevAterraSupply := s2.prevAterraSupply + mint),
              balance := l.balance + amount,
              supply := l.supply + mint))
  }

  /** The sender hands `burn` aUST over through cw20 Send, so it must hold them; the market's own
      initial deposit is never sent. */
  function RedeemStable(l: Ledger, env: Env, burn: nat): Option<Ledger> {
    if burn + INITIAL_DEPOSIT > l.supply then None else
      var s1 :- ComputeInterest(l.state, env, l.balance, l.supply);
      var s2 :- ComputeReward(s1, env.height);
      var rate :- ExchangeRate(s2, l.supply, l.balance);
      var redeem := Mul(burn, rate);
      if Dec(redeem) + s2.totalReserves > Dec(l.balance) then None else
        var prev :- Sub(s2.prevAterraSupply, burn);
        var left :- Sub(l.balance, Outflow(redeem, env.taxRate, env.taxCap));
        Some(l.(state := s2.(prevAterraSupply := prev), balance := left, supply := l.supply - burn))
  }

  function BorrowAllowed(s: State, balance: nat, amount: nat, maxBorrowFactor: nat): Option<bool> {
    var assets :- Sub(Dec(balance) + s.totalLiabilities, s.totalReserves);
    Some(s.totalLiabilities + Dec(amount) <= Mul(assets, maxBorrowFactor)
         && Dec(amount) + s.totalReserves <= Dec(balance))
  }

  function BorrowStable(l: Ledger, env: Env, who: Address, amount: nat,
                        borrowLimit: nat, maxBorrowFactor: nat): Option<Ledger>
  {
    var st :- Settle(l, env, who, l.balance);
    if borrowLimit < amount + st.loan.loanAmount then None else
      Lend(l, env, who, amount, maxBorrowFactor, st)
  }

  function Lend(l: Ledger, env: Env, who: Address, amount: nat, maxBorrowFactor: nat, st: Settled): Option<Ledger> {
    var allowed :- BorrowAllowed(st.state, l.balance, amount, maxBorrowFactor);
    if !allowed then None else
      var left :- Sub(l.balance, Outflow(amount, env.taxRate, env.taxCap));
      Some(l.(state := st.state.(totalLiabilities := st.state.totalLiabilities + Dec(amount)),
              borrowers := l.borrowers[who := st.loan.(loanAmount := st.loan.loanAmount + amount)],
              balance := left))
  }

  function RepayStable(l: Ledger, env: Env, who: Address, amount: nat): Option<Ledger> {
    if amount == 0 then None else
      var st :- Settle(l, env, who, l.balance);
      TakeRepayment(l, env, who, amount, st)
  }

  function TakeRepayment(l: Ledger, env: Env, who: Address, amount: nat, st: Settled): Option<Ledger> {
    var repaid := Min(st.loan.loanAmount, amount);
    var refund := if st.loan.loanAmount < amount then Outflow(amount - repaid, env.taxRate, env.taxCap) else 0;
    var liabilities :- Sub(st.state.totalLiabilities, Dec(repaid));
    var left :- Sub(l.balance + amount, refund);
    Some(l.(state := st.state.(totalLiabilities := liabilities),
            borrowers := l.borrowers[who := st.loan.(loanAmount := st.loan.loanAmount - repaid)],
            balance := left))
  }

  /** The repayment is whatever the bank balance gained since the overseer looked at it. */
  function RepayFromLiquidation(l: Ledger, env: Env, who: Address, prevBalance: nat): Option<Ledger> {
    var amount :- Sub(l.balance, prevBalance);
    RepayStable(l.(balance := prevBalance), env, who, amount)
  }

  function ClaimAmount(b: BorrowerInfo): nat { Mul(b.pendingRewards, 1) }

  function ClaimRewards(l: Ledger, env: Env, who: Address): Option<Ledger> {
    var st :- Settle(l, env, who, l.balance);
    var left :- Sub(st.loan.pendingRewards, Dec(ClaimAmount(st.loan)));
    Some(l.(state := st.state, borrowers := l.borrowers[who := st.loan.(pendingRewards := left)]))
  }

  // update_config with a new interest model: settle the old one first.
  function SettleInterest(l: Ledger, env: Env): Option<Ledger> {
    var s :- ComputeInterest(l.state, env, l.balance, l.supply);
    Some(l.(state := s))
  }

  // ----- epoch -----

  function ReservesToSend(s: State, balance: nat): nat {
    var whole := Mul(s.totalReserves, 1);
    if whole != 0 && balance > whole then whole else 0
  }

  /** `l.balance` already includes the `distributed` coins sent by the overseer. */
  function ExecuteEpoch(l: Ledger, env: Env, distributed: nat, newEmission: nat): Option<Ledger> {
    var balance :- Sub(l.balance, distributed);
    var s :- SettleEpoch(l.state, env, balance, distributed, l.supply);
    SendReserves(l, env, s, balance, newEmission)
  }

  // Interest is computed without the distributed coins, the stored rate with them.
  function SettleEpoch(s: State, env: Env, balance: nat, distributed: nat, supply: nat): Option<State> {
    var s1 :- ComputeInterest(s, env, balance, supply);
    var rate :- ExchangeRate(s1, supply, balance + distributed);
    ComputeReward(s1.(prevExchangeRate := rate), env.height)
  }

  function SendReserves(l: Ledger, env: Env, s: State, balance: nat, newEmission: nat): Option<Ledger> {
    var sent := ReservesToSend(s, balance);
    var reserves :- Sub(s.totalReserves, Dec(sent));
    var left :- Sub(l.balance, Outflow(sent, env.taxRate, env.taxCap));
    Some(l.(state := s.(totalReserves := reserves, ancEmissionRate := newEmission), balance := left))
  }

  // query_epoch_state with a block height: accrual on a copy that is not stored.
  function PreviewRate(l: Ledger, env: Env, distributed: nat): Option<nat> {
    var balance :- Sub(l.balance, distributed);
    if env.height < l.state.lastInterestUpdated then None else
      var s :- ComputeInterest(l.state, env, balance, l.supply);
      ExchangeRate(s, l.supply, balance + distributed)
  }

  datatype EpochAnswer = EpochAnswer(exchangeRate: nat, aterraSupply: nat)

  /** Without a block height (`at` is None) nothing accrues. */
  function QueryEpochState(l: Ledger, at: Option<Env>, distributed: nat): Option<EpochAnswer> {
    var balance :- Sub(l.balance, distributed);
    var rate :- if at.Some? then PreviewRate(l, at.value, distributed)
                else ExchangeRate(l.state, l.supply, balance + distributed);
    Some(EpochAnswer(rate, l.supply))
  }

  function QueryBorrowerInfo(l: Ledger, at: Option<Env>, who: Address): Option<BorrowerInfo> {
    if at.None? then Some(ReadBorrower(l.borrowers, who)) else
      var st :- Settle(l, at.value, who, l.balance);
      Some(st.loan)
  }
}
