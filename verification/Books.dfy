/** Bookkeeping over a run: principals, ANC shares, and the totals they are compared with. */
module Books {
  import opened FixedPoint
  import opened Totals
  import opened Addresses
  import opened MarketModel
  import opened MarketRun

  type Borrowers = map<Address, BorrowerInfo>

  // ----- debt -----

  // A loan in units of the global index: the debt at index g is Principal * g.
  ghost function Principal(b: BorrowerInfo): real {
    if b.interestIndex == 0 then 0.0
    else b.loanAmount as real * F as real / b.interestIndex as real
  }

  ghost function Principals(m: Borrowers): map<Address, real> { map a | a in m :: Principal(m[a]) }

  /** Sum over all borrowers of loan * index / borrower index, as raw decimal, unrounded. */
  ghost function TotalDebt(m: Borrowers, index: nat): real {
    Times(index as real, Total(Principals(m)))
  }

  ghost function Growth(factor: nat): real { 1.0 + factor as real / F as real }

  // ----- ANC -----

  // The share of the emission a borrower is entitled to, as ComputeBorrowerReward would floor it.
  function Share(b: BorrowerInfo): nat {
    if b.interestIndex == 0 then 0 else b.loanAmount * F * F / b.interestIndex
  }

  ghost function Unsettled(b: BorrowerInfo, rewardIndex: nat): real {
    Share(b) as real * (rewardIndex - b.rewardIndex) as real / F as real
  }

  ghost function Entitled(b: BorrowerInfo, rewardIndex: nat): real {
    b.pendingRewards as real + Unsettled(b, rewardIndex)
  }

  ghost function Entitlements(m: Borrowers, rewardIndex: nat): map<Address, real> {
    map a | a in m :: Entitled(m[a], rewardIndex)
  }

  // Sum of pending rewards and of shares not yet settled, as raw decimal.
  ghost function TotalEntitled(m: Borrowers, rewardIndex: nat): real {
    Total(Entitlements(m, rewardIndex))
  }

  // ----- the books -----

  /** Kept beside a run: coins lent, repaid and claimed; interest and ANC accrued (raw decimals);
      and two bounds on rounding, for debts above the liabilities and for rewards above emission. */
  datatype Books = Books(
    borrowed: nat, repaid: nat, interest: nat, slack: real,
    emitted: nat, claimed: nat, ancSlack: real
  )

  const EMPTY_BOOKS := Books(0, 0, 0, 0.0, 0, 0, 0.0)

  ghost function BookInterest(k: Books, s: State, height: nat, borrowRate: nat): Books {
    if s.lastInterestUpdated >= height then k else
      var factor := InterestFactor(s, height, borrowRate);
      k.(interest := k.interest + Mul(s.totalLiabilities, factor),
         slack := Times(Growth(factor), k.slack) + 1.0)
  }

  // No borrower debt is above the liabilities: nothing rounded against the market so far.
  ghost predicate Covered(s: State, m: Borrowers) {
    TotalDebt(m, s.globalInterestIndex) <= s.totalLiabilities as real
  }

  function RewardStepSize(s: State, height: nat): nat {
    var t := ComputeReward(s, height);
    if t.Some? && t.value.globalRewardIndex >= s.globalRewardIndex
    then t.value.globalRewardIndex - s.globalRewardIndex else 0
  }

  function Emission(blocks: nat, rate: nat): nat { blocks * rate }

  ghost function BookReward(k: Books, s: State, m: Borrowers, height: nat): Books {
    if s.lastRewardUpdated >= height then k else
      k.(emitted := k.emitted + Emission(height - s.lastRewardUpdated, s.ancEmissionRate),
         ancSlack := k.ancSlack + if Covered(s, m) then 0.0
                                  else Times(1.0 + k.slack, RewardStepSize(s, height) as real / F as real))
  }

  // Both accruals that open a transaction, on the books.
  ghost function BookOpening(k: Books, l: Ledger, env: Env): Books {
    var s1 := ComputeInterest(l.state, env, l.balance, l.supply);
    if s1.None? then k else
      var rate := env.borrowRate(l.balance, l.state.totalLiabilities, l.state.totalReserves);
      BookReward(BookInterest(k, l.state, env.height, rate), s1.value, l.borrowers, env.height)
  }

  ghost function NextBooks(l: Ledger, k: Books, tx: Tx): Books {
    if Apply(l, tx).None? then k else
      match tx
      case Deposit(env, _) => BookOpening(k, l, env)
      case Redeem(env, _) => BookOpening(k, l, env)
      case Borrow(env, who, amount, _, _) =>
        var o := BookOpening(k, l, env); o.(borrowed := o.borrowed + amount)
      case Repay(env, who, amount) =>
        var o := BookOpening(k, l, env);
        o.(repaid := o.repaid + Min(Settle(l, env, who, l.balance).value.loan.loanAmount, amount))
      case Claim(env, who) =>
        var o := BookOpening(k, l, env);
        o.(claimed := o.claimed + ClaimAmount(Settle(l, env, who, l.balance).value.loan))
      case Accrue(env) =>
        BookInterest(k, l.state, env.height, env.borrowRate(l.balance, l.state.totalLiabilities, l.state.totalReserves))
      case Epoch(env, _, _) => BookOpening(k, l, env)
      case Donate(_) => k
  }

  ghost function RunBooks(l: Ledger, k: Books, txs: seq<Tx>): Books
    decreases |txs|
  {
    if txs == [] then k else RunBooks(Next(l, txs[0]), NextBooks(l, k, txs[0]), txs[1..])
  }
}
