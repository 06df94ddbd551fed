/** Transactions as data, runs of them, and the safety of every run. */
module MarketRun {
  import opened FixedPoint
  import opened Addresses
  import opened MarketModel
  import opened MarketSafety

  /** RepayStableFromLiquidation is `Repay` of what the bids paid in (see SystemRun); an epoch
      carries the coins the overseer sent just before; `Donate` is a plain bank send by anyone. */
  datatype Tx =
    | Deposit(env: Env, amount: nat)
    | Redeem(env: Env, burn: nat)
    | Borrow(env: Env, who: Address, amount: nat, borrowLimit: nat, maxBorrowFactor: nat)
    | Repay(env: Env, who: Address, amount: nat)
    | Claim(env: Env, who: Address)
    | Accrue(env: Env)
    | Epoch(env: Env, distributed: nat, newEmission: nat)
    | Donate(amount: nat)

  function Apply(l: Ledger, tx: Tx): Option<Ledger> {
    match tx
    case Deposit(env, amount) => DepositStable(l, env, amount)
    case Redeem(env, burn) => RedeemStable(l, env, burn)
    case Borrow(env, who, amount, limit, factor) => BorrowStable(l, env, who, amount, limit, factor)
    case Repay(env, who, amount) => RepayStable(l, env, who, amount)
    case Claim(env, who) => ClaimRewards(l, env, who)
    case Accrue(env) => SettleInterest(l, env)
    case Epoch(env, distributed, emission) => ExecuteEpoch(Credit(l, distributed), env, distributed, emission)
    case Donate(amount) => Some(Credit(l, amount))
  }

  // A failed transaction leaves no trace.
  function Next(l: Ledger, tx: Tx): Ledger {
    var r := Apply(l, tx);
    if r.Some? then r.value else l
  }

  function Run(l: Ledger, txs: seq<Tx>): Ledger
    decreases |txs|
  {
    if txs == [] then l else Run(Next(l, txs[0]), txs[1..])
  }

  lemma StepSafe(l: Ledger, tx: Tx)
    requires MarketOk(l)
    ensures MarketOk(Next(l, tx)) && Forward(l.state, Next(l, tx).state)
  {
    match tx
    case Deposit(env, amount) => DepositSafe(l, env, amount);
    case Redeem(env, burn) => RedeemSafe(l, env, burn);
    case Borrow(env, who, amount, limit, factor) => BorrowSafe(l, env, who, amount, limit, factor);
    case Repay(env, who, amount) => RepaySafe(l, env, who, amount);
    case Claim(env, who) => ClaimSafe(l, env, who);
    case Accrue(env) => SettleInterestSafe(l, env);
    case Epoch(env, distributed, emission) => EpochSafe(l, env, distributed, emission);
    case Donate(amount) => CreditSafe(l, amount);
  }

  /** Solvency over any run from any good state; the stored rate and the indices never fall. */
  lemma {:induction false} RunSafe(l: Ledger, txs: seq<Tx>)
    requires MarketOk(l)
    ensures MarketOk(Run(l, txs)) && Forward(l.state, Run(l, txs).state)
    decreases |txs|
  {
    if txs != [] {
      StepSafe(l, txs[0]);
      RunSafe(Next(l, txs[0]), txs[1..]);
    }
  }

  /** The safety invariant in every state reachable from init. */
  lemma {:induction false} ReachableSolvent(height: nat, emission: nat, txs: seq<Tx>)
    ensures var l := Run(InitialLedger(height, emission), txs);
            && MarketOk(l)
            && Dec(l.balance) + l.state.totalLiabilities - l.state.totalReserves >= l.state.prevExchangeRate * l.supply
            && l.state.prevExchangeRate >= F
            && l.supply >= 1_000_000
            && l.state.prevAterraSupply <= l.supply
  {
    RunSafe(InitialLedger(height, emission), txs);
  }

  lemma {:induction false} RunOne(l: Ledger, tx: Tx)
    ensures Run(l, [tx]) == Next(l, tx)
  {
    assert [tx][1..] == [];
  }

  lemma {:induction false} RunAppend(l: Ledger, a: seq<Tx>, b: seq<Tx>)
    ensures Run(l, a + b) == Run(Run(l, a), b)
    decreases |a|
  {
    if a == [] {
      assert a + b == b;
    } else {
      assert (a + b)[0] == a[0] && (a + b)[1..] == a[1..] + b;
      RunAppend(Next(l, a[0]), a[1..], b);
    }
  }

  /** Along one run, later prefixes never store a lower rate than earlier ones. */
  lemma StoredRateNeverFalls(height: nat, emission: nat, txs: seq<Tx>, i: nat, j: nat)
    requires i <= j <= |txs|
    ensures Run(InitialLedger(height, emission), txs[..i]).state.prevExchangeRate
         <= Run(InitialLedger(height, emission), txs[..j]).state.prevExchangeRate
  {
    var l := InitialLedger(height, emission);
    assert txs[..j] == txs[..i] + txs[i..j];
    RunAppend(l, txs[..i], txs[i..j]);
    RunSafe(l, txs[..i]);
    RunSafe(Run(l, txs[..i]), txs[i..j]);
  }
}
