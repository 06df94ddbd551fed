/** What the overseer's interest distribution achieves: depositors get the threshold deposit rate,
    and no more. contracts/overseer/src/contract.rs:331-370 and 406-449. */
module InterestDistribution {
  import opened FixedPoint
  import opened Tax
  import opened MarketModel
  import opened Solvency
  import opened MarketSafety
  import opened OverseerModel

  // ----- deposit rates -----

  // A deposit rate, as bounds on the exchange rate it was drawn from.
  lemma DepositRateBrackets(rate: nat, prev: nat, blocks: nat)
    requires rate >= prev > 0 && blocks > 0
    ensures DepositRate(rate, prev, blocks).Some?
    ensures var d := DepositRate(rate, prev, blocks).value;
            prev * (blocks * d + F) <= rate * F < prev * (blocks * d + blocks + F)
  {
    DepositRateBounds(rate, prev, blocks);
    var q := rate * F / prev;
    var d := DepositRate(rate, prev, blocks).value;
    Floor(rate * F, prev);
    Floor(q - F, blocks);
    MulMono(blocks * d + F, q, prev);
    MulMono(q + 1, blocks * d + blocks + F, prev);
  }

  lemma MonoInRate(rate: nat, later: nat, prev: nat, blocks: nat)
    requires later >= rate >= prev > 0 && blocks > 0
    ensures DepositRate(rate, prev, blocks).Some? && DepositRate(later, prev, blocks).Some?
    ensures DepositRate(rate, prev, blocks).value <= DepositRate(later, prev, blocks).value
  {
    DepositRateBounds(rate, prev, blocks);
    DepositRateBounds(later, prev, blocks);
    Floor(rate * F, prev);
    MulMono(rate, later, F);
    QuotientAtLeast(later * F, prev, rate * F / prev);
    var g, h := rate * F / prev - F, later * F / prev - F;
    Floor(g, blocks);
    QuotientAtLeast(h, blocks, g / blocks);
  }

  // ----- the missing deposits -----

  // `x` is the floored value of the remembered deposits, `paid` at most what they miss.
  lemma PaidAtMostMissing(supply: nat, prevSupply: nat, prev: nat, blocks: nat, missing: nat, x: nat, paid: nat)
    requires prevSupply <= supply && x * F <= prevSupply * prev && paid * F <= x * blocks * missing
    ensures paid * F * F <= supply * (prev * (blocks * missing))
  {
    var nm := blocks * missing;
    Rotate(x, blocks, missing);
    MulMono(paid * F, x * nm, F);
    Rotate(x, nm, F);
    MulMono(x * F, prevSupply * prev, nm);
    Rotate(prevSupply, prev, nm);
    MulMono(prevSupply, supply, prev * nm);
  }

  lemma PaidAtLeastMissing(supply: nat, prev: nat, blocks: nat, missing: nat, x: nat, paid: nat)
    requires supply * prev < x * F + F && x * blocks * missing < paid * F + F
    ensures supply * (prev * (blocks * missing)) <= paid * F * F + F * F + F * (blocks * missing)
  {
    var nm := blocks * missing;
    Rotate(x, blocks, missing);
    MulMono(x * nm, paid * F + F, F);
    Distribute(F, paid * F, F);
    Rotate(x, nm, F);
    MulMono(supply * prev, x * F + F, nm);
    Rotate(supply, prev, nm);
    Distribute(nm, x * F, F);
  }

  // ----- from above -----

  // The rate after `paid` coins came in, from the rate before.
  lemma RateAtMost(supply: nat, prev: nat, assets: nat, rate: nat, later: nat, paid: nat, base: nat, nm: nat)
    requires supply > 0 && prev >= F
    requires assets < rate * supply + supply && later * supply <= assets + paid * F
    requires paid * F * F <= supply * (prev * nm)
    requires rate * F < prev * base
    ensures later * F < prev * (base + nm + 1)
  {
    MulMono(later * supply, rate * supply + supply + paid * F - 1, F);
    Rotate(later, supply, F);
    assert later * F * supply < (rate * F + F + prev * nm) * supply by {
      Distribute(F, rate * supply + supply, paid * F - 1);
      Distribute(F, paid * F, -1);
      Distribute(F, rate * supply, supply);
      Rotate(rate, supply, F);
      Distribute(supply, rate * F + F, prev * nm);
      Distribute(supply, rate * F, F);
    }
    StrictCancel(later * F, rate * F + F + prev * nm, supply);
    Distribute(prev, base + nm, 1);
    Distribute(prev, base, nm);
  }

  // ----- from below -----

  lemma RateAtLeast(supply: nat, prev: nat, assets: nat, rate: nat, later: nat, paid: nat, base: nat, nm: nat)
    requires supply > 0
    requires rate * supply <= assets && assets + paid * F < later * supply + supply
    requires supply * (prev * nm) <= paid * F * F + F * F + F * nm
    requires prev * base <= rate * F
    ensures supply * (prev * (base + nm)) < supply * (later * F) + F * (supply + F + nm)
  {
    Distribute(prev, base, nm);
    Distribute(supply, prev * base, prev * nm);
    MulMono(prev * base, rate * F, supply);
    MulMono(rate * supply + paid * F + 1, later * supply + supply, F);
    Rotate(rate, supply, F);
    Rotate(later, supply, F);
    Distribute(F, rate * supply + paid * F, 1);
    Distribute(F, rate * supply, paid * F);
    Distribute(F, later * supply, supply);
    Distribute(F, supply + F, nm);
    Distribute(F, supply, F);
  }

  // Divided by the previous rate, which is at least 1.
  lemma ShortfallBound(supply: nat, prev: nat, later: nat, want: nat, got: nat, extra: nat)
    requires prev >= F && extra > 0
    requires supply * (prev * want) < supply * (later * F) + F * extra
    requires later * F < prev * got
    ensures supply * (want - got) < extra
  {
    if want > got {
      var gap := want - got;
      MulMono(later * F, prev * got, supply);
      Distribute(prev, got, gap);
      Distribute(supply, prev * got, prev * gap);
      MulMono(F, prev, gap);
      MulMono(F * gap, prev * gap, supply);
      Rotate(F, gap, supply);
      Rotate(gap, supply, F);
      assert supply * gap * F < extra * F;
      StrictCancel(supply * gap, extra, F);
    } else {
      MulMono(0, got - want, supply);
      assert supply * (want - got) == 0 - (got - want) * supply;
    }
  }

  // ----- an epoch in figures -----

  /** The two rates an epoch quotes: before and after `paid` coins reach the market. */
  datatype Quotes = Quotes(blocks: nat, assets: nat, rate: nat, later: nat, paid: nat)

  // Both from the same settled market.
  ghost predicate QuotesOk(w: World, q: Quotes) {
    && q.blocks > 0
    && q.rate >= w.epoch.prevExchangeRate
    && q.rate * w.market.supply <= q.assets < q.rate * w.market.supply + w.market.supply
    && q.later * w.market.supply <= q.assets + q.paid * F < q.later * w.market.supply + w.market.supply
  }

  function RateOf(w: World, rate: nat, blocks: nat): nat {
    var d := DepositRate(rate, w.epoch.prevExchangeRate, blocks);
    if d.Some? then d.value else 0
  }

  // The market's answers, with and without the coins that came in.
  lemma PreviewBounds(l: Ledger, env: Env, paid: nat) returns (assets: nat)
    requires MarketOk(l) && env.height >= l.state.lastInterestUpdated
    ensures PreviewRate(Credit(l, paid), env, paid).Some?
    ensures assets == var s := ComputeInterest(l.state, env, l.balance, l.supply).value; Assets(s, l.balance)
    ensures var r := PreviewRate(Credit(l, paid), env, paid).value;
            && r >= l.state.prevExchangeRate
            && r * l.supply <= assets + paid * F < r * l.supply + l.supply
  {
    PreviewIsExecution(l, env, paid, 0);
    InterestStep(l.state, env, l.balance, l.supply);
    var s := ComputeInterest(l.state, env, l.balance, l.supply).value;
    assert Assets(s, l.balance) >= 0 by { MulMono(0, s.prevExchangeRate, l.supply); }
    assets := Assets(s, l.balance);
    RateBounds(s, l.supply, l.balance + paid);
  }

  // What the epoch hands over, and the deposit rate it stores.
  lemma EpochQuotes(w: World, cfg: EpochConfig, env: Env, rewards: nat, newEmission: nat)
    returns (q: Quotes, split: Split)
    requires WorldOk(w) && RunEpoch(w, cfg, env, rewards, newEmission).Some?
    ensures QuotesOk(w, q)
    ensures q.blocks == env.height - w.epoch.lastExecutedHeight
    ensures q.paid == DeductTax(split.distributed, env.taxRate, env.taxCap)
    ensures PreviewRate(w.market, env, 0) == Some(q.rate)
    ensures SplitBuffer(w.epoch, cfg, RateOf(w, q.rate, q.blocks), q.blocks, w.buffer) == Some(split)
    ensures RunEpoch(w, cfg, env, rewards, newEmission).value.epoch.depositRate == RateOf(w, q.later, q.blocks)
  {
    split := PlanEpoch(w, cfg, env).value;
    var blocks := env.height - w.epoch.lastExecutedHeight;
    var paid := DeductTax(split.distributed, env.taxRate, env.taxCap);
    assert Credit(w.market, 0) == w.market;
    var assets := PreviewBounds(w.market, env, 0);
    var same := PreviewBounds(w.market, env, paid);
    var rate := PreviewRate(w.market, env, 0).value;
    var later := PreviewRate(Credit(w.market, paid), env, paid).value;
    RateAtLeastStored(rate, w.epoch.prevExchangeRate, blocks);
    q := Quotes(blocks, assets, rate, later, paid);
  }

  // ----- the distribution -----

  lemma LaterIsHigher(w: World, q: Quotes)
    requires MarketOk(w.market) && QuotesOk(w, q)
    ensures q.later >= q.rate && (q.paid == 0 ==> q.later == q.rate)
  {
    if q.later < q.rate {
      MulMono(q.later + 1, q.rate, w.market.supply);
    }
    if q.paid == 0 && q.rate < q.later {
      MulMono(q.rate + 1, q.later, w.market.supply);
    }
  }

  lemma StoredAtLeastQuoted(w: World, q: Quotes)
    requires MarketOk(w.market) && QuotesOk(w, q) && w.epoch.prevExchangeRate >= F
    ensures RateOf(w, q.rate, q.blocks) <= RateOf(w, q.later, q.blocks)
    ensures q.paid == 0 ==> RateOf(w, q.rate, q.blocks) == RateOf(w, q.later, q.blocks)
  {
    LaterIsHigher(w, q);
    MonoInRate(q.rate, q.later, w.epoch.prevExchangeRate, q.blocks);
  }

  lemma CappedByThreshold(w: World, q: Quotes, missing: nat)
    requires MarketOk(w.market) && QuotesOk(w, q) && w.epoch.prevExchangeRate >= F
    requires w.market.supply >= w.epoch.prevAterraSupply
    requires q.paid <= MissingDeposits(w.epoch, q.blocks, missing)
    ensures RateOf(w, q.later, q.blocks) <= RateOf(w, q.rate, q.blocks) + missing + 1
  {
    var supply, prev, n := w.market.supply, w.epoch.prevExchangeRate, q.blocks;
    var x := Mul(w.epoch.prevAterraSupply, prev);
    LaterIsHigher(w, q);
    DepositRateBrackets(q.rate, prev, n);
    DepositRateBrackets(q.later, prev, n);
    var d, stored := RateOf(w, q.rate, n), RateOf(w, q.later, n);
    MulFloor(w.epoch.prevAterraSupply, prev);
    MulFloor(x * n, missing);
    MulMono(q.paid, Mul(x * n, missing), F);
    PaidAtMostMissing(supply, w.epoch.prevAterraSupply, prev, n, missing, x, q.paid);
    RateAtMost(supply, prev, q.assets, q.rate, q.later, q.paid, n * d + n + F, n * missing);
    StoredAtMost(prev, n, d, missing, stored, q.later * F);
  }

  lemma StoredAtMost(prev: nat, n: nat, d: nat, missing: nat, stored: nat, scaled: nat)
    requires n > 0 && scaled < prev * (n * d + n + F + n * missing + 1)
    requires prev * (n * stored + F) <= scaled
    ensures stored <= d + missing + 1
  {
    StrictCancel(n * stored + F, n * d + n + F + n * missing + 1, prev);
    Distribute(n, d + missing, 1);
    Distribute(n, d, missing);
    MulCancel(stored, d + missing + 1, n);
  }

  lemma BoundedSplit(w: World, cfg: EpochConfig, quoted: nat, blocks: nat, split: Split)
    requires SplitBuffer(w.epoch, cfg, quoted, blocks, w.buffer) == Some(split)
    ensures if quoted >= cfg.thresholdDepositRate then split.distributed == 0
            else split.distributed <= MissingDeposits(w.epoch, blocks, cfg.thresholdDepositRate - quoted)
  {
  }

  lemma CappedQuotes(w: World, cfg: EpochConfig, q: Quotes, split: Split)
    requires MarketOk(w.market) && QuotesOk(w, q) && w.epoch.prevExchangeRate >= F
    requires w.market.supply >= w.epoch.prevAterraSupply && q.paid <= split.distributed
    requires SplitBuffer(w.epoch, cfg, RateOf(w, q.rate, q.blocks), q.blocks, w.buffer) == Some(split)
    ensures var quoted, stored := RateOf(w, q.rate, q.blocks), RateOf(w, q.later, q.blocks);
            && quoted <= stored
            && (quoted >= cfg.thresholdDepositRate ==> stored == quoted)
            && (quoted < cfg.thresholdDepositRate ==> stored <= cfg.thresholdDepositRate + 1)
  {
    var quoted := RateOf(w, q.rate, q.blocks);
    StoredAtLeastQuoted(w, q);
    BoundedSplit(w, cfg, quoted, q.blocks, split);
    if quoted < cfg.thresholdDepositRate {
      CappedByThreshold(w, q, cfg.thresholdDepositRate - quoted);
    }
  }

  /** The distribution never lifts the deposit rate by more than one raw unit above the threshold
      (unless it was above before), whatever the tax and the buffer, while aUST is not below the
      remembered supply; and it never lowers the rate. */
  lemma DistributionIsCapped(w: World, cfg: EpochConfig, env: Env, rewards: nat, newEmission: nat)
    requires WorldOk(w) && RunEpoch(w, cfg, env, rewards, newEmission).Some?
    requires w.market.supply >= w.epoch.prevAterraSupply
    ensures PreviewRate(w.market, env, 0).Some? && env.height > w.epoch.lastExecutedHeight
    ensures var quoted := RateOf(w, PreviewRate(w.market, env, 0).value, env.height - w.epoch.lastExecutedHeight);
            var stored := RunEpoch(w, cfg, env, rewards, newEmission).value.epoch.depositRate;
            && quoted <= stored
            && (quoted >= cfg.thresholdDepositRate ==> stored == quoted)
            && (quoted < cfg.thresholdDepositRate ==> stored <= cfg.thresholdDepositRate + 1)
  {
    var q, split := EpochQuotes(w, cfg, env, rewards, newEmission);
    CappedQuotes(w, cfg, q, split);
  }

  // What the distribution may draw on, after the ANC purchase.
  function DistributionBuffer(w: World, cfg: EpochConfig): nat {
    var accrued := Sub(w.buffer, w.epoch.prevInterestBuffer);
    var rest := if accrued.Some? then Sub(w.buffer, Mul(accrued.value, cfg.ancPurchaseFactor)) else None;
    if rest.Some? then Mul(rest.value, cfg.bufferDistributionFactor) else 0
  }

  lemma UnboundSplit(w: World, cfg: EpochConfig, quoted: nat, blocks: nat, split: Split)
    requires SplitBuffer(w.epoch, cfg, quoted, blocks, w.buffer) == Some(split)
    requires quoted < cfg.thresholdDepositRate
    requires MissingDeposits(w.epoch, blocks, cfg.thresholdDepositRate - quoted) <= DistributionBuffer(w, cfg)
    ensures split.distributed == MissingDeposits(w.epoch, blocks, cfg.thresholdDepositRate - quoted)
  {
  }

  // Over all blocks `stored` lacks less than blocks + 1 + (10^18 + blocks * (target - quoted)) / supply raw
  // units of the target; multiplied out by the supply.
  predicate ShortOnlyByRounding(supply: nat, blocks: nat, target: nat, quoted: nat, stored: nat) {
    supply * (blocks * (target - stored) - blocks) < supply + F + blocks * (target - quoted)
  }

  lemma GapInBlocks(n: nat, d: nat, missing: nat, stored: nat)
    ensures n * d + F + n * missing - (n * stored + n + F) == n * (d + missing - stored) - n
  {
    var back: int := 0 - stored;
    Distribute(n, d, missing);
    Distribute(n, d + missing, back);
  }

  lemma ReachesThreshold(w: World, q: Quotes, missing: nat, target: nat)
    requires MarketOk(w.market) && QuotesOk(w, q) && w.epoch.prevExchangeRate >= F
    requires w.market.supply == w.epoch.prevAterraSupply
    requires q.paid == MissingDeposits(w.epoch, q.blocks, missing)
    requires target == RateOf(w, q.rate, q.blocks) + missing
    ensures ShortOnlyByRounding(w.market.supply, q.blocks, target,
                                RateOf(w, q.rate, q.blocks), RateOf(w, q.later, q.blocks))
  {
    var supply, prev, n := w.market.supply, w.epoch.prevExchangeRate, q.blocks;
    var x := Mul(supply, prev);
    LaterIsHigher(w, q);
    DepositRateBrackets(q.rate, prev, n);
    DepositRateBrackets(q.later, prev, n);
    var d, stored := RateOf(w, q.rate, n), RateOf(w, q.later, n);
    MulFloor(supply, prev);
    MulFloor(x * n, missing);
    PaidAtLeastMissing(supply, prev, n, missing, x, q.paid);
    RateAtLeast(supply, prev, q.assets, q.rate, q.later, q.paid, n * d + F, n * missing);
    ShortfallBound(supply, prev, q.later, n * d + F + n * missing, n * stored + n + F, supply + F + n * missing);
    GapInBlocks(n, d, missing, stored);
  }

  lemma ReachedQuotes(w: World, cfg: EpochConfig, q: Quotes, split: Split)
    requires MarketOk(w.market) && QuotesOk(w, q) && w.epoch.prevExchangeRate >= F
    requires w.market.supply == w.epoch.prevAterraSupply && q.paid == split.distributed
    requires SplitBuffer(w.epoch, cfg, RateOf(w, q.rate, q.blocks), q.blocks, w.buffer) == Some(split)
    ensures var quoted, stored := RateOf(w, q.rate, q.blocks), RateOf(w, q.later, q.blocks);
            var target := cfg.thresholdDepositRate;
            quoted < target && MissingDeposits(w.epoch, q.blocks, target - quoted) <= DistributionBuffer(w, cfg) ==>
              stored <= target + 1 && ShortOnlyByRounding(w.market.supply, q.blocks, target, quoted, stored)
  {
    CappedQuotes(w, cfg, q, split);
    var quoted, target := RateOf(w, q.rate, q.blocks), cfg.thresholdDepositRate;
    if quoted < target && MissingDeposits(w.epoch, q.blocks, target - quoted) <= DistributionBuffer(w, cfg) {
      UnboundSplit(w, cfg, quoted, q.blocks, split);
      ReachesThreshold(w, q, target - quoted, target);
    }
  }

  /** The deposit rate stored by the epoch from w to t is within rounding of the threshold, on both
      sides, if it was below before and the buffer does not bind. */
  ghost predicate Reached(w: World, cfg: EpochConfig, env: Env, t: World) {
    && PreviewRate(w.market, env, 0).Some? && env.height > w.epoch.lastExecutedHeight
    && var blocks: nat := env.height - w.epoch.lastExecutedHeight;
       var quoted, stored := RateOf(w, PreviewRate(w.market, env, 0).value, blocks), t.epoch.depositRate;
       var target := cfg.thresholdDepositRate;
       (quoted < target && MissingDeposits(w.epoch, blocks, target - quoted) <= DistributionBuffer(w, cfg) ==>
          stored <= target + 1 && ShortOnlyByRounding(w.market.supply, blocks, target, quoted, stored))
  }

  /** Without tax and with the supply unchanged since the last epoch the threshold is reached. */
  lemma DistributionReaches(w: World, cfg: EpochConfig, env: Env, rewards: nat, newEmission: nat)
    requires WorldOk(w) && RunEpoch(w, cfg, env, rewards, newEmission).Some?
    requires w.market.supply == w.epoch.prevAterraSupply && env.taxRate == 0
    ensures Reached(w, cfg, env, RunEpoch(w, cfg, env, rewards, newEmission).value)
  {
    var q, split := EpochQuotes(w, cfg, env, rewards, newEmission);
    NoTax(split.distributed, env.taxRate, env.taxCap);
    ReachedQuotes(w, cfg, q, split);
  }

  lemma NoTax(amount: nat, rate: nat, cap: nat)
    requires rate == 0
    ensures DeductTax(amount, rate, cap) == amount
  {
    DivExact(amount, F);
  }

  // ----- one epoch after another -----

  // Everything but deposits, redemptions and epochs.
  predicate KeepsSupply(tx: WorldTx) {
    match tx
    case MarketTx(t) => !t.Deposit? && !t.Redeem?
    case EpochTx(_, _, _, _) => false
    case Inflow(_) => true
  }

  lemma StepKeepsSupply(w: World, tx: WorldTx)
    requires WorldOk(w) && KeepsSupply(tx)
    ensures NextWorld(w, tx).market.supply == w.market.supply && NextWorld(w, tx).epoch == w.epoch
  {
  }

  lemma {:induction false} RunKeepsSupply(w: World, txs: seq<WorldTx>)
    requires WorldOk(w) && forall i :: 0 <= i < |txs| ==> KeepsSupply(txs[i])
    ensures RunWorld(w, txs).market.supply == w.market.supply && RunWorld(w, txs).epoch == w.epoch
    decreases |txs|
  {
    if txs != [] {
      WorldStepSafe(w, txs[0]);
      StepKeepsSupply(w, txs[0]);
      RunKeepsSupply(NextWorld(w, txs[0]), txs[1..]);
    }
  }

  /** An epoch, then any transactions without mint or burn, then an untaxed epoch: the second one, if
      its buffer does not bind, brings the deposit rate within rounding of the threshold. */
  lemma {:induction false} NextEpochReaches(w: World, cfg: EpochConfig, env: Env, rewards: nat, newEmission: nat,
                                            txs: seq<WorldTx>, cfg2: EpochConfig, env2: Env, rewards2: nat,
                                            newEmission2: nat)
    requires WorldOk(w) && RunEpoch(w, cfg, env, rewards, newEmission).Some?
    requires forall i :: 0 <= i < |txs| ==> KeepsSupply(txs[i])
    requires env2.taxRate == 0
    requires RunEpoch(RunWorld(RunEpoch(w, cfg, env, rewards, newEmission).value, txs),
                      cfg2, env2, rewards2, newEmission2).Some?
    ensures var u := RunWorld(RunEpoch(w, cfg, env, rewards, newEmission).value, txs);
            && u.epoch.lastExecutedHeight == env.height
            && Reached(u, cfg2, env2, RunEpoch(u, cfg2, env2, rewards2, newEmission2).value)
  {
    EpochTheorem(w, cfg, env, rewards, newEmission);
    var t := RunEpoch(w, cfg, env, rewards, newEmission).value;
    WorldRunSafe(t, txs);
    RunKeepsSupply(t, txs);
    DistributionReaches(RunWorld(t, txs), cfg2, env2, rewards2, newEmission2);
  }
}
