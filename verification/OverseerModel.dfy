/** The overseer's epoch, together with the market it drives: contracts/overseer/src/contract.rs. */
module OverseerModel {
  import opened FixedPoint
  import opened Tax
  import opened MarketModel
  import opened Solvency
  import opened MarketSafety
  import opened MarketRun

  datatype EpochState = EpochState(
    depositRate: nat,         // Decimal
    prevAterraSupply: nat,
    prevExchangeRate: nat,    // Decimal
    prevInterestBuffer: nat,
    lastExecutedHeight: nat
  )

  // The target rate is in Env, since the market reads it from here.
  datatype EpochConfig = EpochConfig(
    epochPeriod: nat,
    thresholdDepositRate: nat,      // Decimal
    bufferDistributionFactor: nat,  // Decimal
    ancPurchaseFactor: nat          // Decimal
  )

  /** `buffer` is the overseer's stablecoin balance. */
  datatype World = World(market: Ledger, epoch: EpochState, buffer: nat)

  function InitialWorld(height: nat, emission: nat): World {
    World(InitialLedger(height, emission), EpochState(0, 0, F, 0, height), 0)
  }

  // The parts of the interest buffer: bought into ANC, given to depositors (before tax), kept.
  datatype Split = Split(ancPurchase: nat, distributed: nat, kept: nat)

  function MissingDeposits(e: EpochState, blocks: nat, missingRate: nat): nat {
    Mul(Mul(e.prevAterraSupply, e.prevExchangeRate) * blocks, missingRate)
  }

  function SplitBuffer(e: EpochState, cfg: EpochConfig, depositRate: nat, blocks: nat, buffer: nat): Option<Split> {
    var accrued :- Sub(buffer, e.prevInterestBuffer);
    var purchase := Mul(accrued, cfg.ancPurchaseFactor);
    var rest :- Sub(buffer, purchase);
    if depositRate < cfg.thresholdDepositRate then
      var distributed := Min(MissingDeposits(e, blocks, cfg.thresholdDepositRate - depositRate),
                             Mul(rest, cfg.bufferDistributionFactor));
      var kept :- Sub(rest, distributed);
      Some(Split(purchase, distributed, kept))
    else Some(Split(purchase, 0, rest))
  }

  // The handler's own part: how the buffer is to be split, or an error.
  function PlanEpoch(w: World, cfg: EpochConfig, env: Env): Option<Split> {
    if env.height < w.epoch.lastExecutedHeight + cfg.epochPeriod then None else
      var blocks := env.height - w.epoch.lastExecutedHeight;
      var rate :- PreviewRate(w.market, env, 0);
      var depositRate :- DepositRate(rate, w.epoch.prevExchangeRate, blocks);
      SplitBuffer(w.epoch, cfg, depositRate, blocks, w.buffer)
  }

  /** The handler, then its messages in order: the two sends, the custody rewards (an inflow of
      `rewards`), the overseer's own update and the market's epoch step. */
  function RunEpoch(w: World, cfg: EpochConfig, env: Env, rewards: nat, newEmission: nat): Option<World> {
    var split :- PlanEpoch(w, cfg, env);
    SendAndUpdate(w, env, split, rewards, newEmission)
  }

  function SendAndUpdate(w: World, env: Env, split: Split, rewards: nat, newEmission: nat): Option<World> {
    var net := DeductTax(split.distributed, env.taxRate, env.taxCap);
    var spent := Outflow(split.ancPurchase, env.taxRate, env.taxCap)
                 + Outflow(split.distributed, env.taxRate, env.taxCap);
    var left :- Sub(w.buffer, spent);
    UpdateEpochState(World(Credit(w.market, net), w.epoch, left + rewards), env, split.kept, net, newEmission)
  }

  function UpdateEpochState(w: World, env: Env, kept: nat, distributed: nat, newEmission: nat): Option<World> {
    var blocks :- Sub(env.height, w.epoch.lastExecutedHeight);
    var rate :- PreviewRate(w.market, env, distributed);
    var depositRate :- DepositRate(rate, w.epoch.prevExchangeRate, blocks);
    var market :- ExecuteEpoch(w.market, env, distributed, newEmission);
    Some(World(market, EpochState(depositRate, w.market.supply, rate, kept, env.height), w.buffer))
  }

  // ----- transactions of the two contracts -----

  /** Only the overseer may call the market's epoch step, so as a user transaction it is refused.
      `Inflow` is anything sent to the overseer: bid fees, custody rewards, donations. */
  datatype WorldTx =
    | MarketTx(tx: Tx)
    | EpochTx(cfg: EpochConfig, env: Env, rewards: nat, newEmission: nat)
    | Inflow(amount: nat)

  function ApplyWorld(w: World, tx: WorldTx): Option<World> {
    match tx
    case MarketTx(t) =>
      if t.Epoch? then None else
        var m :- Apply(w.market, t);
        Some(w.(market := m))
    case EpochTx(cfg, env, rewards, emission) => RunEpoch(w, cfg, env, rewards, emission)
    case Inflow(amount) => Some(w.(buffer := w.buffer + amount))
  }

  function NextWorld(w: World, tx: WorldTx): World {
    var r := ApplyWorld(w, tx);
    if r.Some? then r.value else w
  }

  function RunWorld(w: World, txs: seq<WorldTx>): World
    decreases |txs|
  {
    if txs == [] then w else RunWorld(NextWorld(w, txs[0]), txs[1..])
  }

  // ----- invariant -----

  ghost predicate WorldOk(w: World) {
    && MarketOk(w.market)
    && F <= w.epoch.prevExchangeRate <= w.market.state.prevExchangeRate
    && w.epoch.prevInterestBuffer <= w.buffer
  }

  // ----- the preview -----

  // The state an epoch settles to, before the reserves are sent: its stored rate is the live one.
  lemma SettledEpochRate(l: Ledger, env: Env, distributed: nat)
    requires MarketOk(l)
    ensures SettleEpoch(l.state, env, l.balance, distributed, l.supply).Some?
    ensures var s := SettleEpoch(l.state, env, l.balance, distributed, l.supply).value;
            && ExchangeRate(s, l.supply, l.balance + distributed) == Some(s.prevExchangeRate)
            && s.prevExchangeRate >= l.state.prevExchangeRate
            && (env.height >= l.state.lastInterestUpdated ==>
                  PreviewRate(Credit(l, distributed), env, distributed) == Some(s.prevExchangeRate))
  {
    InterestStep(l.state, env, l.balance, l.supply);
    var s := ComputeInterest(l.state, env, l.balance, l.supply).value;
    var all := l.balance + distributed;
    assert Assets(s, all) >= l.state.prevExchangeRate * l.supply by {
      assert Assets(s, all) >= s.prevExchangeRate * l.supply;
      MulMono(l.state.prevExchangeRate, s.prevExchangeRate, l.supply);
    }
    RateIsCoverage(s, l.supply, all, l.state.prevExchangeRate);
    var s' := s.(prevExchangeRate := ExchangeRate(s, l.supply, all).value);
    RewardStep(s', env.height);
    SameRate(s, ComputeReward(s', env.height).value, l.supply, all);
  }

  lemma SameRate(s: State, t: State, supply: nat, balance: nat)
    requires s.totalLiabilities == t.totalLiabilities && s.totalReserves == t.totalReserves
    ensures ExchangeRate(s, supply, balance) == ExchangeRate(t, supply, balance)
  {
  }

  /** What the market answers to the overseer is what its epoch step then stores. */
  lemma PreviewIsExecution(l: Ledger, env: Env, distributed: nat, newEmission: nat)
    requires MarketOk(l) && env.height >= l.state.lastInterestUpdated
    ensures var q := PreviewRate(Credit(l, distributed), env, distributed);
            var r := ExecuteEpoch(Credit(l, distributed), env, distributed, newEmission);
            q.Some? && r.Some? && r.value.state.prevExchangeRate == q.value >= l.state.prevExchangeRate
  {
    EpochSafe(l, env, distributed, newEmission);
    SettledEpochRate(l, env, distributed);
  }

  // With `kept` coins staying behind that were booked out of the reserves.
  lemma RateAfterGift(s: State, t: State, supply: nat, balance: nat, left: nat, kept: nat)
    requires supply > 0 && Assets(s, balance) >= 0 && Assets(t, left) == Assets(s, balance) + Dec(kept)
    ensures ExchangeRate(s, supply, balance).Some? && ExchangeRate(t, supply, left).Some?
    ensures var rate := ExchangeRate(s, supply, balance).value;
            && ExchangeRate(t, supply, left).value >= rate
            && (ExchangeRate(t, supply, left).value == rate <==> Assets(s, balance) % supply + Dec(kept) < supply)
  {
    RateBounds(s, supply, balance);
    var rate := ExchangeRate(s, supply, balance).value;
    assert Assets(s, balance) == rate * supply + Assets(s, balance) % supply by {
      DivByDec(Assets(s, balance), supply);
    }
    RateIsCoverage(t, supply, left, rate);
    RateIsCoverage(t, supply, left, rate + 1);
    assert (rate + 1) * supply == rate * supply + supply;
  }

  lemma SendReservesRate(l: Ledger, env: Env, s: State, cash: nat, newEmission: nat)
    requires l.supply > 0 && ExchangeRate(s, l.supply, l.balance) == Some(s.prevExchangeRate)
    requires SendReserves(l, env, s, cash, newEmission).Some?
    ensures var sent := ReservesToSend(s, cash);
            var out := Outflow(sent, env.taxRate, env.taxCap);
            var t := SendReserves(l, env, s, cash, newEmission).value;
            var live := ExchangeRate(t.state, t.supply, t.balance);
            && live.Some? && live.value >= t.state.prevExchangeRate == s.prevExchangeRate
            && out <= sent
            && (live.value == t.state.prevExchangeRate
                <==> Assets(s, l.balance) % l.supply + Dec(sent - out) < l.supply)
  {
    var sent := ReservesToSend(s, cash);
    OutflowWithinGross(sent, env.taxRate, env.taxCap);
    RateIsCoverage(s, l.supply, l.balance, 0);
    var t := SendReserves(l, env, s, cash, newEmission).value;
    RateAfterGift(s, t.state, l.supply, l.balance, t.balance, sent - Outflow(sent, env.taxRate, env.taxCap));
  }

  /** Sending the reserves out never lowers the live rate below the stored one. It leaves it there
      exactly when the coins that tax rounding keeps back, together with the fraction the stored rate
      has rounded away, stay below one raw unit per aUST. */
  lemma ReservesLeaveRate(l: Ledger, env: Env, distributed: nat, newEmission: nat)
    requires MarketOk(l)
    ensures SettleEpoch(l.state, env, l.balance, distributed, l.supply).Some?
    ensures ExecuteEpoch(Credit(l, distributed), env, distributed, newEmission).Some?
    ensures var s := SettleEpoch(l.state, env, l.balance, distributed, l.supply).value;
            var sent := ReservesToSend(s, l.balance);
            var out := Outflow(sent, env.taxRate, env.taxCap);
            var t := ExecuteEpoch(Credit(l, distributed), env, distributed, newEmission).value;
            var live := ExchangeRate(t.state, t.supply, t.balance);
            && live.Some? && live.value >= t.state.prevExchangeRate
            && out <= sent
            && (live.value == t.state.prevExchangeRate
                <==> Assets(s, l.balance + distributed) % l.supply + Dec(sent - out) < l.supply)
  {
    EpochSafe(l, env, distributed, newEmission);
    EpochInSteps(l, env, distributed, newEmission);
    SettledEpochRate(l, env, distributed);
    var s := SettleEpoch(l.state, env, l.balance, distributed, l.supply).value;
    SendReservesRate(Credit(l, distributed), env, s, l.balance, newEmission);
  }

  // A rate at least the previous one gives a deposit rate unless no block passed.
  lemma RateAtLeastStored(rate: nat, prevRate: nat, blocks: nat)
    requires rate >= prevRate > 0
    ensures DepositRate(rate, prevRate, blocks).Some? <==> blocks > 0
  {
    if blocks > 0 {
      DepositRateBounds(rate, prevRate, blocks);
    } else {
      DivFloor(rate, prevRate);
    }
  }

  // ----- the buffer -----

  ghost predicate FactorsOk(cfg: EpochConfig) {
    cfg.ancPurchaseFactor <= F && cfg.bufferDistributionFactor <= F
  }

  /** Nothing of the buffer is lost in the split, and with factors up to 1 it never fails. */
  lemma SplitConserves(e: EpochState, cfg: EpochConfig, depositRate: nat, blocks: nat, buffer: nat)
    ensures var s := SplitBuffer(e, cfg, depositRate, blocks, buffer);
            && (s.Some? ==> s.value.ancPurchase + s.value.distributed + s.value.kept == buffer)
            && (FactorsOk(cfg) && e.prevInterestBuffer <= buffer ==> s.Some?)
  {
    if FactorsOk(cfg) && e.prevInterestBuffer <= buffer {
      PartOf(buffer - e.prevInterestBuffer, cfg.ancPurchaseFactor);
      PartOf(buffer - Mul(buffer - e.prevInterestBuffer, cfg.ancPurchaseFactor), cfg.bufferDistributionFactor);
    }
  }

  /** The parts of the split: the ANC purchase is the floored part of what the buffer gained, and below
      the threshold the smaller of the missing deposits and the floored part of the rest is given out. */
  lemma SplitFigures(e: EpochState, cfg: EpochConfig, depositRate: nat, blocks: nat, buffer: nat)
    returns (deposits: nat, missing: nat, part: nat)
    requires SplitBuffer(e, cfg, depositRate, blocks, buffer).Some?
    ensures e.prevInterestBuffer <= buffer
    ensures var s := SplitBuffer(e, cfg, depositRate, blocks, buffer).value;
            && s.ancPurchase * F <= (buffer - e.prevInterestBuffer) * cfg.ancPurchaseFactor < s.ancPurchase * F + F
            && s.ancPurchase <= buffer
            && part * F <= (buffer - s.ancPurchase) * cfg.bufferDistributionFactor < part * F + F
            && (depositRate >= cfg.thresholdDepositRate ==> s.distributed == 0)
            && (depositRate < cfg.thresholdDepositRate ==>
                  && deposits * F <= e.prevAterraSupply * e.prevExchangeRate < deposits * F + F
                  && (missing * F <= deposits * blocks * (cfg.thresholdDepositRate - depositRate) < missing * F + F)
                  && s.distributed == if missing <= part then missing else part)
  {
    var s := SplitBuffer(e, cfg, depositRate, blocks, buffer).value;
    MulFloor(buffer - e.prevInterestBuffer, cfg.ancPurchaseFactor);
    part := Mul(buffer - s.ancPurchase, cfg.bufferDistributionFactor);
    MulFloor(buffer - s.ancPurchase, cfg.bufferDistributionFactor);
    deposits, missing := Mul(e.prevAterraSupply, e.prevExchangeRate), 0;
    if depositRate < cfg.thresholdDepositRate {
      missing := MissingDeposits(e, blocks, cfg.thresholdDepositRate - depositRate);
      MulFloor(e.prevAterraSupply, e.prevExchangeRate);
      MulFloor(deposits * blocks, cfg.thresholdDepositRate - depositRate);
    }
  }

  // ----- the epoch -----

  lemma UpdateSafe(w: World, env: Env, kept: nat, distributed: nat, newEmission: nat)
    requires MarketOk(w.market) && F <= w.epoch.prevExchangeRate <= w.market.state.prevExchangeRate
    requires kept <= w.buffer
    ensures var r := UpdateEpochState(w.(market := Credit(w.market, distributed)), env, kept, distributed, newEmission);
            && (r.Some? <==> env.height > w.epoch.lastExecutedHeight
                             && env.height >= w.market.state.lastInterestUpdated)
            && (r.Some? ==>
                  && WorldOk(r.value)
                  && r.value.epoch.prevExchangeRate == r.value.market.state.prevExchangeRate
                  && r.value.epoch.prevInterestBuffer == kept && r.value.buffer == w.buffer
                  && r.value.epoch.prevAterraSupply == r.value.market.supply == w.market.supply
                  && r.value.epoch.lastExecutedHeight == env.height
                  && Forward(w.market.state, r.value.market.state))
  {
    if env.height >= w.market.state.lastInterestUpdated {
      EpochSafe(w.market, env, distributed, newEmission);
      PreviewIsExecution(w.market, env, distributed, newEmission);
      var rate := PreviewRate(Credit(w.market, distributed), env, distributed).value;
      if env.height >= w.epoch.lastExecutedHeight {
        RateAtLeastStored(rate, w.epoch.prevExchangeRate, env.height - w.epoch.lastExecutedHeight);
      }
    }
  }

  lemma SendSafe(w: World, env: Env, split: Split, rewards: nat, newEmission: nat)
    requires WorldOk(w) && split.ancPurchase + split.distributed + split.kept == w.buffer
    ensures var r := SendAndUpdate(w, env, split, rewards, newEmission);
            && (r.Some? <==> env.height > w.epoch.lastExecutedHeight
                             && env.height >= w.market.state.lastInterestUpdated)
            && (r.Some? ==>
                  && AfterEpoch(w, r.value) && r.value.epoch.lastExecutedHeight == env.height
                  && r.value.epoch.prevInterestBuffer == split.kept
                  && r.value.buffer == w.buffer + rewards - Outflow(split.ancPurchase, env.taxRate, env.taxCap)
                       - Outflow(split.distributed, env.taxRate, env.taxCap))
  {
    OutflowWithinGross(split.ancPurchase, env.taxRate, env.taxCap);
    OutflowWithinGross(split.distributed, env.taxRate, env.taxCap);
    var spent := Outflow(split.ancPurchase, env.taxRate, env.taxCap)
                 + Outflow(split.distributed, env.taxRate, env.taxCap);
    var net := DeductTax(split.distributed, env.taxRate, env.taxCap);
    UpdateSafe(World(w.market, w.epoch, w.buffer - spent + rewards), env, split.kept, net, newEmission);
  }

  // Both contracts hold the same rate, not below the old one, the recorded buffer is there, and the
  // recorded aUST supply is the present one.
  ghost predicate AfterEpoch(w: World, t: World) {
    && WorldOk(t)
    && t.epoch.prevExchangeRate == t.market.state.prevExchangeRate >= w.epoch.prevExchangeRate
    && t.epoch.prevAterraSupply == t.market.supply == w.market.supply
    && Forward(w.market.state, t.market.state)
  }

  // The first query of an epoch, and the deposit rate drawn from it.
  lemma QuotedRate(w: World, env: Env)
    requires WorldOk(w) && env.height >= w.epoch.lastExecutedHeight
    ensures var q := PreviewRate(w.market, env, 0);
            && (q.Some? <==> env.height >= w.market.state.lastInterestUpdated)
            && (q.Some? ==>
                  var r := DepositRate(q.value, w.epoch.prevExchangeRate, env.height - w.epoch.lastExecutedHeight);
                  r.Some? <==> env.height > w.epoch.lastExecutedHeight)
  {
    if env.height >= w.market.state.lastInterestUpdated {
      assert Credit(w.market, 0) == w.market;
      PreviewIsExecution(w.market, env, 0, 0);
      var rate := PreviewRate(w.market, env, 0).value;
      RateAtLeastStored(rate, w.epoch.prevExchangeRate, env.height - w.epoch.lastExecutedHeight);
    }
  }

  /** An epoch fails only when it comes too early; afterwards both contracts store the same rate, the
      overseer records the block, the present aUST supply and the kept part of the split, and holds
      what the two sends and the rewards leave of its coins: at least the buffer it recorded. */
  lemma EpochTheorem(w: World, cfg: EpochConfig, env: Env, rewards: nat, newEmission: nat)
    requires WorldOk(w)
    ensures FactorsOk(cfg) ==>
              (RunEpoch(w, cfg, env, rewards, newEmission).Some? <==>
                && env.height >= w.epoch.lastExecutedHeight + cfg.epochPeriod
                && env.height > w.epoch.lastExecutedHeight
                && env.height >= w.market.state.lastInterestUpdated)
    ensures RunEpoch(w, cfg, env, rewards, newEmission).Some? ==>
              var t := RunEpoch(w, cfg, env, rewards, newEmission).value;
              && AfterEpoch(w, t) && t.epoch.lastExecutedHeight == env.height
              && PlanEpoch(w, cfg, env).Some?
              && var split := PlanEpoch(w, cfg, env).value;
                 && t.epoch.prevInterestBuffer == split.kept
                 && t.buffer == w.buffer + rewards - Outflow(split.ancPurchase, env.taxRate, env.taxCap)
                      - Outflow(split.distributed, env.taxRate, env.taxCap)
  {
    if env.height >= w.epoch.lastExecutedHeight + cfg.epochPeriod {
      QuotedRate(w, env);
      var blocks := env.height - w.epoch.lastExecutedHeight;
      var rate := PreviewRate(w.market, env, 0);
      if rate.Some? && blocks > 0 {
        var depositRate := DepositRate(rate.value, w.epoch.prevExchangeRate, blocks).value;
        SplitConserves(w.epoch, cfg, depositRate, blocks, w.buffer);
        var split := SplitBuffer(w.epoch, cfg, depositRate, blocks, w.buffer);
        if split.Some? {
          SendSafe(w, env, split.value, rewards, newEmission);
        }
      }
    }
  }

  /** Instantiated at `height`, the overseer runs its first epoch exactly a period (and at least one
      block) later. */
  lemma FirstEpoch(height: nat, emission: nat, cfg: EpochConfig, env: Env, rewards: nat, newEmission: nat)
    requires FactorsOk(cfg)
    ensures RunEpoch(InitialWorld(height, emission), cfg, env, rewards, newEmission).Some?
       <==> env.height >= height + cfg.epochPeriod && env.height > height
  {
    EpochTheorem(InitialWorld(height, emission), cfg, env, rewards, newEmission);
  }

  lemma WorldStepSafe(w: World, tx: WorldTx)
    requires WorldOk(w)
    ensures WorldOk(NextWorld(w, tx))
  {
    match tx
    case MarketTx(t) => StepSafe(w.market, t);
    case EpochTx(cfg, env, rewards, emission) => EpochTheorem(w, cfg, env, rewards, emission);
    case Inflow(_) =>
  }

  /** In every reachable state: the overseer's stored rate is at least 1 and at most the market's,
      so its `effective rate - 1` never underflows; and its balance covers the recorded buffer, so
      `accrued buffer` never does. */
  lemma {:induction false} WorldRunSafe(w: World, txs: seq<WorldTx>)
    requires WorldOk(w)
    ensures WorldOk(RunWorld(w, txs))
    decreases |txs|
  {
    if txs != [] {
      WorldStepSafe(w, txs[0]);
      WorldRunSafe(NextWorld(w, txs[0]), txs[1..]);
    }
  }

  lemma {:induction false} ReachableWorld(height: nat, emission: nat, txs: seq<WorldTx>)
    ensures var w := RunWorld(InitialWorld(height, emission), txs);
            && F <= w.epoch.prevExchangeRate <= w.market.state.prevExchangeRate
            && w.epoch.prevInterestBuffer <= w.buffer
            && MarketOk(w.market)
  {
    WorldRunSafe(InitialWorld(height, emission), txs);
  }

  lemma {:induction false} RunWorldAppend(w: World, a: seq<WorldTx>, b: seq<WorldTx>)
    ensures RunWorld(w, a + b) == RunWorld(RunWorld(w, a), b)
    decreases |a|
  {
    if a == [] {
      assert a + b == b;
    } else {
      assert (a + b)[0] == a[0] && (a + b)[1..] == a[1..] + b;
      RunWorldAppend(NextWorld(w, a[0]), a[1..], b);
    }
  }

  lemma {:induction false} RunWorldOne(w: World, tx: WorldTx)
    ensures RunWorld(w, [tx]) == NextWorld(w, tx)
  {
    assert [tx][1..] == [];
  }

  // ----- the market inside the world -----

  /** What the market goes through beside the overseer is a market run: every theorem about runs of
      the market holds in every state the two contracts reach together. */
  lemma {:induction false} WorldMarketIsMarketRun(w: World, txs: seq<WorldTx>) returns (ms: seq<Tx>)
    ensures RunWorld(w, txs).market == Run(w.market, ms)
    decreases |txs|
  {
    if txs == [] {
      ms := [];
    } else {
      var head := MarketPart(w, txs[0]);
      var rest := WorldMarketIsMarketRun(NextWorld(w, txs[0]), txs[1..]);
      RunAppend(w.market, head, rest);
      ms := head + rest;
    }
  }

  lemma MarketPart(w: World, tx: WorldTx) returns (ms: seq<Tx>)
    ensures NextWorld(w, tx).market == Run(w.market, ms)
  {
    ms := [];
    if ApplyWorld(w, tx).Some? {
      if tx.MarketTx? {
        ms := [tx.tx];
        RunOne(w.market, tx.tx);
      } else if tx.EpochTx? {
        var t;
        t := EpochAsTx(w, tx);
        ms := [t];
        RunOne(w.market, t);
      }
    }
  }

  lemma EpochAsTx(w: World, tx: WorldTx) returns (t: Tx)
    requires tx.EpochTx? && ApplyWorld(w, tx).Some?
    ensures Next(w.market, t) == ApplyWorld(w, tx).value.market
  {
    assert ApplyWorld(w, tx) == RunEpoch(w, tx.cfg, tx.env, tx.rewards, tx.newEmission);
    var net := EpochPart(w, tx.cfg, tx.env, tx.rewards, tx.newEmission);
    t := Epoch(tx.env, net, tx.newEmission);
    assert Apply(w.market, t) == ExecuteEpoch(Credit(w.market, net), tx.env, net, tx.newEmission);
  }

  lemma EpochPart(w: World, cfg: EpochConfig, env: Env, rewards: nat, newEmission: nat) returns (net: nat)
    requires RunEpoch(w, cfg, env, rewards, newEmission).Some?
    ensures ExecuteEpoch(Credit(w.market, net), env, net, newEmission)
         == Some(RunEpoch(w, cfg, env, rewards, newEmission).value.market)
  {
    var split := PlanEpoch(w, cfg, env).value;
    net := DeductTax(split.distributed, env.taxRate, env.taxCap);
  }
}
