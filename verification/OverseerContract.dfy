/** The overseer's epoch as it runs: it reads the market, splits its buffer step by step, sends
    coins, stores its epoch state and calls the market. Proved against OverseerModel. */
module OverseerContract {
  import opened FixedPoint
  import opened Tax
  import opened MarketModel
  import opened MarketSafety
  import opened MarketContract
  import opened OverseerModel

  class Overseer {
    var epoch: EpochState
    var balance: nat
    const market: Market
    const cfg: EpochConfig

    constructor Init(market: Market, cfg: EpochConfig, height: nat)
      ensures this.market == market && this.cfg == cfg
      ensures epoch == EpochState(0, 0, F, 0, height) && balance == 0
    {
      this.market, this.cfg := market, cfg;
      epoch, balance := EpochState(0, 0, F, 0, height), 0;
    }

    function View(): World
      reads this, market
    {
      World(market.View(), epoch, balance)
    }

    /** The whole epoch transaction. `rewards` is what the custody contracts send back to the
        overseer between the sends and the update. A failure anywhere restores everything. */
    method ExecuteEpochOperations(env: Env, rewards: nat, newEmission: nat) returns (ok: bool)
      modifies this, market
      ensures ok == RunEpoch(old(View()), cfg, env, rewards, newEmission).Some?
      ensures View() == if ok then RunEpoch(old(View()), cfg, env, rewards, newEmission).value else old(View())
    {
      var split := PlanEpoch(env);
      if split.None? { return false; }
      ok := SendAndUpdate(env, split.value, rewards, newEmission);
    }

    // The rates, and the reassigned buffer figures.
    method PlanEpoch(env: Env) returns (r: Option<Split>)
      ensures r == OverseerModel.PlanEpoch(View(), cfg, env)
    {
      if env.height < epoch.lastExecutedHeight + cfg.epochPeriod { return None; }
      var blocks := env.height - epoch.lastExecutedHeight;
      var quoted :- market.QueryEpochState(Some(env), 0);
      var depositRate :- DepositRate(quoted.exchangeRate, epoch.prevExchangeRate, blocks);
      var ok, interestBuffer, ancPurchase, distributedInterest := SplitInterestBuffer(depositRate, blocks);
      return if ok then Some(Split(ancPurchase, distributedInterest, interestBuffer)) else None;
    }

    method SendAndUpdate(env: Env, split: Split, rewards: nat, newEmission: nat) returns (ok: bool)
      modifies this, market
      ensures var spec := OverseerModel.SendAndUpdate(old(View()), env, split, rewards, newEmission);
              ok == spec.Some? && View() == if ok then spec.value else old(View())
    {
      ghost var w := View();
      var spent := Outflow(split.ancPurchase, env.taxRate, env.taxCap)
                   + Outflow(split.distributed, env.taxRate, env.taxCap);
      var net := DeductTax(split.distributed, env.taxRate, env.taxCap);
      if balance < spent { return false; }
      var before := balance;
      balance := balance - spent + rewards;
      market.balance := market.balance + net;
      assert View() == World(Credit(w.market, net), w.epoch, w.buffer - spent + rewards);
      ok := UpdateEpochState(env, split.kept, net, newEmission);
      if !ok {
        balance := before;
        market.balance := market.balance - net;
        assert View() == w;
      }
    }

    method SplitInterestBuffer(depositRate: nat, blocks: nat)
      returns (ok: bool, interestBuffer: nat, ancPurchase: nat, distributed: nat)
      ensures ok == SplitBuffer(epoch, cfg, depositRate, blocks, balance).Some?
      ensures ok ==> SplitBuffer(epoch, cfg, depositRate, blocks, balance).value
                     == Split(ancPurchase, distributed, interestBuffer)
    {
      ok, interestBuffer, ancPurchase, distributed := false, balance, 0, 0;
      if interestBuffer < epoch.prevInterestBuffer { return; }
      var accrued := interestBuffer - epoch.prevInterestBuffer;
      ancPurchase := Mul(accrued, cfg.ancPurchaseFactor);
      if interestBuffer < ancPurchase { return; }
      interestBuffer := interestBuffer - ancPurchase;
      if depositRate < cfg.thresholdDepositRate {
        var missingRate := cfg.thresholdDepositRate - depositRate;
        var prevDeposits := Mul(epoch.prevAterraSupply, epoch.prevExchangeRate);
        var missingDeposits := Mul(prevDeposits * blocks, missingRate);
        var distributionBuffer := Mul(interestBuffer, cfg.bufferDistributionFactor);
        distributed := Min(missingDeposits, distributionBuffer);
        if interestBuffer < distributed { return; }
        interestBuffer := interestBuffer - distributed;
      }
      ok := true;
    }

    method UpdateEpochState(env: Env, interestBuffer: nat, distributed: nat, newEmission: nat) returns (ok: bool)
      modifies this, market
      ensures var spec := OverseerModel.UpdateEpochState(old(View()), env, interestBuffer, distributed, newEmission);
              ok == spec.Some? && View() == if ok then spec.value else old(View())
    {
      if env.height < epoch.lastExecutedHeight { return false; }
      var blocks := env.height - epoch.lastExecutedHeight;
      var quoted := market.QueryEpochState(Some(env), distributed);
      if quoted.None? { return false; }
      var depositRate := DepositRate(quoted.value.exchangeRate, epoch.prevExchangeRate, blocks);
      if depositRate.None? { return false; }
      var before := epoch;
      epoch := EpochState(depositRate.value, quoted.value.aterraSupply, quoted.value.exchangeRate,
                          interestBuffer, env.height);
      ok := market.ExecuteEpochOperations(env, distributed, newEmission);
      if !ok {
        epoch := before;
      }
    }
  }
}
