/** Solvency of the market: what it owns always covers the aUST supply at the stored rate. */
module Solvency {
  import opened FixedPoint
  import opened MarketModel

  ghost predicate Solvent(s: State, balance: nat, supply: nat) {
    && supply >= INITIAL_DEPOSIT
    && s.prevExchangeRate >= F
    && s.globalInterestIndex >= F
    && s.prevAterraSupply <= supply <= s.prevAterraSupply + INITIAL_DEPOSIT
    && Dec(balance) + s.totalLiabilities >= s.totalReserves + s.prevExchangeRate * supply
  }

  ghost predicate SolventLedger(l: Ledger) {
    Solvent(l.state, l.balance, l.supply)
  }

  function Assets(s: State, balance: nat): int {
    Dec(balance) + s.totalLiabilities - s.totalReserves
  }

  // ----- the exchange rate -----

  // The rate is the largest one at which the assets cover the supply.
  lemma RateIsCoverage(s: State, supply: nat, balance: nat, q: nat)
    requires supply > 0
    ensures ExchangeRate(s, supply, balance).Some? <==> Assets(s, balance) >= 0
    ensures ExchangeRate(s, supply, balance).Some? ==>
              (ExchangeRate(s, supply, balance).value >= q <==> Assets(s, balance) >= q * supply)
  {
    if Assets(s, balance) >= 0 {
      DivByDec(Assets(s, balance), supply);
      QuotientAtLeast(Assets(s, balance), supply, q);
    }
  }

  lemma RateBounds(s: State, supply: nat, balance: nat)
    requires supply > 0 && Assets(s, balance) >= 0
    ensures ExchangeRate(s, supply, balance).Some?
    ensures var r := ExchangeRate(s, supply, balance).value;
            r * supply <= Assets(s, balance) < r * supply + supply
  {
    DivByDec(Assets(s, balance), supply);
    Floor(Assets(s, balance), supply);
  }

  // ----- the skim -----

  // In the stored units the skim is an exact integer product: only prev_deposits is floored.
  lemma ExcessYieldExact(s: State, blocks: nat, excessRate: nat)
    ensures ExcessYield(s, Dec(blocks), excessRate)
         == Mul(s.prevAterraSupply, s.prevExchangeRate) * (blocks * excessRate)
  {
    var d := Mul(s.prevAterraSupply, s.prevExchangeRate);
    MulDecLeft(d, Dec(blocks));
    assert d * Dec(blocks) == Dec(d * blocks);
    MulDecLeft(d * blocks, excessRate);
  }

  // blocks * (deposit rate) never exceeds the whole relative gain.
  lemma DepositRateBounds(rate: nat, prevRate: nat, blocks: nat)
    requires rate >= prevRate > 0 && blocks > 0
    ensures DepositRate(rate, prevRate, blocks).Some?
    ensures var gain := rate * F / prevRate - F;
            gain >= 0 && gain * prevRate <= (rate - prevRate) * F
            && DepositRate(rate, prevRate, blocks).value == gain / blocks
            && blocks * DepositRate(rate, prevRate, blocks).value <= gain
  {
    DivFloor(rate, prevRate);
    QuotientAtLeast(rate * F, prevRate, F);
    MulMono(prevRate, rate, F);
    var gain := rate * F / prevRate - F;
    DivByDec(gain, blocks);
    Floor(gain, blocks);
  }

  // Skimming excess <= gain from deposits that are at most the supply leaves the supply covered.
  lemma SkimKeepsCoverage(prevSupply: nat, supply: nat, prevRate: nat, rate: nat, excess: nat)
    requires prevSupply <= supply && prevRate <= rate
    requires excess * prevRate <= (rate - prevRate) * F
    ensures Mul(prevSupply, prevRate) * excess <= (rate - prevRate) * supply
  {
    var d := Mul(prevSupply, prevRate);
    MulFloor(prevSupply, prevRate);
    calc {
      d * excess * F;
    ==
      d * F * excess;
    <= { MulMono(d * F, prevSupply * prevRate, excess); }
      prevSupply * prevRate * excess;
    ==
      excess * prevRate * prevSupply;
    <= { MulMono(excess * prevRate, (rate - prevRate) * F, prevSupply); }
      (rate - prevRate) * F * prevSupply;
    ==
      prevSupply * ((rate - prevRate) * F);
    <= { MulMono(prevSupply, supply, (rate - prevRate) * F); }
      supply * ((rate - prevRate) * F);
    ==
      (rate - prevRate) * supply * F;
    }
    MulCancel(d * excess, (rate - prevRate) * supply, F);
  }

  // ----- settlement of interest -----

  lemma GrowFacts(s: State, factor: nat)
    requires s.globalInterestIndex >= F
    ensures Grow(s, factor).globalInterestIndex >= s.globalInterestIndex
  {
    MulMono(F, F + factor, s.globalInterestIndex);
    QuotientAtLeast(s.globalInterestIndex * (F + factor), F, s.globalInterestIndex);
  }

  /** The capping step on its own: from a state whose assets cover the supply at the previous rate,
      the skim leaves them covering it, and the quoted deposit rate is well defined. */
  lemma SkimFacts(g: State, blocks: nat, balance: nat, supply: nat, target: nat)
    requires blocks > 0 && g.prevExchangeRate > 0
    requires g.prevAterraSupply <= supply && supply > 0
    requires Assets(g, balance) >= g.prevExchangeRate * supply
    ensures ExchangeRate(g, supply, balance).Some?
    ensures var rate := ExchangeRate(g, supply, balance).value;
            rate >= g.prevExchangeRate
            && DepositRate(rate, g.prevExchangeRate, blocks).Some?
            && var after := Skim(g, blocks, DepositRate(rate, g.prevExchangeRate, blocks).value, target);
               Assets(after, balance) >= g.prevExchangeRate * supply
  {
    var prev := g.prevExchangeRate;
    RateIsCoverage(g, supply, balance, prev);
    RateBounds(g, supply, balance);
    var rate := ExchangeRate(g, supply, balance).value;
    DepositRateBounds(rate, prev, blocks);
    var depositRate := DepositRate(rate, prev, blocks).value;
    if depositRate > target {
      var excess := blocks * (depositRate - target);
      MulMono(depositRate - target, depositRate, blocks);
      MulMono(excess, rate * F / prev - F, prev);
      ExcessYieldExact(g, blocks, depositRate - target);
      SkimKeepsCoverage(g.prevAterraSupply, supply, prev, rate, excess);
      assert (rate - prev) * supply == rate * supply - prev * supply;
    }
  }

  // Storing the rate of assets that cover the supply at `prev`.
  lemma StoredRateSolvent(g: State, balance: nat, supply: nat, height: nat, prev: nat)
    requires supply >= INITIAL_DEPOSIT && prev >= F && g.globalInterestIndex >= F
    requires Assets(g, balance) >= prev * supply
    ensures ExchangeRate(g, supply, balance).Some? && ExchangeRate(g, supply, balance).value >= prev
    ensures Solvent(g.(prevAterraSupply := supply, prevExchangeRate := ExchangeRate(g, supply, balance).value,
                       lastInterestUpdated := height), balance, supply)
  {
    RateIsCoverage(g, supply, balance, prev);
    RateBounds(g, supply, balance);
  }

  /** Accrual never underflows, never lowers the stored rate and keeps the market solvent. */
  lemma InterestKeepsSolvent(s: State, height: nat, balance: nat, supply: nat, borrowRate: nat, target: nat)
    requires Solvent(s, balance, supply)
    ensures var r := ComputeInterestRaw(s, height, balance, supply, borrowRate, target);
            && r.Some?
            && Solvent(r.value, balance, supply)
            && r.value.prevExchangeRate >= s.prevExchangeRate
            && r.value.globalInterestIndex >= s.globalInterestIndex
            && r.value.totalLiabilities >= s.totalLiabilities
            && r.value.totalReserves >= s.totalReserves
            && (height > s.lastInterestUpdated ==> r.value.prevAterraSupply == supply)
  {
    if height > s.lastInterestUpdated {
      var blocks := height - s.lastInterestUpdated;
      var grown := Grow(s, InterestFactor(s, height, borrowRate));
      GrowFacts(s, InterestFactor(s, height, borrowRate));
      SkimFacts(grown, blocks, balance, supply, target);
      var rate := ExchangeRate(grown, supply, balance).value;
      var skimmed := Skim(grown, blocks, DepositRate(rate, s.prevExchangeRate, blocks).value, target);
      StoredRateSolvent(skimmed, balance, supply, height, s.prevExchangeRate);
    }
  }
}
