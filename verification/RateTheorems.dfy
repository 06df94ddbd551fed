/** What the fixed-point rates promise to users: the yield cap, round trips, repeated settlement. */
module RateTheorems {
  import opened FixedPoint
  import opened Tax
  import opened Totals
  import opened MarketModel
  import opened Solvency
  import opened MarketSafety
  import opened DebtCover
  import opened Accrual

  // ----- the yield cap -----

  // The relative gain of the quoted rate over the stored one, in raw decimal units.
  function Gain(rate: nat, prevRate: nat): int
    requires prevRate > 0
  {
    rate * F / prevRate - F
  }

  /** When depositors earned more than the target, the settled rate is at least the previous rate
      grown by the target, and exceeds it by less than
      1 + blocks * prev / F + (gain - blocks * target) / supply raw units.
      The upper bound is stated multiplied out by F * supply. */
  lemma YieldCap(s: State, height: nat, balance: nat, supply: nat, borrowRate: nat, target: nat)
    requires Solvent(s, balance, supply) && s.prevAterraSupply == supply
    requires height > s.lastInterestUpdated
    ensures ExchangeRate(Grow(s, InterestFactor(s, height, borrowRate)), supply, balance).Some?
    ensures ComputeInterestRaw(s, height, balance, supply, borrowRate, target).Some?
    ensures var blocks := height - s.lastInterestUpdated;
            var prev := s.prevExchangeRate;
            var rate := ExchangeRate(Grow(s, InterestFactor(s, height, borrowRate)), supply, balance).value;
            var settled := ComputeInterestRaw(s, height, balance, supply, borrowRate, target).value.prevExchangeRate;
            DepositRate(rate, prev, blocks).Some?
            && (DepositRate(rate, prev, blocks).value > target ==>
                  && settled >= prev * (F + blocks * target) / F
                  && settled * supply * F < prev * (F + blocks * target) * supply
                       + F * supply + blocks * prev * supply + (Gain(rate, prev) - blocks * target) * F)
  {
    var blocks := height - s.lastInterestUpdated;
    var grown := Grow(s, InterestFactor(s, height, borrowRate));
    SkimFacts(grown, blocks, balance, supply, target);
    InterestKeepsSolvent(s, height, balance, supply, borrowRate, target);
    var rate := ExchangeRate(grown, supply, balance).value;
    if DepositRate(rate, s.prevExchangeRate, blocks).value > target {
      CappedRate(grown, blocks, balance, supply, target);
    }
  }

  lemma CappedRate(g: State, blocks: nat, balance: nat, supply: nat, target: nat)
    requires blocks > 0 && g.prevExchangeRate > 0 && supply > 0
    requires g.prevAterraSupply == supply
    requires Assets(g, balance) >= g.prevExchangeRate * supply
    requires ExchangeRate(g, supply, balance).Some?
    requires var rate := ExchangeRate(g, supply, balance).value;
             && DepositRate(rate, g.prevExchangeRate, blocks).Some?
             && DepositRate(rate, g.prevExchangeRate, blocks).value > target
    ensures var prev := g.prevExchangeRate;
            var rate := ExchangeRate(g, supply, balance).value;
            var after := Skim(g, blocks, DepositRate(rate, prev, blocks).value, target);
            && ExchangeRate(after, supply, balance).Some?
            && var settled := ExchangeRate(after, supply, balance).value;
               && settled >= prev * (F + blocks * target) / F
               && settled * supply * F < prev * (F + blocks * target) * supply
                    + F * supply + blocks * prev * supply + (Gain(rate, prev) - blocks * target) * F
  {
    var prev := g.prevExchangeRate;
    SkimFacts(g, blocks, balance, supply, target);
    RateBounds(g, supply, balance);
    var rate := ExchangeRate(g, supply, balance).value;
    var excess := SkimmedAmount(g, blocks, balance, rate, target);
    var after := Skim(g, blocks, DepositRate(rate, prev, blocks).value, target);
    RateBounds(after, supply, balance);
    var settled := ExchangeRate(after, supply, balance).value;
    var d, gain := Mul(supply, prev), Gain(rate, prev);
    MulFloor(supply, prev);
    GainBounds(rate, prev);
    CapFromBelow(supply, prev, d, rate, gain, excess, blocks * target, Assets(after, balance));
    RateIsCoverage(after, supply, balance, prev * (F + blocks * target) / F);
    CapFromAbove(supply, prev, d, rate, gain, excess, blocks * target, blocks, settled);
  }

  lemma GainBounds(rate: nat, prev: nat)
    requires rate >= prev > 0
    ensures Gain(rate, prev) >= 0
    ensures (Gain(rate, prev) + F) * prev <= rate * F < (Gain(rate, prev) + F + 1) * prev
  {
    MulMono(prev, rate, F);
    QuotientAtLeast(rate * F, prev, F);
    Floor(rate * F, prev);
  }

  // The skim takes `excess` raw units per deposited unit, short of the gain by less than `blocks`.
  lemma SkimmedAmount(g: State, blocks: nat, balance: nat, rate: nat, target: nat) returns (excess: nat)
    requires blocks > 0 && rate >= g.prevExchangeRate > 0
    requires DepositRate(rate, g.prevExchangeRate, blocks).Some?
    requires DepositRate(rate, g.prevExchangeRate, blocks).value > target
    ensures excess + blocks * target <= Gain(rate, g.prevExchangeRate) < excess + blocks * target + blocks
    ensures Assets(Skim(g, blocks, DepositRate(rate, g.prevExchangeRate, blocks).value, target), balance)
         == Assets(g, balance) - Mul(g.prevAterraSupply, g.prevExchangeRate) * excess
  {
    DepositRateBounds(rate, g.prevExchangeRate, blocks);
    var depositRate := DepositRate(rate, g.prevExchangeRate, blocks).value;
    Floor(Gain(rate, g.prevExchangeRate), blocks);
    excess := blocks * (depositRate - target);
    assert excess == blocks * depositRate - blocks * target;
    ExcessYieldExact(g, blocks, depositRate - target);
  }

  // `d` is the floored value of the deposits; `gain` the floored relative gain.
  lemma CapFromBelow(supply: nat, prev: nat, d: nat, rate: nat, gain: nat, excess: nat, owed: nat, assets: int)
    requires d * F <= supply * prev
    requires (gain + F) * prev <= rate * F
    requires excess + owed <= gain
    requires assets >= rate * supply - d * excess
    ensures assets >= prev * (F + owed) / F * supply
  {
    var kept := prev * (F + owed);
    SkimmedAtMost(supply, prev, d, excess);
    FloorScaled(kept, supply);
    GainFromBelow(supply, prev, rate, gain, excess, owed);
    SumCancel(d * excess, kept / F * supply, rate * supply, F);
  }

  lemma FloorScaled(kept: nat, supply: nat)
    ensures 0 <= kept / F * supply
    ensures kept / F * supply * F <= supply * kept
  {
    MulMono(0, kept / F, supply);
    Floor(kept, F);
    MulMono(kept / F * F, kept, supply);
    Rotate(kept / F, F, supply);
  }

  lemma GainFromBelow(supply: nat, prev: nat, rate: nat, gain: nat, excess: nat, owed: nat)
    requires (gain + F) * prev <= rate * F
    requires excess + owed <= gain
    ensures supply * (prev * excess) + supply * (prev * (F + owed)) <= rate * supply * F
  {
    MulMono(excess + (F + owed), gain + F, prev);
    Distribute(prev, excess, F + owed);
    Distribute(supply, prev * excess, prev * (F + owed));
    MulMono(prev * (excess + (F + owed)), rate * F, supply);
    Rotate(rate, F, supply);
  }

  lemma SumCancel(a: nat, b: nat, c: nat, f: nat)
    requires f > 0 && a * f + b * f <= c * f
    ensures a + b <= c
  {
    Distribute(f, a, b);
    MulCancel(a + b, c, f);
  }

  lemma SkimmedAtMost(supply: nat, prev: nat, d: nat, excess: nat)
    requires d * F <= supply * prev
    ensures d * excess * F <= supply * (prev * excess)
  {
    MulMono(d * F, supply * prev, excess);
    Rotate(d, F, excess);
    Rotate(supply, prev, excess);
  }

  lemma SkimmedAtLeast(supply: nat, prev: nat, d: nat, excess: nat)
    requires supply * prev < d * F + F
    ensures supply * (prev * excess) <= d * excess * F + excess * F
  {
    MulMono(supply * prev, d * F + F, excess);
    Rotate(d, F, excess);
    Rotate(supply, prev, excess);
    Distribute(excess, d * F, F);
  }

  lemma CapFromAbove(supply: nat, prev: nat, d: nat, rate: nat, gain: nat,
                     excess: nat, owed: nat, blocks: nat, settled: nat)
    requires supply * prev < d * F + F
    requires rate * F < (gain + F + 1) * prev
    requires excess + owed <= gain < excess + owed + blocks
    requires settled * supply < rate * supply + supply - d * excess
    ensures settled * supply * F < prev * (F + owed) * supply
              + F * supply + blocks * prev * supply + (gain - owed) * F
  {
    SkimmedAtLeast(supply, prev, d, excess);
    GainFromAbove(supply, prev, rate, gain, excess, owed, blocks);
    StrictMul(settled * supply, rate * supply + supply - d * excess, F);
    MulMono(excess, gain - owed, F);
  }

  lemma GainFromAbove(supply: nat, prev: nat, rate: nat, gain: nat, excess: nat, owed: nat, blocks: nat)
    requires rate * F < (gain + F + 1) * prev
    requires gain < excess + owed + blocks
    ensures rate * supply * F <= supply * (prev * excess) + prev * (F + owed) * supply + blocks * prev * supply
  {
    MulMono(gain + F + 1, excess + (F + owed) + blocks, prev);
    Distribute(prev, excess + (F + owed), blocks);
    Distribute(prev, excess, F + owed);
    MulMono(rate * F, prev * excess + prev * (F + owed) + blocks * prev, supply);
    Rotate(rate, F, supply);
    Distribute(supply, prev * excess + prev * (F + owed), blocks * prev);
    Distribute(supply, prev * excess, prev * (F + owed));
  }

  lemma StrictMul(a: int, b: int, c: nat)
    requires a < b && c > 0
    ensures a * c < b * c
  {
  }

  // ----- the live rate -----

  /** A deposit never dilutes: the live rate afterwards is at least the rate it was minted at. */
  lemma DepositKeepsRate(l: Ledger, env: Env, amount: nat)
    requires MarketOk(l) && amount > 0
    ensures DepositStable(l, env, amount).Some?
    ensures var t := DepositStable(l, env, amount).value;
            var s1 := ComputeInterest(l.state, env, l.balance, l.supply);
            && s1.Some? && ComputeReward(s1.value, env.height).Some?
            && var quoted := ExchangeRate(ComputeReward(s1.value, env.height).value, l.supply, l.balance);
               && quoted.Some?
               && ExchangeRate(t.state, t.supply, t.balance).Some?
               && ExchangeRate(t.state, t.supply, t.balance).value >= quoted.value
  {
    OpenStep(l, env);
    DepositSafe(l, env, amount);
    var s := ComputeReward(ComputeInterest(l.state, env, l.balance, l.supply).value, env.height).value;
    RateBounds(s, l.supply, l.balance);
    var rate := ExchangeRate(s, l.supply, l.balance).value;
    DivFloor(amount, rate);
    var t := DepositStable(l, env, amount).value;
    MintKeepsCoverage(Assets(s, l.balance), rate, rate, l.supply, Div(amount, rate).value, amount);
    RateIsCoverage(t.state, t.supply, t.balance, rate);
  }

  /** Nor does a redemption take more than its share: the rate for everyone else does not fall. */
  lemma RedeemKeepsRate(l: Ledger, env: Env, burn: nat)
    requires MarketOk(l) && RedeemStable(l, env, burn).Some?
    ensures var t := RedeemStable(l, env, burn).value;
            var s1 := ComputeInterest(l.state, env, l.balance, l.supply);
            && s1.Some? && ComputeReward(s1.value, env.height).Some?
            && var quoted := ExchangeRate(ComputeReward(s1.value, env.height).value, l.supply, l.balance);
               && quoted.Some?
               && ExchangeRate(t.state, t.supply, t.balance).Some?
               && ExchangeRate(t.state, t.supply, t.balance).value >= quoted.value
  {
    OpenStep(l, env);
    var s := ComputeReward(ComputeInterest(l.state, env, l.balance, l.supply).value, env.height).value;
    RateBounds(s, l.supply, l.balance);
    var rate := ExchangeRate(s, l.supply, l.balance).value;
    var redeem := Mul(burn, rate);
    OutflowWithinGross(redeem, env.taxRate, env.taxCap);
    BurnKeepsCoverage(Assets(s, l.balance), rate, rate, l.supply, burn);
    var t := RedeemStable(l, env, burn).value;
    RateIsCoverage(t.state, t.supply, t.balance, rate);
  }

  // With the rate stored anew, the live rate falls when the assets lose more than it had rounded away.
  lemma RateFallsIff(s: State, t: State, supply: nat, balance: nat)
    requires supply > 0 && Assets(s, balance) >= 0
    requires ExchangeRate(t, supply, balance) == Some(t.prevExchangeRate)
    ensures ExchangeRate(s, supply, balance).Some?
    ensures t.prevExchangeRate < ExchangeRate(s, supply, balance).value
       <==> Assets(s, balance) - Assets(t, balance) > Assets(s, balance) % supply
  {
    var live := Assets(s, balance) / supply;
    DivByDec(Assets(s, balance), supply);
    RateIsCoverage(t, supply, balance, live);
    assert Assets(s, balance) == live * supply + Assets(s, balance) % supply;
  }

  // What a settlement adds to the assets, and what the skim takes out of them.
  lemma SettledAssets(s: State, height: nat, balance: nat, supply: nat, borrowRate: nat, target: nat)
    requires Solvent(s, balance, supply) && height > s.lastInterestUpdated
    ensures var factor := InterestFactor(s, height, borrowRate);
            var blocks := height - s.lastInterestUpdated;
            var rate := ExchangeRate(Grow(s, factor), supply, balance);
            var r := ComputeInterestRaw(s, height, balance, supply, borrowRate, target);
            && rate.Some? && DepositRate(rate.value, s.prevExchangeRate, blocks).Some? && r.Some?
            && ExchangeRate(r.value, supply, balance) == Some(r.value.prevExchangeRate)
            && var depositRate := DepositRate(rate.value, s.prevExchangeRate, blocks).value;
               Assets(r.value, balance) == Assets(s, balance) + Mul(s.totalLiabilities, factor)
                 - if depositRate > target
                   then Mul(s.prevAterraSupply, s.prevExchangeRate) * (blocks * (depositRate - target)) else 0
  {
    var factor := InterestFactor(s, height, borrowRate);
    var blocks := height - s.lastInterestUpdated;
    var grown := Grow(s, factor);
    SkimFacts(grown, blocks, balance, supply, target);
    InterestKeepsSolvent(s, height, balance, supply, borrowRate, target);
    var rate := ExchangeRate(grown, supply, balance).value;
    var depositRate := DepositRate(rate, s.prevExchangeRate, blocks).value;
    if depositRate > target {
      ExcessYieldExact(grown, blocks, depositRate - target);
    }
  }

  /** Settling interest can lower the live rate (never the stored one). It does exactly when the
      deposit rate quoted before the skim is above the target, and the excess over all remembered
      deposits is more than the interest accrued and what the old rate had rounded away. */
  lemma LiveRateFallsIff(s: State, height: nat, balance: nat, supply: nat, borrowRate: nat, target: nat)
    requires Solvent(s, balance, supply) && height > s.lastInterestUpdated
    ensures var factor := InterestFactor(s, height, borrowRate);
            var blocks := height - s.lastInterestUpdated;
            var rate := ExchangeRate(Grow(s, factor), supply, balance);
            var settled := ComputeInterestRaw(s, height, balance, supply, borrowRate, target);
            && ExchangeRate(s, supply, balance).Some? && settled.Some?
            && rate.Some? && DepositRate(rate.value, s.prevExchangeRate, blocks).Some?
            && var depositRate := DepositRate(rate.value, s.prevExchangeRate, blocks).value;
               (settled.value.prevExchangeRate < ExchangeRate(s, supply, balance).value
                <==> && depositRate > target
                     && Mul(s.prevAterraSupply, s.prevExchangeRate) * (blocks * (depositRate - target))
                        > Mul(s.totalLiabilities, factor) + Assets(s, balance) % supply)
  {
    assert Assets(s, balance) >= 0 by { MulMono(0, s.prevExchangeRate, supply); }
    SettledAssets(s, height, balance, supply, borrowRate, target);
    RateFallsIff(s, ComputeInterestRaw(s, height, balance, supply, borrowRate, target).value, supply, balance);
  }

  // ----- deposit, then redeem in the same block -----

  // A second opening in a block changes nothing.
  lemma OpeningIsIdle(l: Ledger, env: Env)
    requires l.state.lastInterestUpdated >= env.height && l.state.lastRewardUpdated >= env.height
    ensures ComputeInterest(l.state, env, l.balance, l.supply) == Some(l.state)
    ensures ComputeReward(l.state, env.height) == Some(l.state)
  {
  }

  lemma RoundTripValue(assets: nat, supply: nat, rate: nat, amount: nat, mint: nat, newRate: nat)
    requires assets < rate * supply + supply
    requires mint * rate <= amount * F
    requires newRate * (supply + mint) <= assets + amount * F
    ensures mint > 0 ==> Mul(mint, newRate) * F < amount * F + mint
    ensures mint == 0 ==> Mul(mint, newRate) == 0
  {
    MulFloor(mint, newRate);
    if mint > 0 {
      var coins := amount * F;
      var bound := rate * supply + supply + coins - 1;
      MulMono(newRate * (supply + mint), bound, mint);
      Rotate(newRate, supply + mint, mint);
      MintBound(supply, rate, mint, coins);
      StrictCancel(mint * newRate, coins + mint, supply + mint);
    }
  }

  lemma MintBound(supply: nat, rate: nat, mint: nat, coins: nat)
    requires mint > 0 && mint * rate <= coins && supply + coins > 0
    ensures (rate * supply + supply + coins - 1) * mint < (coins + mint) * (supply + mint)
  {
    Distribute(mint, rate * supply, supply + coins - 1);
    Distribute(mint, supply, coins - 1);
    Rotate(mint, rate, supply);
    MulMono(mint * rate, coins, supply);
    Distribute(coins + mint, supply, mint);
    Distribute(supply, coins, mint);
    Distribute(mint, coins, mint);
  }

  // A deposit in figures: the rate it mints at, and what it leaves behind.
  lemma DepositFigures(l: Ledger, env: Env, amount: nat) returns (rate: nat, mint: nat)
    requires MarketOk(l) && amount > 0
    ensures DepositStable(l, env, amount).Some?
    ensures var t := DepositStable(l, env, amount).value;
            && t.supply == l.supply + mint && mint * rate <= Dec(amount)
            && 0 <= Assets(t.state, t.balance) - Dec(amount) < rate * l.supply + l.supply
            && ComputeInterest(t.state, env, t.balance, t.supply) == Some(t.state)
            && ComputeReward(t.state, env.height) == Some(t.state)
  {
    DepositSafe(l, env, amount);
    InterestStep(l.state, env, l.balance, l.supply);
    var s1 := ComputeInterest(l.state, env, l.balance, l.supply).value;
    RewardStep(s1, env.height);
    var s := ComputeReward(s1, env.height).value;
    RateBounds(s, l.supply, l.balance);
    rate := ExchangeRate(s, l.supply, l.balance).value;
    DivFloor(amount, rate);
    mint := Div(amount, rate).value;
    var t := DepositStable(l, env, amount).value;
    assert Assets(t.state, t.balance) == Assets(s, l.balance) + Dec(amount);
    OpeningIsIdle(t, env);
  }

  lemma PaidAtMost(paid: nat, amount: nat, mint: nat)
    requires Dec(paid) < Dec(amount) + mint && mint <= F
    ensures paid <= amount
  {
    assert paid * F < (amount + 1) * F;
    StrictCancel(paid, amount + 1, F);
  }

  /** Depositing d and at once redeeming the minted m pays r with r * 10^18 < d * 10^18 + m:
      never more than d while m <= 10^18. */
  lemma DepositRedeemRoundTrip(l: Ledger, env: Env, amount: nat)
    requires MarketOk(l) && amount > 0
    ensures DepositStable(l, env, amount).Some?
    ensures var t := DepositStable(l, env, amount).value;
            var mint := t.supply - l.supply;
            && mint >= 0
            && RedeemValue(t, env, mint).Some?
            && var paid := RedeemValue(t, env, mint).value.1;
               && (Dec(paid) < Dec(amount) + mint || mint == paid == 0)
               && (mint <= F ==> paid <= amount)
  {
    var rate, mint := DepositFigures(l, env, amount);
    var t := DepositStable(l, env, amount).value;
    var before := Assets(t.state, t.balance) - Dec(amount);
    RateBounds(t.state, t.supply, t.balance);
    var newRate := ExchangeRate(t.state, t.supply, t.balance).value;
    assert RedeemValue(t, env, mint) == Some((t.state, Mul(mint, newRate)));
    RoundTripValue(before, l.supply, rate, amount, mint, newRate);
    if 0 < mint <= F {
      PaidAtMost(Mul(mint, newRate), amount, mint);
    }
  }

  // ----- settling a loan many times -----

  function SettleAll(b: BorrowerInfo, states: seq<State>): Option<BorrowerInfo>
    decreases |states|
  {
    if states == [] then Some(b) else
      var before :- SettleAll(b, states[..|states| - 1]);
      ComputeBorrowerInterest(states[|states| - 1], before)
  }

  ghost function Normalised(b: BorrowerInfo): real
    requires b.interestIndex > 0
  {
    b.loanAmount as real / b.interestIndex as real
  }

  // The sum of 1 / index over the settlements.
  ghost function InverseSum(states: seq<State>): real
    requires forall i :: 0 <= i < |states| ==> states[i].globalInterestIndex > 0
    decreases |states|
  {
    if states == [] then 0.0 else
      InverseSum(states[..|states| - 1]) + 1.0 / states[|states| - 1].globalInterestIndex as real
  }

  lemma QuotientOrder(a: nat, x: nat, b: nat, y: nat)
    requires x > 0 && y > 0 && a * y <= b * x
    ensures a as real / x as real <= b as real / y as real
  {
    assert (a * y) as real <= (b * x) as real;
    assert (a * y) as real == a as real * y as real;
    assert (b * x) as real == b as real * x as real;
    CrossDivide(a as real, x as real, b as real, y as real);
  }

  // Cross-multiplied bounds, as quotients.
  lemma NormalisedBounds(loan: nat, i: nat, settled: nat, g: nat)
    requires i > 0 && g > 0
    requires settled * i <= loan * g <= (settled + 2) * i
    ensures settled as real / g as real <= loan as real / i as real
    ensures loan as real / i as real - 2.0 / g as real <= settled as real / g as real
  {
    QuotientOrder(settled, g, loan, i);
    QuotientOrder(loan, i, settled + 2, g);
    SplitQuotient(settled as real, 2.0, g as real);
  }

  lemma OneSettlement(s: State, b: BorrowerInfo)
    requires s.globalInterestIndex >= F && b.interestIndex >= F
    ensures ComputeBorrowerInterest(s, b).Some?
    ensures var c := ComputeBorrowerInterest(s, b).value;
            && c.interestIndex == s.globalInterestIndex
            && Normalised(b) - 2.0 / s.globalInterestIndex as real <= Normalised(c) <= Normalised(b)
  {
    SettledWithinTwo(b.loanAmount, s.globalInterestIndex, b.interestIndex);
    var c := ComputeBorrowerInterest(s, b).value;
    NormalisedBounds(b.loanAmount, b.interestIndex, c.loanAmount, s.globalInterestIndex);
  }

  lemma SplitQuotient(a: real, b: real, c: real)
    requires c > 0.0
    ensures (a + b) / c == a / c + b / c
  {
  }

  // The bound of SettledLoanBounds per unit of the final index, by the last settlement first.
  lemma {:induction false} RepeatedSettlement(b: BorrowerInfo, states: seq<State>)
    requires b.interestIndex >= F
    requires forall i :: 0 <= i < |states| ==> states[i].globalInterestIndex >= F
    ensures SettleAll(b, states).Some?
    ensures var c := SettleAll(b, states).value;
            && c.interestIndex == (if states == [] then b.interestIndex else states[|states| - 1].globalInterestIndex)
            && Normalised(b) - 2.0 * InverseSum(states) <= Normalised(c) <= Normalised(b)
    decreases |states|
  {
    if states != [] {
      var front, last := states[..|states| - 1], states[|states| - 1];
      RepeatedSettlement(b, front);
      OneSettlement(last, SettleAll(b, front).value);
      assert 2.0 * InverseSum(states) == 2.0 * InverseSum(front) + 2.0 / last.globalInterestIndex as real by {
        SplitQuotient(1.0, 1.0, last.globalInterestIndex as real);
      }
    }
  }

  // The sum of g / index over the settlements.
  ghost function IndexRatios(g: nat, states: seq<State>): real
    requires forall i :: 0 <= i < |states| ==> states[i].globalInterestIndex > 0
    decreases |states|
  {
    if states == [] then 0.0 else
      IndexRatios(g, states[..|states| - 1]) + g as real / states[|states| - 1].globalInterestIndex as real
  }

  lemma {:induction false} RatiosAreScaled(g: nat, states: seq<State>)
    requires forall i :: 0 <= i < |states| ==> states[i].globalInterestIndex > 0
    ensures IndexRatios(g, states) == Times(g as real, InverseSum(states))
    decreases |states|
  {
    if states == [] {
    } else {
      var front, last := states[..|states| - 1], states[|states| - 1].globalInterestIndex as real;
      RatiosAreScaled(g, front);
      TimesSum(g as real, InverseSum(front), 1.0 / last);
      assert g as real / last == Times(g as real, 1.0 / last) by { DivideTimes(g as real, 1.0, last); }
    }
  }

  lemma ScaleBounds(g: real, x: real, low: real, high: real)
    requires g >= 0.0 && high - 2.0 * low <= x <= high
    ensures Times(g, high) - 2.0 * Times(g, low) <= Times(g, x) <= Times(g, high)
  {
    TimesMonoRight(g, x, high);
    TimesMonoRight(g, high - 2.0 * low, x);
    TimesSum(g, high - 2.0 * low, low);
    TimesSum(g, high - low, low);
  }

  lemma MultiplyBack(a: real, g: real)
    requires g > 0.0
    ensures Times(g, a / g) == a
  {
  }

  // A loan settled once and without rounding, at index g from index i.
  ghost function Ideal(loan: real, g: real, i: real): real
    requires i > 0.0
  {
    loan * g / i
  }

  // Bounds per unit of g, multiplied out by g.
  lemma ScaledQuotients(loan: real, i: real, settled: real, g: real, inverses: real, ratios: real)
    requires i > 0.0 && g > 0.0 && ratios == Times(g, inverses)
    requires loan / i - 2.0 * inverses <= settled / g <= loan / i
    ensures Ideal(loan, g, i) - 2.0 * ratios <= settled <= Ideal(loan, g, i)
  {
    IdealIsScaled(loan, g, i);
    MultiplyBack(settled, g);
    ScaleBounds(g, settled / g, inverses, loan / i);
    Rescaled(settled, Times(g, settled / g), Ideal(loan, g, i), Times(g, loan / i), ratios, Times(g, inverses));
  }

  lemma IdealIsScaled(loan: real, g: real, i: real)
    requires i > 0.0
    ensures Times(g, loan / i) == Ideal(loan, g, i)
  {
    DivideTimes(g, loan, i);
  }

  lemma Rescaled(x: real, x': real, y: real, y': real, d: real, d': real)
    requires x == x' && y == y' && d == d' && y' - 2.0 * d' <= x' <= y'
    ensures y - 2.0 * d <= x <= y
  {
  }

  /** However often a loan L is settled, at indices i1 .. in from i0 on, it stays at most the ideal
      L * in / i0 and above it minus 2 * (in / i1 + ... + in / in). */
  lemma {:induction false} SettledLoanBounds(b: BorrowerInfo, states: seq<State>)
    requires b.interestIndex >= F && states != []
    requires forall i :: 0 <= i < |states| ==> states[i].globalInterestIndex >= F
    ensures SettleAll(b, states).Some?
    ensures var last := states[|states| - 1].globalInterestIndex;
            var ideal := Ideal(b.loanAmount as real, last as real, b.interestIndex as real);
            ideal - 2.0 * IndexRatios(last, states) <= SettleAll(b, states).value.loanAmount as real <= ideal
  {
    RepeatedSettlement(b, states);
    var last, c := states[|states| - 1].globalInterestIndex, SettleAll(b, states).value;
    RatiosAreScaled(last, states);
    ScaledQuotients(b.loanAmount as real, b.interestIndex as real, c.loanAmount as real, last as real,
                    InverseSum(states), IndexRatios(last, states));
  }

  /** Settling again at an unchanged index is not always idle: it keeps the loan exactly when
      loan * index has no fraction below one unit, and otherwise drops one unit. */
  lemma SettleAtSameIndex(s: State, b: BorrowerInfo)
    requires b.interestIndex == s.globalInterestIndex >= F
    ensures ComputeBorrowerInterest(s, b).Some?
    ensures ComputeBorrowerInterest(s, b).value.loanAmount
         == if b.loanAmount * s.globalInterestIndex % F == 0 then b.loanAmount else b.loanAmount - 1
  {
    var g, loan := s.globalInterestIndex, b.loanAmount;
    var q := Mul(loan, g);
    MulFloor(loan, g);
    assert loan * g == q * F + loan * g % F;
    if loan * g % F == 0 {
      QuotientUnique(q * F, g, loan);
    } else {
      assert loan > 0;
      assert (loan - 1) * g == loan * g - g;
      QuotientUnique(q * F, g, loan - 1);
    }
  }
}
