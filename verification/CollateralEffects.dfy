/** What custody transactions do to balance, spendable and holding, and what collateral is worth and
    backs, from both sides. */
module CollateralEffects {
  import opened FixedPoint
  import opened Addresses
  import opened Tokens
  import opened CollateralModel
  import opened LiquidationModel

  // ----- custody -----

  ghost predicate OtherDepositsKept(c: Ledger, t: Ledger, who: Address) {
    forall a :: a != who ==> ReadDeposit(t, a) == ReadDeposit(c, a) && (a in t.borrowers <==> a in c.borrowers)
  }

  /** A withdrawal takes the amount asked for, or else all that is spendable, off balance, spendable and
      holding alike; the record is gone exactly when nothing is left. */
  lemma WithdrawEffect(c: Ledger, who: Address, requested: Option<nat>)
    requires CustodyOk(c) && WithdrawCollateral(c, who, requested).Some?
    ensures var t := WithdrawCollateral(c, who, requested).value;
            var d, left := ReadDeposit(c, who), ReadDeposit(t, who);
            var amount := if requested.Some? then requested.value else d.spendable;
            && amount <= d.spendable
            && left.balance == d.balance - amount && left.spendable == d.spendable - amount
            && (who in t.borrowers <==> left.balance > 0)
            && t.holding == c.holding - amount && OtherDepositsKept(c, t, who)
  {
    HoldingCovers(c, who);
  }

  lemma DepositEffect(c: Ledger, who: Address, amount: nat)
    ensures var t := DepositCollateral(c, who, amount);
            && ReadDeposit(t, who).balance == ReadDeposit(c, who).balance + amount
            && ReadDeposit(t, who).spendable == ReadDeposit(c, who).spendable + amount
            && t.holding == c.holding + amount && OtherDepositsKept(c, t, who)
  {
  }

  /** The overseer's calls: a lock takes from what is spendable, an unlock gives back to it, and a
      liquidation takes from balance and holding and leaves what is spendable. */
  lemma PerformEffect(op: Op, c: Ledger, who: Address, amount: nat)
    requires Perform(op, c, who, amount).Some?
    ensures var t := Perform(op, c, who, amount).value;
            var d, left := ReadDeposit(c, who), ReadDeposit(t, who);
            && (match op
                case Lock => left.balance == d.balance && left.spendable == d.spendable - amount
                             && t.holding == c.holding
                case Unlock => left.balance == d.balance && left.spendable == d.spendable + amount
                               && t.holding == c.holding
                case Liquidate => left.balance == d.balance - amount && left.spendable == d.spendable
                                  && t.holding == c.holding - amount)
            && OtherDepositsKept(c, t, who)
  {
  }

  // ----- limit and worth -----

  predicate Quoted(s: Tokens, o: Oracle) {
    forall t :: t in s ==> t.0 in o.prices && t.0 in o.maxLtv
  }

  // What the collaterals back, scaled by F * F and unrounded.
  function Backing(s: Tokens, o: Oracle): nat
    requires Quoted(s, o)
  {
    if s == [] then 0 else s[0].1 * o.prices[s[0].0] * o.maxLtv[s[0].0] + Backing(s[1..], o)
  }

  lemma AddBounds(limit: nat, part: nat, rest: nat, backing: nat, first: nat, n: nat)
    requires limit == part + rest
    requires rest * F * F <= backing <= (rest + 2 * n) * F * F
    requires part * F * F <= first < (part + 2) * F * F
    ensures limit * F * F <= first + backing <= (limit + 2 * (n + 1)) * F * F
  {
    assert limit * F * F == part * F * F + rest * F * F;
    assert (limit + 2 * (n + 1)) * F * F == (part + 2) * F * F + (rest + 2 * n) * F * F;
  }

  /** The limit exists exactly when every token has a price and a ratio; it is the sum of
      amount * price * ratio, short of at most two coins a token. The prices come in the same order. */
  lemma {:induction false} BorrowLimitBounds(s: Tokens, o: Oracle)
    ensures BorrowLimit(s, o).Some? <==> Quoted(s, o)
    ensures BorrowLimit(s, o).Some? ==>
              var (limit, prices) := BorrowLimit(s, o).value;
              && |prices| == |s| && (forall i :: 0 <= i < |s| ==> prices[i] == o.prices[s[i].0])
              && (LtvOk(o) ==> limit * F * F <= Backing(s, o) <= (limit + 2 * |s|) * F * F)
    decreases |s|
  {
    if s != [] {
      assert s == [s[0]] + s[1..];
      BorrowLimitBounds(s[1..], o);
      if Quoted(s, o) && LtvOk(o) {
        var price, ltv := o.prices[s[0].0], o.maxLtv[s[0].0];
        TwoFloors(s[0].1, price, ltv);
        AddBounds(BorrowLimit(s, o).value.0, Mul(Mul(s[0].1, price), ltv), BorrowLimit(s[1..], o).value.0,
                  Backing(s[1..], o), s[0].1 * price * ltv, |s| - 1);
      }
    }
  }

  // The worth of the collaterals, scaled by F and unrounded.
  function Worth(s: Tokens, prices: seq<nat>): nat
    requires |prices| == |s|
  {
    if s == [] then 0 else s[0].1 * prices[0] + Worth(s[1..], prices[1..])
  }

  /** The value a liquidation goes by is that worth, short of at most one coin a token. */
  lemma {:induction false} ValueBounds(s: Tokens, prices: seq<nat>)
    requires |prices| == |s|
    ensures CollateralsValue(s, prices) * F <= Worth(s, prices) <= (CollateralsValue(s, prices) + |s|) * F
    decreases |s|
  {
    if s != [] {
      MulFloor(s[0].1, prices[0]);
      ValueBounds(s[1..], prices[1..]);
      var part, rest := Mul(s[0].1, prices[0]), CollateralsValue(s[1..], prices[1..]);
      Distribute(F, part, rest);
      assert (part + rest + |s|) * F == part * F + F + (rest + (|s| - 1)) * F;
    }
  }
}
