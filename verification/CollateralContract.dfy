/** The custody contract and the overseer's collateral handlers as they run. */
module CollateralContract {
  import opened FixedPoint
  import opened Addresses
  import opened Tokens
  import opened TokenVectors
  import opened CollateralModel

  /** One custody contract: its ledger of borrowers and its holding of the token. */
  class Custody {
    var borrowers: map<Address, Deposit>
    var holding: nat

    constructor ()
      ensures View() == Ledger(map[], 0)
    {
      borrowers, holding := map[], 0;
    }

    function View(): Ledger
      reads this
    {
      Ledger(borrowers, holding)
    }

    twostate predicate Became(spec: Option<Ledger>, ok: bool)
      reads this
    {
      ok == spec.Some? && View() == if spec.Some? then spec.value else old(View())
    }

    method DepositCollateral(who: Address, amount: nat)
      modifies this
      ensures View() == CollateralModel.DepositCollateral(old(View()), who, amount)
    {
      var info := ReadDeposit(View(), who);
      info := info.(balance := info.balance + amount);
      info := info.(spendable := info.spendable + amount);
      borrowers := borrowers[who := info];
      holding := holding + amount;
    }

    method WithdrawCollateral(who: Address, requested: Option<nat>) returns (ok: bool)
      modifies this
      ensures Became(CollateralModel.WithdrawCollateral(old(View()), who, requested), ok)
    {
      var info := ReadDeposit(View(), who);
      var amount := if requested.Some? then requested.value else info.spendable;
      if info.spendable < amount || info.balance < amount || holding < amount { return false; }
      info := info.(balance := info.balance - amount);
      info := info.(spendable := info.spendable - amount);
      if info.balance == 0 {
        borrowers := borrowers - {who};
      } else {
        borrowers := borrowers[who := info];
      }
      holding := holding - amount;
      return true;
    }

    method LockCollateral(who: Address, amount: nat) returns (ok: bool)
      modifies this
      ensures Became(Perform(Lock, old(View()), who, amount), ok)
    {
      var info := ReadDeposit(View(), who);
      if amount > info.spendable { return false; }
      info := info.(spendable := info.spendable - amount);
      borrowers := borrowers[who := info];
      return true;
    }

    method UnlockCollateral(who: Address, amount: nat) returns (ok: bool)
      modifies this
      ensures Became(Perform(Unlock, old(View()), who, amount), ok)
    {
      var info := ReadDeposit(View(), who);
      if info.balance < info.spendable || amount > info.balance - info.spendable { return false; }
      info := info.(spendable := info.spendable + amount);
      borrowers := borrowers[who := info];
      return true;
    }

    method LiquidateCollateral(who: Address, amount: nat) returns (ok: bool)
      modifies this
      ensures Became(Perform(Liquidate, old(View()), who, amount), ok)
    {
      var info := ReadDeposit(View(), who);
      if info.balance < info.spendable || amount > info.balance - info.spendable || holding < amount { return false; }
      info := info.(balance := info.balance - amount);
      borrowers := borrowers[who := info];
      holding := holding - amount;
      return true;
    }
  }

  ghost function BorrowLimitFrom(limit: nat, prices: seq<nat>, rest: Option<(nat, seq<nat>)>): Option<(nat, seq<nat>)> {
    if rest.None? then None else Some((limit + rest.value.0, prices + rest.value.1))
  }

  lemma LimitFromStart(r: Option<(nat, seq<nat>)>)
    ensures BorrowLimitFrom(0, [], r) == r
  {
    if r.Some? { assert [] + r.value.1 == r.value.1; }
  }

  lemma {:induction false} LimitStep(limit: nat, prices: seq<nat>, s: Tokens, o: Oracle)
    requires s != [] && s[0].0 in o.prices && s[0].0 in o.maxLtv
    ensures var price := o.prices[s[0].0];
            (BorrowLimitFrom(limit, prices, BorrowLimit(s, o))
             == BorrowLimitFrom(limit + Mul(Mul(s[0].1, price), o.maxLtv[s[0].0]), prices + [price],
                                BorrowLimit(s[1..], o)))
  {
    var rest := BorrowLimit(s[1..], o);
    if rest.Some? {
      var price := o.prices[s[0].0];
      assert prices + ([price] + rest.value.1) == prices + [price] + rest.value.1;
    }
  }

  // The loop of compute_borrow_limit.
  method ComputeBorrowLimit(s: Tokens, o: Oracle) returns (r: Option<(nat, seq<nat>)>)
    ensures r == BorrowLimit(s, o)
  {
    var limit: nat, prices: seq<nat> := 0, [];
    var i := 0;
    assert s[0..] == s;
    LimitFromStart(BorrowLimit(s, o));
    while i < |s|
      invariant i <= |s|
      invariant BorrowLimit(s, o) == BorrowLimitFrom(limit, prices, BorrowLimit(s[i..], o))
    {
      assert s[i..][0] == s[i] && s[i..][1..] == s[i + 1..];
      if s[i].0 !in o.prices || s[i].0 !in o.maxLtv { return None; }
      LimitStep(limit, prices, s[i..], o);
      var price := o.prices[s[i].0];
      var value := Mul(s[i].1, price);
      limit := limit + Mul(value, o.maxLtv[s[i].0]);
      prices := prices + [price];
      i := i + 1;
    }
    assert prices + [] == prices;
    return Some((limit, prices));
  }

  /** The overseer's side. The custodies are held by value, by token: a message to a custody that
      fails reverts the messages before it and the overseer's own store. */
  class OverseerCollaterals {
    var custodies: map<Address, Ledger>
    var collaterals: map<Address, Tokens>

    constructor (tokens: set<Address>)
      ensures View() == Vault(map t | t in tokens :: Ledger(map[], 0), map[])
    {
      custodies, collaterals := map t | t in tokens :: Ledger(map[], 0), map[];
    }

    function View(): Vault
      reads this
    {
      Vault(custodies, collaterals)
    }

    twostate predicate Became(spec: Option<Vault>, ok: bool)
      reads this
    {
      ok == spec.Some? && View() == if spec.Some? then spec.value else old(View())
    }

    // One message per token, in the order listed.
    method SendAll(op: Op, who: Address, tokens: Tokens) returns (r: Option<map<Address, Ledger>>)
      ensures r == PerformAll(op, custodies, who, tokens)
    {
      var cs := custodies;
      var i := 0;
      assert tokens[0..] == tokens;
      while i < |tokens|
        invariant i <= |tokens|
        invariant PerformAll(op, custodies, who, tokens) == PerformAll(op, cs, who, tokens[i..])
      {
        assert tokens[i..][0] == tokens[i] && tokens[i..][1..] == tokens[i + 1..];
        if tokens[i].0 in cs {
          var c := Perform(op, cs[tokens[i].0], who, tokens[i].1);
          if c.None? { return None; }
          cs := cs[tokens[i].0 := c.value];
        } else if !op.Liquidate? {
          return None;
        }
        i := i + 1;
      }
      return Some(cs);
    }

    method LockCollateral(who: Address, tokens: Tokens) returns (ok: bool)
      modifies this
      ensures Became(CollateralModel.LockCollateral(old(View()), who, tokens), ok)
    {
      var cur := new TokenVec(ReadCollaterals(View(), who));
      ok := cur.Add(tokens);
      if !ok { return; }
      var cs := SendAll(Lock, who, tokens);
      if cs.None? { return false; }
      collaterals := StoreCollaterals(collaterals, who, cur.elems);
      custodies := cs.value;
    }

    method UnlockCollateral(who: Address, tokens: Tokens, oracle: Oracle, loan: nat) returns (ok: bool)
      modifies this
      ensures Became(CollateralModel.UnlockCollateral(old(View()), who, tokens, oracle, loan), ok)
    {
      var cur := new TokenVec(ReadCollaterals(View(), who));
      ok := cur.Sub(tokens);
      if !ok { return; }
      var limit := ComputeBorrowLimit(cur.elems, oracle);
      if limit.None? || limit.value.0 < loan { return false; }
      var cs := SendAll(Unlock, who, tokens);
      if cs.None? { return false; }
      collaterals := StoreCollaterals(collaterals, who, cur.elems);
      custodies := cs.value;
    }

    method TakeCollateral(who: Address, amounts: Tokens) returns (ok: bool)
      modifies this
      ensures Became(CollateralModel.TakeCollateral(old(View()), who, amounts), ok)
    {
      var cur := new TokenVec(ReadCollaterals(View(), who));
      ok := cur.Sub(amounts);
      if !ok { return; }
      var cs := SendAll(Liquidate, who, amounts);
      if cs.None? { return false; }
      collaterals := StoreCollaterals(collaterals, who, cur.elems);
      custodies := cs.value;
    }
  }
}
