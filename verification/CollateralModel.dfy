/** Collateral on both sides: the custody contracts' ledgers and the overseer's vectors.
    contracts/custody_bluna/src/collateral.rs and contracts/overseer/src/collateral.rs. */
module CollateralModel {
  import opened FixedPoint
  import opened Addresses
  import opened Totals
  import opened Tokens

  // ----- one custody contract -----

  datatype Deposit = Deposit(balance: nat, spendable: nat)

  /** `holding` is the custody's own balance of the collateral token. */
  datatype Ledger = Ledger(borrowers: map<Address, Deposit>, holding: nat)

  function ReadDeposit(c: Ledger, who: Address): Deposit {
    if who in c.borrowers then c.borrowers[who] else Deposit(0, 0)
  }

  function Store(c: Ledger, who: Address, d: Deposit): Ledger {
    c.(borrowers := c.borrowers[who := d])
  }

  function DepositCollateral(c: Ledger, who: Address, amount: nat): Ledger {
    var d := ReadDeposit(c, who);
    Store(c, who, Deposit(d.balance + amount, d.spendable + amount)).(holding := c.holding + amount)
  }

  // Without an amount everything spendable is withdrawn; an emptied record is removed.
  function WithdrawCollateral(c: Ledger, who: Address, requested: Option<nat>): Option<Ledger> {
    var d := ReadDeposit(c, who);
    var amount := if requested.Some? then requested.value else d.spendable;
    if d.spendable < amount then None else
      var balance :- Sub(d.balance, amount);
      var holding :- Sub(c.holding, amount);
      var c' := if balance == 0 then c.(borrowers := c.borrowers - {who})
                else Store(c, who, Deposit(balance, d.spendable - amount));
      Some(c'.(holding := holding))
  }

  // The calls the overseer makes.
  datatype Op = Lock | Unlock | Liquidate

  function Perform(op: Op, c: Ledger, who: Address, amount: nat): Option<Ledger> {
    var d := ReadDeposit(c, who);
    match op
    case Lock =>
      if amount > d.spendable then None else Some(Store(c, who, d.(spendable := d.spendable - amount)))
    case Unlock =>
      var locked :- Sub(d.balance, d.spendable);
      if amount > locked then None else Some(Store(c, who, d.(spendable := d.spendable + amount)))
    case Liquidate =>
      var locked :- Sub(d.balance, d.spendable);
      if amount > locked then None else
        var holding :- Sub(c.holding, amount);
        Some(Store(c, who, d.(balance := d.balance - amount)).(holding := holding))
  }

  // ----- the overseer over all custodies -----

  /** One custody per whitelisted token, and the overseer's collaterals by borrower. */
  datatype Vault = Vault(custodies: map<Address, Ledger>, collaterals: map<Address, Tokens>)

  function ReadCollaterals(v: Vault, who: Address): Tokens {
    if who in v.collaterals then v.collaterals[who] else []
  }

  function StoreCollaterals(m: map<Address, Tokens>, who: Address, s: Tokens): map<Address, Tokens> {
    if s == [] then m - {who} else m[who := s]
  }

  // One message per listed token, in order; any failure aborts all. A token that is not whitelisted
  // is an error, except in a liquidation, which passes it over.
  function PerformAll(op: Op, cs: map<Address, Ledger>, who: Address, tokens: Tokens): Option<map<Address, Ledger>>
    decreases |tokens|
  {
    if tokens == [] then Some(cs)
    else if tokens[0].0 !in cs then
      if op.Liquidate? then PerformAll(op, cs, who, tokens[1..]) else None
    else
      var c :- Perform(op, cs[tokens[0].0], who, tokens[0].1);
      PerformAll(op, cs[tokens[0].0 := c], who, tokens[1..])
  }

  function LockCollateral(v: Vault, who: Address, tokens: Tokens): Option<Vault> {
    var cur :- AddTokens(ReadCollaterals(v, who), tokens);
    var cs :- PerformAll(Lock, v.custodies, who, tokens);
    Some(Vault(cs, StoreCollaterals(v.collaterals, who, cur)))
  }

  // `loan` is the borrower's loan as the market answers it.
  function UnlockCollateral(v: Vault, who: Address, tokens: Tokens, oracle: Oracle, loan: nat): Option<Vault> {
    var cur :- SubTokens(ReadCollaterals(v, who), tokens);
    var limit :- BorrowLimit(cur, oracle);
    if limit.0 < loan then None else
      var cs :- PerformAll(Unlock, v.custodies, who, tokens);
      Some(Vault(cs, StoreCollaterals(v.collaterals, who, cur)))
  }

  // The token side of a liquidation of `amounts`.
  function TakeCollateral(v: Vault, who: Address, amounts: Tokens): Option<Vault> {
    var cur :- SubTokens(ReadCollaterals(v, who), amounts);
    var cs :- PerformAll(Liquidate, v.custodies, who, amounts);
    Some(Vault(cs, StoreCollaterals(v.collaterals, who, cur)))
  }

  // ----- borrow limit -----

  /** Fresh prices and maximum loan-to-value ratios by token; a missing one is an error. */
  datatype Oracle = Oracle(prices: map<Address, nat>, maxLtv: map<Address, nat>)

  ghost predicate LtvOk(o: Oracle) { forall t :: t in o.maxLtv ==> o.maxLtv[t] <= F }

  function BorrowLimit(s: Tokens, o: Oracle): Option<(nat, seq<nat>)> {
    if s == [] then Some((0, []))
    else if s[0].0 !in o.prices || s[0].0 !in o.maxLtv then None
    else
      var rest :- BorrowLimit(s[1..], o);
      var price := o.prices[s[0].0];
      Some((Mul(Mul(s[0].1, price), o.maxLtv[s[0].0]) + rest.0, [price] + rest.1))
  }

  // ----- invariants -----

  ghost function Balances(c: Ledger): map<Address, real> {
    map b | b in c.borrowers :: c.borrowers[b].balance as real
  }

  // Spendable within balance, and the token holding covers all balances.
  ghost predicate CustodyOk(c: Ledger) {
    && (forall b :: b in c.borrowers ==> c.borrowers[b].spendable <= c.borrowers[b].balance)
    && Total(Balances(c)) <= c.holding as real
  }

  function Locked(c: Ledger, who: Address): int {
    ReadDeposit(c, who).balance - ReadDeposit(c, who).spendable
  }

  ghost predicate CustodiesOk(cs: map<Address, Ledger>) {
    forall t :: t in cs ==> CustodyOk(cs[t])
  }

  /** Overseer and custodies agree on every borrower and every token. */
  ghost predicate Agree(v: Vault) {
    && CustodiesOk(v.custodies)
    && (forall b :: b in v.collaterals ==> Canonical(v.collaterals[b]))
    && (forall b, t :: t in v.custodies ==> Amount(ReadCollaterals(v, b), t) == Locked(v.custodies[t], b))
    && (forall b, t :: t !in v.custodies ==> Amount(ReadCollaterals(v, b), t) == 0)
  }

  // ----- custody keeps its invariant -----

  lemma StoreTotal(c: Ledger, who: Address, d: Deposit)
    ensures Total(Balances(Store(c, who, d)))
         == Total(Balances(c)) - ReadDeposit(c, who).balance as real + d.balance as real
  {
    assert Balances(Store(c, who, d)) == Balances(c)[who := d.balance as real];
    TotalUpdate(Balances(c), who, d.balance as real);
  }

  lemma HoldingCovers(c: Ledger, who: Address)
    requires CustodyOk(c)
    ensures ReadDeposit(c, who).balance <= c.holding
  {
    if who in c.borrowers {
      TotalCovers(Balances(c), who);
      assert Balances(c)[who] == ReadDeposit(c, who).balance as real;
    }
  }

  // Replacing one record, with the holding moved by the same amount.
  lemma StoreKeepsCustody(c: Ledger, who: Address, d: Deposit, holding: nat)
    requires CustodyOk(c) && d.spendable <= d.balance
    requires holding - c.holding == d.balance - ReadDeposit(c, who).balance
    ensures CustodyOk(Store(c, who, d).(holding := holding))
  {
    StoreTotal(c, who, d);
    assert Balances(Store(c, who, d).(holding := holding)) == Balances(Store(c, who, d));
  }

  lemma DepositKeepsCustody(c: Ledger, who: Address, amount: nat)
    requires CustodyOk(c)
    ensures CustodyOk(DepositCollateral(c, who, amount))
    ensures forall b :: Locked(DepositCollateral(c, who, amount), b) == Locked(c, b)
  {
    var d := ReadDeposit(c, who);
    StoreKeepsCustody(c, who, Deposit(d.balance + amount, d.spendable + amount), c.holding + amount);
  }

  // Tokens sent to the custody without a deposit.
  function Donate(c: Ledger, amount: nat): Ledger { c.(holding := c.holding + amount) }

  lemma DonateKeepsCustody(c: Ledger, amount: nat)
    requires CustodyOk(c)
    ensures CustodyOk(Donate(c, amount))
    ensures forall b :: Locked(Donate(c, amount), b) == Locked(c, b)
  {
    assert Balances(Donate(c, amount)) == Balances(c);
  }

  /** A withdrawal fails exactly beyond the spendable amount, and never touches what is locked. */
  lemma WithdrawKeepsCustody(c: Ledger, who: Address, requested: Option<nat>)
    requires CustodyOk(c)
    ensures WithdrawCollateral(c, who, requested).Some?
       <==> (requested.Some? ==> requested.value <= ReadDeposit(c, who).spendable)
    ensures WithdrawCollateral(c, who, requested).Some? ==>
              var t := WithdrawCollateral(c, who, requested).value;
              CustodyOk(t) && forall b :: Locked(t, b) == Locked(c, b)
  {
    HoldingCovers(c, who);
    var r := WithdrawCollateral(c, who, requested);
    if r.Some? {
      var d := ReadDeposit(c, who);
      var amount := if requested.Some? then requested.value else d.spendable;
      if d.balance == amount {
        assert Balances(r.value) == Balances(c) - {who};
        TotalDelete(Balances(c), who);
        assert At(Balances(c), who) == d.balance as real;
      } else {
        StoreKeepsCustody(c, who, Deposit(d.balance - amount, d.spendable - amount), c.holding - amount);
      }
    }
  }

  function Change(op: Op, amount: nat): int { if op.Lock? then amount else 0 - amount }

  // How much an overseer call may ask for.
  function Available(op: Op, c: Ledger, who: Address): int {
    if op.Lock? then ReadDeposit(c, who).spendable else Locked(c, who)
  }

  lemma PerformKeepsCustody(op: Op, c: Ledger, who: Address, amount: nat)
    requires CustodyOk(c)
    ensures Perform(op, c, who, amount).Some? <==> amount <= Available(op, c, who)
    ensures Perform(op, c, who, amount).Some? ==>
              var t := Perform(op, c, who, amount).value;
              && CustodyOk(t)
              && Locked(t, who) == Locked(c, who) + Change(op, amount)
              && forall b :: b != who ==> Locked(t, b) == Locked(c, b)
  {
    HoldingCovers(c, who);
    var r := Perform(op, c, who, amount);
    if r.Some? {
      StoreKeepsCustody(c, who, ReadDeposit(r.value, who), r.value.holding);
      assert r.value == Store(c, who, ReadDeposit(r.value, who)).(holding := r.value.holding);
    }
  }

  // ----- messages to all listed custodies -----

  lemma {:induction false} PerformAllFacts(op: Op, cs: map<Address, Ledger>, who: Address, tokens: Tokens)
    requires CustodiesOk(cs) && DupFree(tokens)
    ensures PerformAll(op, cs, who, tokens).Some? <==>
            forall t :: t in tokens ==> if t.0 in cs then t.1 <= Available(op, cs[t.0], who) else op.Liquidate?
    ensures PerformAll(op, cs, who, tokens).Some? ==>
              var r := PerformAll(op, cs, who, tokens).value;
              && CustodiesOk(r) && r.Keys == cs.Keys
              && forall t, b :: t in cs ==>
                   Locked(r[t], b) == Locked(cs[t], b) + if b == who then Change(op, Amount(tokens, t)) else 0
    decreases |tokens|
  {
    if tokens != [] {
      var h := tokens[0];
      assert tokens == [h] + tokens[1..];
      DupFreeTail(tokens);
      if h.0 !in cs {
        PerformAllFacts(op, cs, who, tokens[1..]);
      } else {
        PerformKeepsCustody(op, cs[h.0], who, h.1);
        var c := Perform(op, cs[h.0], who, h.1);
        if c.Some? {
          var cs' := cs[h.0 := c.value];
          PerformAllFacts(op, cs', who, tokens[1..]);
          forall t | t in tokens[1..] ensures t.0 in cs <==> t.0 in cs'
            ensures t.0 in cs ==> cs'[t.0] == cs[t.0]
          {
            assert t.0 != h.0;
          }
          AmountAbsent(tokens[1..], h.0);
        }
      }
    }
  }
}
