/** Overseer and custodies never disagree about a borrower's locked collateral. */
module CollateralAgreement {
  import opened FixedPoint
  import opened Addresses
  import opened Totals
  import opened Tokens
  import opened CollateralModel

  lemma CurrentCanonical(v: Vault, who: Address)
    requires Agree(v)
    ensures Canonical(ReadCollaterals(v, who)) && DupFree(ReadCollaterals(v, who))
  {
    StrictHasNoDuplicates(ReadCollaterals(v, who));
  }

  lemma HeldIsRegistered(v: Vault, who: Address, t: Address)
    requires Agree(v) && Has(ReadCollaterals(v, who), t)
    ensures t in v.custodies
  {
    var cur := ReadCollaterals(v, who);
    CurrentCanonical(v, who);
    var tok :| tok in cur && tok.0 == t;
    AmountOf(cur, tok);
    assert Amount(cur, t) > 0;
  }

  // Storing a vector and performing the matching calls moves both sides by the same amounts.
  lemma {:induction false} AgreeAfter(v: Vault, op: Op, who: Address, tokens: Tokens,
                                     cur: Tokens, cs: map<Address, Ledger>)
    requires Agree(v) && DupFree(tokens) && Canonical(cur)
    requires PerformAll(op, v.custodies, who, tokens) == Some(cs) && forall t :: t in tokens ==> t.0 in v.custodies
    requires forall x :: Amount(cur, x) == Amount(ReadCollaterals(v, who), x) + Change(op, Amount(tokens, x))
    ensures Agree(Vault(cs, StoreCollaterals(v.collaterals, who, cur)))
  {
    PerformAllFacts(op, v.custodies, who, tokens);
    var w := Vault(cs, StoreCollaterals(v.collaterals, who, cur));
    assert ReadCollaterals(w, who) == cur;
    forall b | b != who ensures ReadCollaterals(w, b) == ReadCollaterals(v, b) { }
    forall x | x !in v.custodies ensures Amount(tokens, x) == 0 {
      AmountAbsent(tokens, x);
    }
  }

  /** Locking fails exactly on a repeated token, an unregistered one, or more than is spendable. */
  lemma {:induction false} LockKeepsAgreement(v: Vault, who: Address, tokens: Tokens)
    requires Agree(v)
    ensures LockCollateral(v, who, tokens).Some? <==>
            && DupFree(tokens)
            && forall t :: t in tokens ==> t.0 in v.custodies && t.1 <= ReadDeposit(v.custodies[t.0], who).spendable
    ensures LockCollateral(v, who, tokens).Some? ==>
              var w := LockCollateral(v, who, tokens).value;
              && Agree(w)
              && forall x :: Amount(ReadCollaterals(w, who), x)
                    == Amount(ReadCollaterals(v, who), x) + Amount(tokens, x)
  {
    var cur := ReadCollaterals(v, who);
    CurrentCanonical(v, who);
    AddRefinesMaps(cur, tokens);
    if DupFree(tokens) {
      PerformAllFacts(Lock, v.custodies, who, tokens);
      var cs := PerformAll(Lock, v.custodies, who, tokens);
      if cs.Some? {
        AgreeAfter(v, Lock, who, tokens, AddTokens(cur, tokens).value, cs.value);
      }
    }
  }

  /** Whenever the overseer's own subtraction goes through, every custody accepts its call. */
  lemma {:induction false} CustodiesFollow(v: Vault, op: Op, who: Address, tokens: Tokens)
    requires Agree(v) && !op.Lock? && DupFree(tokens) && Covers(ReadCollaterals(v, who), tokens)
    ensures PerformAll(op, v.custodies, who, tokens).Some? && forall t :: t in tokens ==> t.0 in v.custodies
  {
    PerformAllFacts(op, v.custodies, who, tokens);
    forall t | t in tokens ensures t.0 in v.custodies && t.1 <= Available(op, v.custodies[t.0], who) {
      HeldIsRegistered(v, who, t.0);
    }
  }

  /** Liquidating fails exactly when the overseer does not record that much. */
  lemma {:induction false} TakeKeepsAgreement(v: Vault, who: Address, amounts: Tokens)
    requires Agree(v)
    ensures TakeCollateral(v, who, amounts).Some? <==> DupFree(amounts) && Covers(ReadCollaterals(v, who), amounts)
    ensures TakeCollateral(v, who, amounts).Some? ==>
              var w := TakeCollateral(v, who, amounts).value;
              && Agree(w)
              && forall x :: Amount(ReadCollaterals(w, who), x)
                    == Amount(ReadCollaterals(v, who), x) - Amount(amounts, x)
  {
    var cur := ReadCollaterals(v, who);
    CurrentCanonical(v, who);
    SubRefinesMaps(cur, amounts);
    if DupFree(amounts) && Covers(cur, amounts) {
      CustodiesFollow(v, Liquidate, who, amounts);
      AgreeAfter(v, Liquidate, who, amounts, SubTokens(cur, amounts).value,
                 PerformAll(Liquidate, v.custodies, who, amounts).value);
    }
  }

  /** Unlocking fails exactly when the overseer does not record that much, a price or ratio is
      missing, or the rest would not back the loan: never at a custody. */
  lemma {:induction false} UnlockKeepsAgreement(v: Vault, who: Address, tokens: Tokens, oracle: Oracle, loan: nat)
    requires Agree(v)
    ensures UnlockCollateral(v, who, tokens, oracle, loan).Some? <==>
            && DupFree(tokens) && Covers(ReadCollaterals(v, who), tokens)
            && SubTokens(ReadCollaterals(v, who), tokens).Some?
            && var limit := BorrowLimit(SubTokens(ReadCollaterals(v, who), tokens).value, oracle);
               limit.Some? && loan <= limit.value.0
    ensures UnlockCollateral(v, who, tokens, oracle, loan).Some? ==>
              var w := UnlockCollateral(v, who, tokens, oracle, loan).value;
              && Agree(w)
              && forall x :: Amount(ReadCollaterals(w, who), x)
                    == Amount(ReadCollaterals(v, who), x) - Amount(tokens, x)
  {
    var cur := ReadCollaterals(v, who);
    CurrentCanonical(v, who);
    SubRefinesMaps(cur, tokens);
    if DupFree(tokens) && Covers(cur, tokens) {
      CustodiesFollow(v, Unlock, who, tokens);
      AgreeAfter(v, Unlock, who, tokens, SubTokens(cur, tokens).value,
                 PerformAll(Unlock, v.custodies, who, tokens).value);
    }
  }

  // ----- runs -----

  datatype VaultTx =
    | DepositTx(token: Address, who: Address, amount: nat)
    | WithdrawTx(token: Address, who: Address, requested: Option<nat>)
    | LockTx(who: Address, tokens: Tokens)
    | UnlockTx(who: Address, tokens: Tokens, oracle: Oracle, loan: nat)
    | TakeTx(who: Address, amounts: Tokens)
    | SendTx(token: Address, amount: nat)  // a plain cw20 transfer to the custody

  function Apply(v: Vault, tx: VaultTx): Option<Vault> {
    match tx
    case DepositTx(t, who, amount) =>
      if t !in v.custodies then None
      else Some(v.(custodies := v.custodies[t := DepositCollateral(v.custodies[t], who, amount)]))
    case WithdrawTx(t, who, requested) =>
      if t !in v.custodies then None else
        var c :- WithdrawCollateral(v.custodies[t], who, requested);
        Some(v.(custodies := v.custodies[t := c]))
    case LockTx(who, tokens) => LockCollateral(v, who, tokens)
    case UnlockTx(who, tokens, oracle, loan) => UnlockCollateral(v, who, tokens, oracle, loan)
    case TakeTx(who, amounts) => TakeCollateral(v, who, amounts)
    case SendTx(t, amount) =>
      if t !in v.custodies then None
      else Some(v.(custodies := v.custodies[t := Donate(v.custodies[t], amount)]))
  }

  function Next(v: Vault, tx: VaultTx): Vault {
    var r := Apply(v, tx);
    if r.Some? then r.value else v
  }

  function Run(v: Vault, txs: seq<VaultTx>): Vault
    decreases |txs|
  {
    if txs == [] then v else Run(Next(v, txs[0]), txs[1..])
  }

  function InitialVault(tokens: set<Address>): Vault {
    Vault(map t | t in tokens :: Ledger(map[], 0), map[])
  }

  lemma CustodyReplaced(v: Vault, t: Address, c: Ledger)
    requires Agree(v) && t in v.custodies && CustodyOk(c)
    requires forall b :: Locked(c, b) == Locked(v.custodies[t], b)
    ensures Agree(v.(custodies := v.custodies[t := c]))
  {
    var w := v.(custodies := v.custodies[t := c]);
    assert forall b :: ReadCollaterals(w, b) == ReadCollaterals(v, b);
  }

  lemma DepositKeepsAgreement(v: Vault, t: Address, who: Address, amount: nat)
    requires Agree(v) && t in v.custodies
    ensures Agree(Next(v, DepositTx(t, who, amount)))
  {
    DepositKeepsCustody(v.custodies[t], who, amount);
    CustodyReplaced(v, t, DepositCollateral(v.custodies[t], who, amount));
  }

  lemma WithdrawKeepsAgreement(v: Vault, t: Address, who: Address, requested: Option<nat>)
    requires Agree(v) && t in v.custodies && WithdrawCollateral(v.custodies[t], who, requested).Some?
    ensures Agree(Next(v, WithdrawTx(t, who, requested)))
  {
    WithdrawKeepsCustody(v.custodies[t], who, requested);
    CustodyReplaced(v, t, WithdrawCollateral(v.custodies[t], who, requested).value);
  }

  lemma SendKeepsAgreement(v: Vault, t: Address, amount: nat)
    requires Agree(v) && t in v.custodies
    ensures Agree(Next(v, SendTx(t, amount)))
  {
    DonateKeepsCustody(v.custodies[t], amount);
    CustodyReplaced(v, t, Donate(v.custodies[t], amount));
  }

  lemma StepKeepsAgreement(v: Vault, tx: VaultTx)
    requires Agree(v)
    ensures Agree(Next(v, tx))
  {
    if Apply(v, tx).Some? {
      match tx
      case DepositTx(t, who, amount) => DepositKeepsAgreement(v, t, who, amount);
      case WithdrawTx(t, who, requested) => WithdrawKeepsAgreement(v, t, who, requested);
      case LockTx(who, tokens) => LockKeepsAgreement(v, who, tokens);
      case UnlockTx(who, tokens, oracle, loan) => UnlockKeepsAgreement(v, who, tokens, oracle, loan);
      case TakeTx(who, amounts) => TakeKeepsAgreement(v, who, amounts);
      case SendTx(t, amount) => SendKeepsAgreement(v, t, amount);
    }
  }

  lemma {:induction false} RunKeepsAgreement(v: Vault, txs: seq<VaultTx>)
    requires Agree(v)
    ensures Agree(Run(v, txs))
    decreases |txs|
  {
    if txs != [] {
      StepKeepsAgreement(v, txs[0]);
      RunKeepsAgreement(Next(v, txs[0]), txs[1..]);
    }
  }

  lemma AgreementMeans(v: Vault)
    requires Agree(v)
    ensures forall b, t :: t in v.custodies ==>
              Amount(ReadCollaterals(v, b), t)
              == ReadDeposit(v.custodies[t], b).balance - ReadDeposit(v.custodies[t], b).spendable
    ensures forall b, t :: t in v.custodies ==>
              ReadDeposit(v.custodies[t], b).spendable <= ReadDeposit(v.custodies[t], b).balance
    ensures forall t :: t in v.custodies ==> Total(Balances(v.custodies[t])) <= v.custodies[t].holding as real
  {
    forall b, t | t in v.custodies
      ensures Amount(ReadCollaterals(v, b), t)
           == ReadDeposit(v.custodies[t], b).balance - ReadDeposit(v.custodies[t], b).spendable
    {
      assert Amount(ReadCollaterals(v, b), t) == Locked(v.custodies[t], b);
    }
  }

  lemma InitialAgrees(tokens: set<Address>)
    ensures Agree(InitialVault(tokens))
  {
    var v := InitialVault(tokens);
    forall t | t in v.custodies ensures CustodyOk(v.custodies[t]) {
      assert Balances(v.custodies[t]) == map[];
    }
  }

  /** In every reachable state, for every borrower and token: what the overseer records is the
      custody's balance minus spendable, spendable is within balance, and each custody holds enough
      tokens for all its balances. */
  lemma {:induction false} ReachableAgreement(tokens: set<Address>, txs: seq<VaultTx>)
    ensures var v := Run(InitialVault(tokens), txs);
            && (forall b, t :: t in v.custodies ==>
                  Amount(ReadCollaterals(v, b), t)
                  == ReadDeposit(v.custodies[t], b).balance - ReadDeposit(v.custodies[t], b).spendable)
            && (forall b, t :: t in v.custodies ==>
                  ReadDeposit(v.custodies[t], b).spendable <= ReadDeposit(v.custodies[t], b).balance)
            && (forall t :: t in v.custodies ==> Total(Balances(v.custodies[t])) <= v.custodies[t].holding as real)
  {
    InitialAgrees(tokens);
    RunKeepsAgreement(InitialVault(tokens), txs);
    AgreementMeans(Run(InitialVault(tokens), txs));
  }
}
