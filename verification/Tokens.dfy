/** Token vectors: packages/moneymarket/src/tokens.rs.

    `None` is the `Err` of `sub` or the panic on a duplicate token; both abort the caller. */
module Tokens {
  import opened FixedPoint
  import opened Addresses

  type Token = (Address, nat)
  type Tokens = seq<Token>

  // ----- what a vector means -----

  predicate Has(s: Tokens, a: Address) { exists t :: t in s && t.0 == a }

  function Amount(s: Tokens, a: Address): nat {
    if s == [] then 0 else if s[0].0 == a then s[0].1 else Amount(s[1..], a)
  }

  predicate DupFree(s: Tokens) {
    forall i, j :: 0 <= i < j < |s| ==> s[i].0 != s[j].0
  }

  predicate AllAbove(a: Address, s: Tokens) { forall t :: t in s ==> Less(a, t.0) }

  predicate Strict(s: Tokens) {
    s == [] || (AllAbove(s[0].0, s[1..]) && Strict(s[1..]))
  }

  predicate ZeroFree(s: Tokens) { forall t :: t in s ==> t.1 > 0 }

  // Strictly sorted by address without zero amounts: how the overseer stores collaterals.
  predicate Canonical(s: Tokens) { Strict(s) && ZeroFree(s) }

  // Every listed token is held, with at least the listed amount.
  predicate Covers(a: Tokens, b: Tokens) {
    forall t :: t in b ==> Has(a, t.0) && Amount(a, t.0) >= t.1
  }

  // ----- the operations -----

  // sort_by on addresses, an operation of the standard library.
  function Insert(t: Token, s: Tokens): Tokens {
    if s == [] || !Less(s[0].0, t.0) then [t] + s else [s[0]] + Insert(t, s[1..])
  }

  function Sort(s: Tokens): Tokens {
    if s == [] then [] else Insert(s[0], Sort(s[1..]))
  }

  // What assert_duplicate_token sees on a sorted vector.
  predicate AdjacentDuplicate(s: Tokens) {
    exists i :: 0 < i < |s| && s[i - 1].0 == s[i].0
  }

  function Merge(a: Tokens, b: Tokens): Tokens
    decreases |a| + |b|
  {
    if a == [] then b
    else if b == [] then a
    else if a[0].0 == b[0].0 then [(a[0].0, a[0].1 + b[0].1)] + Merge(a[1..], b[1..])
    else if Less(b[0].0, a[0].0) then [b[0]] + Merge(a, b[1..])
    else [a[0]] + Merge(a[1..], b)
  }

  function SubSorted(a: Tokens, b: Tokens): Option<Tokens>
    decreases |a|
  {
    if b == [] then Some(a)
    else if a == [] then None
    else if a[0].0 == b[0].0 then
      var left :- Sub(a[0].1, b[0].1);
      var rest :- SubSorted(a[1..], b[1..]);
      Some([(a[0].0, left)] + rest)
    else if Less(a[0].0, b[0].0) then
      var rest :- SubSorted(a[1..], b);
      Some([a[0]] + rest)
    else None
  }

  function DropZeros(s: Tokens): Tokens {
    if s == [] then [] else (if s[0].1 > 0 then [s[0]] else []) + DropZeros(s[1..])
  }

  function AddTokens(a: Tokens, b: Tokens): Option<Tokens> {
    if AdjacentDuplicate(Sort(a)) || AdjacentDuplicate(Sort(b)) then None
    else Some(DropZeros(Merge(Sort(a), Sort(b))))
  }

  function SubTokens(a: Tokens, b: Tokens): Option<Tokens> {
    if AdjacentDuplicate(Sort(a)) || AdjacentDuplicate(Sort(b)) then None
    else
      var r :- SubSorted(Sort(a), Sort(b));
      Some(DropZeros(r))
  }

  lemma Regroup(front: Tokens, t: Token, rest: Tokens)
    ensures front + ([t] + rest) == front + [t] + rest
  {
  }

  // ----- amounts -----

  lemma {:induction false} AmountAbsent(s: Tokens, a: Address)
    requires !Has(s, a)
    ensures Amount(s, a) == 0
    decreases |s|
  {
    if s != [] {
      assert s[0] in s;
      assert forall t :: t in s[1..] ==> t in s;
      AmountAbsent(s[1..], a);
    }
  }

  lemma {:induction false} AboveAbsent(s: Tokens, a: Address, x: Address)
    requires AllAbove(a, s) && AtMost(x, a)
    ensures !Has(s, x) && Amount(s, x) == 0
  {
    forall t | t in s ensures t.0 != x {
      LessIrreflexive(x);
      if Less(x, a) { LessTransitive(x, a, t.0); }
    }
    AmountAbsent(s, x);
  }

  lemma {:induction false} AboveAll(a: Address, b: Address, s: Tokens)
    requires Less(a, b) && AllAbove(b, s)
    ensures AllAbove(a, s)
  {
    forall t | t in s ensures Less(a, t.0) { LessTransitive(a, b, t.0); }
  }

  lemma {:induction false} AmountOf(s: Tokens, t: Token)
    requires Strict(s) && t in s
    ensures Amount(s, t.0) == t.1
    decreases |s|
  {
    if s[0] != t {
      assert t in s[1..];
      LessIrreflexive(t.0);
      AmountOf(s[1..], t);
    }
  }

  /** Canonical vectors are determined by their amounts. */
  lemma {:induction false} CanonicalUnique(a: Tokens, b: Tokens)
    requires Canonical(a) && Canonical(b)
    requires forall x :: Amount(a, x) == Amount(b, x)
    ensures a == b
    decreases |a|
  {
    if a == [] && b == [] {
    } else if a != [] && (b == [] || Less(a[0].0, b[0].0)) {
      LowerHead(a, b);
    } else if b != [] && (a == [] || Less(b[0].0, a[0].0)) {
      LowerHead(b, a);
    } else {
      LessTotal(a[0].0, b[0].0);
      assert a[0].1 == b[0].1 by { assert Amount(a, a[0].0) == Amount(b, a[0].0); }
      forall x ensures Amount(a[1..], x) == Amount(b[1..], x) {
        assert Amount(a, x) == Amount(b, x);
        if x == a[0].0 {
          AboveAbsent(a[1..], x, x);
          AboveAbsent(b[1..], x, x);
        }
      }
      CanonicalUnique(a[1..], b[1..]);
      assert a == [a[0]] + a[1..] && b == [b[0]] + b[1..];
    }
  }

  lemma {:induction false} LowerHead(a: Tokens, b: Tokens)
    requires Canonical(a) && Canonical(b) && a != []
    requires b == [] || Less(a[0].0, b[0].0)
    ensures Amount(a, a[0].0) > 0 == Amount(b, a[0].0)
  {
    assert a[0] in a;
    if b != [] {
      LessAsymmetric(a[0].0, b[0].0);
      AboveAbsent(b[1..], b[0].0, a[0].0);
    }
  }

  // ----- sorting -----

  lemma {:induction false} InsertFacts(t: Token, s: Tokens)
    ensures multiset(Insert(t, s)) == multiset{t} + multiset(s)
    ensures Strict(s) && !Has(s, t.0) ==>
              Strict(Insert(t, s)) && forall x :: Amount(Insert(t, s), x) == if x == t.0 then t.1 else Amount(s, x)
    decreases |s|
  {
    if s == [] || !Less(s[0].0, t.0) {
      if Strict(s) && !Has(s, t.0) && s != [] {
        assert s[0] in s;
        LessTotal(s[0].0, t.0);
        AboveAll(t.0, s[0].0, s[1..]);
        assert s == [s[0]] + s[1..];
      }
    } else {
      assert s == [s[0]] + s[1..];
      InsertFacts(t, s[1..]);
      if Strict(s) && !Has(s, t.0) {
        assert forall u :: u in s[1..] ==> u in s;
        forall u | u in Insert(t, s[1..]) ensures Less(s[0].0, u.0) {
          assert u in multiset(Insert(t, s[1..]));
          assert u == t || u in multiset(s[1..]);
        }
        LessAsymmetric(s[0].0, t.0);
      }
    }
  }

  lemma DupFreeTail(s: Tokens)
    requires s != []
    ensures DupFree(s) <==> DupFree(s[1..]) && !Has(s[1..], s[0].0)
  {
    if DupFree(s[1..]) && !Has(s[1..], s[0].0) {
      forall i, j | 0 <= i < j < |s| ensures s[i].0 != s[j].0 {
        assert s[j] == s[1..][j - 1];
        if i > 0 { assert s[i] == s[1..][i - 1]; }
      }
    }
    if DupFree(s) {
      forall i, j | 0 <= i < j < |s[1..]| ensures s[1..][i].0 != s[1..][j].0 {
        assert s[1..][i] == s[i + 1] && s[1..][j] == s[j + 1];
      }
      forall t | t in s[1..] ensures t.0 != s[0].0 {
        var j :| 0 <= j < |s[1..]| && s[1..][j] == t;
        assert s[j + 1] == t;
      }
    }
  }

  lemma {:induction false} SortDupFree(s: Tokens)
    requires DupFree(s)
    ensures Strict(Sort(s)) && multiset(Sort(s)) == multiset(s)
    ensures forall x :: Amount(Sort(s), x) == Amount(s, x)
    decreases |s|
  {
    if s != [] {
      assert s == [s[0]] + s[1..];
      DupFreeTail(s);
      SortDupFree(s[1..]);
      SameHas(Sort(s[1..]), s[1..], s[0].0);
      InsertFacts(s[0], Sort(s[1..]));
      AmountAbsent(s[1..], s[0].0);
    }
  }

  lemma SameHas(a: Tokens, b: Tokens, x: Address)
    requires multiset(a) == multiset(b)
    ensures Has(a, x) == Has(b, x)
    ensures forall t :: t in a <==> t in b
  {
    forall t ensures t in a <==> t in b {
      assert t in multiset(a) <==> t in multiset(b);
    }
  }

  lemma {:induction false} StrictHasNoDuplicates(s: Tokens)
    requires Strict(s)
    ensures DupFree(s) && !AdjacentDuplicate(s)
    decreases |s|
  {
    if s != [] {
      StrictHasNoDuplicates(s[1..]);
      LessIrreflexive(s[0].0);
      DupFreeTail(s);
    }
  }

  /** assert_duplicate_token after sorting panics exactly on vectors that list a token twice. */
  lemma {:induction false} DuplicateCheck(s: Tokens)
    ensures AdjacentDuplicate(Sort(s)) <==> !DupFree(s)
  {
    if DupFree(s) {
      SortDupFree(s);
      StrictHasNoDuplicates(Sort(s));
    } else {
      SortWeak(s);
      if !AdjacentDuplicate(Sort(s)) {
        WeakIsStrict(Sort(s));
        StrictHasNoDuplicates(Sort(s));
        SortKeepsDuplicates(s);
      }
    }
  }

  predicate NoneBelow(a: Address, s: Tokens) { forall t :: t in s ==> AtMost(a, t.0) }

  predicate Weak(s: Tokens) {
    s == [] || (NoneBelow(s[0].0, s[1..]) && Weak(s[1..]))
  }

  lemma {:induction false} InsertWeak(t: Token, s: Tokens)
    requires Weak(s)
    ensures Weak(Insert(t, s))
    decreases |s|
  {
    InsertFacts(t, s);
    if s == [] || !Less(s[0].0, t.0) {
      if s != [] {
        LessTotal(s[0].0, t.0);
        forall u | u in s ensures AtMost(t.0, u.0) {
          assert s == [s[0]] + s[1..];
          if u != s[0] && Less(t.0, s[0].0) && Less(s[0].0, u.0) { LessTransitive(t.0, s[0].0, u.0); }
        }
      }
    } else {
      InsertFacts(t, s[1..]);
      InsertWeak(t, s[1..]);
      forall u | u in Insert(t, s[1..]) ensures AtMost(s[0].0, u.0) {
        assert u in multiset(Insert(t, s[1..]));
        assert u == t || u in multiset(s[1..]);
      }
    }
  }

  lemma {:induction false} SortWeak(s: Tokens)
    ensures Weak(Sort(s)) && multiset(Sort(s)) == multiset(s)
    decreases |s|
  {
    if s != [] {
      SortWeak(s[1..]);
      InsertWeak(s[0], Sort(s[1..]));
      InsertFacts(s[0], Sort(s[1..]));
      assert s == [s[0]] + s[1..];
    }
  }

  lemma {:induction false} WeakIsStrict(s: Tokens)
    requires Weak(s) && !AdjacentDuplicate(s)
    ensures Strict(s)
    decreases |s|
  {
    if |s| > 1 {
      assert s[1] in s[1..];
      assert s[0].0 != s[1].0 by { assert s[1 - 1].0 == s[0].0; }
      forall i | 0 < i < |s[1..]| ensures s[1..][i - 1].0 != s[1..][i].0 {
        assert s[1..][i] == s[i + 1] && s[1..][i - 1] == s[(i + 1) - 1];
      }
      WeakIsStrict(s[1..]);
      forall u | u in s[1..] ensures Less(s[0].0, u.0) {
        if u != s[1] {
          assert s[1..] == [s[1]] + s[1..][1..];
          LessTransitive(s[0].0, s[1].0, u.0);
        }
      }
    }
  }

  lemma {:induction false} InsertDupFree(t: Token, s: Tokens)
    ensures forall x :: Has(Insert(t, s), x) <==> x == t.0 || Has(s, x)
    ensures DupFree(Insert(t, s)) <==> DupFree(s) && !Has(s, t.0)
    decreases |s|
  {
    var r := Insert(t, s);
    DupFreeTail(r);
    HasHead(r);
    if s != [] {
      DupFreeTail(s);
      HasHead(s);
      if Less(s[0].0, t.0) {
        InsertDupFree(t, s[1..]);
        LessIrreflexive(t.0);
        assert r[1..] == Insert(t, s[1..]);
      } else {
        assert r[1..] == s;
      }
    }
  }

  lemma HasHead(s: Tokens)
    requires s != []
    ensures forall x :: Has(s, x) <==> x == s[0].0 || Has(s[1..], x)
  {
    assert s == [s[0]] + s[1..];
    forall x ensures Has(s, x) <==> x == s[0].0 || Has(s[1..], x) {
      if x == s[0].0 { assert s[0] in s; }
      if Has(s[1..], x) {
        var t :| t in s[1..] && t.0 == x;
        assert t in s;
      }
    }
  }

  // Listing a token twice does not depend on the order.
  lemma {:induction false} SortKeepsDuplicates(s: Tokens)
    ensures DupFree(Sort(s)) <==> DupFree(s)
    ensures forall x :: Has(Sort(s), x) <==> Has(s, x)
    decreases |s|
  {
    if s != [] {
      SortKeepsDuplicates(s[1..]);
      InsertDupFree(s[0], Sort(s[1..]));
      DupFreeTail(s);
      HasHead(s);
    }
  }

  // ----- merging -----

  lemma {:induction false} MergeFacts(a: Tokens, b: Tokens)
    requires Strict(a) && Strict(b)
    ensures Strict(Merge(a, b))
    ensures forall x :: AllAbove(x, a) && AllAbove(x, b) ==> AllAbove(x, Merge(a, b))
    ensures forall x :: Amount(Merge(a, b), x) == Amount(a, x) + Amount(b, x)
    decreases |a| + |b|
  {
    if a != [] && b != [] {
      if a[0].0 == b[0].0 {
        MergeFacts(a[1..], b[1..]);
        MergeHead(a[0].0, a, b, (a[0].0, a[0].1 + b[0].1), Merge(a[1..], b[1..]));
      } else if Less(b[0].0, a[0].0) {
        MergeFacts(a, b[1..]);
        AboveAll(b[0].0, a[0].0, a[1..]);
        AboveAbsent(a[1..], a[0].0, b[0].0);
        MergeHead(b[0].0, a, b, b[0], Merge(a, b[1..]));
      } else {
        LessTotal(a[0].0, b[0].0);
        MergeFacts(a[1..], b);
        AboveAll(a[0].0, b[0].0, b[1..]);
        AboveAbsent(b[1..], b[0].0, a[0].0);
        MergeHead(a[0].0, a, b, a[0], Merge(a[1..], b));
      }
    }
  }

  lemma {:induction false} MergeHead(h: Address, a: Tokens, b: Tokens, head: Token, rest: Tokens)
    requires a != [] && b != [] && Merge(a, b) == [head] + rest && head.0 == h
    requires h == a[0].0 || h == b[0].0
    ensures forall x :: AllAbove(x, a) && AllAbove(x, b) && AllAbove(x, rest) ==> AllAbove(x, Merge(a, b))
  {
    assert a[0] in a && b[0] in b;
  }

  lemma {:induction false} DropZerosFacts(s: Tokens)
    requires Strict(s)
    ensures Canonical(DropZeros(s))
    ensures forall t :: t in DropZeros(s) ==> t in s
    ensures forall x :: Amount(DropZeros(s), x) == Amount(s, x)
    decreases |s|
  {
    if s != [] {
      var rest := DropZeros(s[1..]);
      DropZerosFacts(s[1..]);
      AboveAbsent(s[1..], s[0].0, s[0].0);
      assert DropZeros(s) == if s[0].1 > 0 then [s[0]] + rest else rest;
    }
  }

  /** `add` on vectors in any order: it panics exactly on a repeated token, and otherwise leaves
      the sorted, zero-free vector of the pointwise sums. */
  lemma {:induction false} AddRefinesMaps(a: Tokens, b: Tokens)
    ensures AddTokens(a, b).Some? <==> DupFree(a) && DupFree(b)
    ensures AddTokens(a, b).Some? ==>
              var r := AddTokens(a, b).value;
              Canonical(r) && forall x :: Amount(r, x) == Amount(a, x) + Amount(b, x)
  {
    DuplicateCheck(a);
    DuplicateCheck(b);
    if DupFree(a) && DupFree(b) {
      SortDupFree(a);
      SortDupFree(b);
      MergeFacts(Sort(a), Sort(b));
      DropZerosFacts(Merge(Sort(a), Sort(b)));
    }
  }

  // ----- subtracting -----

  lemma {:induction false} SubSucceeds(a: Tokens, b: Tokens)
    requires Strict(a) && Strict(b)
    ensures SubSorted(a, b).Some? <==> Covers(a, b)
    decreases |a|
  {
    if b != [] && a != [] {
      assert a[0] in a && b[0] in b;
      if a[0].0 == b[0].0 {
        SubSucceeds(a[1..], b[1..]);
        CoversSameHead(a, b);
      } else if Less(a[0].0, b[0].0) {
        SubSucceeds(a[1..], b);
        CoversLaterHead(a, b);
      } else {
        LessTotal(a[0].0, b[0].0);
        AboveAbsent(a[1..], a[0].0, b[0].0);
        HasTail(a, b[0].0);
      }
    } else if b != [] {
      assert b[0] in b;
    }
  }

  ghost predicate IsDifference(r: Tokens, a: Tokens, b: Tokens) {
    && Strict(r)
    && (forall x :: AllAbove(x, a) ==> AllAbove(x, r))
    && (forall x :: Amount(r, x) == Amount(a, x) - Amount(b, x))
  }

  lemma {:induction false} SubResult(a: Tokens, b: Tokens)
    requires Strict(a) && Strict(b) && SubSorted(a, b).Some?
    ensures IsDifference(SubSorted(a, b).value, a, b)
    decreases |a|
  {
    if b != [] {
      if a[0].0 == b[0].0 {
        SubResult(a[1..], b[1..]);
        DifferenceSameHead(SubSorted(a[1..], b[1..]).value, a, b);
      } else {
        SubResult(a[1..], b);
        DifferenceLaterHead(SubSorted(a[1..], b).value, a, b);
      }
    }
  }

  lemma {:induction false} AboveHead(x: Address, s: Tokens)
    requires s != []
    ensures AllAbove(x, s) <==> Less(x, s[0].0) && AllAbove(x, s[1..])
  {
    assert s == [s[0]] + s[1..];
    assert s[0] in s;
  }

  lemma {:induction false} DifferenceSameHead(rest: Tokens, a: Tokens, b: Tokens)
    requires Strict(a) && Strict(b) && a != [] && b != [] && a[0].0 == b[0].0 && a[0].1 >= b[0].1
    requires IsDifference(rest, a[1..], b[1..])
    ensures IsDifference([(a[0].0, a[0].1 - b[0].1)] + rest, a, b)
  {
    var r := [(a[0].0, a[0].1 - b[0].1)] + rest;
    assert r[1..] == rest;
    forall x | AllAbove(x, a) ensures AllAbove(x, r) {
      AboveHead(x, a);
      AboveHead(x, r);
    }
    forall x ensures Amount(r, x) == Amount(a, x) - Amount(b, x) {
      assert Amount(rest, x) == Amount(a[1..], x) - Amount(b[1..], x);
    }
  }

  lemma {:induction false} DifferenceLaterHead(rest: Tokens, a: Tokens, b: Tokens)
    requires Strict(a) && Strict(b) && a != [] && b != [] && Less(a[0].0, b[0].0)
    requires IsDifference(rest, a[1..], b)
    ensures IsDifference([a[0]] + rest, a, b)
  {
    var r := [a[0]] + rest;
    assert r[1..] == rest;
    forall x | AllAbove(x, a) ensures AllAbove(x, r) {
      AboveHead(x, a);
      AboveHead(x, r);
    }
    LessIrreflexive(a[0].0);
    AboveAbsent(b[1..], b[0].0, a[0].0);
    forall x ensures Amount(r, x) == Amount(a, x) - Amount(b, x) {
      assert Amount(rest, x) == Amount(a[1..], x) - Amount(b, x);
    }
  }

  lemma {:induction false} HasTail(a: Tokens, x: Address)
    requires a != [] && a[0].0 != x
    ensures Has(a, x) == Has(a[1..], x) && Amount(a, x) == Amount(a[1..], x)
  {
    assert a == [a[0]] + a[1..];
  }

  lemma {:induction false} CoversSameHead(a: Tokens, b: Tokens)
    requires Strict(a) && Strict(b) && a != [] && b != [] && a[0].0 == b[0].0
    ensures Covers(a, b) <==> a[0].1 >= b[0].1 && Covers(a[1..], b[1..])
  {
    assert b == [b[0]] + b[1..] && a[0] in a && b[0] in b;
    LessIrreflexive(a[0].0);
    forall t | t in b[1..]
      ensures Has(a, t.0) == Has(a[1..], t.0) && Amount(a, t.0) == Amount(a[1..], t.0)
    {
      HasTail(a, t.0);
    }
  }

  lemma {:induction false} CoversLaterHead(a: Tokens, b: Tokens)
    requires Strict(b) && a != [] && b != [] && Less(a[0].0, b[0].0)
    ensures Covers(a, b) <==> Covers(a[1..], b)
  {
    assert b == [b[0]] + b[1..];
    AboveAll(a[0].0, b[0].0, b[1..]);
    LessIrreflexive(a[0].0);
    forall t | t in b
      ensures Has(a, t.0) == Has(a[1..], t.0) && Amount(a, t.0) == Amount(a[1..], t.0)
    {
      HasTail(a, t.0);
    }
  }

  lemma {:induction false} CoversSorted(a: Tokens, b: Tokens)
    requires DupFree(a) && DupFree(b)
    ensures Covers(Sort(a), Sort(b)) <==> Covers(a, b)
  {
    SortDupFree(a);
    SortDupFree(b);
    forall x ensures Has(Sort(a), x) == Has(a, x) { SameHas(Sort(a), a, x); }
    SameHas(Sort(b), b, []);
    CoversSame(a, Sort(a), b, Sort(b));
    CoversSame(Sort(a), a, Sort(b), b);
  }

  // Covering depends only on what is held and on what is listed.
  lemma {:induction false} CoversSame(a: Tokens, a': Tokens, b: Tokens, b': Tokens)
    requires forall x :: Has(a, x) == Has(a', x) && Amount(a, x) == Amount(a', x)
    requires forall t :: t in b' ==> t in b
    ensures Covers(a, b) ==> Covers(a', b')
  {
  }

  /** `sub` on vectors in any order: without repeated tokens it succeeds exactly when every listed
      token is held in at least the listed amount, and leaves the sorted, zero-free differences. */
  lemma {:induction false} SubRefinesMaps(a: Tokens, b: Tokens)
    ensures SubTokens(a, b).Some? <==> DupFree(a) && DupFree(b) && Covers(a, b)
    ensures SubTokens(a, b).Some? ==>
              var r := SubTokens(a, b).value;
              Canonical(r) && forall x :: Amount(r, x) == Amount(a, x) - Amount(b, x)
  {
    DuplicateCheck(a);
    DuplicateCheck(b);
    if DupFree(a) && DupFree(b) {
      SortDupFree(a);
      SortDupFree(b);
      CoversSorted(a, b);
      SubSucceeds(Sort(a), Sort(b));
      if Covers(a, b) {
        SubResult(Sort(a), Sort(b));
        DropZerosFacts(SubSorted(Sort(a), Sort(b)).value);
      }
    }
  }

  // ----- round trip -----

  lemma {:induction false} AmountPositive(s: Tokens, x: Address)
    requires Amount(s, x) > 0
    ensures Has(s, x)
  {
    if !Has(s, x) { AmountAbsent(s, x); }
  }

  lemma {:induction false} AmountOfDupFree(s: Tokens, t: Token)
    requires DupFree(s) && t in s
    ensures Amount(s, t.0) == t.1
    decreases |s|
  {
    DupFreeTail(s);
    assert s == [s[0]] + s[1..];
    if s[0] != t {
      AmountOfDupFree(s[1..], t);
    }
  }

  /** Adding positive amounts and taking them off again gives back the vector, sorted and without
      its zero entries. */
  lemma {:induction false} AddThenSub(a: Tokens, b: Tokens)
    requires DupFree(a) && DupFree(b) && ZeroFree(b)
    ensures AddTokens(a, b).Some?
    ensures SubTokens(AddTokens(a, b).value, b) == Some(DropZeros(Sort(a)))
  {
    AddRefinesMaps(a, b);
    var sum := AddTokens(a, b).value;
    StrictHasNoDuplicates(sum);
    SubRefinesMaps(sum, b);
    forall t | t in b ensures Has(sum, t.0) && Amount(sum, t.0) >= t.1 {
      AmountOfDupFree(b, t);
      AmountPositive(sum, t.0);
    }
    SortDupFree(a);
    DropZerosFacts(Sort(a));
    CanonicalUnique(SubTokens(sum, b).value, DropZeros(Sort(a)));
  }
}
