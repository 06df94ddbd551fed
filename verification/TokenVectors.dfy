/** `TokensMath` as it runs: sort in place, two-pointer loops, drop the zeros. Proved against the
    functions of Tokens. */
module TokenVectors {
  import opened FixedPoint
  import opened Addresses
  import opened Tokens

  // The loop of assert_duplicate_token; `true` is its panic.
  method HasDuplicateToken(s: Tokens) returns (dup: bool)
    ensures dup <==> AdjacentDuplicate(s)
  {
    if |s| > 1 {
      var before := s[0].0;
      var i := 1;
      while i < |s|
        invariant 1 <= i <= |s|
        invariant before == s[i - 1].0
        invariant forall k :: 0 < k < i ==> s[k - 1].0 != s[k].0
      {
        if before == s[i].0 { return true; }
        before := s[i].0;
        i := i + 1;
      }
    }
    return false;
  }

  // One turn of the merge, in place on `tmp`.
  lemma MergeTurn(tmp: Tokens, a: Tokens, b: Tokens, i: nat, j: nat)
    requires i < |a| && j < |b|
    ensures a[i].0 == b[j].0 ==>
              tmp + Merge(a[i..], b[j..]) == tmp + [(a[i].0, a[i].1 + b[j].1)] + Merge(a[i + 1..], b[j + 1..])
    ensures a[i].0 != b[j].0 && Less(b[j].0, a[i].0) ==>
              tmp + Merge(a[i..], b[j..]) == tmp + [b[j]] + Merge(a[i..], b[j + 1..])
    ensures a[i].0 != b[j].0 && !Less(b[j].0, a[i].0) ==>
              tmp + Merge(a[i..], b[j..]) == tmp + [a[i]] + Merge(a[i + 1..], b[j..])
  {
    assert a[i..][1..] == a[i + 1..] && b[j..][1..] == b[j + 1..];
    if a[i].0 == b[j].0 {
      Regroup(tmp, (a[i].0, a[i].1 + b[j].1), Merge(a[i + 1..], b[j + 1..]));
    } else if Less(b[j].0, a[i].0) {
      Regroup(tmp, b[j], Merge(a[i..], b[j + 1..]));
    } else {
      Regroup(tmp, a[i], Merge(a[i + 1..], b[j..]));
    }
  }

  // With one vector used up, the other is copied.
  lemma CopyTurn(tmp: Tokens, s: Tokens, i: nat)
    requires i < |s|
    ensures tmp + s[i..] == tmp + [s[i]] + s[i + 1..]
  {
    assert s[i..] == [s[i]] + s[i + 1..];
    Regroup(tmp, s[i], s[i + 1..]);
  }

  // The three loops of `add` over two sorted vectors.
  method MergeSorted(a: Tokens, b: Tokens) returns (tmp: Tokens)
    ensures tmp == Merge(a, b)
  {
    tmp := [];
    var i, j := 0, 0;
    while i < |a| && j < |b|
      invariant i <= |a| && j <= |b|
      invariant tmp + Merge(a[i..], b[j..]) == Merge(a, b)
      decreases |a| - i + |b| - j
    {
      MergeTurn(tmp, a, b, i, j);
      if a[i].0 == b[j].0 {
        tmp := tmp + [(a[i].0, a[i].1 + b[j].1)];
        i, j := i + 1, j + 1;
      } else if Less(b[j].0, a[i].0) {
        tmp := tmp + [(b[j].0, b[j].1)];
        j := j + 1;
      } else {
        tmp := tmp + [(a[i].0, a[i].1)];
        i := i + 1;
      }
    }
    tmp := CopyRest(tmp, b, j);
    tmp := CopyRest(tmp, a, i);
  }

  // The two copying loops: at most one of the vectors has anything left.
  method CopyRest(tmp: Tokens, s: Tokens, start: nat) returns (r: Tokens)
    requires start <= |s|
    ensures r == tmp + s[start..]
  {
    r := tmp;
    var i := start;
    while i < |s|
      invariant start <= i <= |s|
      invariant r + s[i..] == tmp + s[start..]
    {
      CopyTurn(r, s, i);
      r := r + [(s[i].0, s[i].1)];
      i := i + 1;
    }
  }

  ghost function Prepend(front: Tokens, r: Option<Tokens>): Option<Tokens> {
    if r.None? then None else Some(front + r.value)
  }

  lemma PrependStep(front: Tokens, t: Token, r: Option<Tokens>)
    ensures Prepend(front, Prepend([t], r)) == Prepend(front + [t], r)
  {
    if r.Some? { Regroup(front, t, r.value); }
  }

  lemma PrependNothing(r: Option<Tokens>)
    ensures Prepend([], r) == r
  {
    if r.Some? { assert [] + r.value == r.value; }
  }

  class TokenVec {
    var elems: Tokens

    constructor (elems: Tokens)
      ensures this.elems == elems
    {
      this.elems := elems;
    }

    method Add(others: Tokens) returns (ok: bool)
      modifies this
      ensures ok == AddTokens(old(elems), others).Some?
      ensures ok ==> elems == AddTokens(old(elems), others).value
    {
      elems := Sort(elems);
      var dup := HasDuplicateToken(elems);
      if dup { return false; }
      var tokens := Sort(others);
      dup := HasDuplicateToken(tokens);
      if dup { return false; }

      var tmp := MergeSorted(elems, tokens);
      elems := DropZeros(tmp);
      return true;
    }

    // After a failure the vector is a discarded local of the caller: nothing is said about it.
    method Sub(others: Tokens) returns (ok: bool)
      modifies this
      ensures ok == SubTokens(old(elems), others).Some?
      ensures ok ==> elems == SubTokens(old(elems), others).value
    {
      elems := Sort(elems);
      var dup := HasDuplicateToken(elems);
      if dup { return false; }
      var tokens := Sort(others);
      dup := HasDuplicateToken(tokens);
      if dup { return false; }

      ok := Subtract(tokens);
      if ok { elems := DropZeros(elems); }
    }

    // The loop of `sub` over two sorted vectors.
    method Subtract(tokens: Tokens) returns (ok: bool)
      modifies this
      ensures ok == SubSorted(old(elems), tokens).Some?
      ensures ok ==> elems == SubSorted(old(elems), tokens).value
    {
      ghost var start := elems;
      var i, j := 0, 0;
      PrependNothing(SubSorted(elems, tokens));
      assert elems[0..] == elems && tokens[0..] == tokens;
      while i < |elems| && j < |tokens|
        invariant i <= |elems| && j <= |tokens|
        invariant SubSorted(start, tokens) == Prepend(elems[..i], SubSorted(elems[i..], tokens[j..]))
      {
        ghost var front := elems[..i];
        assert elems[i..] == [elems[i]] + elems[i + 1..] && tokens[j..] == [tokens[j]] + tokens[j + 1..];
        if elems[i].0 == tokens[j].0 {
          if elems[i].1 < tokens[j].1 { return false; }
          elems := elems[i := (elems[i].0, elems[i].1 - tokens[j].1)];
          PrependStep(front, elems[i], SubSorted(elems[i + 1..], tokens[j + 1..]));
          assert elems[..i + 1] == front + [elems[i]];
          i, j := i + 1, j + 1;
        } else if Less(elems[i].0, tokens[j].0) {
          PrependStep(front, elems[i], SubSorted(elems[i + 1..], tokens[j..]));
          assert elems[..i + 1] == front + [elems[i]];
          i := i + 1;
        } else {
          return false;
        }
      }
      if j != |tokens| { return false; }
      assert tokens[j..] == [] && elems[..i] + elems[i..] == elems;
      return true;
    }
  }
}
