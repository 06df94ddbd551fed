/** Paged scans over a bucket: contracts/liquidation/src/state.rs, and the same code in the market,
    overseer and custody. */
module Paging {
  import opened FixedPoint
  import opened Addresses
  import opened BidBook

  const MAX_LIMIT: nat := 30
  const DEFAULT_LIMIT: nat := 10

  // A bucket is iterated in ascending key order.
  ghost predicate IsLeast(k: Address, keys: set<Address>) {
    k in keys && forall x :: x in keys ==> AtMost(k, x)
  }

  lemma {:induction false} LeastExists(keys: set<Address>) returns (k: Address)
    requires keys != {}
    ensures IsLeast(k, keys)
    decreases |keys|
  {
    var x :| x in keys;
    if keys - {x} == {} {
      k := x;
      assert forall y :: y in keys && y != x ==> y in keys - {x};
    } else {
      var m := LeastExists(keys - {x});
      LessTotal(x, m);
      k := if Less(x, m) then x else m;
      forall y | y in keys ensures AtMost(k, y) {
        if y != x {
          assert y in keys - {x};
          if k == x && m != y { LessTransitive(x, m, y); }
        }
      }
    }
  }

  ghost function Ascending(keys: set<Address>): seq<Address>
    decreases |keys|
  {
    if keys == {} then [] else
      var least := LeastKey(keys);
      [least] + Ascending(keys - {least})
  }

  ghost function LeastKey(keys: set<Address>): (k: Address)
    requires keys != {}
    ensures IsLeast(k, keys)
  {
    assert exists k :: IsLeast(k, keys) by { var k := LeastExists(keys); }
    var k :| IsLeast(k, keys); k
  }

  // The first key to look at: the last one seen with a byte 1 appended.
  function CalcRangeStart(startAfter: Option<Address>): Option<Address> {
    if startAfter.None? then None else Some(startAfter.value + [1])
  }

  ghost function RangeFrom(keys: set<Address>, start: Option<Address>): set<Address> {
    if start.None? then keys else set k | k in keys && AtMost(start.value, k)
  }

  function PageSize(limit: Option<nat>): nat {
    Min(if limit.Some? then limit.value else DEFAULT_LIMIT, MAX_LIMIT)
  }

  ghost function Page(keys: set<Address>, startAfter: Option<Address>, limit: Option<nat>): seq<Address> {
    var all := Ascending(RangeFrom(keys, CalcRangeStart(startAfter)));
    all[..Min(PageSize(limit), |all|)]
  }

  // ----- the order of a scan -----

  ghost predicate Sorted(s: seq<Address>) {
    forall i, j :: 0 <= i < j < |s| ==> Less(s[i], s[j])
  }

  /** A full scan lists every key exactly once, in ascending order. */
  lemma {:induction false} AscendingFacts(keys: set<Address>)
    ensures Sorted(Ascending(keys)) && |Ascending(keys)| == |keys|
    ensures forall k :: k in Ascending(keys) <==> k in keys
    decreases |keys|
  {
    if keys != {} {
      var least := LeastKey(keys);
      var rest := Ascending(keys - {least});
      AscendingFacts(keys - {least});
      forall j | 0 <= j < |rest| ensures Less(least, rest[j]) {
        assert rest[j] in keys - {least};
      }
    }
  }

  lemma {:induction false} SortedUnique(s: seq<Address>, t: seq<Address>)
    requires Sorted(s) && Sorted(t)
    requires forall k :: k in s <==> k in t
    ensures s == t
    decreases |s|
  {
    HeadIn(s);
    HeadIn(t);
    if s != [] {
      HeadsEqual(s, t);
      forall k ensures k in s[1..] <==> k in t[1..] {
        InTail(s, k);
        InTail(t, k);
      }
      SortedUnique(s[1..], t[1..]);
      assert s == [s[0]] + s[1..] && t == [t[0]] + t[1..];
    }
  }

  lemma HeadIn(s: seq<Address>)
    ensures s != [] ==> s[0] in s
  {
  }

  lemma HeadsEqual(s: seq<Address>, t: seq<Address>)
    requires Sorted(s) && Sorted(t) && s != [] && t != [] && s[0] in t && t[0] in s
    ensures s[0] == t[0]
  {
    var i :| 0 <= i < |t| && t[i] == s[0];
    var j :| 0 <= j < |s| && s[j] == t[0];
    if i > 0 && j > 0 { LessAsymmetric(s[0], s[j]); }
  }

  lemma InTail(s: seq<Address>, k: Address)
    requires Sorted(s) && s != []
    ensures k in s[1..] <==> k in s && k != s[0]
  {
    if k in s[1..] {
      var i :| 0 <= i < |s[1..]| && s[1..][i] == k;
      assert Less(s[0], s[i + 1]);
      LessIrreflexive(k);
    }
    assert s == [s[0]] + s[1..];
  }

  // ----- what the appended byte does -----

  predicate Extends(k: Address, a: Address) { |a| <= |k| && k[..|a|] == a }

  /** Starting at a ++ [1] skips a and everything below it, and also the extensions of a by a zero
      byte. */
  lemma {:induction false} RangeStartIs(a: Address, k: Address)
    ensures AtMost(a + [1], k) <==> Less(a, k) && !Extends(k, a + [0])
    decreases |a|
  {
    if a == [] {
      assert a + [1] == [1] && a + [0] == [0];
      if k != [] {
        assert k == [k[0]] + k[1..];
        assert Less([1], k) <==> 1 < k[0] || (k[0] == 1 && Less([], k[1..]));
        assert Extends(k, [0]) <==> k[0] == 0;
      }
    } else if k != [] {
      assert (a + [1])[1..] == a[1..] + [1] && (a + [0])[1..] == a[1..] + [0];
      assert k == [k[0]] + k[1..];
      RangeStartIs(a[1..], k[1..]);
      assert a + [1] == k <==> a[0] == k[0] && a[1..] + [1] == k[1..] by {
        assert a + [1] == [a[0]] + (a[1..] + [1]);
      }
      ExtendsHead(k, a + [0]);
      if a[0] == k[0] { ExtendsTail(k, a + [0]); }
    }
  }

  lemma ExtendsHead(k: Address, a: Address)
    requires a != [] && k != []
    ensures Extends(k, a) ==> k[0] == a[0]
  {
    if Extends(k, a) { assert k[..|a|][0] == k[0]; }
  }

  lemma ExtendsTail(k: Address, a: Address)
    requires k != [] && a != [] && k[0] == a[0]
    ensures Extends(k, a) <==> Extends(k[1..], a[1..])
  {
    if |a| <= |k| {
      assert k[..|a|] == [k[0]] + k[1..][..|a| - 1];
      assert a == [a[0]] + a[1..];
    }
  }

  lemma {:induction false} RangeStartFixedLength(a: Address, k: Address)
    requires |a| == |k|
    ensures AtMost(a + [1], k) <==> Less(a, k)
  {
    RangeStartIs(a, k);
  }

  /** With keys of different lengths an entry can be missed: [7, 0] after [7]. */
  lemma VariableLengthSkips()
    ensures Less([7], [7, 0]) && !AtMost([7] + [1], [7, 0])
  {
    RangeStartIs([7], [7, 0]);
    assert [7] + [0] == [7, 0];
  }

  // ----- paging through -----

  ghost predicate FixedLength(keys: set<Address>) { forall k :: k in keys ==> Valid(k) }

  ghost function After(keys: set<Address>, startAfter: Option<Address>): set<Address> {
    if startAfter.None? then keys else set k | k in keys && Less(startAfter.value, k)
  }

  lemma RangeIsAfter(keys: set<Address>, startAfter: Option<Address>)
    requires FixedLength(keys) && (startAfter.Some? ==> Valid(startAfter.value))
    ensures RangeFrom(keys, CalcRangeStart(startAfter)) == After(keys, startAfter)
  {
    if startAfter.Some? {
      forall k | k in keys ensures AtMost(startAfter.value + [1], k) <==> Less(startAfter.value, k) {
        RangeStartFixedLength(startAfter.value, k);
      }
    }
  }

  lemma PageIsPrefix(keys: set<Address>, startAfter: Option<Address>, limit: Option<nat>)
    requires FixedLength(keys) && (startAfter.Some? ==> Valid(startAfter.value))
    ensures var all := Ascending(After(keys, startAfter));
            Page(keys, startAfter, limit) == all[..Min(PageSize(limit), |all|)]
  {
    RangeIsAfter(keys, startAfter);
  }

  // The client's loop: ask again after the last key returned, until a page comes back empty.
  ghost function Pages(keys: set<Address>, startAfter: Option<Address>, limit: Option<nat>): seq<Address>
    requires FixedLength(keys) && (startAfter.Some? ==> Valid(startAfter.value))
    requires limit.Some? ==> limit.value >= 1
    decreases |After(keys, startAfter)|
  {
    var page := Page(keys, startAfter, limit);
    if page == [] then [] else
      PageAdvances(keys, startAfter, limit);
      page + Pages(keys, Some(page[|page| - 1]), limit)
  }

  lemma PageAdvances(keys: set<Address>, startAfter: Option<Address>, limit: Option<nat>)
    requires FixedLength(keys) && (startAfter.Some? ==> Valid(startAfter.value))
    requires Page(keys, startAfter, limit) != []
    ensures var page := Page(keys, startAfter, limit);
            var last := page[|page| - 1];
            && last in After(keys, startAfter) && Valid(last)
            && |After(keys, Some(last))| < |After(keys, startAfter)|
  {
    RangeIsAfter(keys, startAfter);
    var live := After(keys, startAfter);
    AscendingFacts(live);
    var page := Page(keys, startAfter, limit);
    var last := page[|page| - 1];
    assert last in Ascending(live);
    var next := After(keys, Some(last));
    LessIrreflexive(last);
    forall k | k in next ensures k in live {
      if startAfter.Some? { LessTransitive(startAfter.value, last, k); }
    }
    assert next <= live - {last};
    SubsetSize(next, live - {last});
  }

  // Everything after the last key of a page is the rest of the scan.
  lemma RestOfScan(live: set<Address>, n: nat)
    requires 0 < n <= |Ascending(live)|
    ensures Ascending(After(live, Some(Ascending(live)[n - 1]))) == Ascending(live)[n..]
  {
    var all := Ascending(live);
    var rest := After(live, Some(all[n - 1]));
    AscendingFacts(live);
    AscendingFacts(rest);
    forall k ensures k in Ascending(rest) <==> k in all[n..] {
      InSuffix(all, n, k);
    }
    SortedUnique(Ascending(rest), all[n..]);
  }

  lemma {:induction false} InSuffix(s: seq<Address>, n: nat, k: Address)
    requires Sorted(s) && 0 < n <= |s|
    ensures k in s[n..] <==> k in s && Less(s[n - 1], k)
  {
    if k in s[n..] {
      var i :| 0 <= i < |s[n..]| && s[n..][i] == k;
      assert s[n + i] == k;
    }
    if k in s && Less(s[n - 1], k) {
      var i :| 0 <= i < |s| && s[i] == k;
      LessIrreflexive(k);
      if i < n - 1 {
        LessAsymmetric(s[i], s[n - 1]);
      } else {
        assert i != n - 1;
        assert s[n..][i - n] == k;
      }
    }
  }

  // Beyond a key that was already beyond the start, the start no longer matters.
  lemma AfterLater(keys: set<Address>, startAfter: Option<Address>, last: Address)
    requires last in After(keys, startAfter)
    ensures After(keys, Some(last)) == After(After(keys, startAfter), Some(last))
  {
    forall k | k in keys && Less(last, k) ensures k in After(keys, startAfter) {
      if startAfter.Some? { LessTransitive(startAfter.value, last, k); }
    }
  }

  // A page, and the scan after its last key, make up the scan.
  lemma PageThenRest(keys: set<Address>, startAfter: Option<Address>, limit: Option<nat>)
    requires FixedLength(keys) && (startAfter.Some? ==> Valid(startAfter.value))
    ensures var page := Page(keys, startAfter, limit);
            page != [] ==> Ascending(After(keys, startAfter)) == page + Ascending(After(keys, Some(page[|page| - 1])))
  {
    PageIsPrefix(keys, startAfter, limit);
    var live := After(keys, startAfter);
    var all, page := Ascending(live), Page(keys, startAfter, limit);
    if page != [] {
      PageAdvances(keys, startAfter, limit);
      AfterLater(keys, startAfter, page[|page| - 1]);
      RestOfScan(live, |page|);
      assert all == all[..|page|] + all[|page|..];
    }
  }

  /** Paging with any limit of at least one ends, and visits exactly what one full scan after the
      starting key would, in the same order. */
  lemma {:induction false} PagingIsComplete(keys: set<Address>, startAfter: Option<Address>, limit: Option<nat>)
    requires FixedLength(keys) && (startAfter.Some? ==> Valid(startAfter.value))
    requires limit.Some? ==> limit.value >= 1
    ensures Pages(keys, startAfter, limit) == Ascending(After(keys, startAfter))
    decreases |After(keys, startAfter)|
  {
    var page := Page(keys, startAfter, limit);
    if page == [] {
      PageIsPrefix(keys, startAfter, limit);
    } else {
      PageAdvances(keys, startAfter, limit);
      PagingIsComplete(keys, Some(page[|page| - 1]), limit);
      PageThenRest(keys, startAfter, limit);
    }
  }

  /** A page holds everything that is left, unless that is more than the limit: 10 without one, and 30
      whatever is asked for. */
  lemma PageLength(keys: set<Address>, startAfter: Option<Address>, limit: Option<nat>)
    requires FixedLength(keys) && (startAfter.Some? ==> Valid(startAfter.value))
    ensures var left := |After(keys, startAfter)|;
            var most := if limit.None? then 10 else if limit.value > 30 then 30 else limit.value;
            |Page(keys, startAfter, limit)| == if left < most then left else most
  {
    PageIsPrefix(keys, startAfter, limit);
    AscendingFacts(After(keys, startAfter));
  }

  // ----- bids by user -----

  ghost function TokensOf(b: Book, user: Address): set<Address> {
    set p | p in b.byUser && p.0 == user :: p.1
  }

  ghost function BiddersOn(b: Book, token: Address): set<Address> {
    set p | p in b.byCollateral && p.0 == token :: p.1
  }

  /** In a good book neither scan ever meets a missing bid. */
  lemma ScansNeverMiss(b: Book, a: Address, startAfter: Option<Address>, limit: Option<nat>)
    requires IndexOk(b)
    ensures forall c :: c in Page(TokensOf(b, a), startAfter, limit) ==> ReadBid(b, a, c).Some?
    ensures forall u :: u in Page(BiddersOn(b, a), startAfter, limit) ==> ReadBid(b, u, a).Some?
  {
    var start := CalcRangeStart(startAfter);
    AscendingFacts(RangeFrom(TokensOf(b, a), start));
    AscendingFacts(RangeFrom(BiddersOn(b, a), start));
    forall c | c in Page(TokensOf(b, a), startAfter, limit) ensures ReadBid(b, a, c).Some? {
      assert c in Ascending(RangeFrom(TokensOf(b, a), start));
      assert (a, c) in b.byUser;
    }
    forall u | u in Page(BiddersOn(b, a), startAfter, limit) ensures ReadBid(b, u, a).Some? {
      assert u in Ascending(RangeFrom(BiddersOn(b, a), start));
      assert (a, u) in b.byCollateral;
      assert (u, a) in b.byUser;
    }
  }
}
