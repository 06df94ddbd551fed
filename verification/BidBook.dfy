/** The liquidation contract's bids: contracts/liquidation/src/{state,bid}.rs. */
module BidBook {
  import opened FixedPoint
  import opened Tax
  import opened Addresses
  import opened Totals

  // Canonical addresses have a fixed length.
  const ADDRESS_LENGTH: nat := 20

  predicate Valid(a: Address) { |a| == ADDRESS_LENGTH }

  datatype Bid = Bid(amount: nat, premiumRate: nat)

  datatype BidConfig = BidConfig(bidFee: nat, maxPremiumRate: nat, taxRate: nat, taxCap: nat)

  /** The primary bucket under the concatenated key, the two index buckets (whose namespaces are
      length-prefixed, so they are keyed by pairs), and the contract's stablecoins. */
  datatype Book = Book(
    bids: map<Address, Bid>,
    byUser: set<(Address, Address)>,        // (bidder, token)
    byCollateral: set<(Address, Address)>,  // (token, bidder)
    balance: nat
  )

  const EMPTY_BOOK := Book(map[], {}, {}, 0)

  function Key(bidder: Address, token: Address): Address { bidder + token }

  // ----- storage -----

  function StoreBid(b: Book, bidder: Address, token: Address, bid: Bid): Book {
    b.(bids := b.bids[Key(bidder, token) := bid],
       byUser := b.byUser + {(bidder, token)},
       byCollateral := b.byCollateral + {(token, bidder)})
  }

  function RemoveBid(b: Book, bidder: Address, token: Address): Book {
    b.(bids := b.bids - {Key(bidder, token)},
       byUser := b.byUser - {(bidder, token)},
       byCollateral := b.byCollateral - {(token, bidder)})
  }

  function ReadBid(b: Book, bidder: Address, token: Address): Option<Bid> {
    if Key(bidder, token) in b.bids then Some(b.bids[Key(bidder, token)]) else None
  }

  // A spent bid is removed, a partly spent one keeps its premium.
  function Debit(b: Book, bidder: Address, token: Address, bid: Bid, amount: nat): Book
    requires amount <= bid.amount
  {
    if bid.amount == amount then RemoveBid(b, bidder, token)
    else StoreBid(b, bidder, token, bid.(amount := bid.amount - amount))
  }

  // ----- transactions -----

  function SubmitBid(b: Book, cfg: BidConfig, bidder: Address, token: Address, premiumRate: nat,
                     sent: Option<nat>): Option<Book>
  {
    if ReadBid(b, bidder, token).Some? || cfg.maxPremiumRate < premiumRate then None else
      var amount :- sent;
      Some(StoreBid(b, bidder, token, Bid(amount, premiumRate)).(balance := b.balance + amount))
  }

  function RetractBid(b: Book, cfg: BidConfig, bidder: Address, token: Address, requested: Option<nat>): Option<Book> {
    var bid :- ReadBid(b, bidder, token);
    var amount := if requested.Some? then requested.value else bid.amount;
    if amount > bid.amount then None else
      var left :- Sub(b.balance, Outflow(amount, cfg.taxRate, cfg.taxCap));
      Some(Debit(b, bidder, token, bid, amount).(balance := left))
  }

  function RequiredStable(cfg: BidConfig, premiumRate: nat, amount: nat, price: nat): Option<nat> {
    var discount :- Sub(F, Min(premiumRate, cfg.maxPremiumRate));
    Some(Mul(Mul(amount, price), discount))
  }

  // The coins a bid of `required` sends on: to the repay address and to the fee address.
  datatype Payout = Payout(repayment: nat, fee: nat)

  function SplitFee(cfg: BidConfig, required: nat): Option<Payout> {
    var fee := Mul(required, cfg.bidFee);
    var repayment :- Sub(required, fee);
    Some(Payout(repayment, fee))
  }

  datatype Executed = Executed(book: Book, repaid: nat, feePaid: nat)

  /** `price` is None when the oracle's price is missing or too old. */
  function ExecuteBid(b: Book, cfg: BidConfig, bidder: Address, token: Address, amount: nat,
                      price: Option<nat>): Option<Executed>
  {
    var bid :- ReadBid(b, bidder, token);
    var rate :- price;
    var required :- RequiredStable(cfg, bid.premiumRate, amount, rate);
    if required > bid.amount then None else
      var pay :- SplitFee(cfg, required);
      var spent := Outflow(pay.repayment, cfg.taxRate, cfg.taxCap) + Outflow(pay.fee, cfg.taxRate, cfg.taxCap);
      var left :- Sub(b.balance, spent);
      Some(Executed(Debit(b, bidder, token, bid, required).(balance := left),
                    DeductTax(pay.repayment, cfg.taxRate, cfg.taxCap), DeductTax(pay.fee, cfg.taxRate, cfg.taxCap)))
  }

  // ----- invariants -----

  /** A bid is stored exactly when both indices list it, and no other key is stored. */
  ghost predicate IndexOk(b: Book) {
    && (forall u, c :: (u, c) in b.byUser ==> Valid(u) && Valid(c))
    && (forall u, c :: (u, c) in b.byUser <==> (c, u) in b.byCollateral)
    && (forall u, c :: Valid(u) && Valid(c) ==> ((u, c) in b.byUser <==> Key(u, c) in b.bids))
    && (forall k :: k in b.bids ==> |k| == 2 * ADDRESS_LENGTH)
  }

  ghost function Amounts(m: map<Address, Bid>): map<Address, real> { map k | k in m :: m[k].amount as real }

  // The contract's coins cover all stored bids.
  ghost predicate Escrowed(b: Book) { Total(Amounts(b.bids)) <= b.balance as real }

  ghost predicate BookOk(b: Book) { IndexOk(b) && Escrowed(b) }

  /** The concatenated key never confuses two pairs of fixed-length addresses. */
  lemma KeyInjective(u: Address, c: Address, u': Address, c': Address)
    requires Valid(u) && Valid(u')
    requires Key(u, c) == Key(u', c')
    ensures u == u' && c == c'
  {
    assert Key(u, c)[..ADDRESS_LENGTH] == u && Key(u, c)[ADDRESS_LENGTH..] == c;
    assert Key(u', c')[..ADDRESS_LENGTH] == u' && Key(u', c')[ADDRESS_LENGTH..] == c';
  }

  // Every stored key is that of a listed pair.
  lemma NoOrphans(b: Book, k: Address)
    requires IndexOk(b) && k in b.bids
    ensures |k| == 2 * ADDRESS_LENGTH && (k[..ADDRESS_LENGTH], k[ADDRESS_LENGTH..]) in b.byUser
  {
    assert k == Key(k[..ADDRESS_LENGTH], k[ADDRESS_LENGTH..]);
  }

  /** Without fixed lengths two pairs can share a key. */
  lemma KeyNeedsFixedLength()
    ensures Key([1], [2, 3]) == Key([1, 2], [3])
  {
  }

  /** In a good book the three buckets answer alike. */
  lemma BucketsAgree(b: Book, u: Address, c: Address)
    requires IndexOk(b) && Valid(u) && Valid(c)
    ensures ReadBid(b, u, c).Some? <==> (u, c) in b.byUser
    ensures ReadBid(b, u, c).Some? <==> (c, u) in b.byCollateral
  {
  }

  lemma KeysDiffer(u: Address, c: Address)
    requires Valid(u) && Valid(c)
    ensures forall u', c' :: Valid(u') && Valid(c') && Key(u', c') == Key(u, c) ==> u' == u && c' == c
  {
    forall u', c' | Valid(u') && Valid(c') && Key(u', c') == Key(u, c) ensures u' == u && c' == c {
      KeyInjective(u', c', u, c);
    }
  }

  lemma StoreKeepsIndex(b: Book, u: Address, c: Address, bid: Bid)
    requires IndexOk(b) && Valid(u) && Valid(c)
    ensures IndexOk(StoreBid(b, u, c, bid))
  {
    KeysDiffer(u, c);
  }

  lemma RemoveKeepsIndex(b: Book, u: Address, c: Address)
    requires IndexOk(b) && Valid(u) && Valid(c)
    ensures IndexOk(RemoveBid(b, u, c))
  {
    KeysDiffer(u, c);
  }

  lemma DebitFacts(b: Book, u: Address, c: Address, bid: Bid, amount: nat)
    requires IndexOk(b) && Valid(u) && Valid(c)
    requires ReadBid(b, u, c) == Some(bid) && amount <= bid.amount
    ensures IndexOk(Debit(b, u, c, bid, amount))
    ensures Total(Amounts(Debit(b, u, c, bid, amount).bids)) == Total(Amounts(b.bids)) - amount as real
  {
    StoreKeepsIndex(b, u, c, bid.(amount := bid.amount - amount));
    RemoveKeepsIndex(b, u, c);
    var k := Key(u, c);
    if bid.amount == amount {
      assert Amounts(b.bids - {k}) == Amounts(b.bids) - {k};
      TotalDelete(Amounts(b.bids), k);
    } else {
      var left := bid.(amount := bid.amount - amount);
      assert Amounts(b.bids[k := left]) == Amounts(b.bids)[k := left.amount as real];
      TotalUpdate(Amounts(b.bids), k, left.amount as real);
    }
  }

  lemma BalanceCoversBid(b: Book, k: Address)
    requires Escrowed(b) && k in b.bids
    ensures b.bids[k].amount <= b.balance
  {
    TotalCovers(Amounts(b.bids), k);
    assert Amounts(b.bids)[k] == b.bids[k].amount as real;
  }

  // ----- each transaction -----

  /** A submission fails exactly on a standing bid, a premium above the maximum, or no coins. */
  lemma SubmitSafe(b: Book, cfg: BidConfig, u: Address, c: Address, premiumRate: nat, sent: Option<nat>)
    requires BookOk(b) && Valid(u) && Valid(c)
    ensures SubmitBid(b, cfg, u, c, premiumRate, sent).Some? <==>
            (u, c) !in b.byUser && premiumRate <= cfg.maxPremiumRate && sent.Some?
    ensures SubmitBid(b, cfg, u, c, premiumRate, sent).Some? ==>
              BookOk(SubmitBid(b, cfg, u, c, premiumRate, sent).value)
  {
    BucketsAgree(b, u, c);
    if (u, c) !in b.byUser && sent.Some? {
      var bid := Bid(sent.value, premiumRate);
      StoreKeepsIndex(b, u, c, bid);
      assert Amounts(b.bids[Key(u, c) := bid]) == Amounts(b.bids)[Key(u, c) := bid.amount as real];
      TotalUpdate(Amounts(b.bids), Key(u, c), bid.amount as real);
    }
  }

  /** A retraction fails exactly without a bid or beyond it; the coins it needs are always there. */
  lemma RetractSafe(b: Book, cfg: BidConfig, u: Address, c: Address, requested: Option<nat>)
    requires BookOk(b) && Valid(u) && Valid(c)
    ensures RetractBid(b, cfg, u, c, requested).Some? <==>
            (u, c) in b.byUser && (requested.Some? ==> requested.value <= ReadBid(b, u, c).value.amount)
    ensures RetractBid(b, cfg, u, c, requested).Some? ==>
              BookOk(RetractBid(b, cfg, u, c, requested).value)
  {
    BucketsAgree(b, u, c);
    var bid := ReadBid(b, u, c);
    if bid.Some? {
      var amount := if requested.Some? then requested.value else bid.value.amount;
      OutflowWithinGross(amount, cfg.taxRate, cfg.taxCap);
      BalanceCoversBid(b, Key(u, c));
      if amount <= bid.value.amount {
        DebitFacts(b, u, c, bid.value, amount);
      }
    }
  }

  lemma FeeWithin(cfg: BidConfig, required: nat)
    requires cfg.bidFee <= F
    ensures SplitFee(cfg, required).Some?
    ensures var p := SplitFee(cfg, required).value; p.repayment + p.fee == required
  {
    PartOf(required, cfg.bidFee);
  }

  /** An execution fails exactly without a bid, without a fresh price, or when the bid is too small;
      the amount taken off the bid splits exactly into repayment and fee, and covers what is sent
      together with the tax on it. */
  lemma ExecuteSafe(b: Book, cfg: BidConfig, u: Address, c: Address, amount: nat, price: Option<nat>)
    requires BookOk(b) && Valid(u) && Valid(c)
    requires cfg.bidFee <= F && cfg.maxPremiumRate <= F
    ensures ExecuteBid(b, cfg, u, c, amount, price).Some? <==>
            (u, c) in b.byUser && price.Some?
            && var bid := ReadBid(b, u, c).value;
               RequiredStable(cfg, bid.premiumRate, amount, price.value).value <= bid.amount
    ensures ExecuteBid(b, cfg, u, c, amount, price).Some? ==>
              var r := ExecuteBid(b, cfg, u, c, amount, price).value;
              var bid := ReadBid(b, u, c).value;
              var required := RequiredStable(cfg, bid.premiumRate, amount, price.value).value;
              && BookOk(r.book)
              && Total(Amounts(r.book.bids)) == Total(Amounts(b.bids)) - required as real
              && r.repaid + ChainTax(r.repaid, cfg.taxRate, cfg.taxCap)
                 + r.feePaid + ChainTax(r.feePaid, cfg.taxRate, cfg.taxCap) <= required
  {
    BucketsAgree(b, u, c);
    var bid := ReadBid(b, u, c);
    if bid.Some? && price.Some? {
      var required := RequiredStable(cfg, bid.value.premiumRate, amount, price.value).value;
      FeeWithin(cfg, required);
      var p := SplitFee(cfg, required).value;
      OutflowWithinGross(p.repayment, cfg.taxRate, cfg.taxCap);
      OutflowWithinGross(p.fee, cfg.taxRate, cfg.taxCap);
      BalanceCoversBid(b, Key(u, c));
      if required <= bid.value.amount {
        DebitFacts(b, u, c, bid.value, required);
      }
    }
  }

  // ----- runs -----

  datatype BidTx =
    | Submit(cfg: BidConfig, bidder: Address, token: Address, premiumRate: nat, sent: Option<nat>)
    | Retract(cfg: BidConfig, bidder: Address, token: Address, requested: Option<nat>)
    | Execute(cfg: BidConfig, bidder: Address, token: Address, amount: nat, price: Option<nat>)
    | Send(amount: nat)

  // Only valid addresses reach a handler.
  function Apply(b: Book, tx: BidTx): Option<Book> {
    if !tx.Send? && !(Valid(tx.bidder) && Valid(tx.token)) then None else
      match tx
      case Submit(cfg, u, c, premium, sent) => SubmitBid(b, cfg, u, c, premium, sent)
      case Retract(cfg, u, c, requested) => RetractBid(b, cfg, u, c, requested)
      case Execute(cfg, u, c, amount, price) =>
        var r :- ExecuteBid(b, cfg, u, c, amount, price);
        Some(r.book)
      case Send(amount) => Some(b.(balance := b.balance + amount))
  }

  function Run(b: Book, txs: seq<BidTx>): Book
    decreases |txs|
  {
    if txs == [] then b else
      var r := Apply(b, txs[0]);
      Run(if r.Some? then r.value else b, txs[1..])
  }

  lemma ExecuteKeepsBook(b: Book, cfg: BidConfig, u: Address, c: Address, amount: nat, price: Option<nat>)
    requires BookOk(b) && Valid(u) && Valid(c) && ExecuteBid(b, cfg, u, c, amount, price).Some?
    ensures BookOk(ExecuteBid(b, cfg, u, c, amount, price).value.book)
  {
    var bid := ReadBid(b, u, c).value;
    var required := RequiredStable(cfg, bid.premiumRate, amount, price.value).value;
    var p := SplitFee(cfg, required).value;
    OutflowWithinGross(p.repayment, cfg.taxRate, cfg.taxCap);
    OutflowWithinGross(p.fee, cfg.taxRate, cfg.taxCap);
    DebitFacts(b, u, c, bid, required);
  }

  /** Agreement of the buckets and solvency of the escrow, over any run and any configuration. */
  lemma {:induction false} RunKeepsBook(b: Book, txs: seq<BidTx>)
    requires BookOk(b)
    ensures BookOk(Run(b, txs))
    decreases |txs|
  {
    if txs != [] {
      var r := Apply(b, txs[0]);
      if r.Some? {
        match txs[0]
        case Submit(cfg, u, c, premium, sent) => SubmitSafe(b, cfg, u, c, premium, sent);
        case Retract(cfg, u, c, requested) => RetractSafe(b, cfg, u, c, requested);
        case Execute(cfg, u, c, amount, price) => ExecuteKeepsBook(b, cfg, u, c, amount, price);
        case Send(_) =>
      }
      RunKeepsBook(if r.Some? then r.value else b, txs[1..]);
    }
  }

  /** In every reachable state a bid exists under a pair of addresses exactly when each index lists
      that pair, no other key is stored, and the coins cover all bids. */
  lemma {:induction false} ReachableBook(txs: seq<BidTx>)
    ensures var b := Run(EMPTY_BOOK, txs);
            && (forall u, c :: Valid(u) && Valid(c) ==> (ReadBid(b, u, c).Some? <==> (u, c) in b.byUser))
            && (forall u, c :: Valid(u) && Valid(c) ==> (ReadBid(b, u, c).Some? <==> (c, u) in b.byCollateral))
            && (forall k :: k in b.bids ==>
                  |k| == 2 * ADDRESS_LENGTH && (k[..ADDRESS_LENGTH], k[ADDRESS_LENGTH..]) in b.byUser)
            && Total(Amounts(b.bids)) <= b.balance as real
  {
    assert Amounts(EMPTY_BOOK.bids) == map[];
    RunKeepsBook(EMPTY_BOOK, txs);
    var b := Run(EMPTY_BOOK, txs);
    forall k | k in b.bids
      ensures |k| == 2 * ADDRESS_LENGTH && (k[..ADDRESS_LENGTH], k[ADDRESS_LENGTH..]) in b.byUser
    {
      NoOrphans(b, k);
    }
  }
}
