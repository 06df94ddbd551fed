/** What each bid transaction stores, takes and pays, from both sides, and what it leaves alone. */
module BidEffects {
  import opened FixedPoint
  import opened Tax
  import opened Addresses
  import opened BidBook

  // No other pair's bid has changed.
  ghost predicate OtherBidsKept(b: Book, t: Book, u: Address, c: Address) {
    forall u', c' :: Valid(u') && Valid(c') && (u', c') != (u, c) ==> ReadBid(t, u', c') == ReadBid(b, u', c')
  }

  // What a bid becomes when `spent` of it is gone.
  function LeftOf(bid: Bid, spent: nat): Option<Bid>
    requires spent <= bid.amount
  {
    if spent == bid.amount then None else Some(bid.(amount := bid.amount - spent))
  }

  lemma StoreEffect(b: Book, u: Address, c: Address, bid: Bid)
    requires Valid(u) && Valid(c)
    ensures ReadBid(StoreBid(b, u, c, bid), u, c) == Some(bid)
    ensures OtherBidsKept(b, StoreBid(b, u, c, bid), u, c)
  {
    KeysDiffer(u, c);
  }

  lemma RemoveEffect(b: Book, u: Address, c: Address)
    requires Valid(u) && Valid(c)
    ensures ReadBid(RemoveBid(b, u, c), u, c) == None
    ensures OtherBidsKept(b, RemoveBid(b, u, c), u, c)
  {
    KeysDiffer(u, c);
  }

  lemma DebitEffect(b: Book, u: Address, c: Address, bid: Bid, amount: nat)
    requires Valid(u) && Valid(c) && amount <= bid.amount
    ensures ReadBid(Debit(b, u, c, bid, amount), u, c) == LeftOf(bid, amount)
    ensures OtherBidsKept(b, Debit(b, u, c, bid, amount), u, c)
  {
    RemoveEffect(b, u, c);
    StoreEffect(b, u, c, bid.(amount := bid.amount - amount));
  }

  /** A submission stores the coins sent and the premium asked for, and keeps the coins. */
  lemma SubmitEffect(b: Book, cfg: BidConfig, u: Address, c: Address, premiumRate: nat, sent: Option<nat>)
    requires Valid(u) && Valid(c) && SubmitBid(b, cfg, u, c, premiumRate, sent).Some?
    ensures sent.Some? && premiumRate <= cfg.maxPremiumRate
    ensures var t := SubmitBid(b, cfg, u, c, premiumRate, sent).value;
            && ReadBid(t, u, c) == Some(Bid(sent.value, premiumRate))
            && OtherBidsKept(b, t, u, c) && t.balance == b.balance + sent.value
  {
    StoreEffect(b, u, c, Bid(sent.value, premiumRate));
  }

  /** A retraction takes the amount asked for off the bid, or all of it, and sends it back less its tax:
      within three units of that amount. */
  lemma RetractEffect(b: Book, cfg: BidConfig, u: Address, c: Address, requested: Option<nat>)
    requires Valid(u) && Valid(c) && RetractBid(b, cfg, u, c, requested).Some?
    ensures ReadBid(b, u, c).Some?
    ensures var t := RetractBid(b, cfg, u, c, requested).value;
            var bid := ReadBid(b, u, c).value;
            var amount := if requested.Some? then requested.value else bid.amount;
            && amount <= bid.amount && ReadBid(t, u, c) == LeftOf(bid, amount) && OtherBidsKept(b, t, u, c)
            && t.balance == b.balance - Outflow(amount, cfg.taxRate, cfg.taxCap)
            && Outflow(amount, cfg.taxRate, cfg.taxCap) <= amount
            && (cfg.taxRate <= F ==> amount <= Outflow(amount, cfg.taxRate, cfg.taxCap) + 3)
  {
    var bid := ReadBid(b, u, c).value;
    var amount := if requested.Some? then requested.value else bid.amount;
    DebitEffect(b, u, c, bid, amount);
    OutflowWithinGross(amount, cfg.taxRate, cfg.taxCap);
    if cfg.taxRate <= F { OutflowNearGross(amount, cfg.taxRate, cfg.taxCap); }
  }

  // The part of its worth that collateral is sold for.
  function Discount(cfg: BidConfig, premiumRate: nat): int {
    F - if premiumRate <= cfg.maxPremiumRate then premiumRate else cfg.maxPremiumRate
  }

  /** The price of some collateral: amount * price * (1 - premium), with the premium capped at the
      maximum, short of less than two coins. */
  lemma RequiredBounds(cfg: BidConfig, premiumRate: nat, amount: nat, price: nat)
    requires cfg.maxPremiumRate <= F
    ensures RequiredStable(cfg, premiumRate, amount, price).Some?
    ensures var required := RequiredStable(cfg, premiumRate, amount, price).value;
            required * F * F <= amount * price * Discount(cfg, premiumRate) < (required + 2) * F * F
  {
    var d: nat := Discount(cfg, premiumRate);
    assert RequiredStable(cfg, premiumRate, amount, price) == Some(Mul(Mul(amount, price), d));
    TwoFloors(amount, price, d);
  }

  /** An execution takes the price of the collateral off the bid, keeps its premium, and pays it out as
      a fee at the fee rate, short of less than one coin, and the rest, each less its tax. */
  lemma ExecuteEffect(b: Book, cfg: BidConfig, u: Address, c: Address, amount: nat, price: nat)
    returns (bid: Bid, required: nat, fee: nat)
    requires Valid(u) && Valid(c) && ExecuteBid(b, cfg, u, c, amount, Some(price)).Some?
    ensures ReadBid(b, u, c) == Some(bid) && RequiredStable(cfg, bid.premiumRate, amount, price) == Some(required)
    ensures required <= bid.amount && fee * F <= required * cfg.bidFee < fee * F + F && fee <= required
    ensures var t := ExecuteBid(b, cfg, u, c, amount, Some(price)).value;
            && ReadBid(t.book, u, c) == LeftOf(bid, required) && OtherBidsKept(b, t.book, u, c)
            && t.repaid == DeductTax(required - fee, cfg.taxRate, cfg.taxCap)
            && t.feePaid == DeductTax(fee, cfg.taxRate, cfg.taxCap)
            && t.book.balance == b.balance - Outflow(required - fee, cfg.taxRate, cfg.taxCap)
                                           - Outflow(fee, cfg.taxRate, cfg.taxCap)
  {
    bid := ReadBid(b, u, c).value;
    required := RequiredStable(cfg, bid.premiumRate, amount, price).value;
    fee := Mul(required, cfg.bidFee);
    MulFloor(required, cfg.bidFee);
    DebitEffect(b, u, c, bid, required);
  }
}
