/** The liquidation contract as it runs: three buckets updated one after the other, and its coins. */
module BidContract {
  import opened FixedPoint
  import opened Tax
  import opened Addresses
  import opened BidBook

  lemma NothingSent(rate: nat, cap: nat)
    ensures DeductTax(0, rate, cap) == 0 && Outflow(0, rate, cap) == 0
  {
    OutflowWithinGross(0, rate, cap);
  }

  class Liquidation {
    var bids: map<Address, Bid>
    var byUser: set<(Address, Address)>
    var byCollateral: set<(Address, Address)>
    var balance: nat

    constructor ()
      ensures View() == EMPTY_BOOK
    {
      bids, byUser, byCollateral, balance := map[], {}, {}, 0;
    }

    function View(): Book
      reads this
    {
      Book(bids, byUser, byCollateral, balance)
    }

    twostate predicate Became(spec: Option<Book>, ok: bool)
      reads this
    {
      ok == spec.Some? && View() == if spec.Some? then spec.value else old(View())
    }

    method StoreBid(bidder: Address, token: Address, bid: Bid)
      modifies this
      ensures View() == BidBook.StoreBid(old(View()), bidder, token, bid)
    {
      bids := bids[bidder + token := bid];
      byUser := byUser + {(bidder, token)};
      byCollateral := byCollateral + {(token, bidder)};
    }

    method RemoveBid(bidder: Address, token: Address)
      modifies this
      ensures View() == BidBook.RemoveBid(old(View()), bidder, token)
    {
      bids := bids - {bidder + token};
      byUser := byUser - {(bidder, token)};
      byCollateral := byCollateral - {(token, bidder)};
    }

    // Removes a bid that is used up, or stores what is left of it.
    method Debit(bidder: Address, token: Address, bid: Bid, amount: nat)
      requires amount <= bid.amount
      modifies this
      ensures View() == BidBook.Debit(old(View()), bidder, token, bid, amount)
    {
      if amount == bid.amount {
        RemoveBid(bidder, token);
      } else {
        StoreBid(bidder, token, bid.(amount := bid.amount - amount));
      }
    }

    method SubmitBid(cfg: BidConfig, bidder: Address, token: Address, premiumRate: nat, sent: Option<nat>)
      returns (ok: bool)
      modifies this
      ensures Became(BidBook.SubmitBid(old(View()), cfg, bidder, token, premiumRate, sent), ok)
    {
      var standing := ReadBid(View(), bidder, token);
      if standing.Some? || cfg.maxPremiumRate < premiumRate || sent.None? { return false; }
      balance := balance + sent.value;
      StoreBid(bidder, token, Bid(sent.value, premiumRate));
      return true;
    }

    method RetractBid(cfg: BidConfig, bidder: Address, token: Address, requested: Option<nat>) returns (ok: bool)
      modifies this
      ensures Became(BidBook.RetractBid(old(View()), cfg, bidder, token, requested), ok)
    {
      var bid := ReadBid(View(), bidder, token);
      if bid.None? { return false; }
      var amount := if requested.Some? then requested.value else bid.value.amount;
      if amount > bid.value.amount { return false; }
      var out := Outflow(amount, cfg.taxRate, cfg.taxCap);
      if balance < out { return false; }
      Debit(bidder, token, bid.value, amount);
      balance := balance - out;
      return true;
    }

    method ExecuteBid(cfg: BidConfig, bidder: Address, token: Address, amount: nat, price: Option<nat>)
      returns (r: Option<Payout>)
      modifies this
      ensures var spec := BidBook.ExecuteBid(old(View()), cfg, bidder, token, amount, price);
              && r.Some? == spec.Some?
              && View() == (if spec.Some? then spec.value.book else old(View()))
              && (r.Some? ==> r.value == Payout(spec.value.repaid, spec.value.feePaid))
    {
      var bid := ReadBid(View(), bidder, token);
      if bid.None? || price.None? { return None; }
      var collateralValue := Mul(amount, price.value);
      var premium := Min(bid.value.premiumRate, cfg.maxPremiumRate);
      if F < premium { return None; }
      var required := Mul(collateralValue, F - premium);
      if required > bid.value.amount { return None; }
      var bidFee := Mul(required, cfg.bidFee);
      if required < bidFee { return None; }
      var repayAmount := required - bidFee;
      var out := Outflow(repayAmount, cfg.taxRate, cfg.taxCap);
      var sent := Payout(DeductTax(repayAmount, cfg.taxRate, cfg.taxCap), 0);
      if bidFee != 0 {
        out := out + Outflow(bidFee, cfg.taxRate, cfg.taxCap);
        sent := sent.(fee := DeductTax(bidFee, cfg.taxRate, cfg.taxCap));
      } else {
        NothingSent(cfg.taxRate, cfg.taxCap);
      }
      if balance < out { return None; }
      Debit(bidder, token, bid.value, required);
      balance := balance - out;
      return Some(sent);
    }
  }
}
