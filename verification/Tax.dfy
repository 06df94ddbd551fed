/** Treasury tax: packages/moneymarket/src/querier.rs and the chain's own charge. */
module Tax {
  import opened FixedPoint

  function ComputeTax(amount: nat, rate: nat, cap: nat): (tax: nat)
    ensures tax <= amount
  {
    assert Mul(amount, F) == amount by { DivExact(amount, F); }
    NetBound(amount, rate);
    Min(Mul(amount, F) - Div(amount, F + rate).value, cap)
  }

  // What is left of `amount` for the recipient.
  function DeductTax(amount: nat, rate: nat, cap: nat): (net: nat)
    ensures net <= amount
  {
    amount - ComputeTax(amount, rate, cap)
  }

  // What the chain charges the sender on top of the coins it sends.
  function ChainTax(net: nat, rate: nat, cap: nat): nat {
    Min(Mul(net, rate), cap)
  }

  // Everything that leaves the sender's balance when it sends DeductTax(amount).
  function Outflow(amount: nat, rate: nat, cap: nat): nat {
    var net := DeductTax(amount, rate, cap);
    net + ChainTax(net, rate, cap)
  }

  lemma NetBound(amount: nat, rate: nat)
    ensures Div(amount, F + rate).value * (F + rate) <= amount * F
    ensures Div(amount, F + rate).value <= amount
  {
    DivFloor(amount, F + rate);
    var n := Div(amount, F + rate).value;
    assert amount * F <= amount * (F + rate);
    MulCancel(n, amount, F + rate);
  }

  // Sending the deducted amount never costs the sender more than the gross amount.
  lemma OutflowWithinGross(amount: nat, rate: nat, cap: nat)
    ensures Outflow(amount, rate, cap) <= amount
  {
    NetBound(amount, rate);
    DivExact(amount, F);
    var n := Div(amount, F + rate).value;
    var net := DeductTax(amount, rate, cap);
    if net == n {
      MulFloor(n, rate);
      assert (n + Mul(n, rate)) * F <= n * (F + rate) by {
        assert (n + Mul(n, rate)) * F == n * F + Mul(n, rate) * F;
      }
      MulCancel(n + Mul(n, rate), amount, F);
    }
  }

  // When the rate binds, the chain charges all but two units of what was deducted.
  lemma RateOutflow(amount: nat, rate: nat, n: nat)
    requires rate <= F && n * (F + rate) <= amount * F < n * (F + rate) + F + rate
    ensures n + Mul(n, rate) + 3 >= amount && n <= amount && Mul(n, rate) <= amount - n
  {
    MulFloor(n, rate);
    assert (n + Mul(n, rate)) * F <= amount * F < (n + Mul(n, rate) + 3) * F by {
      assert n * (F + rate) == n * F + n * rate;
      assert (n + Mul(n, rate) + 3) * F == n * F + Mul(n, rate) * F + 3 * F;
    }
    MulCancel(n + Mul(n, rate), amount, F);
    StrictCancel(amount, n + Mul(n, rate) + 3, F);
  }

  /** And it costs all of the gross amount but three units, at a tax rate of at most 1. */
  lemma OutflowNearGross(amount: nat, rate: nat, cap: nat)
    requires rate <= F
    ensures Outflow(amount, rate, cap) + 3 >= amount
  {
    NetBound(amount, rate);
    DivFloor(amount, F + rate);
    DivExact(amount, F);
    var n := Div(amount, F + rate).value;
    var net := DeductTax(amount, rate, cap);
    RateOutflow(amount, rate, n);
    if net != n {
      MulMono(n, net, rate);
      QuotientMono(n * rate, net * rate, F);
    }
  }

  lemma QuotientMono(a: nat, b: nat, c: nat)
    requires a <= b && c > 0
    ensures a / c <= b / c
  {
    Floor(a, c);
    QuotientAtLeast(b, c, a / c);
  }

  // The tax never exceeds the cap, and without a binding cap the recipient gets the full
  // amount / (1 + rate), short of one unit.
  lemma NetAtLeast(amount: nat, rate: nat, cap: nat)
    ensures DeductTax(amount, rate, cap) * (F + rate) + F + rate > amount * F
    ensures DeductTax(amount, rate, cap) + cap >= amount
  {
    NetBound(amount, rate);
    DivFloor(amount, F + rate);
    DivExact(amount, F);
    MulMono(Div(amount, F + rate).value, DeductTax(amount, rate, cap), F + rate);
  }
}
