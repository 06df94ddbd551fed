/** Fixed-point arithmetic of the contracts.

    A `Decimal256` is its raw integer, scaled by F = 10^18; a `Uint256` is a plain natural number.
    Widths are not modelled (see README). Every product and quotient of the two types floors:
    Decimal * Decimal, Uint * Decimal and Decimal * Uint are `Mul`, Decimal / Decimal and
    Uint / Decimal are `Div`. A subtraction that would go below zero, or a division by zero,
    panics in the source and so reverts the whole transaction: both are an `Option` here. */
module FixedPoint {

  const F: nat := 1_000_000_000_000_000_000

  datatype Option<+T> = None | Some(value: T) {
    predicate IsFailure() { None? }
    function PropagateFailure<U>(): Option<U> requires None? { None }
    function Extract(): T requires Some? { value }
  }

  // Decimal256::from_uint256
  function Dec(n: nat): nat { n * F }

  function Mul(a: nat, b: nat): nat { a * b / F }

  function Div(a: nat, b: nat): Option<nat> { if b == 0 then None else Some(a * F / b) }

  function Sub(a: nat, b: nat): Option<nat> { if b <= a then Some(a - b) else None }

  function Min(a: nat, b: nat): nat { if a <= b then a else b }

  // ----- flooring -----

  lemma Floor(a: nat, b: nat)
    requires b > 0
    ensures a / b * b <= a < a / b * b + b
  {
  }

  lemma MulFloor(a: nat, b: nat)
    ensures Mul(a, b) * F <= a * b < Mul(a, b) * F + F
  {
    Floor(a * b, F);
  }

  lemma DivFloor(a: nat, b: nat)
    requires b > 0
    ensures Div(a, b).Some?
    ensures Div(a, b).value * b <= a * F < Div(a, b).value * b + b
  {
    Floor(a * F, b);
  }

  // A quotient is at least q exactly when the dividend holds q divisors.
  lemma QuotientAtLeast(a: nat, b: nat, q: nat)
    requires b > 0
    ensures a / b >= q <==> a >= q * b
  {
    Floor(a, b);
    if a / b >= q {
      MulMono(q, a / b, b);
    } else {
      MulMono(a / b + 1, q, b);
    }
  }

  lemma MulMono(a: nat, b: nat, c: nat)
    requires a <= b
    ensures a * c <= b * c
  {
  }

  lemma Rotate(a: int, b: int, c: int)
    ensures a * b * c == a * c * b == b * c * a == a * (b * c)
  {
  }

  lemma Distribute(a: int, b: int, c: int)
    ensures a * (b + c) == a * b + a * c
  {
  }

  lemma MulCancel(a: nat, b: nat, c: nat)
    requires c > 0
    requires a * c <= b * c
    ensures a <= b
  {
  }

  lemma StrictCancel(a: nat, b: nat, c: nat)
    requires a * c < b * c
    ensures a < b
  {
  }

  lemma DivExact(a: nat, b: nat)
    requires b > 0
    ensures a * b / b == a
  {
    QuotientUnique(a * b, b, a);
  }

  // A part of at most the whole.
  lemma PartOf(amount: nat, factor: nat)
    requires factor <= F
    ensures Mul(amount, factor) <= amount
  {
    MulMono(factor, F, amount);
    MulFloor(amount, factor);
    MulCancel(Mul(amount, factor), amount, F);
  }

  lemma MulDecLeft(n: nat, d: nat)
    ensures Mul(Dec(n), d) == n * d
  {
    assert Dec(n) * d == n * d * F;
    DivExact(n * d, F);
  }

  lemma DivByDec(a: nat, n: nat)
    requires n > 0
    ensures Div(a, Dec(n)) == Some(a / n)
  {
    DivCancel(a, n, F);
  }

  lemma DivCancel(a: nat, n: nat, c: nat)
    requires n > 0 && c > 0
    ensures n * c > 0 && a * c / (n * c) == a / n
  {
    var q := a / n;
    Floor(a, n);
    assert n * c > 0;
    MulMono(q * n, a, c);
    assert q * (n * c) == q * n * c;
    MulMono(a + 1, q * n + n, c);
    assert (q * n + n) * c == q * (n * c) + n * c;
    QuotientUnique(a * c, n * c, q);
  }

  lemma QuotientUnique(a: nat, b: nat, q: nat)
    requires b > 0
    requires q * b <= a < q * b + b
    ensures a / b == q
  {
    QuotientAtLeast(a, b, q);
    QuotientAtLeast(a, b, q + 1);
    assert (q + 1) * b == q * b + b;
  }

  // Two products in a row lose less than two units.
  lemma TwoFloors(a: nat, p: nat, d: nat)
    requires d <= F
    ensures Mul(Mul(a, p), d) * F * F <= a * p * d < (Mul(Mul(a, p), d) + 2) * F * F
  {
    var v := Mul(a, p);
    var r := Mul(v, d);
    MulFloor(a, p);
    MulFloor(v, d);
    MulMono(v * F, a * p, d);
    MulMono(a * p, v * F + F, d);
    Rotate(v, F, d);
    MulMono(r * F, v * d, F);
    MulMono(v * d + 1, r * F + F, F);
    MulMono(d, F, F);
    assert (r + 2) * F * F == (r * F + F) * F + F * F;
    assert (v * F + F) * d == v * F * d + F * d;
    assert (v * d + 1) * F == v * d * F + F;
  }
}
