/** Amounts are integer kopecks, so "round to 2 places" becomes rounding a
    quotient of integers to a whole number of kopecks. Python's `round`
    rounds half to even. */
module Money {

  function Abs(x: int): (r: nat)
    ensures r == x || r == -x
  {
    if x < 0 then -x else x
  }

  /** `n / d` rounded to the nearest integer, ties to the even neighbour. */
  function RoundHalfEven(n: nat, d: nat): (r: nat)
    requires d > 0
    ensures 2 * Abs(r * d - n) <= d
    ensures 2 * Abs(r * d - n) == d ==> r % 2 == 0
  {
    var q, rem := n / d, n % d;
    assert n == q * d + rem;
    assert (q + 1) * d == q * d + d;
    if 2 * rem < d then q
    else if 2 * rem > d then q + 1
    else if q % 2 == 0 then q
    else q + 1
  }

  /** `x * d` moves with `x`, a step of `d` at a time. */
  lemma MulStep(e: int, d: nat)
    ensures e >= 2 ==> e * d >= 2 * d
    ensures e <= -1 ==> e * d + d <= 0
  {
    if e >= 2 {
      assert e * d == (e - 2) * d + 2 * d;
      assert (e - 2) * d >= 0;
    } else if e <= -1 {
      assert e * d == (e + 1) * d - d;
      assert (-(e + 1)) * d >= 0;
      assert (e + 1) * d == -((-(e + 1)) * d);
    }
  }

  /** The two properties of `RoundHalfEven` determine its result: any
      integer closest to `n / d`, even on a tie, is that result. */
  lemma RoundHalfEvenUnique(n: nat, d: nat, x: int)
    requires d > 0
    requires 2 * Abs(x * d - n) <= d
    requires 2 * Abs(x * d - n) == d ==> x % 2 == 0
    ensures x == RoundHalfEven(n, d)
  {
    var q, rem := n / d, n % d;
    assert n == q * d + rem;
    var e := x - q;
    assert x * d - n == e * d - rem by {
      assert x * d == e * d + q * d;
    }
    MulStep(e, d);
    assert e == 0 || e == 1;
    if e == 1 {
      assert x * d - n == d - rem;
    }
  }

  /** With `d >= 2` rounding never exceeds the amount itself, so cashback
      is at most the spend. */
  lemma RoundHalfEvenAtMost(n: nat, d: nat)
    requires d >= 2
    ensures RoundHalfEven(n, d) <= n
  {
    var q, rem := n / d, n % d;
    assert n == q * d + rem;
    MulStep(d - 1, q);
    assert q * d == q + (d - 1) * q;
    if q == 0 {
      assert n == rem;
    } else {
      assert (d - 1) * q >= q;
    }
  }

  /** A quotient of at least one rounds to at least one. */
  lemma RoundHalfEvenPositive(n: nat, d: nat)
    requires 0 < d <= n
    ensures RoundHalfEven(n, d) >= 1
  {
  }
}
