/** Rounding to four decimal places, ties to even, in exact decimal arithmetic. */
module Rounding {

  function RoundInt(x: real): int {
    var f := x.Floor;
    var d := x - f as real;
    if d < 0.5 then f
    else if d > 0.5 then f + 1
    else if f % 2 == 0 then f
    else f + 1
  }

  function Round4(x: real): real {
    RoundInt(x * 10000.0) as real / 10000.0
  }

  /** A way of rounding: it keeps order, does nothing twice, and errs by at most `delta`. */
  ghost predicate IsRounding(rnd: real -> real, delta: real) {
    && (forall x, y :: x <= y ==> rnd(x) <= rnd(y))
    && (forall x :: rnd(rnd(x)) == rnd(x))
    && (forall x :: x - delta <= rnd(x) <= x + delta)
  }

  lemma MulMonotone(a: real, b: real, c: real)
    requires a <= b && 0.0 <= c
    ensures a * c <= b * c
  {
  }

  lemma MulDistributes(a: real, b: real, c: real)
    ensures (a + b) * c == a * c + b * c
  {
  }

  lemma RoundIntNear(x: real)
    ensures x - 0.5 <= RoundInt(x) as real <= x + 0.5
  {
  }

  /** The nearest integer and, half way between two, the even one. */
  ghost predicate Nearest(n: int, x: real) {
    && x - 0.5 <= n as real <= x + 0.5
    && (n as real == x - 0.5 || n as real == x + 0.5 ==> n % 2 == 0)
  }

  lemma RoundIntMeaning(x: real, n: int)
    ensures RoundInt(x) == n <==> Nearest(n, x)
  {
    var f := x.Floor;
    if Nearest(n, x) {
      assert f as real <= x < f as real + 1.0;
      assert n == f || n == f + 1;
    }
  }

  /** Four decimal places: the nearest ten-thousandth and, half way between two, the even one. */
  lemma Round4Meaning(x: real, n: int)
    ensures Round4(x) == n as real / 10000.0 <==> Nearest(n, x * 10000.0)
  {
    hide RoundInt, Nearest;
    RoundIntMeaning(x * 10000.0, n);
  }

  lemma RoundIntMonotone(x: real, y: real)
    requires x <= y
    ensures RoundInt(x) <= RoundInt(y)
  {
    if x.Floor == y.Floor {
    } else {
      assert x.Floor < y.Floor;
    }
  }

  lemma RoundIntExact(n: int)
    ensures RoundInt(n as real) == n
  {
  }

  lemma Round4IsRounding()
    ensures IsRounding(Round4, 0.00005)
  {
    forall x, y | x <= y ensures Round4(x) <= Round4(y) {
      RoundIntMonotone(x * 10000.0, y * 10000.0);
    }
    forall x ensures Round4(Round4(x)) == Round4(x) {
      var n := RoundInt(x * 10000.0);
      assert Round4(x) * 10000.0 == n as real;
      RoundIntExact(n);
    }
    forall x ensures x - 0.00005 <= Round4(x) <= x + 0.00005 {
      RoundIntNear(x * 10000.0);
    }
  }
}
