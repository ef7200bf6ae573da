/**
 The availability percentage of one domain: `round(100 * up / total)`, where
 `round` rounds half to even. The quotient is computed exactly, on integers,
 instead of through a floating-point division.
 */
module Availability {

  function Abs(x: int): nat
  {
    if x < 0 then -x else x
  }

  /** A nearest integer to `num / den`: no integer is closer. */
  ghost predicate IsNearest(num: nat, den: nat, n: int)
    requires den > 0
  {
    2 * Abs(num - n * den) <= den
  }

  /** Rounds the exact quotient `num / den` to the nearest integer; a quotient
      exactly halfway between two integers goes to the even one. The result
      is the quotient rounded down or up, and a whole quotient is kept. */
  function RoundHalfEven(num: nat, den: nat): (n: nat)
    requires den > 0
    ensures num / den <= n <= num / den + 1
    ensures num % den == 0 ==> n == num / den
  {
    var q := num / den;
    var rem := num % den;
    if 2 * rem < den then q
    else if 2 * rem > den then q + 1
    else if q % 2 == 0 then q
    else q + 1
  }

  /** RoundHalfEven gives a nearest integer to the quotient, and the even
      one of the two when the quotient lies exactly halfway. */
  lemma RoundHalfEvenIsNearest(num: nat, den: nat)
    requires den > 0
    ensures IsNearest(num, den, RoundHalfEven(num, den))
    ensures 2 * Abs(num - RoundHalfEven(num, den) * den) == den ==> RoundHalfEven(num, den) % 2 == 0
  {
    var q := num / den;
    var rem := num % den;
    assert num - q * den == rem;
    assert num - (q + 1) * den == rem - den;
  }

  /** Multiplication by `den` distributes over a difference, and a factor
      of at least 2 gives at least `2 * den`. */
  lemma ScaledDifference(n: int, r: int, den: nat)
    ensures (n - r) * den == n * den - r * den
    ensures n - r >= 2 ==> n * den - r * den >= 2 * den
    ensures n - r == 1 ==> n * den - r * den == den
  {
  }

  /** The two properties of RoundHalfEven determine its result: nearest, and
      even on a tie. */
  lemma NearestEvenIsUnique(num: nat, den: nat, n: int)
    requires den > 0
    requires IsNearest(num, den, n)
    requires 2 * Abs(num - n * den) == den ==> n % 2 == 0
    ensures n == RoundHalfEven(num, den)
  {
    var r := RoundHalfEven(num, den);
    RoundHalfEvenIsNearest(num, den);
    ScaledDifference(n, r, den);
    ScaledDifference(r, n, den);
    NeighboursCloseToNum(num, den, n * den, r * den, n, r);
  }

  /** Linear core of NearestEvenIsUnique, stated over the products `nd` and
      `rd` taken as plain numbers. */
  lemma NeighboursCloseToNum(num: int, den: int, nd: int, rd: int, n: int, r: int)
    requires den > 0
    requires 2 * Abs(num - nd) <= den && 2 * Abs(num - rd) <= den
    requires 2 * Abs(num - nd) == den ==> n % 2 == 0
    requires 2 * Abs(num - rd) == den ==> r % 2 == 0
    requires n - r >= 2 ==> nd - rd >= 2 * den
    requires r - n >= 2 ==> rd - nd >= 2 * den
    requires n - r == 1 ==> nd - rd == den
    requires r - n == 1 ==> rd - nd == den
    ensures n == r
  {
  }

  /** `round(100 * up / total)` with round-half-to-even: the quotient
      rounded down or up, and unchanged when it is a whole number. Which of
      the two neighbours is taken is stated by `PercentIsNearest`. */
  function Percent(up: nat, total: nat): (p: nat)
    requires total > 0
    ensures 100 * up / total <= p <= 100 * up / total + 1
    ensures (100 * up) % total == 0 ==> p == 100 * up / total
    ensures up == 0 ==> p == 0
  {
    RoundHalfEven(100 * up, total)
  }

  /** The percentage is a nearest integer to `100 * up / total`, the even
      one on a tie. */
  lemma PercentIsNearest(up: nat, total: nat)
    requires total > 0
    ensures IsNearest(100 * up, total, Percent(up, total))
    ensures 2 * Abs(100 * up - Percent(up, total) * total) == total ==> Percent(up, total) % 2 == 0
  {
    RoundHalfEvenIsNearest(100 * up, total);
  }

  /** Multiplying by a natural number keeps the order. */
  lemma ScaleMonotone(a: int, b: int, c: nat)
    requires a <= b
    ensures a * c <= b * c
    ensures (a + 1) * c == a * c + c
  {
  }

  /** A percentage of a part of the whole is an integer between 0 and 100. */
  lemma PercentBounds(up: nat, total: nat)
    requires 0 < total && up <= total
    ensures 0 <= Percent(up, total) <= 100
  {
    var p := Percent(up, total);
    PercentIsNearest(up, total);
    if p > 100 {
      ScaleMonotone(101, p, total);
    }
  }

  /** More successes never lower the percentage. */
  lemma PercentMonotonic(up1: nat, up2: nat, total: nat)
    requires 0 < total && up1 <= up2
    ensures Percent(up1, total) <= Percent(up2, total)
  {
    var p1, p2 := Percent(up1, total), Percent(up2, total);
    PercentIsNearest(up1, total);
    PercentIsNearest(up2, total);
    if p1 > p2 {
      ScaleMonotone(p2 + 1, p1, total);
      ScaleMonotone(p2, p2, total);
    }
  }

  /** All probes up gives 100; no probe up gives 0. */
  lemma PercentExtremes(total: nat)
    requires 0 < total
    ensures Percent(total, total) == 100
    ensures Percent(0, total) == 0
  {
    NearestEvenIsUnique(100 * total, total, 100);
    NearestEvenIsUnique(0, total, 0);
  }

  /** With fewer than 200 probes per domain, 100% means every probe is up and
      0% means none is: one probe among them moves the quotient by more than 0.5. */
  lemma PercentExactAtEnds(up: nat, total: nat)
    requires 0 < total < 200 && up <= total
    ensures Percent(up, total) == 100 <==> up == total
    ensures Percent(up, total) == 0 <==> up == 0
  {
    PercentExtremes(total);
    PercentIsNearest(up, total);
  }

  /** From 200 probes per domain up, one probe is worth half a percent or less,
      so one success rounds to 0% and one failure rounds to 100%. */
  lemma PercentLosesOneProbeAt200()
    ensures Percent(1, 200) == 0
    ensures Percent(199, 200) == 100
  {
  }

  /** Worked values: 1 of 3, 2 of 3, 1 of 2, and the ties 1 of 8 (12.5) and
      3 of 8 (37.5), which go to the even neighbour. */
  lemma PercentExamples()
    ensures Percent(1, 3) == 33
    ensures Percent(2, 3) == 67
    ensures Percent(1, 2) == 50
    ensures Percent(1, 8) == 12
    ensures Percent(3, 8) == 38
  {
  }
}
