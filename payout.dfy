/** The Mini Cactpot prize table and the integer arithmetic the engine does
    on it: sums, extremes and the floor mean. */
module Payout {

  /** MGP won for each possible sum of a line's three digits. */
  const PayoutTable: map<int, int> := map[
    6 := 10000, 7 := 36, 8 := 720, 9 := 360, 10 := 80, 11 := 252, 12 := 108,
    13 := 72, 14 := 54, 15 := 180, 16 := 72, 17 := 180, 18 := 119, 19 := 36,
    20 := 306, 21 := 1080, 22 := 144, 23 := 1800, 24 := 3600]

  /** The table is keyed by exactly the sums 6..24 and pays something for each. */
  lemma PayoutTableDomain()
    ensures forall s :: s in PayoutTable <==> 6 <= s <= 24
    ensures forall s :: s in PayoutTable ==> PayoutTable[s] > 0
  {
  }

  /** Python's `sum`. */
  function Sum(xs: seq<int>): int
  {
    if |xs| == 0 then 0 else xs[0] + Sum(xs[1..])
  }

  lemma SumOfThree(xs: seq<int>)
    requires |xs| == 3
    ensures Sum(xs) == xs[0] + xs[1] + xs[2]
  {
    assert Sum(xs[2..]) == xs[2] + Sum(xs[3..]);
    assert Sum(xs[1..]) == xs[1] + Sum(xs[2..]);
  }

  /** Python's `max`. */
  function Highest(xs: seq<int>): (m: int)
    requires |xs| > 0
    ensures m in xs
    ensures forall i :: 0 <= i < |xs| ==> xs[i] <= m
  {
    if |xs| == 1 then xs[0]
    else var rest := Highest(xs[1..]); if xs[0] >= rest then xs[0] else rest
  }

  /** The smallest value: the lower end of the range the floor mean is
      proved to stay in. */
  function Lowest(xs: seq<int>): (m: int)
    requires |xs| > 0
    ensures m in xs
    ensures forall i :: 0 <= i < |xs| ==> m <= xs[i]
  {
    if |xs| == 1 then xs[0]
    else var rest := Lowest(xs[1..]); if xs[0] <= rest then xs[0] else rest
  }

  /** `sum(xs) // len(xs)`: Python's floor division, which for a positive
      divisor agrees with Dafny's `/`. */
  function Mean(xs: seq<int>): int
    requires |xs| > 0
  {
    Sum(xs) / |xs|
  }

  lemma {:induction false} SumBounds(xs: seq<int>, lo: int, hi: int)
    requires forall i :: 0 <= i < |xs| ==> lo <= xs[i] <= hi
    ensures |xs| * lo <= Sum(xs) <= |xs| * hi
  {
    if |xs| > 0 {
      SumBounds(xs[1..], lo, hi);
    }
  }

  /** The mean is the floor of the exact average: it never rounds up. */
  lemma MeanIsFloor(xs: seq<int>)
    requires |xs| > 0
    ensures Mean(xs) * |xs| <= Sum(xs) < (Mean(xs) + 1) * |xs|
  {
  }

  /** The floor mean lies between the smallest and the largest value. */
  lemma MeanBounds(xs: seq<int>)
    requires |xs| > 0
    ensures Lowest(xs) <= Mean(xs) <= Highest(xs)
  {
    SumBounds(xs, Lowest(xs), Highest(xs));
    FloorBetween(Sum(xs), |xs|, Lowest(xs), Highest(xs));
  }

  lemma FloorBetween(total: int, n: int, lo: int, hi: int)
    requires n > 0 && n * lo <= total <= n * hi
    ensures lo <= total / n <= hi
  {
    var q, r := total / n, total % n;
    assert total == q * n + r && 0 <= r < n;
    if q < lo {
      assert (q + 1) * n == q * n + n;
      ScaleMono(q + 1, lo, n);
    }
    if q > hi {
      assert (hi + 1) * n == hi * n + n;
      ScaleMono(hi + 1, q, n);
    }
  }

  lemma ScaleMono(a: int, b: int, n: nat)
    requires a <= b
    ensures a * n <= b * n
  {
    assert b * n - a * n == (b - a) * n;
  }

  /** The mean of a single value is that value. */
  lemma MeanOfOne(x: int)
    ensures Mean([x]) == x
  {
    assert Sum([x]) == x + Sum([]);
  }
}
