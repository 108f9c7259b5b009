/** The hand-written copy of itertools.combinations that every Calculate
    variant carries, and the recursive specification it is proved against. */
module Combinatorics {

  /** Binomial coefficient C(n, r), by Pascal's rule. */
  function Binomial(n: nat, r: nat): nat
  {
    if r == 0 then 1
    else if n == 0 then 0
    else Binomial(n - 1, r - 1) + Binomial(n - 1, r)
  }

  /** There is no way to choose more elements than there are. */
  lemma {:induction false} BinomialBeyond(n: nat, r: nat)
    requires r > n
    ensures Binomial(n, r) == 0
  {
    if n > 0 {
      BinomialBeyond(n - 1, r - 1);
      BinomialBeyond(n - 1, r);
    }
  }

  /** There is at least one way to choose at most all of them. */
  lemma {:induction false} BinomialPositive(n: nat, r: nat)
    requires r <= n
    ensures Binomial(n, r) >= 1
  {
    if r > 0 {
      BinomialPositive(n - 1, r - 1);
    }
  }

  /** The counts for a pool of five, the pool a valid ticket leaves. */
  lemma BinomialOfFive()
    ensures Binomial(5, 0) == 1 && Binomial(5, 1) == 5
    ensures Binomial(5, 2) == 10 && Binomial(5, 3) == 10
  {
    assert Binomial(1, 1) == 1 && Binomial(2, 1) == 2 && Binomial(3, 1) == 3 && Binomial(4, 1) == 4;
    assert Binomial(2, 2) == 1 && Binomial(3, 2) == 3 && Binomial(4, 2) == 6;
    assert Binomial(3, 3) == 1 && Binomial(4, 3) == 4;
  }

  predicate Increasing(c: seq<int>)
  {
    forall i, j :: 0 <= i < j < |c| ==> c[i] < c[j]
  }

  /** c holds r indices from lo..n-1 within the bounds the source's index
      update relies on: position j lies between lo + j and j + n - r. */
  predicate IsCombo(c: seq<int>, lo: nat, n: nat, r: nat)
  {
    && |c| == r
    && forall j :: 0 <= j < r ==> lo + j <= c[j] && c[j] + r <= j + n
  }

  function Prepend(x: nat, cs: seq<seq<int>>): seq<seq<int>>
  {
    seq(|cs|, k requires 0 <= k < |cs| => [x] + cs[k])
  }

  /** All r-combinations of the indices lo..n-1, in lexicographic order:
      first those that start with lo, then those that do not. */
  function IndexCombos(lo: nat, n: nat, r: nat): (cs: seq<seq<int>>)
    requires lo <= n
  {
    CombosFrom(lo, n, r)
  }

  /** The recursion behind IndexCombos. Contracts speak of IndexCombos, so the
      verifier unfolds this recursion one level per mention, and the lemmas
      below take it apart one level at a time. */
  function CombosFrom(lo: nat, n: nat, r: nat): (cs: seq<seq<int>>)
    requires lo <= n
    decreases n - lo, r
  {
    if r == 0 then [[]]
    else if lo == n then []
    else Prepend(lo, CombosFrom(lo + 1, n, r - 1)) + CombosFrom(lo + 1, n, r)
  }

  /** There are C(n - lo, r) of them. */
  lemma {:induction false} IndexCombosCount(lo: nat, n: nat, r: nat)
    requires lo <= n
    ensures |IndexCombos(lo, n, r)| == Binomial(n - lo, r)
    decreases n - lo, r
  {
    if r > 0 && lo < n {
      IndexCombosCount(lo + 1, n, r - 1);
      IndexCombosCount(lo + 1, n, r);
    }
  }

  /** There are none when fewer than r indices remain. */
  lemma {:induction false} IndexCombosTooFew(lo: nat, n: nat, r: nat)
    requires lo <= n < lo + r
    ensures IndexCombos(lo, n, r) == []
    decreases n - lo
  {
    if lo < n {
      IndexCombosTooFew(lo + 1, n, r - 1);
      IndexCombosTooFew(lo + 1, n, r);
    }
  }

  /** The tuple of pool elements at the given indices. */
  function Pick<T>(pool: seq<T>, c: seq<int>): seq<T>
    requires forall j :: 0 <= j < |c| ==> 0 <= c[j] < |pool|
  {
    seq(|c|, j requires 0 <= j < |c| => pool[c[j]])
  }

  /** Everything `combinations(pool, r)` yields, in order. */
  function Choose<T>(pool: seq<T>, r: nat): (combos: seq<seq<T>>)
    ensures |combos| == Binomial(|pool|, r)
    ensures forall k :: 0 <= k < |combos| ==>
      |combos[k]| == r && forall j :: 0 <= j < r ==> combos[k][j] in pool
  {
    var cs := IndexCombos(0, |pool|, r);
    IndexCombosCount(0, |pool|, r);
    IndexCombosInRange(|pool|, r);
    seq(|cs|, k requires 0 <= k < |cs| => Pick(pool, cs[k]))
  }

  lemma ChooseAt<T>(pool: seq<T>, r: nat, k: nat)
    requires k < |IndexCombos(0, |pool|, r)|
    ensures |Choose(pool, r)| == |IndexCombos(0, |pool|, r)|
    ensures IsCombo(IndexCombos(0, |pool|, r)[k], 0, |pool|, r)
    ensures Choose(pool, r)[k] == Pick(pool, IndexCombos(0, |pool|, r)[k])
  {
    IndexCombosBounds(0, |pool|, r, k);
  }

  /** The source's index update: bump position i, then make every later
      position one more than the one before it. */
  function Advance(c: seq<int>, i: nat): seq<int>
    requires i < |c|
  {
    c[..i] + seq(|c| - i, t requires 0 <= t < |c| - i => c[i] + 1 + t)
  }

  lemma AdvanceCons(x: nat, a: seq<int>, i: nat)
    requires i < |a|
    ensures Advance([x] + a, i + 1) == [x] + Advance(a, i)
  {
    assert ([x] + a)[..i + 1] == [x] + a[..i];
    assert ([x] + a)[i + 1] == a[i];
  }

  lemma AdvanceFrom(c: seq<int>, i: nat, d: seq<int>)
    requires i < |c| == |d|
    requires forall t :: 0 <= t < i ==> d[t] == c[t]
    requires forall t :: i <= t < |d| ==> d[t] == c[i] + 1 + (t - i)
    ensures d == Advance(c, i)
  {
  }

  /** The first combination is lo, lo+1, ..., lo+r-1 (`list(range(r))`). */
  lemma {:induction false} FirstCombo(lo: nat, n: nat, r: nat)
    requires lo + r <= n
    ensures |IndexCombos(lo, n, r)| > 0 && |IndexCombos(lo, n, r)[0]| == r
    ensures forall t :: 0 <= t < r ==> IndexCombos(lo, n, r)[0][t] == lo + t
    decreases r
  {
    if r > 0 {
      FirstCombo(lo + 1, n, r - 1);
      var tails := IndexCombos(lo + 1, n, r - 1);
      IndexCombosFront(lo, n, r, 0);
      var c := IndexCombos(lo, n, r)[0];
      assert c == [lo] + tails[0];
      forall t | 0 < t < r
        ensures c[t] == lo + t
      {
        assert c[t] == tails[0][t - 1];
      }
    }
  }

  lemma IndexCombosSplit(lo: nat, n: nat, r: nat)
    requires lo < n && 0 < r
    ensures |IndexCombos(lo, n, r)| == |IndexCombos(lo + 1, n, r - 1)| + |IndexCombos(lo + 1, n, r)|
  {
  }

  /** Every combination stays within the bounds of IsCombo. */
  lemma {:induction false} IndexCombosBounds(lo: nat, n: nat, r: nat, k: nat)
    requires lo <= n && k < |IndexCombos(lo, n, r)|
    ensures IsCombo(IndexCombos(lo, n, r)[k], lo, n, r)
    decreases n - lo, r
  {
    if r > 0 {
      assert lo < n;
      var c := IndexCombos(lo, n, r)[k];
      var tails := IndexCombos(lo + 1, n, r - 1);
      IndexCombosSplit(lo, n, r);
      if k < |tails| {
        assert c == [lo] + tails[k] by {
          IndexCombosFront(lo, n, r, k);
        }
        IndexCombosBounds(lo + 1, n, r - 1, k);
        ComboCons(lo, tails[k], n, r);
      } else {
        var rest := IndexCombos(lo + 1, n, r);
        assert c == rest[k - |tails|] by {
          IndexCombosBack(lo, n, r, k - |tails|);
        }
        IndexCombosBounds(lo + 1, n, r, k - |tails|);
      }
    }
  }

  /** Putting lo in front of a combination of lo+1..n-1. */
  lemma ComboCons(lo: nat, t: seq<int>, n: nat, r: nat)
    requires lo < n && 0 < r && IsCombo(t, lo + 1, n, r - 1)
    ensures IsCombo([lo] + t, lo, n, r)
  {
    var c := [lo] + t;
    forall j | 0 <= j < r
      ensures lo + j <= c[j] && c[j] + r <= j + n
    {
      if j > 0 {
        assert c[j] == t[j - 1];
      } else if r > 1 {
        assert lo + 1 <= t[0] && t[0] + (r - 1) <= n;
      }
    }
  }

  /** Hence every combination is a valid choice of positions in a pool of n. */
  lemma IndexCombosInRange(n: nat, r: nat)
    ensures forall k :: 0 <= k < |IndexCombos(0, n, r)| ==> IsCombo(IndexCombos(0, n, r)[k], 0, n, r)
  {
    forall k | 0 <= k < |IndexCombos(0, n, r)|
      ensures IsCombo(IndexCombos(0, n, r)[k], 0, n, r)
    {
      IndexCombosBounds(0, n, r, k);
    }
  }

  /** The combinations that start with lo come first, ... */
  lemma IndexCombosFront(lo: nat, n: nat, r: nat, k: nat)
    requires lo < n && 0 < r && k < |IndexCombos(lo + 1, n, r - 1)|
    ensures k < |IndexCombos(lo, n, r)|
    ensures IndexCombos(lo, n, r)[k] == [lo] + IndexCombos(lo + 1, n, r - 1)[k]
  {
  }

  /** ... followed by those that do not. */
  lemma IndexCombosBack(lo: nat, n: nat, r: nat, m: nat)
    requires lo < n && 0 < r && m < |IndexCombos(lo + 1, n, r)|
    ensures |IndexCombos(lo + 1, n, r - 1)| + m < |IndexCombos(lo, n, r)|
    ensures IndexCombos(lo, n, r)[|IndexCombos(lo + 1, n, r - 1)| + m] == IndexCombos(lo + 1, n, r)[m]
  {
  }

  /** What the source's `for i in reversed(range(r))` scan reports about
      the combination c of indices below n: every position after i is at
      its maximum j + n - r, and position i (when there is one) is not. */
  predicate ScanStops(c: seq<int>, n: nat, i: int)
  {
    && -1 <= i < |c|
    && (forall j :: i < j < |c| ==> c[j] + |c| == j + n)
    && (0 <= i ==> c[i] + |c| != i + n)
  }

  /** The outcome the source's loop step has on the k-th of cs: the scan
      finds nothing exactly at the last combination, and otherwise Advance
      gives the next one. */
  predicate Follows(cs: seq<seq<int>>, k: nat, i: int)
    requires k < |cs| && -1 <= i < |cs[k]|
  {
    && (i == -1 <==> k + 1 == |cs|)
    && (0 <= i ==> k + 1 < |cs| && Advance(cs[k], i) == cs[k + 1])
  }

  /** The step of the source's loop is the successor in IndexCombos. */
  lemma {:induction false} NextCombo(lo: nat, n: nat, r: nat, k: nat, i: int)
    requires lo <= n && k < |IndexCombos(lo, n, r)|
    requires ScanStops(IndexCombos(lo, n, r)[k], n, i)
    ensures Follows(IndexCombos(lo, n, r), k, i)
    decreases n - lo, r, 2
  {
    var cs := IndexCombos(lo, n, r);
    if r == 0 {
      assert i == -1 && k + 1 == |cs|;
    } else {
      assert lo < n;
      var tails := IndexCombos(lo + 1, n, r - 1);
      if k < |tails| {
        NextInFront(lo, n, r, k, i);
      } else {
        NextInBack(lo, n, r, k, i);
      }
    }
  }

  /** NextCombo for a combination that does not start with lo: it is one of
      the combinations of lo+1..n-1, and so is its successor. */
  lemma {:induction false} NextInBack(lo: nat, n: nat, r: nat, k: nat, i: int)
    requires lo < n && 0 < r && |IndexCombos(lo + 1, n, r - 1)| <= k < |IndexCombos(lo, n, r)|
    requires ScanStops(IndexCombos(lo, n, r)[k], n, i)
    ensures Follows(IndexCombos(lo, n, r), k, i)
    decreases n - lo, r, 0
  {
    var cs := IndexCombos(lo, n, r);
    var rest := IndexCombos(lo + 1, n, r);
    var m := k - |IndexCombos(lo + 1, n, r - 1)|;
    IndexCombosSplit(lo, n, r);
    assert cs[k] == rest[m] by {
      IndexCombosBack(lo, n, r, m);
    }
    NextCombo(lo + 1, n, r, m, i);
    if 0 <= i {
      assert cs[k + 1] == rest[m + 1] by {
        IndexCombosBack(lo, n, r, m + 1);
      }
    }
  }

  /** Dropping the first position of a scanned combination. */
  lemma ScanTail(x: int, a: seq<int>, n: nat, i: int, h: int)
    requires ScanStops([x] + a, n, i)
    requires h == if i >= 1 then i - 1 else -1
    ensures ScanStops(a, n, h)
  {
    var c := [x] + a;
    forall j | h < j < |a|
      ensures a[j] + |a| == j + n
    {
      assert c[j + 1] == a[j];
    }
    if i >= 1 {
      assert c[i] == a[i - 1];
    }
  }

  /** NextCombo for a combination that starts with lo: the scan either stops
      inside the tail, stops at the first position, or finds nothing. */
  lemma {:induction false} NextInFront(lo: nat, n: nat, r: nat, k: nat, i: int)
    requires lo < n && 0 < r && k < |IndexCombos(lo + 1, n, r - 1)|
    requires k < |IndexCombos(lo, n, r)|
    requires ScanStops(IndexCombos(lo, n, r)[k], n, i)
    ensures Follows(IndexCombos(lo, n, r), k, i)
    decreases n - lo, r, 1
  {
    if i >= 1 {
      FrontInTail(lo, n, r, k, i);
    } else {
      FrontAtStart(lo, n, r, k, i);
    }
  }

  /** The scan stops inside the tail: recurse on the tail. */
  lemma {:induction false} FrontInTail(lo: nat, n: nat, r: nat, k: nat, i: nat)
    requires lo < n && 0 < r && 0 < i && k < |IndexCombos(lo + 1, n, r - 1)|
    requires k < |IndexCombos(lo, n, r)|
    requires ScanStops(IndexCombos(lo, n, r)[k], n, i)
    ensures Follows(IndexCombos(lo, n, r), k, i)
    decreases n - lo, r, 0
  {
    var tails := IndexCombos(lo + 1, n, r - 1);
    IndexCombosFront(lo, n, r, k);
    ScanTail(lo, tails[k], n, i, i - 1);
    assert ScanStops(tails[k], n, i - 1);
    NextCombo(lo + 1, n, r - 1, k, i - 1);
    assert Follows(tails, k, i - 1);
    StepInTail(lo, n, r, k, i);
  }

  /** The scan reaches the first position: the tail is the last of its kind. */
  lemma {:induction false} FrontAtStart(lo: nat, n: nat, r: nat, k: nat, i: int)
    requires lo < n && 0 < r && -1 <= i <= 0 && k < |IndexCombos(lo + 1, n, r - 1)|
    requires k < |IndexCombos(lo, n, r)|
    requires ScanStops(IndexCombos(lo, n, r)[k], n, i)
    ensures Follows(IndexCombos(lo, n, r), k, i)
    decreases n - lo, r, 0
  {
    var tails := IndexCombos(lo + 1, n, r - 1);
    IndexCombosFront(lo, n, r, k);
    ScanTail(lo, tails[k], n, i, -1);
    assert ScanStops(tails[k], n, -1);
    NextCombo(lo + 1, n, r - 1, k, -1);
    assert k + 1 == |tails|;
    if i == 0 {
      StepToRest(lo, n, r, k);
    } else {
      LastCombo(lo, n, r, k);
    }
  }

  /** The scan stops inside the tail: lo stays, the tail advances. */
  lemma StepInTail(lo: nat, n: nat, r: nat, k: nat, i: nat)
    requires lo < n && 0 < r && 0 < i && k < |IndexCombos(lo + 1, n, r - 1)|
    requires ScanStops(IndexCombos(lo + 1, n, r - 1)[k], n, i - 1)
    requires Follows(IndexCombos(lo + 1, n, r - 1), k, i - 1)
    ensures k + 1 < |IndexCombos(lo, n, r)| && i < |IndexCombos(lo, n, r)[k]|
    ensures Advance(IndexCombos(lo, n, r)[k], i) == IndexCombos(lo, n, r)[k + 1]
  {
    var cs := IndexCombos(lo, n, r);
    var tails := IndexCombos(lo + 1, n, r - 1);
    assert k + 1 < |cs| && cs[k] == [lo] + tails[k] && cs[k + 1] == [lo] + tails[k + 1] by {
      IndexCombosFront(lo, n, r, k);
      IndexCombosFront(lo, n, r, k + 1);
    }
    AdvanceCons(lo, tails[k], i - 1);
  }

  /** The scan stops at position 0: the last combination starting with lo
      is followed by lo+1, ..., lo+r. */
  lemma StepToRest(lo: nat, n: nat, r: nat, k: nat)
    requires lo < n && 0 < r && k + 1 == |IndexCombos(lo + 1, n, r - 1)|
    requires k < |IndexCombos(lo, n, r)|
    requires ScanStops(IndexCombos(lo, n, r)[k], n, 0)
    ensures k + 1 < |IndexCombos(lo, n, r)|
    ensures Advance(IndexCombos(lo, n, r)[k], 0) == IndexCombos(lo, n, r)[k + 1]
  {
    var cs := IndexCombos(lo, n, r);
    var rest := IndexCombos(lo + 1, n, r);
    assert cs[k][0] == lo && |cs[k]| == r && lo + r < n by {
      IndexCombosFront(lo, n, r, k);
      IndexCombosBounds(lo, n, r, k);
    }
    FirstCombo(lo + 1, n, r);
    assert k + 1 < |cs| && cs[k + 1] == rest[0] by {
      IndexCombosBack(lo, n, r, 0);
    }
    AdvanceFrom(cs[k], 0, rest[0]);
  }

  /** The scan finds nothing in a combination that starts with lo: then it
      is lo, n-r+1, ..., n-1 and nothing follows it. */
  lemma LastCombo(lo: nat, n: nat, r: nat, k: nat)
    requires lo < n && 0 < r && k + 1 == |IndexCombos(lo + 1, n, r - 1)|
    requires k < |IndexCombos(lo, n, r)|
    requires ScanStops(IndexCombos(lo, n, r)[k], n, -1)
    ensures k + 1 == |IndexCombos(lo, n, r)|
  {
    assert lo + r == n by {
      IndexCombosFront(lo, n, r, k);
      IndexCombosBounds(lo, n, r, k);
      assert IndexCombos(lo, n, r)[k][0] == lo;
    }
    assert IndexCombos(lo + 1, n, r) == [] by {
      IndexCombosTooFew(lo + 1, n, r);
    }
    IndexCombosSplit(lo, n, r);
  }

  /** The `for i in reversed(range(r))` scan: the rightmost position whose
      index is not yet at its maximum i + n - r, or -1 (the loop's `else`)
      when every position is. */
  method RightmostMovable(indices: array<int>, n: nat) returns (i: int)
    requires indices.Length <= n
    ensures ScanStops(indices[..], n, i)
  {
    var r := indices.Length;
    i := r - 1;
    while 0 <= i && indices[i] + r == i + n
      invariant -1 <= i < r
      invariant forall j :: i < j < r ==> indices[j] + r == j + n
    {
      i := i - 1;
    }
  }

  /** `indices[i] += 1`, then `indices[j] = indices[j - 1] + 1` for every
      later j. */
  method AdvanceAt(indices: array<int>, i: nat)
    requires i < indices.Length
    modifies indices
    ensures indices[..] == Advance(old(indices[..]), i)
  {
    ghost var before := indices[..];
    indices[i] := indices[i] + 1;
    for j := i + 1 to indices.Length
      invariant forall t :: 0 <= t < i ==> indices[t] == before[t]
      invariant forall t :: i <= t < j ==> indices[t] == before[i] + 1 + (t - i)
    {
      indices[j] := indices[j - 1] + 1;
    }
    AdvanceFrom(before, i, indices[..]);
  }

  /** Appending the tuple of the next index combination extends a prefix of
      Choose by one. */
  lemma ChooseExtend<T>(pool: seq<T>, r: nat, k: nat, combos: seq<seq<T>>)
    requires k < |IndexCombos(0, |pool|, r)|
    requires combos == Choose(pool, r)[..k]
    ensures IsCombo(IndexCombos(0, |pool|, r)[k], 0, |pool|, r)
    ensures combos + [Pick(pool, IndexCombos(0, |pool|, r)[k])] == Choose(pool, r)[..k + 1]
  {
    ChooseAt(pool, r, k);
    var all := Choose(pool, r);
    assert all[..k + 1] == all[..k] + [all[k]];
  }

  /** Python's combinations(pool, r): the index list is updated in place
      and the tuple at the current indices is yielded after every update. */
  method Combinations<T>(pool: seq<T>, r: nat) returns (combos: seq<seq<T>>)
    ensures combos == Choose(pool, r)
  {
    var n := |pool|;
    if r > n {
      IndexCombosTooFew(0, n, r);
      return [];
    }
    ghost var cs := IndexCombos(0, n, r);
    var indices := new int[r](j => j);
    FirstCombo(0, n, r);
    assert indices[..] == cs[0];
    ChooseExtend(pool, r, 0, []);
    combos := [Pick(pool, indices[..])];
    ghost var k := 0;
    while true
      invariant k < |cs|
      invariant indices[..] == cs[k]
      invariant combos == Choose(pool, r)[..k + 1]
      decreases |cs| - k
    {
      var i := RightmostMovable(indices, n);
      NextCombo(0, n, r, k, i);
      if i < 0 {
        return;
      }
      AdvanceAt(indices, i);
      k := k + 1;
      ChooseExtend(pool, r, k, combos);
      combos := combos + [Pick(pool, indices[..])];
    }
  }

  /** Each combination lists its indices in increasing order. */
  lemma {:induction false} IndexCombosIncreasing(lo: nat, n: nat, r: nat, k: nat)
    requires lo <= n && k < |IndexCombos(lo, n, r)|
    ensures Increasing(IndexCombos(lo, n, r)[k])
    decreases n - lo, r
  {
    if r > 0 {
      assert lo < n;
      var c := IndexCombos(lo, n, r)[k];
      var tails := IndexCombos(lo + 1, n, r - 1);
      IndexCombosSplit(lo, n, r);
      if k < |tails| {
        IndexCombosFront(lo, n, r, k);
        IndexCombosIncreasing(lo + 1, n, r - 1, k);
        IndexCombosBounds(lo + 1, n, r - 1, k);
        forall a, b | 0 <= a < b < r
          ensures c[a] < c[b]
        {
          assert c[b] == tails[k][b - 1];
          if a > 0 {
            assert c[a] == tails[k][a - 1];
          }
        }
      } else {
        IndexCombosBack(lo, n, r, k - |tails|);
        IndexCombosIncreasing(lo + 1, n, r, k - |tails|);
      }
    }
  }

  /** a comes strictly before b in lexicographic order. */
  predicate LexLess(a: seq<int>, b: seq<int>)
  {
    exists i :: 0 <= i < |a| && i < |b| && a[..i] == b[..i] && a[i] < b[i]
  }

  lemma LexCons(x: int, a: seq<int>, b: seq<int>)
    requires LexLess(a, b)
    ensures LexLess([x] + a, [x] + b)
  {
    var i :| 0 <= i < |a| && i < |b| && a[..i] == b[..i] && a[i] < b[i];
    assert ([x] + a)[..i + 1] == [x] + a[..i];
    assert ([x] + b)[..i + 1] == [x] + b[..i];
    assert ([x] + a)[i + 1] == a[i] && ([x] + b)[i + 1] == b[i];
  }

  /** IndexCombos lists the combinations in strictly increasing
      lexicographic order, so none of them comes twice. */
  lemma {:induction false} IndexCombosSorted(lo: nat, n: nat, r: nat, k: nat)
    requires lo <= n && k + 1 < |IndexCombos(lo, n, r)|
    ensures LexLess(IndexCombos(lo, n, r)[k], IndexCombos(lo, n, r)[k + 1])
    decreases n - lo, r
  {
    var cs := IndexCombos(lo, n, r);
    if r == 0 || lo == n {
      assert false;
    }
    var tails := IndexCombos(lo + 1, n, r - 1);
    var rest := IndexCombos(lo + 1, n, r);
    IndexCombosSplit(lo, n, r);
    if k + 1 < |tails| {
      IndexCombosFront(lo, n, r, k);
      IndexCombosFront(lo, n, r, k + 1);
      IndexCombosSorted(lo + 1, n, r - 1, k);
      LexCons(lo, tails[k], tails[k + 1]);
    } else if k + 1 == |tails| {
      IndexCombosFront(lo, n, r, k);
      IndexCombosBack(lo, n, r, 0);
      IndexCombosBounds(lo + 1, n, r, 0);
      assert cs[k][0] == lo < rest[0][0] == cs[k + 1][0];
      assert cs[k][..0] == cs[k + 1][..0];
    } else {
      var m := k - |tails|;
      IndexCombosBack(lo, n, r, m);
      IndexCombosBack(lo, n, r, m + 1);
      IndexCombosSorted(lo + 1, n, r, m);
    }
  }

  lemma LexTrans(a: seq<int>, b: seq<int>, c: seq<int>)
    requires LexLess(a, b) && LexLess(b, c)
    ensures LexLess(a, c)
  {
    var i :| 0 <= i < |a| && i < |b| && a[..i] == b[..i] && a[i] < b[i];
    var j :| 0 <= j < |b| && j < |c| && b[..j] == c[..j] && b[j] < c[j];
    if i < j {
      assert b[..j][..i] == c[..j][..i];
      assert b[..j][i] == c[..j][i];
      assert a[..i] == c[..i] && a[i] < c[i];
    } else if j < i {
      assert a[..i][..j] == b[..i][..j];
      assert a[..i][j] == b[..i][j];
      assert a[..j] == c[..j] && a[j] < c[j];
    } else {
      assert a[..i] == c[..i] && a[i] < c[i];
    }
  }

  /** Any earlier combination comes lexicographically before any later one,
      so no combination of indices is yielded twice. */
  lemma {:induction false} IndexCombosOrdered(n: nat, r: nat, j: nat, k: nat)
    requires j < k < |IndexCombos(0, n, r)|
    ensures LexLess(IndexCombos(0, n, r)[j], IndexCombos(0, n, r)[k])
    ensures IndexCombos(0, n, r)[j] != IndexCombos(0, n, r)[k]
    decreases k - j
  {
    var cs := IndexCombos(0, n, r);
    IndexCombosSorted(0, n, r, k - 1);
    if j < k - 1 {
      IndexCombosOrdered(n, r, j, k - 1);
      LexTrans(cs[j], cs[k - 1], cs[k]);
    }
    LexIrreflexive(cs[j], cs[k]);
  }

  lemma LexIrreflexive(a: seq<int>, b: seq<int>)
    requires LexLess(a, b)
    ensures a != b
  {
    var i :| 0 <= i < |a| && i < |b| && a[..i] == b[..i] && a[i] < b[i];
  }

  /** `combinations` yields nothing when asked for more than the pool has. */
  lemma ChooseTooMany<T>(pool: seq<T>, r: nat)
    requires r > |pool|
    ensures Choose(pool, r) == []
  {
    BinomialBeyond(|pool|, r);
  }

  /** Choosing nothing yields the one empty tuple. */
  lemma ChooseNone<T>(pool: seq<T>)
    ensures Choose(pool, 0) == [[]]
  {
    assert IndexCombos(0, |pool|, 0) == [[]];
    ChooseAt(pool, 0, 0);
  }

  /** Picking from a strictly increasing pool keeps the order of indices. */
  lemma PickIncreasing(pool: seq<int>, c: seq<int>)
    requires Increasing(pool) && Increasing(c)
    requires forall j :: 0 <= j < |c| ==> 0 <= c[j] < |pool|
    ensures Increasing(Pick(pool, c))
  {
  }

  lemma PickLex(pool: seq<int>, a: seq<int>, b: seq<int>)
    requires Increasing(pool) && LexLess(a, b)
    requires forall j :: 0 <= j < |a| ==> 0 <= a[j] < |pool|
    requires forall j :: 0 <= j < |b| ==> 0 <= b[j] < |pool|
    ensures LexLess(Pick(pool, a), Pick(pool, b))
  {
    var i :| 0 <= i < |a| && i < |b| && a[..i] == b[..i] && a[i] < b[i];
    var pa, pb := Pick(pool, a), Pick(pool, b);
    forall j | 0 <= j < i
      ensures pa[j] == pb[j]
    {
      assert a[j] == a[..i][j] == b[..i][j] == b[j];
    }
    assert pa[..i] == pb[..i];
  }

  /** From a strictly increasing pool, `combinations` yields strictly
      increasing tuples, in strictly increasing lexicographic order. */
  lemma ChooseSorted(pool: seq<int>, r: nat, k: nat)
    requires Increasing(pool) && k < |Choose(pool, r)|
    ensures Increasing(Choose(pool, r)[k])
    ensures k + 1 < |Choose(pool, r)| ==> LexLess(Choose(pool, r)[k], Choose(pool, r)[k + 1])
  {
    ChooseAt(pool, r, k);
    IndexCombosIncreasing(0, |pool|, r, k);
    PickIncreasing(pool, IndexCombos(0, |pool|, r)[k]);
    if k + 1 < |Choose(pool, r)| {
      ChooseAt(pool, r, k + 1);
      IndexCombosSorted(0, |pool|, r, k);
      PickLex(pool, IndexCombos(0, |pool|, r)[k], IndexCombos(0, |pool|, r)[k + 1]);
    }
  }
}
