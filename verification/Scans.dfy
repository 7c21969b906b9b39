/** Two scans with two moving ends that skip candidates without losing any. */
module Scans {
  // ---------------------------------------------------------------- trapped rain

  /** The highest of the first `k`, or zero. */
  ghost function Before(a: seq<int>, k: nat): (h: int)
    requires k <= |a|
    ensures h >= 0
    ensures forall x :: 0 <= x < k ==> a[x] <= h
  {
    if k == 0 then 0 else var h := Before(a, k - 1); if h < a[k - 1] then a[k - 1] else h
  }

  /** The highest from `k` on, or zero. */
  ghost function From(a: seq<int>, k: nat): (h: int)
    requires k <= |a|
    ensures h >= 0
    ensures forall x :: k <= x < |a| ==> a[x] <= h
    decreases |a| - k
  {
    if k == |a| then 0 else var h := From(a, k + 1); if h < a[k] then a[k] else h
  }

  lemma {:induction false} BeforeIsReached(a: seq<int>, k: nat) returns (x: int)
    requires k <= |a|
    ensures Before(a, k) == 0 || (0 <= x < k && a[x] == Before(a, k))
  {
    x := -1;
    if k > 0 {
      x := BeforeIsReached(a, k - 1);
      if Before(a, k - 1) < a[k - 1] { x := k - 1; }
    }
  }

  lemma {:induction false} FromIsReached(a: seq<int>, k: nat) returns (x: int)
    requires k <= |a|
    ensures From(a, k) == 0 || (k <= x < |a| && a[x] == From(a, k))
    decreases |a| - k
  {
    x := -1;
    if k < |a| {
      x := FromIsReached(a, k + 1);
      if From(a, k + 1) < a[k] { x := k; }
    }
  }

  /** The water above one place: up to the lower of the two walls around it. */
  ghost function Water(a: seq<int>, k: nat): int
    requires k < |a|
  {
    var left, right := Before(a, k + 1), From(a, k);
    (if left < right then left else right) - a[k]
  }

  ghost function AllWater(a: seq<int>, from: nat, to: nat): int
    requires from <= to <= |a|
  {
    if from == to then 0 else AllWater(a, from, to - 1) + Water(a, to - 1)
  }

  lemma {:induction false} FirstWater(a: seq<int>, from: nat, to: nat)
    requires from < to <= |a|
    ensures AllWater(a, from, to) == Water(a, from) + AllWater(a, from + 1, to)
  {
    if from + 1 < to { FirstWater(a, from, to - 1); }
  }

  lemma {:induction false} WaterSplit(a: seq<int>, mid: nat)
    requires mid <= |a|
    ensures AllWater(a, 0, |a|) == AllWater(a, 0, mid) + AllWater(a, mid, |a|)
    decreases |a| - mid
  {
    if mid < |a| {
      FirstWater(a, mid, |a|);
      WaterSplit(a, mid + 1);
    }
  }

  ghost predicate RainState(a: seq<int>, i: nat, j: int, lmax: int, rmax: int, sum: int) {
    if a == [] then i == 0 && j == -1 && sum == 0 else
    && i <= j < |a|
    // an end that has not moved may have been looked at
    && (lmax == Before(a, i) || lmax == Before(a, i + 1))
    && (rmax == From(a, j + 1) || rmax == From(a, j))
    && sum == AllWater(a, 0, i) + AllWater(a, j + 1, |a|)
    && HighestAhead(a, i, j)
  }

  /** A highest place is still ahead, and none lies behind on the left; when no place is above
    * zero, the left end does not move. */
  ghost predicate HighestAhead(a: seq<int>, i: nat, j: int)
    requires i <= j < |a|
  {
    if From(a, 0) == 0 then i == 0
    else (exists k :: i <= k <= j && a[k] == From(a, 0)) && forall k :: 0 <= k < i ==> a[k] < From(a, 0)
  }

  lemma Higher(a: seq<int>, k: nat)
    requires k < |a|
    ensures Before(a, k + 1) == if Before(a, k) < a[k] then a[k] else Before(a, k)
    ensures From(a, k) == if From(a, k + 1) < a[k] then a[k] else From(a, k + 1)
  {
  }

  lemma LeftStep(a: seq<int>, i: nat, j: int, lmax: int, rmax: int, sum: int)
    requires RainState(a, i, j, lmax, rmax, sum) && i < j && Before(a, i + 1) < From(a, j)
    ensures RainState(a, i + 1, j, Before(a, i + 1), From(a, j), sum + Before(a, i + 1) - a[i])
  {
    LowerLeft(a, i, j);
    hide HighestAhead;
    FromIsMonotone(a, i, j);
    assert AllWater(a, 0, i + 1) == AllWater(a, 0, i) + (Before(a, i + 1) - a[i]);
    hide Before, From, Water, AllWater;
  }

  lemma LowerLeft(a: seq<int>, i: nat, j: nat)
    requires i < j < |a| && Before(a, i + 1) < From(a, j) && HighestAhead(a, i, j)
    ensures HighestAhead(a, i + 1, j)
  {
    FromIsMonotone(a, i, j);
    assert a[i] <= Before(a, i + 1) < From(a, 0);
    hide Before, From;
  }

  lemma RightStep(a: seq<int>, i: nat, j: int, lmax: int, rmax: int, sum: int)
    requires RainState(a, i, j, lmax, rmax, sum) && i < j && Before(a, i + 1) >= From(a, j)
    ensures RainState(a, i, j - 1, Before(a, i + 1), From(a, j), sum + From(a, j) - a[j])
  {
    LowerRight(a, i, j);
    hide HighestAhead;
    BeforeIsMonotone(a, i + 1, j + 1);
    FirstWater(a, j, |a|);
    assert AllWater(a, j, |a|) == From(a, j) - a[j] + AllWater(a, j + 1, |a|);
    hide Water, AllWater, Before, From;
  }

  /** If the right end is as high as anything, so is the left end. */
  lemma LowerRight(a: seq<int>, i: nat, j: nat)
    requires i < j < |a| && Before(a, i + 1) >= From(a, j) && HighestAhead(a, i, j)
    ensures HighestAhead(a, i, j - 1)
  {
    if From(a, 0) != 0 {
      var k :| i <= k <= j && a[k] == From(a, 0);
      if k == j {
        assert a[j] <= From(a, j);
        BeforeIsMonotone(a, i + 1, |a|);
        var x := BeforeIsReached(a, i + 1);
        hide Before, From;
        assert a[i] == From(a, 0);
      }
    }
  }

  /** The walls around the two ends, once the ends have been looked at. */
  lemma Walls(a: seq<int>, i: nat, j: int, lmax: int, rmax: int, sum: int)
    requires RainState(a, i, j, lmax, rmax, sum) && i < j
    ensures j < |a|
    ensures (if lmax < a[i] then a[i] else lmax) == Before(a, i + 1)
    ensures (if rmax < a[j] then a[j] else rmax) == From(a, j)
  {
    Higher(a, i);
    Higher(a, j);
  }

  /** When no height is above zero, the scan never looks at the first place. */
  ghost function Uncounted(a: seq<int>): int {
    if a != [] && From(a, 0) == 0 then a[0] else 0
  }

  lemma RainStops(a: seq<int>, i: nat, j: int, lmax: int, rmax: int, sum: int)
    requires RainState(a, i, j, lmax, rmax, sum) && i >= j
    ensures sum == AllWater(a, 0, |a|) + Uncounted(a)
  {
    if a != [] && From(a, 0) == 0 {
      FirstWater(a, 0, |a|);
      assert Before(a, 1) == 0 && Water(a, 0) == -a[0];
    } else if a != [] {
      WaterSplit(a, i);
      FirstWater(a, i, |a|);
      BeforeIsMonotone(a, i + 1, |a|);
      FromIsMonotone(a, 0, i);
      assert Before(a, i + 1) == From(a, 0) == From(a, i);
      assert Water(a, i) == 0;
    }
  }

  lemma RainStarts(a: seq<int>)
    ensures RainState(a, 0, |a| - 1, 0, 0, 0)
  {
    var k := FromIsReached(a, 0);
  }

  lemma NothingUncounted(a: seq<int>)
    ensures (forall k :: 0 <= k < |a| ==> a[k] >= 0) ==> Uncounted(a) == 0
    ensures (exists k :: 0 <= k < |a| && a[k] > 0) ==> Uncounted(a) == 0
  {}

  /** Exact for all heights; for heights that are not negative, and whenever one is above zero,
    * nothing is left uncounted. */
  method TrapRain(a: seq<int>) returns (sum: int)
    ensures sum == AllWater(a, 0, |a|) + Uncounted(a)
    ensures (forall k :: 0 <= k < |a| ==> a[k] >= 0) || (exists k :: 0 <= k < |a| && a[k] > 0) ==> sum == AllWater(a, 0, |a|)
  {
    var i, j, lmax, rmax := 0, |a| - 1, 0, 0;
    sum := 0;
    RainStarts(a);
    NothingUncounted(a);
    hide Before, From, Water, AllWater, RainState, Uncounted;
    while i < j
      invariant 0 <= i <= |a| && j < |a|
      invariant RainState(a, i, j, lmax, rmax, sum)
    {
      Walls(a, i, j, lmax, rmax, sum);
      RainStep(a, i, j, lmax, rmax, sum);
      lmax := if lmax < a[i] then a[i] else lmax;
      rmax := if rmax < a[j] then a[j] else rmax;
      if lmax < rmax {
        sum := sum + lmax - a[i];
        i := i + 1;
      } else {
        sum := sum + rmax - a[j];
        j := j - 1;
      }
    }
    RainStops(a, i, j, lmax, rmax, sum);
  }

  lemma RainStep(a: seq<int>, i: nat, j: int, lmax: int, rmax: int, sum: int)
    requires RainState(a, i, j, lmax, rmax, sum) && i < j < |a|
    ensures
      var left := if lmax < a[i] then a[i] else lmax;
      var right := if rmax < a[j] then a[j] else rmax;
      && (left < right ==> RainState(a, i + 1, j, left, right, sum + left - a[i]))
      && (left >= right ==> RainState(a, i, j - 1, left, right, sum + right - a[j]))
  {
    Walls(a, i, j, lmax, rmax, sum);
    hide RainState, From, Before;
    if Before(a, i + 1) < From(a, j) {
      LeftStep(a, i, j, lmax, rmax, sum);
    } else {
      RightStep(a, i, j, lmax, rmax, sum);
    }
  }

  lemma FromIsMonotone(a: seq<int>, i: nat, j: nat)
    requires i <= j <= |a|
    ensures From(a, j) <= From(a, i) <= From(a, 0)
  {
    var x := FromIsReached(a, j);
    var y := FromIsReached(a, i);
  }

  lemma BeforeIsMonotone(a: seq<int>, i: nat, j: nat)
    requires i <= j <= |a|
    ensures Before(a, i) <= Before(a, j) && Before(a, i) <= From(a, 0)
  {
    var x := BeforeIsReached(a, i);
  }

  // ---------------------------------------------------------------- the pair with the wanted difference

  function Abs(x: real): real {
    if x < 0.0 then -x else x
  }

  function Deviation(a: seq<real>, diff: real, i: nat, j: nat): real
    requires i < |a| && j < |a|
  {
    a[j] - a[i] - diff
  }

  ghost predicate IsSorted(a: seq<real>) {
    forall i, j :: 0 <= i <= j < |a| ==> a[i] <= a[j]
  }

  /** Every pair outside the part still to be searched is no better than the best. */
  ghost predicate Dominated(a: seq<real>, diff: real, i: nat, j: nat, best: real) {
    forall p, q :: 0 <= p < q < |a| && (p < i || q < j) ==> Abs(best) <= Abs(Deviation(a, diff, p, q))
  }

  ghost predicate Searching(a: seq<real>, diff: real, i: nat, j: nat, best: real) {
    // the ends meet only after an exact match
    best == 0.0 || (i < j < |a| && Abs(best) <= Abs(Deviation(a, diff, i, j)) && Dominated(a, diff, i, j, best))
  }

  ghost predicate IsNearest(a: seq<real>, diff: real, best: real) {
    forall p, q :: 0 <= p < q < |a| ==> Abs(best) <= Abs(Deviation(a, diff, p, q))
  }

  /** Below the wanted difference, nothing else in the column is nearer. */
  lemma ColumnDone(a: seq<real>, diff: real, i: nat, j: nat, best: real)
    requires IsSorted(a) && i < j < |a| && Searching(a, diff, i, j, best) && Deviation(a, diff, i, j) < 0.0
    ensures best != 0.0 ==> Dominated(a, diff, i, j + 1, best)
    ensures j == |a| - 1 ==> IsNearest(a, diff, best)
  {
  }

  /** At or above it, nothing else in the row is. */
  lemma RowDone(a: seq<real>, diff: real, i: nat, j: nat, best: real)
    requires IsSorted(a) && i < j < |a| && Searching(a, diff, i, j, best) && Deviation(a, diff, i, j) >= 0.0
    ensures best != 0.0 ==> Dominated(a, diff, i + 1, j, best)
    ensures best != 0.0 && j == i + 1 ==> Dominated(a, diff, i + 1, j + 1, best)
    ensures i == |a| - 2 ==> IsNearest(a, diff, best)
  {
  }

  lemma Better(a: seq<real>, diff: real, i: nat, j: nat, best: real, now: real)
    requires i < j < |a| && Dominated(a, diff, i, j, best) && now == Deviation(a, diff, i, j)
    ensures Searching(a, diff, i, j, if Abs(now) < Abs(best) then now else best)
  {
  }

  /** The deviation nearest to zero over all pairs, and a pair that has it. */
  method GetDiff(a: seq<real>, diff: real) returns (val: real, row: nat, col: nat)
    requires |a| >= 2 && IsSorted(a)
    ensures row < col < |a| && val == Deviation(a, diff, row, col)
    ensures IsNearest(a, diff, val)
  {
    var n := |a|;
    var i, j := 0, 1;
    row, col := 0, 1;
    var d := a[1] - a[0] - diff;
    val := d;
    while true
      invariant 0 <= i <= n - 2 && 0 < j < n
      invariant d == Deviation(a, diff, i, j) && (val == 0.0 || i < j)
      invariant row < col < n && val == Deviation(a, diff, row, col)
      invariant Searching(a, diff, i, j, val)
      decreases n - i + n - j
    {
      if val != 0.0 {
        if d < 0.0 { ColumnDone(a, diff, i, j, val); } else { RowDone(a, diff, i, j, val); }
      } else {
        assert IsNearest(a, diff, val);
      }
      hide IsSorted, Dominated, IsNearest;
      if d < 0.0 {
        if j == n - 1 { break; }
        j := j + 1;
      } else if d > 0.0 && j - i == 1 {
        if j == n - 1 { break; }
        i := i + 1;
        j := j + 1;
      } else {
        if i == n - 2 { break; }
        i := i + 1;
      }
      d := a[j] - a[i] - diff;
      if val != 0.0 { Better(a, diff, i, j, val, d); }
      if Abs(d) < Abs(val) {
        val := d;
        row := i;
        col := j;
      }
    }
  }
}
