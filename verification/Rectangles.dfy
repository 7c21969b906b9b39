/** The largest all-true rectangle of a matrix, by way of the largest rectangle
  * under a histogram. */
module Rectangles {
  const INT_MAX: int := 0x7FFF_FFFF

  // ---------------------------------------------------------------- under a histogram

  ghost function Lowest(a: seq<int>, l: nat, r: nat): (h: int)
    requires l < r <= |a|
    ensures forall k :: l <= k < r ==> h <= a[k]
    ensures exists k :: l <= k < r && a[k] == h
  {
    if r == l + 1 then a[l] else
    var h := Lowest(a, l, r - 1);
    if a[r - 1] < h then a[r - 1] else h
  }

  /** The largest rectangle that spans exactly the columns from `l` to `r`. */
  ghost function Area(a: seq<int>, l: nat, r: nat): int
    requires l < r <= |a|
  {
    (r - l) * Lowest(a, l, r)
  }

  ghost predicate IsMaxArea(a: seq<int>, best: int) {
    && (exists l, r :: 0 <= l < r <= |a| && Area(a, l, r) == best)
    && (forall l, r :: 0 <= l < r <= |a| ==> Area(a, l, r) <= best)
  }

  /** The largest area, or `-INT_MAX` when every area is below that. */
  ghost predicate IsMaxOrFloor(a: seq<int>, best: int) {
    && (best == -INT_MAX || exists l, r :: 0 <= l < r <= |a| && Area(a, l, r) == best)
    && (forall l, r :: 0 <= l < r <= |a| ==> Area(a, l, r) <= best)
  }

  ghost predicate AboveFloor(a: seq<int>) {
    exists k :: 0 <= k < |a| && a[k] >= -INT_MAX
  }

  predicate NonNegative(a: seq<int>) {
    forall k :: 0 <= k < |a| ==> a[k] >= 0
  }

  lemma NonNegativeIsAbove(a: seq<int>)
    requires NonNegative(a) && a != []
    ensures AboveFloor(a)
  {
    assert a[0] >= -INT_MAX;
  }

  /** The stack without its top. */
  ghost function Below(s: seq<nat>): seq<nat>
    requires s != []
  {
    s[..|s| - 1]
  }

  ghost function Top(s: seq<nat>): nat
    requires s != []
  {
    s[|s| - 1]
  }

  /** Just after the top of the stack. */
  ghost function After(s: seq<nat>): nat {
    if s == [] then 0 else Top(s) + 1
  }

  /** The stack holds increasing positions of increasing heights, and from one
    * entry to the next nothing is lower than the upper one. */
  ghost predicate IsStack(a: seq<int>, s: seq<nat>, i: nat) {
    i <= |a| && (s != [] ==>
      && After(Below(s)) <= Top(s) < i
      && (forall x :: After(Below(s)) <= x < i ==> a[Top(s)] <= a[x])
      && (Below(s) != [] ==> a[Top(Below(s))] < a[Top(s)])
      && IsStack(a, Below(s), Top(s)))
  }

  /** Some stacked position lies in the range. */
  ghost predicate Holds(s: seq<nat>, l: nat, r: nat) {
    s != [] && (l <= Top(s) < r || Holds(Below(s), l, r))
  }

  /** Every range so far either holds a stacked position or is no better than the best. */
  ghost predicate Covered(a: seq<int>, s: seq<nat>, i: nat, best: int) {
    i <= |a| && forall l, r :: 0 <= l < r <= i ==> Holds(s, l, r) || Area(a, l, r) <= best
  }

  ghost predicate Reached(a: seq<int>, best: int) {
    best == -INT_MAX || exists l, r :: 0 <= l < r <= |a| && Area(a, l, r) == best
  }

  /** Everything since the last stacked position is at least as high as the next column. */
  ghost predicate Above(a: seq<int>, s: seq<nat>, i: nat) {
    i < |a| ==> forall x :: After(s) <= x < i ==> a[i] <= a[x]
  }

  lemma PushCovers(a: seq<int>, s: seq<nat>, i: nat, best: int)
    requires i < |a| && IsStack(a, s, i) && Above(a, s, i) && Covered(a, s, i, best)
    requires s == [] || a[i] > a[Top(s)]
    ensures IsStack(a, s + [i], i + 1) && Above(a, s + [i], i + 1) && Covered(a, s + [i], i + 1, best)
  {
    var t := s + [i];
    assert Below(t) == s && Top(t) == i;
    hide Area;
    forall l, r | 0 <= l < r <= i + 1 ensures Holds(t, l, r) || Area(a, l, r) <= best {
      if r <= i { assert Holds(s, l, r) ==> Holds(t, l, r); }
    }
  }

  lemma PopKeepsStack(a: seq<int>, s: seq<nat>, i: nat)
    requires s != [] && IsStack(a, s, i)
    ensures IsStack(a, Below(s), i)
    ensures i < |a| && Above(a, s, i) && a[i] <= a[Top(s)] ==> Above(a, Below(s), i)
  {
  }

  /** The rectangle of the height on top, from the entry below it to here. */
  lemma TopArea(a: seq<int>, s: seq<nat>, i: nat)
    requires s != [] && IsStack(a, s, i)
    ensures After(Below(s)) <= Top(s) < i
    ensures Area(a, After(Below(s)), i) == (i - After(Below(s))) * a[Top(s)]
  {
    assert Lowest(a, After(Below(s)), i) == a[Top(s)];
  }

  ghost function Max(x: int, y: int): int {
    if x < y then y else x
  }

  /** The ranges that lose their last stacked position fit under the popped height. */
  lemma PopCovers(a: seq<int>, s: seq<nat>, i: nat, best: int)
    requires s != [] && IsStack(a, s, i) && Covered(a, s, i, best)
    ensures Covered(a, Below(s), i, Max(best, (i - After(Below(s))) * a[Top(s)]))
  {
    var start, top := After(Below(s)), Top(s);
    ColumnCovered(a, s, i, best);
    forall l, r | 0 <= l < r <= i
      ensures Holds(Below(s), l, r) || Area(a, l, r) <= Max(best, (i - start) * a[top])
    {
      if Holds(s, l, r) && !Holds(Below(s), l, r) {
        assert start <= l <= top < r;
        if a[top] >= 0 {
          Shrink(r - l, Lowest(a, l, r), i - start, a[top]);
        } else {
          Narrow(r - l, Lowest(a, l, r), a[top]);
        }
      }
    }
  }

  /** The top column on its own is no better than the rectangle of its height or an earlier one. */
  lemma ColumnCovered(a: seq<int>, s: seq<nat>, i: nat, best: int)
    requires s != [] && IsStack(a, s, i) && Covered(a, s, i, best)
    ensures a[Top(s)] < 0 ==> a[Top(s)] <= Max(best, (i - After(Below(s))) * a[Top(s)])
  {
    var start, top := After(Below(s)), Top(s);
    if i - start > 1 {
      var x := if start < top then start else top + 1;
      NotStacked(a, Below(s), top, x);
      ColumnArea(a, x);
      hide Area;
      assert !Holds(s, x, x + 1);
    } else {
      assert i - start == 1 && (i - start) * a[top] == a[top];
    }
  }

  lemma {:induction false} NotStacked(a: seq<int>, s: seq<nat>, i: nat, x: nat)
    requires IsStack(a, s, i) && After(s) <= x
    ensures !Holds(s, x, x + 1)
  {
    if s != [] { NotStacked(a, Below(s), Top(s), x); }
  }

  lemma Narrow(w: nat, h: int, height: int)
    requires w >= 1 && h <= height < 0
    ensures w * h <= height
  {
    assert (w - 1) * h <= 0;
    assert w * h == (w - 1) * h + h;
  }

  lemma Shrink(w: nat, h: int, width: nat, height: int)
    requires w <= width && h <= height && height >= 0
    ensures w * h <= width * height
  {
    assert w * h <= w * height;
    assert w * height <= width * height;
  }

  /** The largest area over all ranges for heights of either sign, but at least `-INT_MAX`. */
  method HistMaxArea(a: seq<int>) returns (best: int)
    ensures a == [] ==> best == -INT_MAX
    ensures IsMaxOrFloor(a, best)
    ensures AboveFloor(a) ==> IsMaxArea(a, best)
  {
    hide Area, IsStack, Covered, Above;
    var s: seq<nat>, i := [], 0;
    best := -INT_MAX;
    Begins(a, best);
    while i < |a|
      invariant 0 <= i <= |a|
      invariant InRange(s, i) && IsStack(a, s, i) && Covered(a, s, i, best) && Reached(a, best)
      invariant Above(a, s, i)
      invariant s == [] && i == 0 ==> best == -INT_MAX
      decreases |a| - i, |s|
    {
      if s == [] || a[i] > a[s[|s| - 1]] {
        assert s != [] ==> Top(s) == s[|s| - 1];
        PushCovers(a, s, i, best);
        s := s + [i];
        i := i + 1;
      } else {
        best, s := Pop(a, s, i, best);
      }
    }
    while s != []
      invariant InRange(s, i) && IsStack(a, s, i) && Covered(a, s, i, best) && Reached(a, best)
      invariant a == [] ==> best == -INT_MAX && s == []
    {
      best, s := Pop(a, s, i, best);
    }
    AllCovered(a, best);
  }

  ghost predicate InRange(s: seq<nat>, i: nat) {
    forall k :: 0 <= k < |s| ==> s[k] < i
  }

  lemma Begins(a: seq<int>, best: int)
    ensures IsStack(a, [], 0) && Above(a, [], 0) && Covered(a, [], 0, best)
  {
  }

  lemma AllCovered(a: seq<int>, best: int)
    requires Covered(a, [], |a|, best) && Reached(a, best)
    ensures IsMaxOrFloor(a, best)
    ensures AboveFloor(a) ==> IsMaxArea(a, best)
  {
    hide Area;
    if AboveFloor(a) && best == -INT_MAX {
      var k :| 0 <= k < |a| && a[k] >= -INT_MAX;
      ColumnArea(a, k);
      assert Area(a, k, k + 1) == best;
    }
  }

  lemma ColumnArea(a: seq<int>, k: nat)
    requires k < |a|
    ensures Area(a, k, k + 1) == a[k]
  {}

  /** The rectangle of the height on top, from the entry below it to here. */
  method Pop(a: seq<int>, s: seq<nat>, i: nat, best: int) returns (now: int, rest: seq<nat>)
    requires s != [] && InRange(s, i)
    requires IsStack(a, s, i) && Covered(a, s, i, best) && Reached(a, best)
    ensures rest == Below(s) && InRange(rest, i)
    ensures IsStack(a, rest, i) && Covered(a, rest, i, now) && Reached(a, now)
    ensures i < |a| && Above(a, s, i) && a[i] <= a[Top(s)] ==> Above(a, rest, i)
  {
    PopCovers(a, s, i, best);
    PopKeepsStack(a, s, i);
    TopArea(a, s, i);
    hide Covered, IsStack, Area, Above;
    var tmp := a[s[|s| - 1]];
    rest := s[..|s| - 1];
    var width := if rest == [] then i else i - rest[|rest| - 1] - 1;
    assert width == i - After(Below(s)) && tmp == a[Top(s)];
    now := if best < width * tmp then width * tmp else best;
  }

  // ---------------------------------------------------------------- in a matrix

  // A matrix of `n` columns is a sequence, row by row.

  function Cell(a: seq<bool>, n: nat, i: nat, j: nat): bool {
    j + i * n < |a| && a[j + i * n]
  }

  /** How many cells are true in a column, upwards from a row. */
  ghost function Height(a: seq<bool>, n: nat, i: nat, j: nat): nat
    decreases i
  {
    if !Cell(a, n, i, j) then 0 else if i == 0 then 1 else Height(a, n, i - 1, j) + 1
  }

  ghost function Row(a: seq<bool>, n: nat, i: nat): (r: seq<int>)
    ensures |r| == n && NonNegative(r)
    ensures forall j :: 0 <= j < n ==> r[j] == Height(a, n, i, j)
  {
    seq(n, j requires 0 <= j < n => Height(a, n, i, j))
  }

  /** Rows from `top` to `bottom`, columns from `left` to `right`; it may be empty. */
  ghost predicate AllTrue(a: seq<bool>, n: nat, top: nat, bottom: nat, left: nat, right: nat) {
    forall i, j :: top <= i < bottom && left <= j < right ==> Cell(a, n, i, j)
  }

  ghost predicate IsRectangle(a: seq<bool>, m: nat, n: nat, t: nat, b: nat, l: nat, r: nat) {
    t <= b <= m && l <= r <= n && AllTrue(a, n, t, b, l, r)
  }

  ghost function Cells(t: nat, b: nat, l: nat, r: nat): int {
    (b - t) * (r - l)
  }

  ghost predicate IsMaxRectangle(a: seq<bool>, m: nat, n: nat, best: int) {
    && (exists t, b, l, r :: IsRectangle(a, m, n, t, b, l, r) && Cells(t, b, l, r) == best)
    && (forall t, b, l, r :: IsRectangle(a, m, n, t, b, l, r) ==> Cells(t, b, l, r) <= best)
  }

  lemma {:induction false} HeightIsExact(a: seq<bool>, n: nat, i: nat, j: nat, k: nat)
    requires k <= i + 1
    ensures k <= Height(a, n, i, j) <==> forall x :: i + 1 - k <= x <= i ==> Cell(a, n, x, j)
    ensures Height(a, n, i, j) <= i + 1
    decreases i
  {
    if i > 0 {
      HeightIsExact(a, n, i - 1, j, if k == 0 then 0 else k - 1);
    }
  }

  ghost function RowArea(a: seq<bool>, n: nat, i: nat, l: nat, r: nat): int
    requires l < r <= n
  {
    Area(Row(a, n, i), l, r)
  }

  /** A rectangle of true cells lies under the heights of its last row. */
  lemma RectangleIsUnderRow(a: seq<bool>, m: nat, n: nat, t: nat, b: nat, l: nat, r: nat)
    requires IsRectangle(a, m, n, t, b, l, r) && t < b && l < r
    ensures Cells(t, b, l, r) <= RowArea(a, n, b - 1, l, r)
  {
    var row := Row(a, n, b - 1);
    forall j | l <= j < r ensures row[j] >= b - t {
      HeightIsExact(a, n, b - 1, j, b - t);
    }
    Shrink(r - l, b - t, r - l, Lowest(row, l, r));
    assert (b - t) * (r - l) == (r - l) * (b - t);
  }

  /** What lies under the heights of a row is a rectangle of true cells. */
  lemma UnderRowIsRectangle(a: seq<bool>, m: nat, n: nat, i: nat, l: nat, r: nat)
    requires i < m && l < r <= n
    ensures
      var h := Lowest(Row(a, n, i), l, r);
      && 0 <= h <= i + 1 && IsRectangle(a, m, n, i + 1 - h, i + 1, l, r)
      && Cells(i + 1 - h, i + 1, l, r) == RowArea(a, n, i, l, r)
  {
    var row := Row(a, n, i);
    var h := Lowest(row, l, r);
    HeightIsExact(a, n, i, l, 0);
    assert h <= row[l];
    forall x, j | i + 1 - h <= x < i + 1 && l <= j < r ensures Cell(a, n, x, j) {
      assert h <= row[j];
      HeightIsExact(a, n, i, j, h);
    }
    assert h * (r - l) == (r - l) * h;
  }

  ghost predicate IsBestOfRows(a: seq<bool>, n: nat, rows: nat, best: int) {
    && (forall i, l, r :: 0 <= i < rows && 0 <= l < r <= n ==> RowArea(a, n, i, l, r) <= best)
    && (rows > 0 && n > 0 ==>
          exists i, l, r :: 0 <= i < rows && 0 <= l < r <= n && RowArea(a, n, i, l, r) == best)
    && (rows == 0 || n == 0 ==> best == -INT_MAX)
  }

  lemma CellsAreCounted(t: nat, b: nat, l: nat, r: nat)
    requires t <= b && l <= r
    ensures Cells(t, b, l, r) >= 0
    ensures t == b || l == r ==> Cells(t, b, l, r) == 0
  {}

  lemma BestOfRowsIsMax(a: seq<bool>, m: nat, n: nat, best: int)
    requires m > 0 && n > 0 && IsBestOfRows(a, n, m, best)
    ensures IsMaxRectangle(a, m, n, best)
  {
    hide RowArea, Lowest, AllTrue, Cells;
    var i, l, r :| 0 <= i < m && 0 <= l < r <= n && RowArea(a, n, i, l, r) == best;
    UnderRowIsRectangle(a, m, n, i, l, r);
    CellsAreCounted(i + 1 - Lowest(Row(a, n, i), l, r), i + 1, l, r);
    forall t, b, l, r | IsRectangle(a, m, n, t, b, l, r) ensures Cells(t, b, l, r) <= best {
      CellsAreCounted(t, b, l, r);
      if t < b && l < r {
        RectangleIsUnderRow(a, m, n, t, b, l, r);
      }
    }
  }

  lemma OneMoreRow(a: seq<bool>, n: nat, i: nat, best: int, area: int)
    requires IsBestOfRows(a, n, i, best)
    requires n == 0 ==> area == -INT_MAX
    requires n > 0 ==> IsMaxArea(Row(a, n, i), area)
    ensures IsBestOfRows(a, n, i + 1, if best < area then area else best)
  {
    if n > 0 {
      var row := Row(a, n, i);
      var l, r :| 0 <= l < r <= |row| && Area(row, l, r) == area;
      assert RowArea(a, n, i, l, r) == area;
      forall l, r | 0 <= l < r <= n ensures RowArea(a, n, i, l, r) <= area {
        assert Area(row, l, r) <= area;
      }
      AreaIsNonNegative(row, l, r);
      hide RowArea, Row;
    }
  }

  lemma AreaIsNonNegative(a: seq<int>, l: nat, r: nat)
    requires NonNegative(a) && l < r <= |a|
    ensures Area(a, l, r) >= 0
  {
  }

  /** The first `k` cells of the table hold the heights. */
  ghost predicate Filled(b: seq<int>, a: seq<bool>, n: nat, k: nat) {
    k <= |b| && (n > 0 ==> forall x :: 0 <= x < k ==> b[x] == Height(a, n, x / n, x % n))
  }

  lemma Position(n: nat, i: nat, j: nat)
    requires j < n
    ensures (j + i * n) / n == i && (j + i * n) % n == j
  {
    DivisionIsUnique(n, (j + i * n) / n, (j + i * n) % n, i, j);
  }

  lemma Distribute(x: int, y: int, n: int)
    ensures (x + y) * n == x * n + y * n
  {
  }

  lemma AtLeastOnce(x: int, n: nat)
    requires x >= 1
    ensures x * n >= n
  {
    Distribute(x - 1, 1, n);
  }

  lemma DivisionIsUnique(n: nat, q: int, r: nat, i: int, j: nat)
    requires r < n && j < n && q * n + r == i * n + j
    ensures q == i && r == j
  {
    Distribute(i - q, q, n);
    if q < i {
      AtLeastOnce(i - q, n);
    } else if q > i {
      AtLeastOnce(q - i, n);
      Distribute(q - i, i - q, n);
    }
  }

  /** `-INT_MAX` when there are no columns. */
  method MaxRectangle(a: seq<bool>, m: nat, n: nat) returns (best: int)
    requires m > 0 && |a| == m * n
    ensures n == 0 ==> best == -INT_MAX
    ensures n > 0 ==> IsMaxRectangle(a, m, n, best)
  {
    var b := HeightTable(a, m, n);
    best := -INT_MAX;
    for i := 0 to m
      invariant IsBestOfRows(a, n, i, best)
    {
      RowFits(i, m, n);
      RowOfTable(b, a, m, n, i);
      hide IsBestOfRows, IsMaxArea, IsMaxOrFloor, AboveFloor, NonNegative;
      if n > 0 { NonNegativeIsAbove(Row(a, n, i)); }
      var area := HistMaxArea(b[i * n..i * n + n]);
      OneMoreRow(a, n, i, best, area);
      best := if best < area then area else best;
    }
    if n > 0 { BestOfRowsIsMax(a, m, n, best); }
  }

  lemma RowFits(i: nat, m: nat, n: nat)
    requires i < m
    ensures 0 <= i * n && i * n + n <= m * n
  {
    Distribute(i, m - i, n);
    AtLeastOnce(m - i, n);
  }

  lemma RowOfTable(b: seq<int>, a: seq<bool>, m: nat, n: nat, i: nat)
    requires i < m && |b| == m * n && Filled(b, a, n, m * n)
    requires 0 <= i * n && i * n + n <= m * n
    ensures b[i * n..i * n + n] == Row(a, n, i)
  {
    forall j | 0 <= j < n ensures b[i * n + j] == Height(a, n, i, j) {
      Position(n, i, j);
    }
  }

  /** Fills the table row by row, each from the one above. */
  method HeightTable(a: seq<bool>, m: nat, n: nat) returns (table: seq<int>)
    requires m > 0 && |a| == m * n
    ensures |table| == m * n && Filled(table, a, n, m * n)
  {
    RowFits(0, m, n);
    var b := new int[m * n];
    for j := 0 to n
      invariant Filled(b[..], a, n, j)
    {
      Position(n, 0, j);
      b[j] := if a[j] then 1 else 0;
    }
    for i := 1 to m
      invariant Filled(b[..], a, n, i * n)
    {
      RowFits(i, m, n);
      for j := 0 to n
        invariant Filled(b[..], a, n, j + i * n)
      {
        NextHeight(b[..], a, n, i, j);
        b[j + i * n] := if a[j + i * n] then b[j + i * n - n] + 1 else 0;
      }
      Distribute(i, 1, n);
    }
    return b[..];
  }

  lemma NextHeight(b: seq<int>, a: seq<bool>, n: nat, i: nat, j: nat)
    requires 0 < i && j < n && j + i * n < |a| == |b| && Filled(b, a, n, j + i * n)
    ensures (j + i * n) / n == i && (j + i * n) % n == j && 0 <= j + i * n - n
    ensures Height(a, n, i, j) == if a[j + i * n] then b[j + i * n - n] + 1 else 0
  {
    Position(n, i, j);
    Position(n, i - 1, j);
    RowFits(0, i, n);
    Distribute(i, -1, n);
  }
}
