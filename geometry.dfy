/**
 * Grid geometry of the search board: cells, Manhattan distance, the
 * orthogonal neighbours of a cell, and the row-major list comprehensions the
 * board builds (the diamond neighbourhood of a cell and the cells far from it).
 */
module Geometry {

  /** A board cell as (row, column); 0-indexed when it lies on the board. */
  type Cell = (int, int)

  function Abs(x: int): nat {
    if x < 0 then -x else x
  }

  function Max(a: int, b: int): int {
    if a >= b then a else b
  }

  function Min(a: int, b: int): int {
    if a <= b then a else b
  }

  predicate InBounds(dim: int, p: Cell) {
    0 <= p.0 < dim && 0 <= p.1 < dim
  }

  /** Board.manhattan: sum of the absolute row and column differences. */
  function Manhattan(p: Cell, q: Cell): (d: nat)
    ensures d == 0 <==> p == q
    ensures d >= Abs(q.0 - p.0) && d >= Abs(q.1 - p.1)
  {
    Abs(q.0 - p.0) + Abs(q.1 - p.1)
  }

  lemma ManhattanSymmetric(p: Cell, q: Cell)
    ensures Manhattan(p, q) == Manhattan(q, p)
  {
  }

  lemma ManhattanTriangle(p: Cell, q: Cell, r: Cell)
    ensures Manhattan(p, r) <= Manhattan(p, q) + Manhattan(q, r)
  {
  }

  /** Number of board edges (top, bottom, left, right) that cell p lies on. */
  function EdgeCount(dim: int, p: Cell): nat {
    (if p.0 == 0 then 1 else 0) + (if p.0 == dim - 1 then 1 else 0) +
    (if p.1 == 0 then 1 else 0) + (if p.1 == dim - 1 then 1 else 0)
  }

  /**
   * Board.getNeighbors: up, down, left, right, each kept unless p sits on
   * that edge. For a cell on the board the list is exactly the on-board cells
   * one step away, without repetition.
   */
  function Neighbors(dim: int, p: Cell): (r: seq<Cell>)
    ensures InBounds(dim, p) ==>
      forall q: Cell :: q in r <==> InBounds(dim, q) && Manhattan(p, q) == 1
    ensures InBounds(dim, p) ==> |r| == 4 - EdgeCount(dim, p)
    ensures forall i, j :: 0 <= i < j < |r| ==> r[i] != r[j]
  {
    var (row, col) := p;
    (if row != 0 then [(row - 1, col)] else []) +
    (if row != dim - 1 then [(row + 1, col)] else []) +
    (if col != 0 then [(row, col - 1)] else []) +
    (if col != dim - 1 then [(row, col + 1)] else [])
  }

  /**
   * On a board of side at least 2 a corner has two neighbours, another edge
   * cell three and an interior cell four; on a 1x1 board the only cell has none.
   */
  lemma NeighborCounts(dim: int, p: Cell)
    requires InBounds(dim, p)
    ensures dim == 1 ==> Neighbors(dim, p) == []
    ensures dim >= 2 ==>
      (|Neighbors(dim, p)| == 2 <==> (p.0 == 0 || p.0 == dim - 1) && (p.1 == 0 || p.1 == dim - 1))
    ensures dim >= 2 ==>
      (|Neighbors(dim, p)| == 4 <==> 0 < p.0 < dim - 1 && 0 < p.1 < dim - 1)
    ensures dim >= 2 ==> 2 <= |Neighbors(dim, p)| <= 4
  {
    var n := Neighbors(dim, p);
    if dim == 1 {
      assert |n| == 0;
    }
  }

  /** Row-major order: lower row first, then lower column. */
  predicate RowMajorBefore(a: Cell, b: Cell) {
    a.0 < b.0 || (a.0 == b.0 && a.1 < b.1)
  }

  predicate RowMajorSorted(s: seq<Cell>) {
    forall i, j :: 0 <= i < j < |s| ==> RowMajorBefore(s[i], s[j])
  }

  lemma SortedAppend(a: seq<Cell>, b: seq<Cell>)
    requires RowMajorSorted(a) && RowMajorSorted(b)
    requires forall i, j :: 0 <= i < |a| && 0 <= j < |b| ==> RowMajorBefore(a[i], b[j])
    ensures RowMajorSorted(a + b)
  {
    var s := a + b;
    forall i, j | 0 <= i < j < |s|
      ensures RowMajorBefore(s[i], s[j])
    {
      if j < |a| {
        assert s[i] == a[i] && s[j] == a[j];
      } else if i >= |a| {
        assert s[i] == b[i - |a|] && s[j] == b[j - |a|];
      } else {
        assert s[i] == a[i] && s[j] == b[j - |a|];
      }
    }
  }

  /**
   * The cells (r, c) with cLo <= c < cHi that satisfy keep, in column order:
   * one row of a Python list comprehension over two ranges.
   */
  function ScanRow(r: int, cLo: int, cHi: int, keep: Cell -> bool): (s: seq<Cell>)
    decreases cHi - cLo
    ensures forall k :: 0 <= k < |s| ==> s[k].0 == r && cLo <= s[k].1 < cHi && keep(s[k])
    ensures forall c :: cLo <= c < cHi && keep((r, c)) ==> (r, c) in s
    ensures RowMajorSorted(s)
  {
    if cLo >= cHi then []
    else
      var rest := ScanRow(r, cLo + 1, cHi, keep);
      var head := if keep((r, cLo)) then [(r, cLo)] else [];
      SortedAppend(head, rest);
      head + rest
  }

  /**
   * `[(row, col) for row in range(rLo, rHi) for col in range(cLo, cHi) if keep]`:
   * the cells of the rectangle that satisfy keep, in row-major order.
   */
  function Scan(rLo: int, rHi: int, cLo: int, cHi: int, keep: Cell -> bool): (s: seq<Cell>)
    decreases rHi - rLo
    ensures forall k :: 0 <= k < |s| ==>
      rLo <= s[k].0 < rHi && cLo <= s[k].1 < cHi && keep(s[k])
    ensures forall q: Cell :: rLo <= q.0 < rHi && cLo <= q.1 < cHi && keep(q) ==> q in s
    ensures RowMajorSorted(s)
  {
    if rLo >= rHi then []
    else
      var row := ScanRow(rLo, cLo, cHi, keep);
      var rest := Scan(rLo + 1, rHi, cLo, cHi, keep);
      SortedAppend(row, rest);
      row + rest
  }

  /**
   * The neighbourhood list of Board.exploreMove and the bestLocal* selectors:
   * the rows and columns within x of p, clipped to the board, filtered to
   * Manhattan distance at most x. It holds exactly the on-board cells within
   * distance x of p, each once, in row-major order.
   */
  function Diamond(dim: int, p: Cell, x: int): (s: seq<Cell>)
    ensures forall q: Cell :: q in s <==> InBounds(dim, q) && Manhattan(q, p) <= x
    ensures forall k :: 0 <= k < |s| ==> InBounds(dim, s[k]) && Manhattan(s[k], p) <= x
    ensures RowMajorSorted(s)
  {
    Scan(Max(0, p.0 - x), Min(dim, p.0 + x + 1), Max(0, p.1 - x), Min(dim, p.1 + x + 1),
         q => Manhattan(q, p) <= x)
  }

  /**
   * The far_cells list of Board.isNearby: every board cell farther than
   * radius from p, each once, in row-major order.
   */
  function FarCells(dim: int, p: Cell, radius: int): (s: seq<Cell>)
    ensures forall q: Cell :: q in s <==> InBounds(dim, q) && Manhattan(q, p) > radius
    ensures forall k :: 0 <= k < |s| ==> InBounds(dim, s[k]) && Manhattan(s[k], p) > radius
    ensures RowMajorSorted(s)
  {
    Scan(0, dim, 0, dim, q => Manhattan(q, p) > radius)
  }

  /** No cell of the dim x dim board lies within distance x of p. */
  predicate NoCellWithin(dim: int, p: Cell, x: int) {
    forall i, j :: 0 <= i < dim && 0 <= j < dim ==> Manhattan((i, j), p) > x
  }

  /** In a row-major sorted list, list order and row-major order agree. */
  lemma SortedIndexOrder(s: seq<Cell>, i: int, k: int)
    requires RowMajorSorted(s)
    requires 0 <= i < |s| && 0 <= k < |s|
    ensures RowMajorBefore(s[i], s[k]) <==> i < k
  {
    if k < i {
      assert RowMajorBefore(s[k], s[i]);
    }
  }

  /** No board cell within distance x of p comes before the diamond's first cell. */
  lemma DiamondFirst(dim: int, p: Cell, x: int, q: Cell)
    requires Diamond(dim, p, x) != [] && InBounds(dim, q)
    ensures RowMajorBefore(q, Diamond(dim, p, x)[0]) ==> Manhattan(q, p) > x
  {
    var s := Diamond(dim, p, x);
    if Manhattan(q, p) <= x {
      assert q in s;
      var idx :| 0 <= idx < |s| && s[idx] == q;
      SortedIndexOrder(s, idx, 0);
    }
  }

  /** A diamond around a board cell with a non-negative radius holds at least that cell. */
  lemma CenterWithin(dim: int, p: Cell, x: int)
    requires InBounds(dim, p) && x >= 0
    ensures !NoCellWithin(dim, p, x)
  {
    assert Manhattan((p.0, p.1), p) == 0;
  }
}
