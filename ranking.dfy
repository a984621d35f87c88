/**
 * First-occurrence argmax and argmin: numpy's `argmax`/`argmin` over a
 * flattened grid and Python's `max`/`min` with a key over a list both return
 * the first extreme element, scanning in order.
 */
module Ranking {
  import opened Geometry

  datatype Option<T> = None | Some(value: T)

  /** k is the first index of a largest element of s. */
  predicate IsFirstMax(s: seq<real>, k: int) {
    && 0 <= k < |s|
    && (forall j :: 0 <= j < |s| ==> s[j] <= s[k])
    && (forall j :: 0 <= j < k ==> s[j] < s[k])
  }

  /** k is the first index of a smallest element of s. */
  predicate IsFirstMin(s: seq<real>, k: int) {
    && 0 <= k < |s|
    && (forall j :: 0 <= j < |s| ==> s[k] <= s[j])
    && (forall j :: 0 <= j < k ==> s[k] < s[j])
  }

  /** The first-occurrence rule pins the index down. */
  lemma FirstMaxUnique(s: seq<real>, k1: int, k2: int)
    requires IsFirstMax(s, k1) && IsFirstMax(s, k2)
    ensures k1 == k2
  {
    assert s[k1] == s[k2];
  }

  function ArgMax(s: seq<real>): (k: nat)
    requires |s| > 0
    ensures IsFirstMax(s, k)
    decreases |s|
  {
    if |s| == 1 then 0
    else
      var k := ArgMax(s[..|s| - 1]);
      if s[k] < s[|s| - 1] then |s| - 1 else k
  }

  function ArgMin(s: seq<real>): (k: nat)
    requires |s| > 0
    ensures IsFirstMin(s, k)
    decreases |s|
  {
    if |s| == 1 then 0
    else
      var k := ArgMin(s[..|s| - 1]);
      if s[|s| - 1] < s[k] then |s| - 1 else k
  }

  /** g is a dim x dim grid of scores, g[row][col]. */
  predicate IsSquare(g: seq<seq<real>>, dim: int) {
    |g| == dim && forall i :: 0 <= i < dim ==> |g[i]| == dim
  }

  /** The grid's rows laid end to end: numpy's row-major flattening. */
  function Flatten(g: seq<seq<real>>): seq<real> {
    if g == [] then [] else g[0] + Flatten(g[1..])
  }

  /** Flattening n rows of width w gives n * w scores. */
  lemma {:induction false} FlattenLength(g: seq<seq<real>>, w: int)
    requires w >= 0
    requires forall i :: 0 <= i < |g| ==> |g[i]| == w
    ensures |Flatten(g)| == |g| * w
    decreases |g|
  {
    if g != [] {
      FlattenLength(g[1..], w);
    }
  }

  /** Row i, column j of n rows of width w sits at index i * w + j. */
  lemma {:induction false} FlattenRowsAt(g: seq<seq<real>>, w: int, i: int, j: int)
    requires w >= 1
    requires forall r :: 0 <= r < |g| ==> |g[r]| == w
    requires 0 <= i < |g| && 0 <= j < w
    ensures |Flatten(g)| == |g| * w
    ensures 0 <= i * w + j < |g| * w
    ensures Flatten(g)[i * w + j] == g[i][j]
    decreases |g|
  {
    FlattenLength(g, w);
    if i > 0 {
      var rest := g[1..];
      var k := (i - 1) * w + j;
      FlattenRowsAt(rest, w, i - 1, j);
      assert |rest| * w + w == |g| * w;
      assert k + w == i * w + j;
      assert Flatten(g) == g[0] + Flatten(rest);
      assert (g[0] + Flatten(rest))[w + k] == Flatten(rest)[k];
    }
  }

  /** Cell (k / dim, k % dim) of a dim x dim grid is the one at flat index k. */
  lemma CellOfIndex(dim: int, k: int)
    requires dim >= 1 && 0 <= k < dim * dim
    ensures 0 <= k / dim < dim && 0 <= k % dim < dim
    ensures (k / dim) * dim + k % dim == k
  {
  }

  /** Between two cells of the grid, row-major order is flat-index order. */
  lemma RowMajorIndexOrder(dim: int, a: Cell, b: Cell)
    requires dim >= 1 && InBounds(dim, a) && InBounds(dim, b)
    ensures RowMajorBefore(a, b) <==> a.0 * dim + a.1 < b.0 * dim + b.1
  {
    if a.0 < b.0 {
      RowGap(dim, a.0, b.0);
    } else if b.0 < a.0 {
      RowGap(dim, b.0, a.0);
    }
  }

  /** Every row of the flattened grid starts at least dim places after the previous one. */
  lemma {:induction false} RowGap(dim: int, r1: int, r2: int)
    requires dim >= 1 && r1 < r2
    ensures r1 * dim + dim <= r2 * dim
    decreases r2 - r1
  {
    if r1 + 1 < r2 {
      RowGap(dim, r1 + 1, r2);
    }
  }

  /**
   * c is the cell a whole-board maximum selector picks from the dim x dim
   * score grid g: a board cell scoring at least as much as every cell, and
   * strictly more than every cell before it in row-major order.
   */
  predicate IsGridArgMax(dim: int, g: seq<seq<real>>, c: Cell)
    requires IsSquare(g, dim)
  {
    && InBounds(dim, c)
    && forall i, j :: 0 <= i < dim && 0 <= j < dim ==>
         g[i][j] <= g[c.0][c.1] && (RowMajorBefore((i, j), c) ==> g[i][j] < g[c.0][c.1])
  }

  /** The minimising counterpart of IsGridArgMax. */
  predicate IsGridArgMin(dim: int, g: seq<seq<real>>, c: Cell)
    requires IsSquare(g, dim)
  {
    && InBounds(dim, c)
    && forall i, j :: 0 <= i < dim && 0 <= j < dim ==>
         g[c.0][c.1] <= g[i][j] && (RowMajorBefore((i, j), c) ==> g[c.0][c.1] < g[i][j])
  }

  /**
   * c is the cell a bestLocal* maximum selector picks: a board cell within
   * distance x of pos scoring at least as much as every such cell, and
   * strictly more than every such cell before it in row-major order.
   */
  predicate IsLocalArgMax(dim: int, g: seq<seq<real>>, pos: Cell, x: int, c: Cell)
    requires IsSquare(g, dim)
  {
    && InBounds(dim, c) && Manhattan(c, pos) <= x
    && forall i, j :: 0 <= i < dim && 0 <= j < dim && Manhattan((i, j), pos) <= x ==>
         g[i][j] <= g[c.0][c.1] && (RowMajorBefore((i, j), c) ==> g[i][j] < g[c.0][c.1])
  }

  /** The minimising counterpart of IsLocalArgMax. */
  predicate IsLocalArgMin(dim: int, g: seq<seq<real>>, pos: Cell, x: int, c: Cell)
    requires IsSquare(g, dim)
  {
    && InBounds(dim, c) && Manhattan(c, pos) <= x
    && forall i, j :: 0 <= i < dim && 0 <= j < dim && Manhattan((i, j), pos) <= x ==>
         g[c.0][c.1] <= g[i][j] && (RowMajorBefore((i, j), c) ==> g[c.0][c.1] < g[i][j])
  }

  /**
   * `max_pos = grid.argmax(); (max_pos // dim, max_pos % dim)`: the cell of
   * largest score, the first such in row-major order.
   */
  function ArgMax2D(dim: int, g: seq<seq<real>>): (c: Cell)
    requires dim >= 1 && IsSquare(g, dim)
    ensures IsGridArgMax(dim, g, c)
  {
    var f := Flatten(g);
    FlattenLength(g, dim);
    var k := ArgMax(f);
    CellOfIndex(dim, k);
    var c := (k / dim, k % dim);
    FlattenRowsAt(g, dim, c.0, c.1);
    forall i, j | 0 <= i < dim && 0 <= j < dim
      ensures g[i][j] <= g[c.0][c.1] && (RowMajorBefore((i, j), c) ==> g[i][j] < g[c.0][c.1])
    {
      FlattenRowsAt(g, dim, i, j);
      RowMajorIndexOrder(dim, (i, j), c);
    }
    c
  }

  /**
   * `min_pos = grid.argmin(); (min_pos // dim, min_pos % dim)`: the cell of
   * smallest score, the first such in row-major order.
   */
  function ArgMin2D(dim: int, g: seq<seq<real>>): (c: Cell)
    requires dim >= 1 && IsSquare(g, dim)
    ensures IsGridArgMin(dim, g, c)
  {
    var f := Flatten(g);
    FlattenLength(g, dim);
    var k := ArgMin(f);
    CellOfIndex(dim, k);
    var c := (k / dim, k % dim);
    FlattenRowsAt(g, dim, c.0, c.1);
    forall i, j | 0 <= i < dim && 0 <= j < dim
      ensures g[c.0][c.1] <= g[i][j] && (RowMajorBefore((i, j), c) ==> g[c.0][c.1] < g[i][j])
    {
      FlattenRowsAt(g, dim, i, j);
      RowMajorIndexOrder(dim, (i, j), c);
    }
    c
  }

  /** The scores of a list of board cells, read off the grid in list order. */
  function Gather(dim: int, g: seq<seq<real>>, cells: seq<Cell>): (s: seq<real>)
    requires IsSquare(g, dim)
    requires forall k :: 0 <= k < |cells| ==> 0 <= cells[k].0 < dim && 0 <= cells[k].1 < dim
    ensures |s| == |cells|
    ensures forall k :: 0 <= k < |cells| ==> s[k] == g[cells[k].0][cells[k].1]
  {
    if cells == [] then [] else [g[cells[0].0][cells[0].1]] + Gather(dim, g, cells[1..])
  }

  /**
   * On a row-major sorted list, the first index of a largest score beats
   * every cell that comes before it in row-major order.
   */
  lemma SortedFirstMax(cells: seq<Cell>, scores: seq<real>, k: int)
    requires |scores| == |cells| && RowMajorSorted(cells) && IsFirstMax(scores, k)
    ensures forall i :: 0 <= i < |cells| && RowMajorBefore(cells[i], cells[k]) ==> scores[i] < scores[k]
  {
    forall i | 0 <= i < |cells| && RowMajorBefore(cells[i], cells[k]) ensures scores[i] < scores[k] {
      SortedIndexOrder(cells, i, k);
    }
  }

  /**
   * On a row-major sorted list, the first index of a smallest score beats
   * every cell that comes before it in row-major order.
   */
  lemma SortedFirstMin(cells: seq<Cell>, scores: seq<real>, k: int)
    requires |scores| == |cells| && RowMajorSorted(cells) && IsFirstMin(scores, k)
    ensures forall i :: 0 <= i < |cells| && RowMajorBefore(cells[i], cells[k]) ==> scores[k] < scores[i]
  {
    forall i | 0 <= i < |cells| && RowMajorBefore(cells[i], cells[k]) ensures scores[k] < scores[i] {
      SortedIndexOrder(cells, i, k);
    }
  }

  /** The first largest score of the diamond's list is the local maximum choice. */
  lemma LocalMaxChoice(dim: int, g: seq<seq<real>>, pos: Cell, x: int, nb: seq<Cell>, scores: seq<real>, k: int)
    requires IsSquare(g, dim) && RowMajorSorted(nb)
    requires forall q: Cell :: q in nb <==> InBounds(dim, q) && Manhattan(q, pos) <= x
    requires |scores| == |nb|
    requires forall m :: 0 <= m < |nb| ==> InBounds(dim, nb[m]) && scores[m] == g[nb[m].0][nb[m].1]
    requires IsFirstMax(scores, k)
    ensures IsLocalArgMax(dim, g, pos, x, nb[k])
  {
    SortedFirstMax(nb, scores, k);
    forall i, j | 0 <= i < dim && 0 <= j < dim && Manhattan((i, j), pos) <= x
      ensures g[i][j] <= scores[k] && (RowMajorBefore((i, j), nb[k]) ==> g[i][j] < scores[k])
    {
      assert (i, j) in nb;
      var idx :| 0 <= idx < |nb| && nb[idx] == (i, j);
      assert scores[idx] == g[i][j];
    }
  }

  /** The first smallest score of the diamond's list is the local minimum choice. */
  lemma LocalMinChoice(dim: int, g: seq<seq<real>>, pos: Cell, x: int, nb: seq<Cell>, scores: seq<real>, k: int)
    requires IsSquare(g, dim) && RowMajorSorted(nb)
    requires forall q: Cell :: q in nb <==> InBounds(dim, q) && Manhattan(q, pos) <= x
    requires |scores| == |nb|
    requires forall m :: 0 <= m < |nb| ==> InBounds(dim, nb[m]) && scores[m] == g[nb[m].0][nb[m].1]
    requires IsFirstMin(scores, k)
    ensures IsLocalArgMin(dim, g, pos, x, nb[k])
  {
    SortedFirstMin(nb, scores, k);
    forall i, j | 0 <= i < dim && 0 <= j < dim && Manhattan((i, j), pos) <= x
      ensures scores[k] <= g[i][j] && (RowMajorBefore((i, j), nb[k]) ==> scores[k] < g[i][j])
    {
      assert (i, j) in nb;
      var idx :| 0 <= idx < |nb| && nb[idx] == (i, j);
      assert scores[idx] == g[i][j];
    }
  }

  /**
   * `max(neighborhood, key=...)` over the diamond of radius x around pos,
   * the key being the score grid g. Python raises on an empty
   * neighbourhood; here that is None.
   */
  function LocalArgMax(dim: int, g: seq<seq<real>>, pos: Cell, x: int): (r: Option<Cell>)
    requires IsSquare(g, dim)
    ensures r.None? <==> NoCellWithin(dim, pos, x)
    ensures r.Some? ==> IsLocalArgMax(dim, g, pos, x, r.value)
  {
    var nb := Diamond(dim, pos, x);
    if nb == [] then
      None
    else
      var scores := Gather(dim, g, nb);
      var k := ArgMax(scores);
      LocalMaxChoice(dim, g, pos, x, nb, scores, k);
      Some(nb[k])
  }

  /**
   * `min(neighborhood, key=...)` over the diamond of radius x around pos,
   * the key being the score grid g. Python raises on an empty
   * neighbourhood; here that is None.
   */
  function LocalArgMin(dim: int, g: seq<seq<real>>, pos: Cell, x: int): (r: Option<Cell>)
    requires IsSquare(g, dim)
    ensures r.None? <==> NoCellWithin(dim, pos, x)
    ensures r.Some? ==> IsLocalArgMin(dim, g, pos, x, r.value)
  {
    var nb := Diamond(dim, pos, x);
    if nb == [] then
      None
    else
      var scores := Gather(dim, g, nb);
      var k := ArgMin(scores);
      LocalMinChoice(dim, g, pos, x, nb, scores, k);
      Some(nb[k])
  }

  /** Two distinct cells are ordered one way or the other in row-major order. */
  lemma RowMajorTotal(a: Cell, b: Cell)
    ensures a == b || RowMajorBefore(a, b) || RowMajorBefore(b, a)
  {
  }

  /** The first-occurrence rule leaves exactly one whole-board maximum choice. */
  lemma GridArgMaxUnique(dim: int, g: seq<seq<real>>, c1: Cell, c2: Cell)
    requires IsSquare(g, dim) && IsGridArgMax(dim, g, c1) && IsGridArgMax(dim, g, c2)
    ensures c1 == c2
  {
    RowMajorTotal(c1, c2);
  }

  /** The first-occurrence rule leaves exactly one whole-board minimum choice. */
  lemma GridArgMinUnique(dim: int, g: seq<seq<real>>, c1: Cell, c2: Cell)
    requires IsSquare(g, dim) && IsGridArgMin(dim, g, c1) && IsGridArgMin(dim, g, c2)
    ensures c1 == c2
  {
    RowMajorTotal(c1, c2);
  }

  /** The first-occurrence rule leaves exactly one local maximum choice. */
  lemma LocalArgMaxUnique(dim: int, g: seq<seq<real>>, pos: Cell, x: int, c1: Cell, c2: Cell)
    requires IsSquare(g, dim) && IsLocalArgMax(dim, g, pos, x, c1) && IsLocalArgMax(dim, g, pos, x, c2)
    ensures c1 == c2
  {
    RowMajorTotal(c1, c2);
  }

  /** The first-occurrence rule leaves exactly one local minimum choice. */
  lemma LocalArgMinUnique(dim: int, g: seq<seq<real>>, pos: Cell, x: int, c1: Cell, c2: Cell)
    requires IsSquare(g, dim) && IsLocalArgMin(dim, g, pos, x, c1) && IsLocalArgMin(dim, g, pos, x, c2)
    ensures c1 == c2
  {
    RowMajorTotal(c1, c2);
  }

  /** Grids that agree on every board cell have the same maximum choice. */
  lemma SameScoresSameArgMax(dim: int, g1: seq<seq<real>>, g2: seq<seq<real>>)
    requires dim >= 1 && IsSquare(g1, dim) && IsSquare(g2, dim)
    requires forall i, j :: 0 <= i < dim && 0 <= j < dim ==> g1[i][j] == g2[i][j]
    ensures ArgMax2D(dim, g1) == ArgMax2D(dim, g2)
  {
    var c1, c2 := ArgMax2D(dim, g1), ArgMax2D(dim, g2);
    assert IsGridArgMax(dim, g2, c1);
    GridArgMaxUnique(dim, g2, c1, c2);
  }

  /** Grids that agree on every board cell have the same minimum choice. */
  lemma SameScoresSameArgMin(dim: int, g1: seq<seq<real>>, g2: seq<seq<real>>)
    requires dim >= 1 && IsSquare(g1, dim) && IsSquare(g2, dim)
    requires forall i, j :: 0 <= i < dim && 0 <= j < dim ==> g1[i][j] == g2[i][j]
    ensures ArgMin2D(dim, g1) == ArgMin2D(dim, g2)
  {
    var c1, c2 := ArgMin2D(dim, g1), ArgMin2D(dim, g2);
    assert IsGridArgMin(dim, g2, c1);
    GridArgMinUnique(dim, g2, c1, c2);
  }

  /** Grids that agree within distance x of pos have the same local maximum choice. */
  lemma SameScoresSameLocalMax(dim: int, g1: seq<seq<real>>, g2: seq<seq<real>>, pos: Cell, x: int)
    requires IsSquare(g1, dim) && IsSquare(g2, dim)
    requires forall i, j :: 0 <= i < dim && 0 <= j < dim && Manhattan((i, j), pos) <= x ==> g1[i][j] == g2[i][j]
    ensures LocalArgMax(dim, g1, pos, x) == LocalArgMax(dim, g2, pos, x)
  {
    var r1, r2 := LocalArgMax(dim, g1, pos, x), LocalArgMax(dim, g2, pos, x);
    if r1.Some? {
      assert IsLocalArgMax(dim, g2, pos, x, r1.value);
      LocalArgMaxUnique(dim, g2, pos, x, r1.value, r2.value);
    }
  }

  /** Grids that agree within distance x of pos have the same local minimum choice. */
  lemma SameScoresSameLocalMin(dim: int, g1: seq<seq<real>>, g2: seq<seq<real>>, pos: Cell, x: int)
    requires IsSquare(g1, dim) && IsSquare(g2, dim)
    requires forall i, j :: 0 <= i < dim && 0 <= j < dim && Manhattan((i, j), pos) <= x ==> g1[i][j] == g2[i][j]
    ensures LocalArgMin(dim, g1, pos, x) == LocalArgMin(dim, g2, pos, x)
  {
    var r1, r2 := LocalArgMin(dim, g1, pos, x), LocalArgMin(dim, g2, pos, x);
    if r1.Some? {
      assert IsLocalArgMin(dim, g2, pos, x, r1.value);
      LocalArgMinUnique(dim, g2, pos, x, r1.value, r2.value);
    }
  }
}
