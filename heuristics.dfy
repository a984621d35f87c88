/**
 * Per-cell scores of the board's selectors: the 0/1 feasibility gate, the
 * distance weights (plain, damped, half-damped), the blocking factors for
 * cells the horizon rules out, and the travel cost of a cell, that is its
 * distance weight divided by its chance of yielding the target.
 */
module Heuristics {

  /** Arbitrary large factor that pushes ruled-out cells to the back. */
  const BLOCK: int := 999999999

  /** `(known_cleared == 0)` used as a factor: 1 for a feasible cell, else 0. */
  function Gate(h: int): real {
    if h == 0 then 1.0 else 0.0
  }

  /** The plain distance weight `|dr| + |dc| + 1`. */
  function Travel(d: int): real {
    (d + 1) as real
  }

  /** bestWeightedDist: `max(1, (|dr| + |dc| + 1) - 5)`. */
  function Damped(d: int): real {
    if d + 1 - 5 > 1 then (d + 1 - 5) as real else 1.0
  }

  /** bestWeightedDist2: `max(1, (|dr| + |dc| + 1) * 0.5 - 5)`. */
  function Damped2(d: int): real {
    var w := (d + 1) as real * 0.5 - 5.0;
    if w > 1.0 then w else 1.0
  }

  /** bestDistMoving: `np.where(known_cleared == 0, 1, BLOCK)`. */
  function Blocked(h: int): real {
    if h == 0 then 1.0 else BLOCK as real
  }

  /** bestLocal3: `(known_cleared != 0) * BLOCK + 1`. */
  function Penalty(h: int): real {
    (if h != 0 then BLOCK else 0) as real + 1.0
  }

  /** A distance weight amortised over the chance b * m of finding the target. */
  function Cost(weight: real, b: real, m: real): real
    requires b > 0.0 && m > 0.0
  {
    weight / (b * m)
  }

  /**
   * The damped weights flatten the distance term near the searcher: no cell
   * within 5 steps (11 for the half-damped variant) is preferred for being
   * closer, the damped weights never exceed the plain one, and beyond the
   * damping radius the damped weight is the plain one less 5.
   */
  lemma DampingOrder(d: nat)
    ensures 1.0 <= Damped2(d) <= Damped(d) <= Travel(d)
    ensures Damped(d) == 1.0 <==> d <= 5
    ensures Damped2(d) == 1.0 <==> d <= 11
    ensures d >= 5 ==> Damped(d) == Travel(d) - 5.0
  {
  }

  /**
   * A cell that is no farther (smaller weight) and no less likely to yield
   * the target (larger b * m) never costs more.
   */
  lemma CostOrder(w1: real, b1: real, m1: real, w2: real, b2: real, m2: real)
    requires b1 > 0.0 && m1 > 0.0 && b2 > 0.0 && m2 > 0.0
    requires 0.0 <= w1 <= w2
    requires b2 * m2 <= b1 * m1
    ensures Cost(w1, b1, m1) <= Cost(w2, b2, m2)
  {
    var x1, x2 := b1 * m1, b2 * m2;
    assert 0.0 < x2 <= x1;
    assert w1 / x1 <= w2 / x1;
    assert w2 / x1 <= w2 / x2;
  }

  /** At equal chance of finding the target, a strictly smaller weight costs strictly less. */
  lemma CostStrict(w1: real, w2: real, b: real, m: real)
    requires b > 0.0 && m > 0.0 && w1 < w2
    ensures Cost(w1, b, m) < Cost(w2, b, m)
  {
    var x := b * m;
    assert x > 0.0;
    assert w1 / x < w2 / x;
  }

  /** Scaling by a positive factor keeps the order of two scores. */
  lemma ScaleKeepsOrder(a: real, b: real, m: real)
    requires m > 0.0
    ensures a <= b ==> a * m <= b * m
    ensures a < b ==> a * m < b * m
  {
  }

  /**
   * The blocking factors multiply the cost of a ruled-out cell by BLOCK
   * (BLOCK + 1 in bestLocal3) and leave a feasible cell's cost as it is.
   */
  lemma BlockingScales(h: int, w: real, b: real, m: real)
    requires b > 0.0 && m > 0.0
    ensures Cost(w * Blocked(h), b, m) == (if h == 0 then 1.0 else BLOCK as real) * Cost(w, b, m)
    ensures Cost(w * Penalty(h), b, m) == (if h == 0 then 1.0 else BLOCK as real + 1.0) * Cost(w, b, m)
  {
  }
}
