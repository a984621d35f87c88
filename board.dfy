/**
 * The search board of the hunting simulation: terrain, the belief grid,
 * the detection mask, the hidden target and, for a moving target, the
 * feasibility horizon (`_known_cleared`), with the operations that search,
 * update beliefs, move the target, maintain the horizon and pick the next
 * cell to search.
 */
module Hunting {
  import opened Geometry
  import opened Detection
  import opened Heuristics
  import opened Ranking

  /** Radius around a searched cell that a far miss of exploreMove rules out. */
  const CLEAR_RADIUS: int := 5

  /**
   * Result of Board.exploreMove: Invalid for a cell off the board (the source
   * returns -1), else whether the target was found and whether it lies within
   * CLEAR_RADIUS of the searched cell.
   */
  datatype Probe = Invalid | Outcome(found: bool, nearby: bool)

  /** update_cleared_cells on one entry: `np.maximum(0, h - 1)`. */
  function Decayed(h: int): int {
    if h - 1 > 0 then h - 1 else 0
  }

  /**
   * A horizon entry that was 0 or below the old distance to the target stays
   * 0 or below the new distance once it has counted down, when the target
   * moved at most one step.
   */
  lemma DecayKeepsSound(h: int, before: int, after: int)
    requires h == 0 || h < before
    requires before <= after + 1
    ensures Decayed(h) == 0 || Decayed(h) < after
  {
  }

  /**
   * The per-cell score of each selector. Whole-grid selectors take the
   * argmax or argmin of these scores; the bestLocal* selectors take the max
   * or min over the diamond around a cell.
   */
  datatype Rule =
    | Contains                  // board
    | ContainsMoving            // board * (known_cleared == 0)
    | Find                      // board * mask
    | FindMoving                // board * mask * (known_cleared == 0)
    | Dist(from: Cell)          // (d + 1) / (board * mask)
    | DistMoving(from: Cell)    // (d + 1) * where(known_cleared == 0, 1, BLOCK) / (board * mask)
    | WeightedDist(from: Cell)  // max(1, (d + 1) - 5) / (board * mask)
    | WeightedDist2(from: Cell) // max(1, (d + 1) * 0.5 - 5) / (board * mask)
    | LocalDist(from: Cell)     // (d + 1) * ((known_cleared != 0) * BLOCK + 1) / (board * mask)

  /**
   * A horizon entry that was sound for a target at from stays sound, once
   * counted down, for the target one step away at to.
   */
  lemma StepKeepsSound(q: Cell, from: Cell, to: Cell, h: int)
    requires Manhattan(from, to) <= 1
    requires h == 0 || h < Manhattan(q, from)
    ensures Decayed(h) == 0 || Decayed(h) < Manhattan(q, to)
  {
    ManhattanTriangle(q, to, from);
    ManhattanSymmetric(to, from);
    DecayKeepsSound(h, Manhattan(q, from), Manhattan(q, to));
  }

  /**
   * isNearby's raise of a far cell keeps that cell's horizon entry sound when
   * the target really is within radius of pos.
   */
  lemma RaiseKeepsSound(q: Cell, pos: Cell, target: Cell, radius: int, h: int)
    requires Manhattan(pos, target) <= radius
    requires h == 0 || h < Manhattan(q, target)
    ensures var raised := if Manhattan(q, pos) > radius then Max(h, Manhattan(q, pos) - (radius + 1)) else h;
      raised == 0 || raised < Manhattan(q, target)
  {
    ManhattanTriangle(q, target, pos);
    ManhattanSymmetric(pos, target);
  }

  class Board {
    const dim: nat
    /** `_board`: terrain code per cell. */
    const terrain: array2<int>
    /** `board`: un-normalised likelihood that the target is in each cell. */
    const belief: array2<real>
    /** `_board_mask`: chance that searching a cell finds a target that is there. */
    const mask: array2<real>
    /** Whether the board was built for a moving target (only then does `_known_cleared` exist). */
    const moving: bool
    /** `_known_cleared`: turns before the target could be back in each cell. */
    const cleared: array2<int>
    var target: Cell

    ghost predicate Valid()
      reads terrain, belief, mask, cleared
    {
      && dim >= 1
      && terrain.Length0 == dim && terrain.Length1 == dim
      && belief.Length0 == dim && belief.Length1 == dim
      && mask.Length0 == dim && mask.Length1 == dim
      && cleared.Length0 == dim && cleared.Length1 == dim
      && belief != mask && terrain != cleared
      && (forall i, j :: 0 <= i < dim && 0 <= j < dim ==> belief[i, j] > 0.0)
      && (forall i, j :: 0 <= i < dim && 0 <= j < dim ==> mask[i, j] == DetectionRate(terrain[i, j]))
      && (forall i, j :: 0 <= i < dim && 0 <= j < dim ==> cleared[i, j] >= 0)
    }

    /**
     * The horizon never rules out a cell the target could be in: every
     * nonzero entry is smaller than that cell's distance to the target, so in
     * particular the target's own cell reads 0.
     */
    ghost predicate HorizonSound()
      reads this, cleared
    {
      forall i, j :: 0 <= i < cleared.Length0 && 0 <= j < cleared.Length1 ==>
        cleared[i, j] == 0 || cleared[i, j] < Manhattan((i, j), target)
    }

    /**
     * `Board(dim, copy_board, copy_target, moving_target)`: the terrain and
     * target are given; every belief is 1/dim^2; the mask starts at one and
     * is scaled by 0.9, 0.7, 0.3, 0.1 on FLAT, HILL, FOREST, CAVE cells; the
     * horizon starts at zero.
     */
    constructor (n: nat, copyBoard: array2<int>, copyTarget: Cell, movingTarget: bool)
      requires n >= 1 && copyBoard.Length0 == n && copyBoard.Length1 == n
      ensures Valid() && HorizonSound()
      ensures dim == n && terrain == copyBoard && target == copyTarget && moving == movingTarget
      ensures fresh(belief) && fresh(mask) && fresh(cleared)
      ensures forall i, j :: 0 <= i < n && 0 <= j < n ==> belief[i, j] == 1.0 / (n * n) as real
      ensures forall i, j :: 0 <= i < n && 0 <= j < n ==> mask[i, j] == DetectionRate(copyBoard[i, j])
      ensures forall i, j :: 0 <= i < n && 0 <= j < n ==> cleared[i, j] == 0
    {
      assert n * n >= 1 by {
        assert n * n >= n * 1;
      }
      var share := 1.0 / (n * n) as real;
      assert share > 0.0;
      var b := new real[n, n]((i, j) => share);
      var m := TerrainMask(n, copyBoard);
      var c := new int[n, n]((i, j) => 0);
      dim := n;
      terrain := copyBoard;
      target := copyTarget;
      belief := b;
      mask := m;
      moving := movingTarget;
      cleared := c;
      new;
      assert forall i, j :: 0 <= i < n && 0 <= j < n ==> b[i, j] > 0.0;
      assert forall i, j :: 0 <= i < n && 0 <= j < n ==> c[i, j] == 0;
      assert Valid();
      assert HorizonSound();
    }

    /**
     * The mask of the constructor: all ones, then scaled by 0.9, 0.7, 0.3
     * and 0.1 on the FLAT, HILL, FOREST and CAVE cells.
     */
    static method TerrainMask(n: nat, copyBoard: array2<int>) returns (m: array2<real>)
      requires copyBoard.Length0 == n && copyBoard.Length1 == n
      ensures fresh(m) && m.Length0 == n && m.Length1 == n
      ensures forall i, j :: 0 <= i < n && 0 <= j < n ==> m[i, j] == DetectionRate(copyBoard[i, j])
    {
      m := new real[n, n]((i, j) => 1.0);
      forall i, j | 0 <= i < n && 0 <= j < n && copyBoard[i, j] == FLAT {
        m[i, j] := m[i, j] * 0.9;
      }
      assert forall i, j :: 0 <= i < n && 0 <= j < n ==>
        m[i, j] == if copyBoard[i, j] == FLAT then 0.9 else 1.0;
      forall i, j | 0 <= i < n && 0 <= j < n && copyBoard[i, j] == HILL {
        m[i, j] := m[i, j] * 0.7;
      }
      assert forall i, j :: 0 <= i < n && 0 <= j < n ==>
        m[i, j] == if copyBoard[i, j] == FLAT then 0.9 else if copyBoard[i, j] == HILL then 0.7 else 1.0;
      forall i, j | 0 <= i < n && 0 <= j < n && copyBoard[i, j] == FOREST {
        m[i, j] := m[i, j] * 0.3;
      }
      assert forall i, j :: 0 <= i < n && 0 <= j < n ==>
        m[i, j] == if copyBoard[i, j] == FLAT then 0.9 else if copyBoard[i, j] == HILL then 0.7
                   else if copyBoard[i, j] == FOREST then 0.3 else 1.0;
      forall i, j | 0 <= i < n && 0 <= j < n && copyBoard[i, j] == CAVE {
        m[i, j] := m[i, j] * 0.1;
      }
      assert forall i, j :: 0 <= i < n && 0 <= j < n ==> m[i, j] == DetectionRate(copyBoard[i, j]);
    }

    /**
     * Board.explore with the detection draw supplied as a uniform sample u:
     * INVALID off the board, MISSING on any other cell than the target's,
     * and on the target's cell FOUND exactly when u falls in the top
     * mask-sized share of [0, 1). A terrain code outside the four known ones
     * yields INVALID there.
     */
    function Explore(pos: Cell, u: real): (r: int)
      requires Valid()
      reads this, terrain, belief, mask, cleared
      ensures r == INVALID || r == MISSING || r == FOUND
      ensures r == INVALID <==>
        !InBounds(dim, pos) || (pos == target && !KnownTerrain(terrain[pos.0, pos.1]))
      ensures r == FOUND <==>
        InBounds(dim, pos) && pos == target && KnownTerrain(terrain[pos.0, pos.1]) &&
        1.0 - mask[pos.0, pos.1] <= u
    {
      if pos.0 < 0 || pos.1 < 0 || pos.0 >= dim || pos.1 >= dim then INVALID
      else if target != pos then MISSING
      else
        var t := terrain[pos.0, pos.1];
        if t == FLAT then Draw(0.1, u)
        else if t == HILL then Draw(0.3, u)
        else if t == FOREST then Draw(0.7, u)
        else if t == CAVE then Draw(0.9, u)
        else INVALID
    }

    /**
     * Board.update_probability: after a failed search of pos, its belief is
     * scaled by the terrain's miss factor; nothing else changes and no
     * renormalisation takes place.
     */
    method UpdateProbability(pos: Cell)
      requires Valid() && InBounds(dim, pos)
      modifies belief
      ensures Valid()
      ensures belief[pos.0, pos.1] == old(belief[pos.0, pos.1]) * MissFactor(terrain[pos.0, pos.1])
      ensures 0.0 < belief[pos.0, pos.1] < old(belief[pos.0, pos.1])
      ensures forall i, j :: 0 <= i < dim && 0 <= j < dim && (i, j) != pos ==>
        belief[i, j] == old(belief[i, j])
    {
      var t := terrain[pos.0, pos.1];
      if t == FLAT {
        belief[pos.0, pos.1] := belief[pos.0, pos.1] * 0.1;
      } else if t == HILL {
        belief[pos.0, pos.1] := belief[pos.0, pos.1] * 0.3;
      } else if t == FOREST {
        belief[pos.0, pos.1] := belief[pos.0, pos.1] * 0.7;
      } else {
        belief[pos.0, pos.1] := belief[pos.0, pos.1] * 0.9;
      }
      DecayShrinks(old(belief[pos.0, pos.1]), t);
    }

    /**
     * Board.update_cleared_cells: every horizon entry counts down by one and
     * stops at zero.
     */
    method UpdateClearedCells()
      requires Valid() && moving
      modifies cleared
      ensures Valid()
      ensures forall i, j :: 0 <= i < dim && 0 <= j < dim ==> cleared[i, j] == Decayed(old(cleared[i, j]))
      ensures forall i, j :: 0 <= i < dim && 0 <= j < dim ==> cleared[i, j] <= old(cleared[i, j])
      ensures old(HorizonSound()) ==> HorizonSound()
    {
      forall i, j | 0 <= i < dim && 0 <= j < dim {
        cleared[i, j] := Decayed(cleared[i, j]);
      }
    }

    /**
     * Board.target_movement: the target steps to the neighbour chosen by
     * pick (the source draws it uniformly) and stays put only when it has no
     * neighbour, which on the board happens only when dim is 1; then, when
     * asked, the horizon counts down. With the count-down the horizon stays
     * sound for the moved target.
     */
    method TargetMovement(pick: nat, updateCleared: bool)
      requires Valid()
      requires updateCleared ==> moving
      requires Neighbors(dim, target) != [] ==> pick < |Neighbors(dim, target)|
      modifies this, cleared
      ensures Valid()
      ensures target == if Neighbors(dim, old(target)) == [] then old(target)
                        else Neighbors(dim, old(target))[pick]
      ensures Manhattan(old(target), target) <= 1
      ensures InBounds(dim, old(target)) ==>
        InBounds(dim, target) && (target == old(target) <==> dim == 1)
      ensures updateCleared ==>
        forall i, j :: 0 <= i < dim && 0 <= j < dim ==> cleared[i, j] == Decayed(old(cleared[i, j]))
      ensures !updateCleared ==> unchanged(cleared)
      ensures updateCleared && old(HorizonSound()) ==> HorizonSound()
    {
      ghost var from := target;
      var neighbors := Neighbors(dim, target);
      if |neighbors| > 0 {
        target := neighbors[pick];
      }
      if InBounds(dim, from) && dim != 1 {
        NeighborCounts(dim, from);
      }
      assert Manhattan(from, target) <= 1;
      if updateCleared {
        UpdateClearedCells();
        if old(HorizonSound()) {
          forall i, j | 0 <= i < dim && 0 <= j < dim
            ensures cleared[i, j] == 0 || cleared[i, j] < Manhattan((i, j), target)
          {
            StepKeepsSound((i, j), from, target, old(cleared[i, j]));
          }
        }
      }
    }

    /**
     * Board.exploreMove with the detection draw supplied as a uniform sample
     * u. Off the board: Invalid. Found: (true, true). A miss with the target
     * within CLEAR_RADIUS: (false, true). A miss with the target farther:
     * (false, false), and every board cell within CLEAR_RADIUS of pos has its
     * horizon overwritten with CLEAR_RADIUS minus its distance. Only that last
     * case touches the horizon, and never the target's own cell.
     */
    method ExploreMove(pos: Cell, u: real) returns (r: Probe)
      requires Valid()
      requires moving || !InBounds(dim, pos) || Manhattan(pos, target) <= CLEAR_RADIUS
      modifies cleared
      ensures Valid()
      ensures r == Invalid <==> !InBounds(dim, pos)
      ensures r == Outcome(true, true) <==>
        InBounds(dim, pos) && pos == target && MissFactor(terrain[pos.0, pos.1]) <= u
      ensures r == Outcome(false, true) <==>
        InBounds(dim, pos) && Manhattan(pos, target) <= CLEAR_RADIUS &&
        !(pos == target && MissFactor(terrain[pos.0, pos.1]) <= u)
      ensures r == Outcome(false, false) <==> InBounds(dim, pos) && Manhattan(pos, target) > CLEAR_RADIUS
      ensures r == Outcome(false, false) ==>
        forall i, j :: 0 <= i < dim && 0 <= j < dim ==>
          cleared[i, j] == if Manhattan((i, j), pos) <= CLEAR_RADIUS
                           then CLEAR_RADIUS - Manhattan((i, j), pos)
                           else old(cleared[i, j])
      ensures r != Outcome(false, false) ==> unchanged(cleared)
      ensures InBounds(dim, target) ==> cleared[target.0, target.1] == old(cleared[target.0, target.1])
      ensures old(HorizonSound()) ==> HorizonSound()
      ensures InBounds(dim, pos) && KnownTerrain(terrain[pos.0, pos.1]) ==>
        (r == Outcome(true, true) <==> old(Explore(pos, u)) == FOUND)
    {
      if pos.0 < 0 || pos.1 < 0 || pos.0 >= dim || pos.1 >= dim {
        return Invalid;
      }
      var ret: int;
      if target != pos {
        ret := MISSING;
      } else {
        var t := terrain[pos.0, pos.1];
        if t == FLAT {
          ret := Draw(0.1, u);
        } else if t == HILL {
          ret := Draw(0.3, u);
        } else if t == FOREST {
          ret := Draw(0.7, u);
        } else {
          ret := Draw(0.9, u);
        }
      }
      if ret == MISSING {
        if Manhattan(pos, target) > CLEAR_RADIUS {
          MarkCleared(pos);
          return Outcome(false, false);
        }
        return Outcome(false, true);
      }
      return Outcome(true, true);
    }

    /**
     * The far-miss branch of Board.exploreMove: every board cell within
     * CLEAR_RADIUS of pos gets CLEAR_RADIUS minus its distance to pos, the
     * number of turns the target needs at least to walk there. As the target
     * is farther than CLEAR_RADIUS from pos, its own cell is not touched and
     * the horizon stays sound.
     */
    method MarkCleared(pos: Cell)
      requires Valid() && moving && InBounds(dim, pos) && Manhattan(pos, target) > CLEAR_RADIUS
      modifies cleared
      ensures Valid()
      ensures forall i, j :: 0 <= i < dim && 0 <= j < dim ==>
        cleared[i, j] == if Manhattan((i, j), pos) <= CLEAR_RADIUS
                         then CLEAR_RADIUS - Manhattan((i, j), pos)
                         else old(cleared[i, j])
      ensures InBounds(dim, target) ==> cleared[target.0, target.1] == old(cleared[target.0, target.1])
      ensures old(HorizonSound()) ==> HorizonSound()
    {
      var neighborhood := Diamond(dim, pos, CLEAR_RADIUS);
      RewriteCells(neighborhood, (h, q) => CLEAR_RADIUS - Manhattan(q, pos));
      forall i, j | 0 <= i < dim && 0 <= j < dim
        ensures cleared[i, j] == if Manhattan((i, j), pos) <= CLEAR_RADIUS
                                 then CLEAR_RADIUS - Manhattan((i, j), pos)
                                 else old(cleared[i, j])
      {
        assert (i, j) in neighborhood <==> Manhattan((i, j), pos) <= CLEAR_RADIUS;
      }
      forall i, j | 0 <= i < dim && 0 <= j < dim && Manhattan((i, j), pos) <= CLEAR_RADIUS
        ensures CLEAR_RADIUS - Manhattan((i, j), pos) < Manhattan((i, j), target)
      {
        ManhattanTriangle(pos, (i, j), target);
        ManhattanSymmetric(pos, (i, j));
      }
    }

    /**
     * Board.isNearby: every board cell farther than radius from pos has its
     * horizon raised to at least its distance minus (radius + 1); nearer
     * cells are untouched, so no entry decreases. When the target really is
     * within radius of pos, the horizon stays sound.
     */
    method IsNearby(pos: Cell, radius: int)
      requires Valid()
      requires moving || FarCells(dim, pos, radius) == []
      modifies cleared
      ensures Valid()
      ensures forall i, j :: 0 <= i < dim && 0 <= j < dim ==>
        cleared[i, j] == if Manhattan((i, j), pos) > radius
                         then Max(old(cleared[i, j]), Manhattan((i, j), pos) - (radius + 1))
                         else old(cleared[i, j])
      ensures forall i, j :: 0 <= i < dim && 0 <= j < dim ==> cleared[i, j] >= old(cleared[i, j])
      ensures Manhattan(pos, target) <= radius && old(HorizonSound()) ==> HorizonSound()
    {
      var farCells := FarCells(dim, pos, radius);
      RewriteCells(farCells, (h, q) => Max(h, Manhattan(q, pos) - (radius + 1)));
      forall i, j | 0 <= i < dim && 0 <= j < dim
        ensures cleared[i, j] == if Manhattan((i, j), pos) > radius
                                 then Max(old(cleared[i, j]), Manhattan((i, j), pos) - (radius + 1))
                                 else old(cleared[i, j])
        ensures cleared[i, j] >= old(cleared[i, j]) >= 0
      {
        assert (i, j) in farCells <==> Manhattan((i, j), pos) > radius;
      }
      if Manhattan(pos, target) <= radius && old(HorizonSound()) {
        forall i, j | 0 <= i < dim && 0 <= j < dim
          ensures cleared[i, j] == 0 || cleared[i, j] < Manhattan((i, j), target)
        {
          RaiseKeepsSound((i, j), pos, target, radius, old(cleared[i, j]));
        }
      }
    }
  
    /**
     * The loops of Board.exploreMove and Board.isNearby: for each cell of a
     * row-major list, in order, overwrite its horizon entry with f of the
     * entry and the cell. Cells off the list keep their entries.
     */
    method RewriteCells(cells: seq<Cell>, f: (int, Cell) -> int)
      requires moving || cells == []
      requires cleared.Length0 == dim && cleared.Length1 == dim
      requires forall k :: 0 <= k < |cells| ==> InBounds(dim, cells[k])
      requires RowMajorSorted(cells)
      modifies cleared
      ensures forall i, j :: 0 <= i < dim && 0 <= j < dim ==>
        cleared[i, j] == if (i, j) in cells then f(old(cleared[i, j]), (i, j)) else old(cleared[i, j])
    {
      for k := 0 to |cells|
        invariant forall i, j :: 0 <= i < dim && 0 <= j < dim && (i, j) !in cells[..k] ==>
          cleared[i, j] == old(cleared[i, j])
        invariant forall m :: 0 <= m < k ==>
          cleared[cells[m].0, cells[m].1] == f(old(cleared[cells[m].0, cells[m].1]), cells[m])
      {
        var (row, col) := cells[k];
        assert cells[..k + 1] == cells[..k] + [(row, col)];
        assert forall m :: 0 <= m < k ==> RowMajorBefore(cells[m], cells[k]);
        cleared[row, col] := f(cleared[row, col], cells[k]);
      }
      assert cells[..|cells|] == cells;
    }

    /** The score of board cell c under a selector rule. */
    function Score(rule: Rule, c: Cell): real
      requires Valid() && InBounds(dim, c)
      reads terrain, belief, mask, cleared
    {
      var b, m, h := belief[c.0, c.1], mask[c.0, c.1], cleared[c.0, c.1];
      match rule
      case Contains => b
      case ContainsMoving => b * Gate(h)
      case Find => b * m
      case FindMoving => b * m * Gate(h)
      case Dist(from) => Cost(Travel(Manhattan(from, c)), b, m)
      case DistMoving(from) => Cost(Travel(Manhattan(from, c)) * Blocked(h), b, m)
      case WeightedDist(from) => Cost(Damped(Manhattan(from, c)), b, m)
      case WeightedDist2(from) => Cost(Damped2(Manhattan(from, c)), b, m)
      case LocalDist(from) => Cost(Travel(Manhattan(from, c)) * Penalty(h), b, m)
    }

    /** The dim x dim grid of scores that a selector ranks. */
    function ScoreGrid(rule: Rule): (g: seq<seq<real>>)
      requires Valid()
      reads terrain, belief, mask, cleared
      ensures IsSquare(g, dim)
      ensures forall i, j :: 0 <= i < dim && 0 <= j < dim ==> g[i][j] == Score(rule, (i, j))
    {
      seq(dim, i requires 0 <= i < dim && Valid() reads terrain, belief, mask, cleared =>
        seq(dim, j requires 0 <= j < dim && 0 <= i < dim && Valid() reads terrain, belief, mask, cleared =>
          Score(rule, (i, j))))
    }

    /**
     * Board.bestContains: the cell of largest belief. The first such cell in
     * row-major order wins ties.
     */
    function BestContains(): (c: Cell)
      requires Valid()
      reads terrain, belief, mask, cleared
      ensures IsGridArgMax(dim, ScoreGrid(Contains), c)
    {
      ArgMax2D(dim, ScoreGrid(Contains))
    }

    /**
     * Board.bestContainsMoving: the cell of largest belief once every cell
     * with a nonzero horizon is scored 0. The first such cell in
     * row-major order wins ties.
     */
    function BestContainsMoving(): (c: Cell)
      requires Valid() && moving
      reads terrain, belief, mask, cleared
      ensures IsGridArgMax(dim, ScoreGrid(ContainsMoving), c)
    {
      ArgMax2D(dim, ScoreGrid(ContainsMoving))
    }

    /**
     * Board.bestFind: the cell of largest belief times detection rate. The first such cell in
     * row-major order wins ties.
     */
    function BestFind(): (c: Cell)
      requires Valid()
      reads terrain, belief, mask, cleared
      ensures IsGridArgMax(dim, ScoreGrid(Find), c)
    {
      ArgMax2D(dim, ScoreGrid(Find))
    }

    /**
     * Board.bestFindMoving: the cell of largest belief times detection rate
     * once every cell with a nonzero horizon is scored 0. The first such cell in
     * row-major order wins ties.
     */
    function BestFindMoving(): (c: Cell)
      requires Valid() && moving
      reads terrain, belief, mask, cleared
      ensures IsGridArgMax(dim, ScoreGrid(FindMoving), c)
    {
      ArgMax2D(dim, ScoreGrid(FindMoving))
    }

    /**
     * Board.bestDistNumpy: the cell of least (distance from pos + 1) divided
     * by belief times detection rate. The first such cell in
     * row-major order wins ties.
     */
    function BestDistNumpy(pos: Cell): (c: Cell)
      requires Valid()
      reads terrain, belief, mask, cleared
      ensures IsGridArgMin(dim, ScoreGrid(Dist(pos)), c)
    {
      ArgMin2D(dim, ScoreGrid(Dist(pos)))
    }

    /**
     * Board.bestDistMoving: as bestDistNumpy, with the cost of every cell
     * whose horizon is nonzero multiplied by BLOCK. The first such cell in
     * row-major order wins ties.
     */
    function BestDistMoving(pos: Cell): (c: Cell)
      requires Valid() && moving
      reads terrain, belief, mask, cleared
      ensures IsGridArgMin(dim, ScoreGrid(DistMoving(pos)), c)
    {
      ArgMin2D(dim, ScoreGrid(DistMoving(pos)))
    }

    /**
     * Board.bestWeightedDist: as bestDistNumpy with the distance weight
     * damped to max(1, distance + 1 - 5). The first such cell in
     * row-major order wins ties.
     */
    function BestWeightedDist(pos: Cell): (c: Cell)
      requires Valid()
      reads terrain, belief, mask, cleared
      ensures IsGridArgMin(dim, ScoreGrid(WeightedDist(pos)), c)
    {
      ArgMin2D(dim, ScoreGrid(WeightedDist(pos)))
    }

    /**
     * Board.bestWeightedDist2: as bestDistNumpy with the distance weight
     * damped to max(1, (distance + 1) / 2 - 5). The first such cell in
     * row-major order wins ties.
     */
    function BestWeightedDist2(pos: Cell): (c: Cell)
      requires Valid()
      reads terrain, belief, mask, cleared
      ensures IsGridArgMin(dim, ScoreGrid(WeightedDist2(pos)), c)
    {
      ArgMin2D(dim, ScoreGrid(WeightedDist2(pos)))
    }

    /**
     * Board.bestLocal: the cell of largest belief among
     * the board cells within distance x of pos, the first in row-major order
     * among ties; None where Python's max would raise on an empty neighbourhood.
     */
    function BestLocal(pos: Cell, x: int): (r: Option<Cell>)
      requires Valid()
      reads terrain, belief, mask, cleared
      ensures r.None? <==> NoCellWithin(dim, pos, x)
      ensures r.Some? ==> IsLocalArgMax(dim, ScoreGrid(Contains), pos, x, r.value)
    {
      LocalArgMax(dim, ScoreGrid(Contains), pos, x)
    }

    /**
     * Board.bestLocalMoving: the cell of largest gated belief among
     * the board cells within distance x of pos, the first in row-major order
     * among ties; None where Python's max would raise on an empty neighbourhood.
     */
    function BestLocalMoving(pos: Cell, x: int): (r: Option<Cell>)
      requires Valid() && moving
      reads terrain, belief, mask, cleared
      ensures r.None? <==> NoCellWithin(dim, pos, x)
      ensures r.Some? ==> IsLocalArgMax(dim, ScoreGrid(ContainsMoving), pos, x, r.value)
    {
      LocalArgMax(dim, ScoreGrid(ContainsMoving), pos, x)
    }

    /**
     * Board.bestLocal2: the cell of largest belief times detection rate among
     * the board cells within distance x of pos, the first in row-major order
     * among ties; None where Python's max would raise on an empty neighbourhood.
     */
    function BestLocal2(pos: Cell, x: int): (r: Option<Cell>)
      requires Valid()
      reads terrain, belief, mask, cleared
      ensures r.None? <==> NoCellWithin(dim, pos, x)
      ensures r.Some? ==> IsLocalArgMax(dim, ScoreGrid(Find), pos, x, r.value)
    {
      LocalArgMax(dim, ScoreGrid(Find), pos, x)
    }

    /**
     * Board.bestLocal2Moving: the cell of largest gated belief times detection rate among
     * the board cells within distance x of pos, the first in row-major order
     * among ties; None where Python's max would raise on an empty neighbourhood.
     */
    function BestLocal2Moving(pos: Cell, x: int): (r: Option<Cell>)
      requires Valid() && moving
      reads terrain, belief, mask, cleared
      ensures r.None? <==> NoCellWithin(dim, pos, x)
      ensures r.Some? ==> IsLocalArgMax(dim, ScoreGrid(FindMoving), pos, x, r.value)
    {
      LocalArgMax(dim, ScoreGrid(FindMoving), pos, x)
    }

    /**
     * Board.bestLocal3: the cell of least (distance + 1) times
     * (BLOCK + 1 if its horizon is nonzero, else 1) divided by belief times
     * detection rate among
     * the board cells within distance x of pos, the first in row-major order
     * among ties; None where Python's min would raise on an empty neighbourhood.
     */
    function BestLocal3(pos: Cell, x: int): (r: Option<Cell>)
      requires Valid() && moving
      reads terrain, belief, mask, cleared
      ensures r.None? <==> NoCellWithin(dim, pos, x)
      ensures r.Some? ==> IsLocalArgMin(dim, ScoreGrid(LocalDist(pos)), pos, x, r.value)
    {
      LocalArgMin(dim, ScoreGrid(LocalDist(pos)), pos, x)
    }

    /** Where the horizon reads 0, every gated score equals its ungated one. */
    lemma ZeroHorizonScores(c: Cell, pos: Cell)
      requires Valid() && InBounds(dim, c) && cleared[c.0, c.1] == 0
      ensures Score(ContainsMoving, c) == Score(Contains, c)
      ensures Score(FindMoving, c) == Score(Find, c)
      ensures Score(DistMoving(pos), c) == Score(Dist(pos), c)
      ensures Score(LocalDist(pos), c) == Score(Dist(pos), c)
    {
    }

    /** With an all-zero horizon, bestContainsMoving chooses what bestContains chooses. */
    lemma ZeroHorizonContains()
      requires Valid() && moving
      requires forall i, j :: 0 <= i < dim && 0 <= j < dim ==> cleared[i, j] == 0
      ensures BestContainsMoving() == BestContains()
    {
      var g1, g2 := ScoreGrid(ContainsMoving), ScoreGrid(Contains);
      forall i, j | 0 <= i < dim && 0 <= j < dim
        ensures g1[i][j] == g2[i][j]
      {
        ZeroHorizonScores((i, j), (0, 0));
      }
      SameScoresSameArgMax(dim, g1, g2);
    }

    /** With an all-zero horizon, bestFindMoving chooses what bestFind chooses. */
    lemma ZeroHorizonFind()
      requires Valid() && moving
      requires forall i, j :: 0 <= i < dim && 0 <= j < dim ==> cleared[i, j] == 0
      ensures BestFindMoving() == BestFind()
    {
      var g1, g2 := ScoreGrid(FindMoving), ScoreGrid(Find);
      forall i, j | 0 <= i < dim && 0 <= j < dim
        ensures g1[i][j] == g2[i][j]
      {
        ZeroHorizonScores((i, j), (0, 0));
      }
      SameScoresSameArgMax(dim, g1, g2);
    }

    /** With an all-zero horizon, bestDistMoving chooses what bestDistNumpy chooses. */
    lemma ZeroHorizonDist(pos: Cell)
      requires Valid() && moving
      requires forall i, j :: 0 <= i < dim && 0 <= j < dim ==> cleared[i, j] == 0
      ensures BestDistMoving(pos) == BestDistNumpy(pos)
    {
      var g1, g2 := ScoreGrid(DistMoving(pos)), ScoreGrid(Dist(pos));
      forall i, j | 0 <= i < dim && 0 <= j < dim
        ensures g1[i][j] == g2[i][j]
      {
        ZeroHorizonScores((i, j), pos);
      }
      SameScoresSameArgMin(dim, g1, g2);
    }

    /** With an all-zero horizon, bestLocalMoving chooses what bestLocal chooses. */
    lemma ZeroHorizonLocal(pos: Cell, x: int)
      requires Valid() && moving
      requires forall i, j :: 0 <= i < dim && 0 <= j < dim ==> cleared[i, j] == 0
      ensures BestLocalMoving(pos, x) == BestLocal(pos, x)
    {
      var g1, g2 := ScoreGrid(ContainsMoving), ScoreGrid(Contains);
      forall i, j | 0 <= i < dim && 0 <= j < dim
        ensures g1[i][j] == g2[i][j]
      {
        ZeroHorizonScores((i, j), pos);
      }
      SameScoresSameLocalMax(dim, g1, g2, pos, x);
    }

    /** With an all-zero horizon, bestLocal2Moving chooses what bestLocal2 chooses. */
    lemma ZeroHorizonLocal2(pos: Cell, x: int)
      requires Valid() && moving
      requires forall i, j :: 0 <= i < dim && 0 <= j < dim ==> cleared[i, j] == 0
      ensures BestLocal2Moving(pos, x) == BestLocal2(pos, x)
    {
      var g1, g2 := ScoreGrid(FindMoving), ScoreGrid(Find);
      forall i, j | 0 <= i < dim && 0 <= j < dim
        ensures g1[i][j] == g2[i][j]
      {
        ZeroHorizonScores((i, j), pos);
      }
      SameScoresSameLocalMax(dim, g1, g2, pos, x);
    }

    /** With an all-zero horizon, bestLocal3 chooses the local minimum of the
     * bestDistNumpy cost. */
    lemma ZeroHorizonLocal3(pos: Cell, x: int)
      requires Valid() && moving
      requires forall i, j :: 0 <= i < dim && 0 <= j < dim ==> cleared[i, j] == 0
      ensures BestLocal3(pos, x) == LocalArgMin(dim, ScoreGrid(Dist(pos)), pos, x)
    {
      var g1, g2 := ScoreGrid(LocalDist(pos)), ScoreGrid(Dist(pos));
      forall i, j | 0 <= i < dim && 0 <= j < dim
        ensures g1[i][j] == g2[i][j]
      {
        ZeroHorizonScores((i, j), pos);
      }
      SameScoresSameLocalMin(dim, g1, g2, pos, x);
    }

    /** A gated score is positive exactly on a cell whose horizon reads 0. */
    lemma GatedScoreSign(c: Cell)
      requires Valid() && InBounds(dim, c)
      ensures Score(ContainsMoving, c) > 0.0 <==> cleared[c.0, c.1] == 0
      ensures Score(FindMoving, c) > 0.0 <==> cleared[c.0, c.1] == 0
    {
      var b, m := belief[c.0, c.1], mask[c.0, c.1];
      assert b * m > 0.0;
    }

    /**
     * bestContainsMoving lands on a cell whose horizon reads 0 whenever the
     * board has one, q: beliefs are positive, so q outscores every
     * ruled-out cell.
     */
    lemma ContainsMovingPrefersFeasible(q: Cell)
      requires Valid() && moving && InBounds(dim, q) && cleared[q.0, q.1] == 0
      ensures cleared[BestContainsMoving().0, BestContainsMoving().1] == 0
    {
      var c := BestContainsMoving();
      var g := ScoreGrid(ContainsMoving);
      assert g[q.0][q.1] <= g[c.0][c.1];
      GatedScoreSign(q);
      GatedScoreSign(c);
    }

    /**
     * bestFindMoving lands on a cell whose horizon reads 0 whenever the
     * board has one, q: beliefs are positive, so q outscores every
     * ruled-out cell.
     */
    lemma FindMovingPrefersFeasible(q: Cell)
      requires Valid() && moving && InBounds(dim, q) && cleared[q.0, q.1] == 0
      ensures cleared[BestFindMoving().0, BestFindMoving().1] == 0
    {
      var c := BestFindMoving();
      var g := ScoreGrid(FindMoving);
      assert g[q.0][q.1] <= g[c.0][c.1];
      GatedScoreSign(q);
      GatedScoreSign(c);
    }

    /**
     * bestLocalMoving lands on a cell whose horizon reads 0 whenever one, q,
     * lies within distance x of pos.
     */
    lemma LocalMovingPrefersFeasible(pos: Cell, x: int, q: Cell)
      requires Valid() && moving && InBounds(dim, q) && Manhattan(q, pos) <= x && cleared[q.0, q.1] == 0
      ensures BestLocalMoving(pos, x).Some?
      ensures cleared[BestLocalMoving(pos, x).value.0, BestLocalMoving(pos, x).value.1] == 0
    {
      var r := BestLocalMoving(pos, x);
      var g := ScoreGrid(ContainsMoving);
      assert !NoCellWithin(dim, pos, x);
      assert g[q.0][q.1] <= g[r.value.0][r.value.1];
      GatedScoreSign(q);
      GatedScoreSign(r.value);
    }

    /**
     * bestLocal2Moving lands on a cell whose horizon reads 0 whenever one, q,
     * lies within distance x of pos.
     */
    lemma Local2MovingPrefersFeasible(pos: Cell, x: int, q: Cell)
      requires Valid() && moving && InBounds(dim, q) && Manhattan(q, pos) <= x && cleared[q.0, q.1] == 0
      ensures BestLocal2Moving(pos, x).Some?
      ensures cleared[BestLocal2Moving(pos, x).value.0, BestLocal2Moving(pos, x).value.1] == 0
    {
      var r := BestLocal2Moving(pos, x);
      var g := ScoreGrid(FindMoving);
      assert !NoCellWithin(dim, pos, x);
      assert g[q.0][q.1] <= g[r.value.0][r.value.1];
      GatedScoreSign(q);
      GatedScoreSign(r.value);
    }

    /** Under a sound horizon the target's own cell reads 0. */
    lemma TargetFeasible()
      requires Valid() && HorizonSound() && InBounds(dim, target)
      ensures cleared[target.0, target.1] == 0
    {
      assert Manhattan(target, target) == 0;
    }

    /**
     * On a board whose beliefs are all equal, as right after construction,
     * bestContains chooses the first cell, (0, 0).
     */
    lemma UniformBeliefPicksFirst()
      requires Valid()
      requires forall i, j :: 0 <= i < dim && 0 <= j < dim ==> belief[i, j] == belief[0, 0]
      ensures BestContains() == (0, 0)
    {
      var g := ScoreGrid(Contains);
      assert IsGridArgMax(dim, g, (0, 0));
      GridArgMaxUnique(dim, g, BestContains(), (0, 0));
    }

    /** Between two cells of one terrain, the find scores are ordered as the beliefs. */
    lemma FindOrderFollowsBelief(c1: Cell, c2: Cell)
      requires Valid() && InBounds(dim, c1) && InBounds(dim, c2)
      requires terrain[c1.0, c1.1] == terrain[c2.0, c2.1]
      ensures Score(Contains, c1) <= Score(Contains, c2) ==> Score(Find, c1) <= Score(Find, c2)
      ensures Score(Contains, c1) < Score(Contains, c2) ==> Score(Find, c1) < Score(Find, c2)
    {
      var m := mask[c1.0, c1.1];
      assert mask[c2.0, c2.1] == m;
      ScaleKeepsOrder(belief[c1.0, c1.1], belief[c2.0, c2.1], m);
    }

    /**
     * On a board of a single terrain the detection rate is the same
     * everywhere, so bestFind chooses what bestContains chooses.
     */
    lemma UniformTerrainFindIsContains()
      requires Valid()
      requires forall i, j :: 0 <= i < dim && 0 <= j < dim ==> terrain[i, j] == terrain[0, 0]
      ensures BestFind() == BestContains()
    {
      var c := BestContains();
      var g, h := ScoreGrid(Contains), ScoreGrid(Find);
      forall i, j | 0 <= i < dim && 0 <= j < dim
        ensures h[i][j] <= h[c.0][c.1] && (RowMajorBefore((i, j), c) ==> h[i][j] < h[c.0][c.1])
      {
        FindOrderFollowsBelief((i, j), c);
      }
      GridArgMaxUnique(dim, h, BestFind(), c);
    }

    /**
     * On a board of equal beliefs and a single terrain, bestDistNumpy
     * chooses pos itself: every other cell costs more to reach.
     */
    lemma UniformDistPicksPos(pos: Cell)
      requires Valid() && InBounds(dim, pos)
      requires forall i, j :: 0 <= i < dim && 0 <= j < dim ==> belief[i, j] == belief[0, 0]
      requires forall i, j :: 0 <= i < dim && 0 <= j < dim ==> terrain[i, j] == terrain[0, 0]
      ensures BestDistNumpy(pos) == pos
    {
      var g := ScoreGrid(Dist(pos));
      var b, m := belief[0, 0], mask[0, 0];
      forall i, j | 0 <= i < dim && 0 <= j < dim
        ensures g[pos.0][pos.1] <= g[i][j] && (RowMajorBefore((i, j), pos) ==> g[pos.0][pos.1] < g[i][j])
      {
        var d := Manhattan(pos, (i, j));
        assert g[i][j] == Cost(Travel(d), b, m);
        assert g[pos.0][pos.1] == Cost(Travel(0), b, m);
        CostOrder(Travel(0), b, m, Travel(d), b, m);
        if (i, j) != pos {
          CostStrict(Travel(0), Travel(d), b, m);
        }
      }
      GridArgMinUnique(dim, g, BestDistNumpy(pos), pos);
    }

    /**
     * Between two cells of equal belief and terrain, the bestWeightedDist costs are
     * ordered as the damped distance weights.
     */
    lemma DampedCostsOrdered(pos: Cell, q1: Cell, q2: Cell)
      requires Valid() && InBounds(dim, q1) && InBounds(dim, q2)
      requires belief[q1.0, q1.1] == belief[q2.0, q2.1] && terrain[q1.0, q1.1] == terrain[q2.0, q2.1]
      ensures Damped(Manhattan(pos, q1)) <= Damped(Manhattan(pos, q2)) ==>
        Score(WeightedDist(pos), q1) <= Score(WeightedDist(pos), q2)
      ensures Damped(Manhattan(pos, q1)) < Damped(Manhattan(pos, q2)) ==>
        Score(WeightedDist(pos), q1) < Score(WeightedDist(pos), q2)
    {
      var b, m := belief[q1.0, q1.1], mask[q1.0, q1.1];
      assert mask[q2.0, q2.1] == m;
      var w1, w2 := Damped(Manhattan(pos, q1)), Damped(Manhattan(pos, q2));
      if w1 <= w2 {
        CostOrder(w1, b, m, w2, b, m);
      }
      if w1 < w2 {
        CostStrict(w1, w2, b, m);
      }
    }

    /**
     * Between two cells of equal belief and terrain, the bestWeightedDist2 costs are
     * ordered as the damped distance weights.
     */
    lemma Damped2CostsOrdered(pos: Cell, q1: Cell, q2: Cell)
      requires Valid() && InBounds(dim, q1) && InBounds(dim, q2)
      requires belief[q1.0, q1.1] == belief[q2.0, q2.1] && terrain[q1.0, q1.1] == terrain[q2.0, q2.1]
      ensures Damped2(Manhattan(pos, q1)) <= Damped2(Manhattan(pos, q2)) ==>
        Score(WeightedDist2(pos), q1) <= Score(WeightedDist2(pos), q2)
      ensures Damped2(Manhattan(pos, q1)) < Damped2(Manhattan(pos, q2)) ==>
        Score(WeightedDist2(pos), q1) < Score(WeightedDist2(pos), q2)
    {
      var b, m := belief[q1.0, q1.1], mask[q1.0, q1.1];
      assert mask[q2.0, q2.1] == m;
      var w1, w2 := Damped2(Manhattan(pos, q1)), Damped2(Manhattan(pos, q2));
      if w1 <= w2 {
        CostOrder(w1, b, m, w2, b, m);
      }
      if w1 < w2 {
        CostStrict(w1, w2, b, m);
      }
    }

    /**
     * The first cell within 5 of pos costs no more under WeightedDist than any
     * cell of the same belief and terrain, and strictly less than any cell
     * before it in row-major order.
     */
    lemma WeightedDistFirstCell(pos: Cell, c: Cell, q: Cell)
      requires Valid() && InBounds(dim, q)
      requires forall i, j :: 0 <= i < dim && 0 <= j < dim ==> belief[i, j] == belief[0, 0]
      requires forall i, j :: 0 <= i < dim && 0 <= j < dim ==> terrain[i, j] == terrain[0, 0]
      requires Diamond(dim, pos, 5) != [] && c == Diamond(dim, pos, 5)[0]
      ensures IsSquare(ScoreGrid(WeightedDist(pos)), dim) && InBounds(dim, c)
      ensures ScoreGrid(WeightedDist(pos))[c.0][c.1] <= ScoreGrid(WeightedDist(pos))[q.0][q.1]
      ensures RowMajorBefore(q, c) ==> ScoreGrid(WeightedDist(pos))[c.0][c.1] < ScoreGrid(WeightedDist(pos))[q.0][q.1]
    {
      var g := ScoreGrid(WeightedDist(pos));
      assert g[c.0][c.1] == Score(WeightedDist(pos), c);
      assert g[q.0][q.1] == Score(WeightedDist(pos), q);
      ManhattanSymmetric(c, pos);
      DampingOrder(Manhattan(pos, c));
      DampingOrder(Manhattan(pos, q));
      ManhattanSymmetric(pos, q);
      DiamondFirst(dim, pos, 5, q);
      DampedCostsOrdered(pos, c, q);
    }

    /** On a uniform board the first cell within 5 of pos is the bestWeightedDist minimum. */
    lemma WeightedDistFirstIsMin(pos: Cell)
      requires Valid() && InBounds(dim, pos)
      requires forall i, j :: 0 <= i < dim && 0 <= j < dim ==> belief[i, j] == belief[0, 0]
      requires forall i, j :: 0 <= i < dim && 0 <= j < dim ==> terrain[i, j] == terrain[0, 0]
      ensures Diamond(dim, pos, 5) != []
      ensures IsGridArgMin(dim, ScoreGrid(WeightedDist(pos)), Diamond(dim, pos, 5)[0])
    {
      var nb := Diamond(dim, pos, 5);
      assert pos in nb;
      var c := nb[0];
      assert InBounds(dim, c);
      var g := ScoreGrid(WeightedDist(pos));
      assert IsSquare(g, dim);
      forall i, j | 0 <= i < dim && 0 <= j < dim
        ensures g[c.0][c.1] <= g[i][j] && (RowMajorBefore((i, j), c) ==> g[c.0][c.1] < g[i][j])
      {
        WeightedDistFirstCell(pos, c, (i, j));
      }
    }

    /**
     * On a board of equal beliefs and a single terrain, bestWeightedDist does not
     * prefer nearer cells inside its damping radius: it chooses the first
     * cell, in row-major order, within distance 5 of pos.
     */
    lemma UniformWeightedDistFlat(pos: Cell)
      requires Valid() && InBounds(dim, pos)
      requires forall i, j :: 0 <= i < dim && 0 <= j < dim ==> belief[i, j] == belief[0, 0]
      requires forall i, j :: 0 <= i < dim && 0 <= j < dim ==> terrain[i, j] == terrain[0, 0]
      ensures Diamond(dim, pos, 5) != []
      ensures BestWeightedDist(pos) == Diamond(dim, pos, 5)[0]
    {
      WeightedDistFirstIsMin(pos);
      GridArgMinUnique(dim, ScoreGrid(WeightedDist(pos)), BestWeightedDist(pos), Diamond(dim, pos, 5)[0]);
    }

    /**
     * The first cell within 11 of pos costs no more under WeightedDist2 than any
     * cell of the same belief and terrain, and strictly less than any cell
     * before it in row-major order.
     */
    lemma WeightedDist2FirstCell(pos: Cell, c: Cell, q: Cell)
      requires Valid() && InBounds(dim, q)
      requires forall i, j :: 0 <= i < dim && 0 <= j < dim ==> belief[i, j] == belief[0, 0]
      requires forall i, j :: 0 <= i < dim && 0 <= j < dim ==> terrain[i, j] == terrain[0, 0]
      requires Diamond(dim, pos, 11) != [] && c == Diamond(dim, pos, 11)[0]
      ensures IsSquare(ScoreGrid(WeightedDist2(pos)), dim) && InBounds(dim, c)
      ensures ScoreGrid(WeightedDist2(pos))[c.0][c.1] <= ScoreGrid(WeightedDist2(pos))[q.0][q.1]
      ensures RowMajorBefore(q, c) ==> ScoreGrid(WeightedDist2(pos))[c.0][c.1] < ScoreGrid(WeightedDist2(pos))[q.0][q.1]
    {
      var g := ScoreGrid(WeightedDist2(pos));
      assert g[c.0][c.1] == Score(WeightedDist2(pos), c);
      assert g[q.0][q.1] == Score(WeightedDist2(pos), q);
      ManhattanSymmetric(c, pos);
      DampingOrder(Manhattan(pos, c));
      DampingOrder(Manhattan(pos, q));
      ManhattanSymmetric(pos, q);
      DiamondFirst(dim, pos, 11, q);
      Damped2CostsOrdered(pos, c, q);
    }

    /** On a uniform board the first cell within 11 of pos is the bestWeightedDist2 minimum. */
    lemma WeightedDist2FirstIsMin(pos: Cell)
      requires Valid() && InBounds(dim, pos)
      requires forall i, j :: 0 <= i < dim && 0 <= j < dim ==> belief[i, j] == belief[0, 0]
      requires forall i, j :: 0 <= i < dim && 0 <= j < dim ==> terrain[i, j] == terrain[0, 0]
      ensures Diamond(dim, pos, 11) != []
      ensures IsGridArgMin(dim, ScoreGrid(WeightedDist2(pos)), Diamond(dim, pos, 11)[0])
    {
      var nb := Diamond(dim, pos, 11);
      assert pos in nb;
      var c := nb[0];
      assert InBounds(dim, c);
      var g := ScoreGrid(WeightedDist2(pos));
      assert IsSquare(g, dim);
      forall i, j | 0 <= i < dim && 0 <= j < dim
        ensures g[c.0][c.1] <= g[i][j] && (RowMajorBefore((i, j), c) ==> g[c.0][c.1] < g[i][j])
      {
        WeightedDist2FirstCell(pos, c, (i, j));
      }
    }

    /**
     * On a board of equal beliefs and a single terrain, bestWeightedDist2 does not
     * prefer nearer cells inside its damping radius: it chooses the first
     * cell, in row-major order, within distance 11 of pos.
     */
    lemma UniformWeightedDist2Flat(pos: Cell)
      requires Valid() && InBounds(dim, pos)
      requires forall i, j :: 0 <= i < dim && 0 <= j < dim ==> belief[i, j] == belief[0, 0]
      requires forall i, j :: 0 <= i < dim && 0 <= j < dim ==> terrain[i, j] == terrain[0, 0]
      ensures Diamond(dim, pos, 11) != []
      ensures BestWeightedDist2(pos) == Diamond(dim, pos, 11)[0]
    {
      WeightedDist2FirstIsMin(pos);
      GridArgMinUnique(dim, ScoreGrid(WeightedDist2(pos)), BestWeightedDist2(pos), Diamond(dim, pos, 11)[0]);
    }

    /** A cell whose belief is strictly above every other cell's is bestContains' choice. */
    lemma StrictMaxChosen(q: Cell)
      requires Valid() && InBounds(dim, q)
      requires forall i, j :: 0 <= i < dim && 0 <= j < dim && (i, j) != q ==> belief[i, j] < belief[q.0, q.1]
      ensures BestContains() == q
    {
      var g := ScoreGrid(Contains);
      assert IsGridArgMax(dim, g, q);
      GridArgMaxUnique(dim, g, BestContains(), q);
    }
  }
}
