# Hunting: a verified model of the search board

The Hunting repository simulates a searcher looking for a hidden target on a
`dim x dim` grid of terrain cells. The centre of the program is the `Board`
class of `Board.py`, and this project models that class in Dafny.

- **Terrain.** Each cell holds FLAT, HILL, FOREST or CAVE. A search of the
  target's own cell succeeds with probability 0.9, 0.7, 0.3 or 0.1 by terrain
  (the board "mask").
- **Belief.** Each cell's belief starts at 1/dim². A failed search multiplies
  that cell's belief by its terrain's miss factor. The grid is never
  renormalised.
- **Horizon.** For a moving target, `_known_cleared` holds, per cell, the
  number of turns before the target could be back there. Two operations mark
  it: `exploreMove` after a far miss, and `isNearby`. `update_cleared_cells`
  counts it down. Each turn, `target_movement` moves the target one step to a
  random neighbour.
- **Selectors.** The `best*` methods pick the next cell to search. They take
  a first-occurrence argmax or argmin of a per-cell score, over the whole
  board or over the Manhattan diamond around a cell.

The project has five modules, one per file:

- `Geometry` (`geometry.dfy`): cells, Manhattan distance, `getNeighbors`, and
  the list comprehensions that build the diamond neighbourhood and the list
  of far cells.
- `Detection` (`detection.dfy`): terrain codes, detection rates, miss factors
  and the weighted detection coin.
- `Heuristics` (`heuristics.dfy`): the score pieces of the selectors. These
  are the feasibility gate, the plain and damped distance weights, the BLOCK
  factors and the cost `weight / (belief * mask)`.
- `Ranking` (`ranking.dfy`): first-occurrence argmax and argmin over a
  sequence, over numpy's row-major flattening of a grid (`argmax()` followed
  by `// dim`, `% dim`), and over a diamond. It also holds the predicates
  that state what each selector chooses.
- `Hunting` (`board.dfy`): the `Board` class.

The `Board` class holds `array2` fields for terrain, belief, mask and
horizon, and a mutable `target`. Its methods change these fields in place, as
the Python does. `Valid()` keeps the array shapes, positive beliefs, the mask
as a function of terrain, and a non-negative horizon. `HorizonSound()` says
that every nonzero horizon entry is below that cell's distance to the target,
so the horizon never rules out a cell the target can be in. Every method that
touches the horizon proves that it keeps this invariant, under the conditions
its contract names.

Randomness is an input. Each `np.random.choice([0, 1], 1, False, [miss, hit])`
becomes a uniform sample `u`: the draw is MISSING exactly when `u < miss`.
The `random.choice` of `target_movement` becomes an index `pick` into the
neighbour list.

Two behaviours of the code shape the model:

- After a far miss, `exploreMove` overwrites every horizon entry within 5 of
  the searched cell with `5 - distance`; it does not keep the larger of the
  old and new values (Board.py:98-101). `Hunting.Board.MarkCleared` does the
  same.
- `explore` and `exploreMove` return -1 for a cell off the board instead of
  raising (Board.py:38-39, 81-82). The model returns `INVALID` and
  `Probe.Invalid`. `update_probability` has no bounds check at all (see
  Left out).

## Model

| member | source | states |
|---|---|---|
| Geometry.Manhattan | Board.py:128-135 | the distance is a natural number, it is 0 exactly when the two cells are equal, and it bounds each coordinate difference |
| Geometry.ManhattanSymmetric | Board.py:128-135 | manhattan(p, q) == manhattan(q, p) |
| Geometry.ManhattanTriangle | Board.py:128-135 | manhattan(p, r) <= manhattan(p, q) + manhattan(q, r) |
| Geometry.Neighbors | Board.py:114-126 | for a cell on the board, the list holds exactly the on-board cells at distance 1, without repetition, and has 4 minus the number of edges the cell lies on |
| Geometry.NeighborCounts | Board.py:114-126 | on a 1x1 board the list is empty; otherwise a corner has 2 neighbours, an interior cell 4, and every cell 2 to 4 |
| Geometry.Diamond | Board.py:98 | the neighbourhood comprehension holds exactly the board cells within distance x of p, each once, in row-major order |
| Geometry.FarCells | Board.py:108 | the far_cells comprehension holds exactly the board cells farther than radius from p, each once, in row-major order |
| Geometry.CenterWithin | Board.py:198-202 | a diamond around a board cell with radius x >= 0 is never empty, so the bestLocal* selectors never meet an empty neighbourhood there |
| Detection.DetectionRate | Board.py:28-33 | the mask entry of a terrain code lies in (0, 1] and is 1 exactly for a code outside FLAT..CAVE |
| Detection.MissFactor | Board.py:53-62 | the update factor lies in (0, 1); on a known terrain it is 1 minus the detection rate; any other code gets the cave factor 0.9 |
| Detection.DrawMatchesRate | Board.py:44-51 | on a known terrain, rate + miss factor == 1, and the weighted draw yields FOUND exactly on the top detection-rate share of [0, 1) |
| Detection.DecayShrinks | Board.py:53-63 | a failed search keeps a positive belief positive and strictly smaller |
| Heuristics.DampingOrder | Board.py:178-196 | 1 <= half-damped weight <= damped weight <= plain weight; the damped weight is 1 exactly up to distance 5, the half-damped one up to 11; from 5 on the damped weight is the plain one less 5 |
| Heuristics.CostOrder | Board.py:160-166 | a cell that is no farther and no less likely to yield the target never costs more |
| Heuristics.CostStrict | Board.py:160-166 | at an equal chance of finding the target, a strictly smaller distance weight costs strictly less |
| Heuristics.BlockingScales | Board.py:168-176 | the BLOCK factor multiplies a ruled-out cell's cost by BLOCK (BLOCK + 1 in bestLocal3, Board.py:226) and leaves a feasible cell's cost unchanged |
| Ranking.ArgMax | Board.py:198-202 | the index returned is the first index of a largest score, as Python's max with a key |
| Ranking.ArgMin | Board.py:222-226 | the index returned is the first index of a smallest score, as Python's min with a key |
| Ranking.FirstMaxUnique | Board.py:137-140 | at most one index is the first index of a largest score |
| Ranking.ArgMax2D | Board.py:137-140 | `argmax()` of the flattened grid, turned back into (row, column), is an on-board cell scoring at least every cell and strictly more than every cell before it in row-major order |
| Ranking.ArgMin2D | Board.py:160-166 | `argmin()` of the flattened grid, turned back into (row, column), is an on-board cell scoring at most every cell and strictly less than every cell before it in row-major order |
| Ranking.LocalArgMax | Board.py:198-202 | `max` over the diamond is None exactly when no board cell lies within x of pos; otherwise it is the first largest-scoring cell within x, in row-major order |
| Ranking.LocalArgMin | Board.py:222-226 | `min` over the diamond is None exactly when no board cell lies within x of pos; otherwise it is the first smallest-scoring cell within x, in row-major order |
| Ranking.GridArgMaxUnique | Board.py:137-140 | the whole-board maximum choice is unique |
| Ranking.GridArgMinUnique | Board.py:160-166 | the whole-board minimum choice is unique |
| Ranking.LocalArgMaxUnique | Board.py:198-202 | the local maximum choice is unique |
| Ranking.LocalArgMinUnique | Board.py:222-226 | the local minimum choice is unique |
| Hunting.DecayKeepsSound | Board.py:74-77 | an entry that was 0 or below the old distance to the target is, once counted down, 0 or below the new distance when the target moved at most one step |
| Hunting.Board.constructor | Board.py:20-35 | the board is Valid with a sound horizon; terrain and target are the given ones; every belief is 1/dim²; the mask is DetectionRate(terrain); the horizon is all zero |
| Hunting.Board.TerrainMask | Board.py:29-33 | the all-ones mask scaled per terrain equals DetectionRate(terrain) in every cell |
| Hunting.Board.Explore | Board.py:37-51 | INVALID exactly off the board or on the target's cell with an unknown terrain; FOUND exactly on the target's cell with a known terrain when u >= 1 - mask; MISSING otherwise, so on every other cell |
| Hunting.Board.UpdateProbability | Board.py:53-63 | the searched cell's belief becomes old * MissFactor(terrain), which is positive and strictly smaller; every other cell is unchanged |
| Hunting.Board.UpdateClearedCells | Board.py:74-77 | every horizon entry becomes max(0, old - 1), so none grows or goes negative; a sound horizon stays sound |
| Hunting.Board.TargetMovement | Board.py:65-72 | the target moves to the picked neighbour, or stays when it has none; it moves at most one step; a target on the board stays on it and stays put only when dim is 1; with update_cleared the horizon counts down and stays sound for the moved target, without it the horizon is untouched |
| Hunting.Board.ExploreMove | Board.py:79-104 | needs a moving-target board only when it would mark cells after a far miss; Invalid exactly off the board; (True, True) exactly when pos is the target and the draw succeeds; (False, True) on a miss within 5 with no horizon change; (False, False) on a miss farther than 5; on a known terrain (True, True) exactly when explore would say FOUND; the horizon stays sound and the target's own entry is never touched |
| Hunting.Board.MarkCleared | Board.py:95-101 | after a far miss, every board cell within 5 of pos gets 5 - distance (overwritten, not maxed), every other cell keeps its entry, and the horizon stays sound |
| Hunting.Board.RewriteCells | Board.py:99-101 | the for loop over a row-major cell list (this one and the isNearby loop at Board.py:109-111) writes f(entry, cell) to exactly the listed cells and leaves every other entry unchanged |
| Hunting.Board.IsNearby | Board.py:106-112 | needs a moving-target board only when some cell lies farther than radius; every cell farther than radius gets max(old, distance - (radius + 1)); nearer cells are unchanged, so no entry decreases; when the target really is within radius the horizon stays sound |
| Hunting.Board.BestContains | Board.py:137-140 | the first cell of largest belief in row-major order |
| Hunting.Board.BestContainsMoving | Board.py:142-146 | the first cell of largest belief * (horizon == 0) |
| Hunting.Board.BestFind | Board.py:148-152 | the first cell of largest belief * mask |
| Hunting.Board.BestFindMoving | Board.py:154-158 | the first cell of largest belief * mask * (horizon == 0) |
| Hunting.Board.BestDistNumpy | Board.py:160-166 | the first cell of least (distance from pos + 1) / (belief * mask) |
| Hunting.Board.BestDistMoving | Board.py:168-176 | the first cell of least (distance + 1) * (1 if horizon == 0 else BLOCK) / (belief * mask) |
| Hunting.Board.BestWeightedDist | Board.py:178-186 | the first cell of least max(1, distance + 1 - 5) / (belief * mask) |
| Hunting.Board.BestWeightedDist2 | Board.py:188-196 | the first cell of least max(1, (distance + 1) * 0.5 - 5) / (belief * mask) |
| Hunting.Board.BestLocal | Board.py:198-202 | None exactly when no board cell lies within x of pos; else the first cell within x of largest belief |
| Hunting.Board.BestLocalMoving | Board.py:204-208 | the same over belief * (horizon == 0) |
| Hunting.Board.BestLocal2 | Board.py:210-214 | the same over belief * mask |
| Hunting.Board.BestLocal2Moving | Board.py:216-220 | the same over belief * mask * (horizon == 0) |
| Hunting.Board.BestLocal3 | Board.py:222-226 | None exactly when no board cell lies within x of pos; else the first cell within x of least (distance + 1) * ((horizon != 0) * BLOCK + 1) / (belief * mask) |
| Hunting.Board.ZeroHorizonContains | Board.py:137-146 | with an all-zero horizon bestContainsMoving chooses what bestContains chooses |
| Hunting.Board.ZeroHorizonFind | Board.py:148-158 | with an all-zero horizon bestFindMoving chooses what bestFind chooses |
| Hunting.Board.ZeroHorizonDist | Board.py:160-176 | with an all-zero horizon bestDistMoving chooses what bestDistNumpy chooses |
| Hunting.Board.ZeroHorizonLocal | Board.py:198-208 | with an all-zero horizon bestLocalMoving chooses what bestLocal chooses |
| Hunting.Board.ZeroHorizonLocal2 | Board.py:210-220 | with an all-zero horizon bestLocal2Moving chooses what bestLocal2 chooses |
| Hunting.Board.ZeroHorizonLocal3 | Board.py:222-226 | with an all-zero horizon bestLocal3 chooses the local minimum of the bestDistNumpy cost |
| Hunting.Board.ContainsMovingPrefersFeasible | Board.py:142-146 | whenever some cell's horizon is 0, bestContainsMoving chooses a cell whose horizon is 0 |
| Hunting.Board.FindMovingPrefersFeasible | Board.py:154-158 | whenever some cell's horizon is 0, bestFindMoving chooses a cell whose horizon is 0 |
| Hunting.Board.LocalMovingPrefersFeasible | Board.py:204-208 | whenever a cell within x of pos has horizon 0, bestLocalMoving returns a cell whose horizon is 0 |
| Hunting.Board.Local2MovingPrefersFeasible | Board.py:216-220 | whenever a cell within x of pos has horizon 0, bestLocal2Moving returns a cell whose horizon is 0 |
| Hunting.Board.TargetFeasible | Board.py:95-101 | under a sound horizon the target's own cell reads 0, so it is never ruled out |
| Hunting.Board.UniformBeliefPicksFirst | Board.py:137-140 | when all beliefs are equal, as right after construction, bestContains chooses (0, 0) |
| Hunting.Board.StrictMaxChosen | Board.py:137-140 | a cell whose belief is strictly above every other cell's is the one bestContains chooses |
| Hunting.Board.UniformTerrainFindIsContains | Board.py:148-152 | on a board of one terrain, bestFind chooses what bestContains chooses |
| Hunting.Board.UniformDistPicksPos | Board.py:160-166 | with equal beliefs and one terrain, bestDistNumpy chooses pos itself |
| Hunting.Board.UniformWeightedDistFlat | Board.py:178-186 | with equal beliefs and one terrain, bestWeightedDist ignores distance up to 5: it chooses the first cell, in row-major order, within 5 of pos |
| Hunting.Board.UniformWeightedDist2Flat | Board.py:188-196 | with equal beliefs and one terrain, bestWeightedDist2 ignores distance up to 11: it chooses the first cell, in row-major order, within 11 of pos |

## Left out

- The random constructor path (Board.py:23-24), which draws terrain and target, is not modelled. Only the copy_board path is, as the constructor's parameters.
- Random draws are inputs: a uniform sample `u` for each detection coin, and an index `pick` into the neighbour list for `random.choice`. The model does not capture their distributions.
- runner.py is not part of this model: it only parses arguments, times runs and prints. Agent.py is not part of this model either: every function in it is an empty stub.
- Beliefs, masks and costs are exact reals. Floating-point rounding, underflow to 0 and numpy's division by zero giving inf are not modelled.
- The horizon is an integer grid. numpy stores it as floats, but every value written to it is a whole number.
- Hunting.Board.UpdateProbability: requires pos on the board. The source has no bounds check; a negative index would wrap around in numpy and a too-large one would raise.
- `_known_cleared` exists only on a board built with moving_target, and the model always allocates it. A member requires `moving` only where the source would read or write it and raise AttributeError otherwise: UpdateClearedCells, TargetMovement with update_cleared, the far-miss branch of ExploreMove (and MarkCleared), IsNearby when some cell lies farther than radius, and the selectors that read the horizon.
- `update_cleared_cells` rebinds `_known_cleared` to a new array. The model updates the same array in place; nothing else holds a reference to it.
- The one-element arrays that `np.random.choice(..., 1, ...)` returns are modelled as plain outcomes.
- Hunting.Board.BestDistMoving: no claim that a cell with a nonzero horizon is never chosen. BLOCK only multiplies its cost, and beliefs shrink without renormalisation, so a blocked cell can still win. The same holds for Hunting.Board.BestLocal3.
- Hunting.Board.ExploreMove: on a terrain code outside FLAT..CAVE, the source draws with the cave weights (Board.py:93-94), while explore returns -1 (Board.py:51). The model keeps both behaviours, so the link to Explore is stated only for known terrain.
