/**
 * The terrain and detection model of the board: terrain codes, the
 * per-terrain detection rate (the board "mask"), the factor by which a failed
 * search scales a cell's belief, and the weighted coin that decides whether a
 * search of the target's own cell succeeds.
 */
module Detection {

  const FLAT: int := 0
  const HILL: int := 1
  const FOREST: int := 2
  const CAVE: int := 3

  /** Outcomes of Board.explore. */
  const FOUND: int := 1
  const MISSING: int := 0
  const INVALID: int := -1

  predicate KnownTerrain(t: int) {
    FLAT <= t <= CAVE
  }

  /**
   * The board mask: probability that a search of the target's cell finds it.
   * The mask starts as all ones and is scaled per terrain code, so a code
   * outside the four known ones keeps rate 1.
   */
  function DetectionRate(t: int): (p: real)
    ensures 0.0 < p <= 1.0
    ensures p == 1.0 <==> !KnownTerrain(t)
  {
    if t == FLAT then 0.9
    else if t == HILL then 0.7
    else if t == FOREST then 0.3
    else if t == CAVE then 0.1
    else 1.0
  }

  /**
   * The factor by which a failed search scales a cell's belief: the chance of
   * missing a target that is present. Every code other than FLAT, HILL and
   * FOREST falls to the cave factor 0.9.
   */
  function MissFactor(t: int): (f: real)
    ensures 0.0 < f < 1.0
    ensures KnownTerrain(t) ==> f == 1.0 - DetectionRate(t)
    ensures !KnownTerrain(t) ==> f == 0.9
  {
    if t == FLAT then 0.1
    else if t == HILL then 0.3
    else if t == FOREST then 0.7
    else 0.9
  }

  /**
   * `np.random.choice([0, 1], 1, False, [miss, 1 - miss])` driven by a
   * uniform sample u in [0, 1): the draw is 0 (MISSING) exactly when u falls
   * below the first cumulative weight.
   */
  function Draw(miss: real, u: real): int {
    if u < miss then MISSING else FOUND
  }

  /**
   * The detection and miss tables are complementary on every known terrain,
   * and the search coin succeeds on exactly the top DetectionRate(t) share of
   * the unit interval.
   */
  lemma DrawMatchesRate(t: int, u: real)
    requires KnownTerrain(t)
    ensures DetectionRate(t) + MissFactor(t) == 1.0
    ensures Draw(MissFactor(t), u) == FOUND <==> 1.0 - DetectionRate(t) <= u
  {
  }

  /**
   * A failed search strictly shrinks a positive belief and keeps it positive.
   */
  lemma DecayShrinks(b: real, t: int)
    requires b > 0.0
    ensures 0.0 < b * MissFactor(t) < b
  {
    var f := MissFactor(t);
    assert b * f < b * 1.0;
  }
}
