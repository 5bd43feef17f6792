/** The single obstacle: a wall with one gap, generated from the running
    score, and the rule that decides whether the player has hit it. */
module Obstacles {
  import opened Numerics
  import opened PlayerPhysics

  /** The gap never narrows below two rows. */
  const MinGapSize: int := 2
  /** The gap size at score 0; it narrows by one row per point. */
  const StartGapSize: int := 20
  /** The random gap centre is drawn from the half-open range [10, 40). */
  const GapYLow: int := 10
  const GapYHigh: int := 40

  datatype Obstacle = Obstacle(x: int, gapY: int, gapSize: int)

  predicate IsGapCentre(gapY: int)
  {
    GapYLow <= gapY < GapYHigh
  }

  /** A new obstacle at column `x` for the given score; `gapY` is the random
      draw for the centre of its gap. */
  function NewObstacle(x: int, score: int, gapY: int): (o: Obstacle)
    requires IsGapCentre(gapY)
    ensures o.x == x && o.gapY == gapY
    ensures o.gapSize >= MinGapSize && o.gapSize >= StartGapSize - score
    ensures o.gapSize == MinGapSize || o.gapSize == StartGapSize - score
  {
    Obstacle(x, gapY, if StartGapSize - score > MinGapSize then StartGapSize - score else MinGapSize)
  }

  /** The gap never widens as the score grows, and once the score reaches 18
      it is held at two rows. */
  lemma GapNarrowsWithScore(x: int, x': int, s: int, s': int, gapY: int, gapY': int)
    requires IsGapCentre(gapY) && IsGapCentre(gapY') && s <= s'
    ensures NewObstacle(x', s', gapY').gapSize <= NewObstacle(x, s, gapY).gapSize
    ensures s >= StartGapSize - MinGapSize ==> NewObstacle(x, s, gapY).gapSize == MinGapSize
  {
  }

  /** Whether the player has hit the obstacle: only ever in the obstacle's
      own column, and there exactly when the player is further from the
      gap centre than half the gap size, rounded toward zero. */
  function Lethal(o: Obstacle, p: Kinematics): (hit: bool)
    ensures p.x != o.x ==> !hit
    ensures hit <==> p.x == o.x && Distance(p.y, o.gapY) > TruncDiv(o.gapSize, 2)
  {
    if p.x != o.x then false
    else
      var half := TruncDiv(o.gapSize, 2);
      var above := p.y < o.gapY - half;
      var below := p.y > o.gapY + half;
      above || below
  }

  /** The safe rows at the obstacle's column are exactly
      `gapY - gapSize/2 .. gapY + gapSize/2`: both ends are safe and the first
      row past either end is lethal. With an odd gap the safe window is
      `gapSize` rows tall; with an even one it is `gapSize + 1` rows. */
  lemma SafeWindow(o: Obstacle, p: Kinematics)
    requires o.gapSize >= MinGapSize && p.x == o.x
    ensures var h := o.gapSize / 2;
            && !Lethal(o, p.(y := o.gapY - h)) && !Lethal(o, p.(y := o.gapY + h))
            && Lethal(o, p.(y := o.gapY - h - 1)) && Lethal(o, p.(y := o.gapY + h + 1))
    ensures !Lethal(o, p) <==> o.gapY - o.gapSize / 2 <= p.y <= o.gapY + o.gapSize / 2
  {
  }

  /** A harder obstacle never spares a row that an easier one at the same
      place would have killed on: a row safe at a higher score is safe at
      any lower score. */
  lemma SaferAtLowerScore(x: int, s: int, s': int, gapY: int, p: Kinematics)
    requires IsGapCentre(gapY) && s <= s'
    requires !Lethal(NewObstacle(x, s', gapY), p)
    ensures !Lethal(NewObstacle(x, s, gapY), p)
  {
  }

  /** Centre 20, size 10 (half 5): row 30 is lethal and row 25 is safe in
      column 40; an odd size 5 has half 2, so rows 18 to 22 are safe. */
  lemma CollisionExamples()
    ensures Lethal(Obstacle(40, 20, 10), Kinematics(40, 30, 10, 0))
    ensures !Lethal(Obstacle(40, 20, 10), Kinematics(40, 25, 10, 0))
    ensures !Lethal(Obstacle(40, 20, 10), Kinematics(41, 30, 10, 0))
    ensures !Lethal(Obstacle(40, 20, 5), Kinematics(40, 22, 10, 0))
    ensures Lethal(Obstacle(40, 20, 5), Kinematics(40, 23, 10, 0))
    ensures !Lethal(Obstacle(40, 20, 5), Kinematics(40, 18, 10, 0))
    ensures Lethal(Obstacle(40, 20, 5), Kinematics(40, 17, 10, 0))
  {
  }
}
