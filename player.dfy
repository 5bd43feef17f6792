/** The controlled player: capped gravity, motion by whole cells truncated
    toward zero and clamped at the top and left edges, and an uncapped
    upward flap. Velocities are kept in tenths of a cell per physics step. */
module PlayerPhysics {
  import opened Numerics

  const StartX: int := 5
  const StartY: int := 25
  /** The fixed horizontal velocity, 1.0 cell per step. */
  const XVelocity: int := 10
  /** What gravity adds per physics step, 0.2. */
  const GravityStep: int := 2
  /** Gravity stops adding once the vertical velocity has reached 2.0. */
  const MaxFallSpeed: int := 20
  /** A flap subtracts 2.0 from the vertical velocity. */
  const FlapImpulse: int := 20

  /** Position in cells and velocity in tenths of a cell per step. */
  datatype Kinematics = Kinematics(x: int, y: int, xVelocity: int, yVelocity: int)

  /** The whole-cell displacement a velocity in tenths produces. */
  function Displacement(v: int): int
  {
    TruncDiv(v, 10)
  }

  function ClampAtZero(v: int): int
  {
    if v < 0 then 0 else v
  }

  function Spawn(): Kinematics
  {
    Kinematics(StartX, StartY, XVelocity, 0)
  }

  function AfterGravity(k: Kinematics): Kinematics
  {
    if k.yVelocity < MaxFallSpeed then k.(yVelocity := k.yVelocity + GravityStep) else k
  }

  function AfterMotion(k: Kinematics): Kinematics
  {
    k.(x := ClampAtZero(k.x + Displacement(k.xVelocity)),
       y := ClampAtZero(k.y + Displacement(k.yVelocity)))
  }

  function AfterFlap(k: Kinematics): Kinematics
  {
    k.(yVelocity := k.yVelocity - FlapImpulse)
  }

  /** What every player state reachable from `Spawn` satisfies: the
      horizontal velocity is untouched, the player is never left of its
      start nor above the top row, and the vertical velocity is a whole
      number of gravity steps, never past the cap. */
  predicate WellFormed(k: Kinematics)
  {
    && k.xVelocity == XVelocity
    && k.x >= StartX
    && k.y >= 0
    && k.yVelocity <= MaxFallSpeed
    && k.yVelocity % GravityStep == 0
  }

  /** One of the three updates a player undergoes. */
  datatype Action = ApplyGravity | ApplyMotion | ApplyFlap

  function Perform(k: Kinematics, a: Action): Kinematics
  {
    match a
    case ApplyGravity => AfterGravity(k)
    case ApplyMotion => AfterMotion(k)
    case ApplyFlap => AfterFlap(k)
  }

  /** The player after the actions, first to last. */
  function PerformAll(k: Kinematics, acts: seq<Action>): Kinematics
    decreases |acts|
  {
    if acts == [] then k else PerformAll(Perform(k, acts[0]), acts[1..])
  }

  function Count(acts: seq<Action>, a: Action): nat
  {
    if acts == [] then 0 else (if acts[0] == a then 1 else 0) + Count(acts[1..], a)
  }

  function Repeat(a: Action, n: nat): seq<Action>
  {
    if n == 0 then [] else [a] + Repeat(a, n - 1)
  }

  /** Truncation toward zero: a fall of 1.8 cells moves by one cell, and so
      does a climb of 1.8 cells. */
  lemma DisplacementTruncates()
    ensures Displacement(18) == 1 && Displacement(-18) == -1
    ensures Displacement(20) == 2 && Displacement(-20) == -2
    ensures Displacement(9) == 0 && Displacement(-9) == 0
  {
  }

  /** Each single action keeps a well-formed player well formed; only motion
      moves it, by exactly one column. */
  lemma PerformKeepsWellFormed(k: Kinematics, a: Action)
    requires WellFormed(k)
    ensures WellFormed(Perform(k, a))
    ensures Perform(k, a).x == k.x + (if a == ApplyMotion then 1 else 0)
    ensures a != ApplyMotion ==> Perform(k, a).y == k.y
  {
  }

  /** Any sequence of gravity, motion and flap keeps the player well formed,
      and the column advances by exactly one per motion step: it never skips
      a column and never moves back. */
  lemma {:induction false} PerformAllKeepsWellFormed(k: Kinematics, acts: seq<Action>)
    requires WellFormed(k)
    ensures WellFormed(PerformAll(k, acts))
    ensures PerformAll(k, acts).x == k.x + Count(acts, ApplyMotion)
    decreases |acts|
  {
    if acts != [] {
      PerformKeepsWellFormed(k, acts[0]);
      PerformAllKeepsWellFormed(Perform(k, acts[0]), acts[1..]);
    }
  }

  /** The velocity bound from a fresh player: whatever it goes through, its
      vertical velocity stays a multiple of 0.2 and never exceeds 2.0. */
  lemma {:induction false} SpawnVelocityBound(acts: seq<Action>)
    ensures PerformAll(Spawn(), acts).yVelocity <= MaxFallSpeed
    ensures PerformAll(Spawn(), acts).yVelocity % GravityStep == 0
    ensures PerformAll(Spawn(), acts).xVelocity == XVelocity
    ensures PerformAll(Spawn(), acts).x == StartX + Count(acts, ApplyMotion)
  {
    PerformAllKeepsWellFormed(Spawn(), acts);
  }

  /** Gravity alone saturates: from any velocity that is a whole number of
      gravity steps and at most the cap (including the negative velocities a
      flap leaves), `n` steps of gravity give the smaller of the started
      velocity plus `n` increments and the cap, so from rest the cap is
      reached after ten steps and held from then on. */
  lemma {:induction false} GravitySaturates(k: Kinematics, n: nat)
    requires k.yVelocity <= MaxFallSpeed && k.yVelocity % GravityStep == 0
    ensures var v := k.yVelocity + GravityStep * n;
            PerformAll(k, Repeat(ApplyGravity, n)).yVelocity == if v < MaxFallSpeed then v else MaxFallSpeed
    ensures PerformAll(k, Repeat(ApplyGravity, n)) == k.(yVelocity := PerformAll(k, Repeat(ApplyGravity, n)).yVelocity)
    decreases n
  {
    if n > 0 {
      var acts := Repeat(ApplyGravity, n);
      assert acts[0] == ApplyGravity && acts[1..] == Repeat(ApplyGravity, n - 1);
      var k' := AfterGravity(k);
      assert k'.yVelocity == if k.yVelocity < MaxFallSpeed then k.yVelocity + GravityStep else MaxFallSpeed;
      GravitySaturates(k', n - 1);
    }
  }

  /** The player as the game holds it: a record updated in place. */
  class Player {
    var x: int
    var y: int
    var xVelocity: int
    var yVelocity: int

    function View(): Kinematics
      reads this
    {
      Kinematics(x, y, xVelocity, yVelocity)
    }

    constructor ()
      ensures View() == Spawn()
      ensures View() == Kinematics(5, 25, 10, 0)
    {
      x, y := StartX, StartY;
      xVelocity, yVelocity := XVelocity, 0;
    }

    /** Adds 0.2 to the vertical velocity while it is below 2.0. */
    method Gravity()
      modifies this
      ensures View() == AfterGravity(old(View()))
      ensures x == old(x) && y == old(y) && xVelocity == old(xVelocity)
      ensures old(yVelocity) < MaxFallSpeed ==> yVelocity == old(yVelocity) + GravityStep
      ensures old(yVelocity) >= MaxFallSpeed ==> yVelocity == old(yVelocity)
    {
      if yVelocity < MaxFallSpeed {
        yVelocity := yVelocity + GravityStep;
      }
    }

    /** Moves by the truncated velocities, then clamps both coordinates at 0. */
    method Motion()
      modifies this
      ensures View() == AfterMotion(old(View()))
      ensures x >= 0 && y >= 0
      ensures old(x) + Displacement(old(xVelocity)) >= 0 ==> x == old(x) + Displacement(old(xVelocity))
      ensures old(y) + Displacement(old(yVelocity)) >= 0 ==> y == old(y) + Displacement(old(yVelocity))
      ensures xVelocity == old(xVelocity) && yVelocity == old(yVelocity)
    {
      x := x + Displacement(xVelocity);
      y := y + Displacement(yVelocity);
      if x < 0 {
        x := 0;
      }
      if y < 0 {
        y := 0;
      }
    }

    /** Subtracts 2.0 from the vertical velocity, with no lower bound. */
    method Flap()
      modifies this
      ensures View() == AfterFlap(old(View()))
      ensures yVelocity == old(yVelocity) - FlapImpulse
      ensures x == old(x) && y == old(y) && xVelocity == old(xVelocity)
    {
      yVelocity := yVelocity - FlapImpulse;
    }
  }
}
