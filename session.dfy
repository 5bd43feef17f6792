/** The game session: the mode state machine (Menu, Playing, End), the fixed
    75 ms physics step, scoring when the player passes the obstacle, and the
    restart that starts a new run while keeping the score.

    `Game` is the value the session holds and the functions below say what
    one tick does to it; the class `State` is the session as the program
    keeps it, updated in place, and each of its methods is proved to do what
    the matching function says. */
module Session {
  import opened PlayerPhysics
  import opened Obstacles

  const ScreenWidth: int := 80
  const ScreenHeight: int := 50
  /** The physics step, in milliseconds. */
  const FrameDuration: int := 75

  datatype Mode = Menu | Playing | End

  /** The keys the game reacts to; every other key is `Other`. */
  datatype Key = P | Q | Space | Other

  datatype Option<T> = None | Some(value: T)

  datatype Game = Game(player: Kinematics, score: int, obstacle: Obstacle, frameTime: int, mode: Mode)

  /** A session after one tick, and whether the tick asked to quit. */
  datatype TickResult = TickResult(game: Game, quit: bool)

  function Initial(gapY: int): Game
    requires IsGapCentre(gapY)
  {
    Game(Spawn(), 0, NewObstacle(ScreenWidth, 0, gapY), 0, Menu)
  }

  function Restarted(g: Game, gapY: int): Game
    requires IsGapCentre(gapY)
  {
    var p := Spawn();
    g.(player := p, frameTime := 0, obstacle := NewObstacle(p.x + ScreenWidth, g.score, gapY), mode := Playing)
  }

  /** The key handling the menu and the death screen share. */
  function AfterScreenKey(g: Game, key: Option<Key>, gapY: int): TickResult
    requires IsGapCentre(gapY)
  {
    match key
    case Some(P) => TickResult(Restarted(g, gapY), false)
    case Some(Q) => TickResult(g, true)
    case _ => TickResult(g, false)
  }

  /** Adds the elapsed time; once more than one physics step has built up,
      the accumulator is emptied and gravity then motion are applied. */
  function Accumulated(g: Game, elapsed: int): Game
  {
    var t := g.frameTime + elapsed;
    if t > FrameDuration then g.(frameTime := 0, player := AfterMotion(AfterGravity(g.player)))
    else g.(frameTime := t)
  }

  function Flapped(g: Game, key: Option<Key>): Game
  {
    if key == Some(Space) then g.(player := AfterFlap(g.player)) else g
  }

  /** Once the player is past the obstacle, one point is scored and a new
      obstacle is generated a screen width ahead for the raised score. */
  function PassedThrough(g: Game, gapY: int): Game
    requires IsGapCentre(gapY)
  {
    if g.player.x > g.obstacle.x then
      var s := g.score + 1;
      g.(score := s, obstacle := NewObstacle(g.player.x + ScreenWidth, s, gapY))
    else g
  }

  predicate Fatal(g: Game)
  {
    g.player.y > ScreenHeight || Lethal(g.obstacle, g.player)
  }

  function Judged(g: Game): Game
  {
    if Fatal(g) then g.(mode := End) else g
  }

  function AfterPlay(g: Game, elapsed: int, key: Option<Key>, gapY: int): Game
    requires IsGapCentre(gapY)
  {
    Judged(PassedThrough(Flapped(Accumulated(g, elapsed), key), gapY))
  }

  function AfterTick(g: Game, elapsed: int, key: Option<Key>, gapY: int): TickResult
    requires IsGapCentre(gapY)
  {
    match g.mode
    case Menu => AfterScreenKey(g, key, gapY)
    case Playing => TickResult(AfterPlay(g, elapsed, key, gapY), false)
    case End => AfterScreenKey(g, key, gapY)
  }

  /** What holds of every session from its creation on: the player is well
      formed; the obstacle is the one generation gives for the current score
      and lies between the player's column and a screen width ahead of it;
      the accumulator holds at most one physics step; the menu is only ever
      the starting state; and the mode is Playing exactly while the player is
      alive, End only once it is dead. */
  predicate Consistent(g: Game)
  {
    && WellFormed(g.player)
    && g.score >= 0
    && IsGapCentre(g.obstacle.gapY)
    && g.obstacle == NewObstacle(g.obstacle.x, g.score, g.obstacle.gapY)
    && g.player.x <= g.obstacle.x <= g.player.x + ScreenWidth
    && g.frameTime <= FrameDuration
    && (g.mode == Menu ==> g == Initial(g.obstacle.gapY))
    && (g.mode == Playing ==> !Fatal(g))
    && (g.mode == End ==> Fatal(g))
  }

  /** The input of one tick: the elapsed milliseconds, the key pressed if
      any, and the random draw any obstacle generated during it uses. */
  datatype Input = Input(elapsed: int, key: Option<Key>, gapY: int)

  predicate AllGapCentres(ins: seq<Input>)
  {
    forall i :: 0 <= i < |ins| ==> IsGapCentre(ins[i].gapY)
  }

  /** The session after the inputs, tick by tick, up to and including the
      first tick that asks to quit. */
  function Run(g: Game, ins: seq<Input>): Game
    requires AllGapCentres(ins)
    decreases |ins|
  {
    if ins == [] then g
    else
      var r := AfterTick(g, ins[0].elapsed, ins[0].key, ins[0].gapY);
      if r.quit then r.game else Run(r.game, ins[1..])
  }

  lemma InitialConsistent(gapY: int)
    requires IsGapCentre(gapY)
    ensures Consistent(Initial(gapY))
  {
  }

  lemma RestartedConsistent(g: Game, gapY: int)
    requires IsGapCentre(gapY) && g.score >= 0
    ensures Consistent(Restarted(g, gapY))
  {
  }

  /** One Playing tick keeps the session consistent. */
  lemma PlayKeepsConsistent(g: Game, elapsed: int, key: Option<Key>, gapY: int)
    requires Consistent(g) && g.mode == Playing && IsGapCentre(gapY)
    ensures Consistent(AfterPlay(g, elapsed, key, gapY))
  {
  }

  /** Every tick keeps the session consistent. */
  lemma TickKeepsConsistent(g: Game, elapsed: int, key: Option<Key>, gapY: int)
    requires Consistent(g) && IsGapCentre(gapY)
    ensures Consistent(AfterTick(g, elapsed, key, gapY).game)
  {
    match g.mode
    case Playing => PlayKeepsConsistent(g, elapsed, key, gapY);
    case _ => RestartedConsistent(g, gapY);
  }

  /** Over any run from a consistent session, consistency holds, the score
      never decreases and it rises by at most one per tick. */
  lemma {:induction false} RunKeepsConsistent(g: Game, ins: seq<Input>)
    requires Consistent(g) && AllGapCentres(ins)
    ensures Consistent(Run(g, ins))
    ensures g.score <= Run(g, ins).score <= g.score + |ins|
    decreases |ins|
  {
    if ins != [] {
      var r := AfterTick(g, ins[0].elapsed, ins[0].key, ins[0].gapY);
      TickKeepsConsistent(g, ins[0].elapsed, ins[0].key, ins[0].gapY);
      assert r.game.score == g.score || r.game.score == g.score + 1;
      if !r.quit {
        assert AllGapCentres(ins[1..]) by {
          forall i | 0 <= i < |ins[1..]| ensures IsGapCentre(ins[1..][i].gapY) {
            assert ins[1..][i] == ins[i + 1];
          }
        }
        RunKeepsConsistent(r.game, ins[1..]);
      }
    }
  }

  /** A session started by the program stays consistent whatever the inputs. */
  lemma {:induction false} ReachableConsistent(gapY: int, ins: seq<Input>)
    requires IsGapCentre(gapY) && AllGapCentres(ins)
    ensures Consistent(Run(Initial(gapY), ins))
    ensures 0 <= Run(Initial(gapY), ins).score <= |ins|
  {
    InitialConsistent(gapY);
    RunKeepsConsistent(Initial(gapY), ins);
  }

  /** Scoring: a tick scores exactly when it is a Playing tick that runs a
      physics step while the player stands in the obstacle's column; the
      point is then exactly one and the new obstacle stands a screen width
      ahead of the player's new column. */
  lemma TickScores(g: Game, elapsed: int, key: Option<Key>, gapY: int)
    requires Consistent(g) && IsGapCentre(gapY)
    ensures var r := AfterTick(g, elapsed, key, gapY).game;
            && (r.score == g.score || r.score == g.score + 1)
            && (r.score == g.score + 1 <==>
                  g.mode == Playing && g.frameTime + elapsed > FrameDuration && g.player.x == g.obstacle.x)
            && (r.score == g.score + 1 ==>
                  r.player.x == g.player.x + 1 && r.obstacle == NewObstacle(r.player.x + ScreenWidth, r.score, gapY))
  {
  }

  /** Physics gating: a Playing tick runs gravity and then motion only when
      the accumulated time passes 75 ms, which empties the accumulator and
      moves the player exactly one column; otherwise the player's position
      and velocity are left as they were. A Space flap happens either way. */
  lemma PhysicsGating(g: Game, elapsed: int, key: Option<Key>, gapY: int)
    requires Consistent(g) && g.mode == Playing && IsGapCentre(gapY)
    ensures var r := AfterTick(g, elapsed, key, gapY).game;
            var flap := if key == Some(Space) then FlapImpulse else 0;
            if g.frameTime + elapsed > FrameDuration then
              && r.frameTime == 0
              && r.player.x == g.player.x + 1
              && r.player.y == ClampAtZero(g.player.y + Displacement(AfterGravity(g.player).yVelocity))
              && r.player.yVelocity == AfterGravity(g.player).yVelocity - flap
            else
              && r.frameTime == g.frameTime + elapsed
              && r.player.x == g.player.x
              && r.player.y == g.player.y
              && r.player.yVelocity == g.player.yVelocity - flap
  {
  }

  /** The mode machine: a Playing tick never quits and ends the run exactly
      when the player, after this tick's movement and any new obstacle, is
      below the screen or hits the obstacle; on the menu and death screens P
      restarts, Q only asks to quit, and any other key or none changes
      nothing. The menu is never entered again. */
  lemma ModeTransitions(g: Game, elapsed: int, key: Option<Key>, gapY: int)
    requires IsGapCentre(gapY)
    ensures var r := AfterTick(g, elapsed, key, gapY);
            && (g.mode == Playing ==>
                  && !r.quit
                  && r.game.mode != Menu
                  && (r.game.mode == End <==> r.game.player.y > ScreenHeight || Lethal(r.game.obstacle, r.game.player)))
            && (g.mode != Playing ==>
                  && (key == Some(P) ==> r == TickResult(Restarted(g, gapY), false))
                  && (key == Some(Q) ==> r == TickResult(g, true))
                  && (key != Some(P) && key != Some(Q) ==> r == TickResult(g, false)))
            && (r.game.mode == Menu ==> g.mode == Menu && r.game == g)
  {
  }

  /** Restart puts a fresh player at (5, 25) with velocities 1.0 and 0.0,
      empties the accumulator, places the obstacle at column 85 for the
      unchanged score and resumes play. */
  lemma RestartResets(g: Game, gapY: int)
    requires IsGapCentre(gapY)
    ensures var r := Restarted(g, gapY);
            && r.player == Kinematics(5, 25, 10, 0)
            && r.frameTime == 0
            && r.obstacle.x == 85 && r.obstacle.gapY == gapY
            && r.score == g.score
            && r.mode == Playing
  {
  }

  /** With score 3 on the death screen, P gives a fresh player, play mode,
      score 3 and an obstacle at column 85 with a 17-row gap. */
  lemma RestartScenario(g: Game, gapY: int)
    requires IsGapCentre(gapY) && g.mode == End && g.score == 3
    ensures var r := AfterTick(g, 0, Some(P), gapY);
            && !r.quit
            && r.game.player == Kinematics(5, 25, 10, 0)
            && r.game.mode == Playing && r.game.score == 3
            && r.game.obstacle == Obstacle(85, gapY, 17)
  {
  }

  /** A player at column 85 past an obstacle at 84 with score 3 scores a
      fourth point and meets a new obstacle at column 165. */
  lemma PassThroughScenario(g: Game, gapY: int)
    requires IsGapCentre(gapY) && g.player.x == 85 && g.obstacle.x == 84 && g.score == 3
    ensures PassedThrough(g, gapY).score == 4
    ensures PassedThrough(g, gapY).obstacle == Obstacle(165, gapY, 16)
  {
  }

  /** A player alive on the bottom row (50) and falling at 1.0 or more ends
      the run on the next physics step: it lands on row 51 or below, whatever
      the obstacle. */
  lemma FatalFallScenario(g: Game, elapsed: int, gapY: int)
    requires Consistent(g) && IsGapCentre(gapY) && g.mode == Playing
    requires g.player.y == ScreenHeight && g.player.yVelocity >= 10
    requires g.frameTime + elapsed > FrameDuration
    ensures AfterTick(g, elapsed, None, gapY).game.player.y > ScreenHeight
    ensures AfterTick(g, elapsed, None, gapY).game.mode == End
  {
  }

  /** The session as the program keeps it, updated in place tick by tick. */
  class State {
    var player: Player
    var score: int
    var obstacle: Obstacle
    var frameTime: int
    var mode: Mode

    function View(): Game
      reads this, player
    {
      Game(player.View(), score, obstacle, frameTime, mode)
    }

    ghost predicate Valid()
      reads this, player
    {
      Consistent(View())
    }

    /** A new session on the menu screen, score 0, its first obstacle at the
        right edge of the screen. */
    constructor (gapY: int)
      requires IsGapCentre(gapY)
      ensures View() == Initial(gapY)
      ensures Valid()
    {
      player := new Player();
      score := 0;
      obstacle := NewObstacle(ScreenWidth, 0, gapY);
      frameTime := 0;
      mode := Menu;
    }

    /** Starts a new run: new player, empty accumulator, an obstacle a screen
        width ahead of the player for the current score, Playing mode. */
    method Restart(gapY: int)
      requires IsGapCentre(gapY)
      modifies this
      ensures fresh(player)
      ensures View() == Restarted(old(View()), gapY)
      ensures player.View() == Kinematics(5, 25, 10, 0) && frameTime == 0
      ensures obstacle.x == 85 && score == old(score) && mode == Playing
      ensures old(score) >= 0 ==> Valid()
    {
      player := new Player();
      frameTime := 0;
      obstacle := NewObstacle(player.x + ScreenWidth, score, gapY);
      mode := Playing;
      if score >= 0 {
        RestartedConsistent(old(View()), gapY);
      }
    }

    /** The menu screen: P plays, Q asks to quit, anything else is ignored. */
    method MainMenu(key: Option<Key>, gapY: int) returns (quit: bool)
      requires IsGapCentre(gapY)
      modifies this
      ensures TickResult(View(), quit) == AfterScreenKey(old(View()), key, gapY)
    {
      quit := false;
      match key
      case Some(P) => Restart(gapY);
      case Some(Q) => quit := true;
      case _ =>
    }

    /** The death screen: P plays again, Q asks to quit, anything else is
        ignored. */
    method Dead(key: Option<Key>, gapY: int) returns (quit: bool)
      requires IsGapCentre(gapY)
      modifies this
      ensures TickResult(View(), quit) == AfterScreenKey(old(View()), key, gapY)
    {
      quit := false;
      match key
      case Some(P) => Restart(gapY);
      case Some(Q) => quit := true;
      case _ =>
    }

    /** One frame of play: accumulate time and step the physics when due,
        flap on Space, score and regenerate once past the obstacle, and end
        the run on a fall below the screen or a hit. */
    method Play(elapsed: int, key: Option<Key>, gapY: int)
      requires IsGapCentre(gapY)
      modifies this, player
      ensures player == old(player)
      ensures View() == AfterPlay(old(View()), elapsed, key, gapY)
    {
      ghost var g := View();
      ghost var accumulated := Accumulated(g, elapsed);
      frameTime := frameTime + elapsed;
      if frameTime > FrameDuration {
        frameTime := 0;
        player.Gravity();
        player.Motion();
      }
      assert View() == accumulated;
      ghost var flapped := Flapped(accumulated, key);
      if key == Some(Space) {
        player.Flap();
      }
      assert View() == flapped;
      ghost var passed := PassedThrough(flapped, gapY);
      if player.x > obstacle.x {
        score := score + 1;
        obstacle := NewObstacle(player.x + ScreenWidth, score, gapY);
      }
      assert View() == passed;
      if player.y > ScreenHeight || Lethal(obstacle, player.View()) {
        mode := End;
      }
      assert View() == Judged(passed);
    }

    /** One frame: dispatch on the mode. Returns whether the player asked to
        quit. */
    method Tick(elapsed: int, key: Option<Key>, gapY: int) returns (quit: bool)
      requires IsGapCentre(gapY)
      modifies this, player
      ensures TickResult(View(), quit) == AfterTick(old(View()), elapsed, key, gapY)
      ensures old(Valid()) ==> Valid()
    {
      ghost var g := View();
      match mode {
        case Menu => quit := MainMenu(key, gapY);
        case Playing => Play(elapsed, key, gapY); quit := false;
        case End => quit := Dead(key, gapY);
      }
      if Consistent(g) {
        TickKeepsConsistent(g, elapsed, key, gapY);
      }
    }
  }
}
