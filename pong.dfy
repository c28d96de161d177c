/**
 * The match (pong.py): the module globals and the three pygame `Rect`s the
 * game loop rewrites in place, held by one object, with one method per rule
 * of a frame, the frame itself, the `while running` loop and the script's
 * entry point. The clock, the key state, the menu's answer and the random
 * draws of each frame are inputs; `root` is `math.sqrt` as far as the
 * obstacle's distance needs it.
 */
module Pong {
  import opened Geometry
  import opened PongRules
  import ComputerAi
  import Obstacles

  /** The random draws a reset or a serve may consume: the two
      `random.choice([-1, 1])` of a serve, and the obstacle's shape, size
      factor and the draws behind its two `randint` calls. */
  datatype Draws = Draws(serveRight: bool, serveDown: bool, shape: Obstacles.Shape,
                         sizeFactor: real, ux: real, uy: real)

  predicate DrawsInDomain(d: Draws)
  {
    0.0 <= d.sizeFactor <= 1.0 && 0.0 <= d.ux < 1.0 && 0.0 <= d.uy < 1.0
  }

  datatype GameKey = KeyQ | KeyR | AnyOtherKey

  /** An event of `pygame.event.get()` during play, with the draws it would
      consume if it served or reset. */
  datatype GameEvent = QuitEvent | KeyPress(key: GameKey, draws: Draws) | OtherGameEvent

  /** Closing the window or pressing Q. */
  predicate StopsGame(e: GameEvent)
  {
    e == QuitEvent || (e.KeyPress? && e.key == KeyQ)
  }

  /** What one pass of the loop reads from the outside world: the clock, the
      menu's answer when the menu is shown (whether to start, and the game
      settings after any edits made in the options menu it can open), the
      AI's draw, the obstacle's deflection, the arrow keys held and the
      events. */
  datatype FrameInput = FrameInput(
    now: int, startFromMenu: bool, menuSettings: GameSettings, menuDraws: Draws, aiDraw: real,
    jitter: Obstacles.Rotation, keyDown: bool, keyUp: bool, events: seq<GameEvent>)

  /** The options menu keeps BALL_SPEED_TURNS between 1 and 10, so it is
      never zero after the menu. */
  predicate FrameInDomain(f: FrameInput)
  {
    DrawsInDomain(f.menuDraws) && f.menuSettings.ballSpeedTurns != 0 && 0.0 <= f.aiDraw < 1.0 &&
    EventsInDomain(f.events)
  }

  /** `root` returns the non-negative square root of a non-negative real. */
  ghost predicate IsSqrt(root: real -> real)
  {
    forall x: real :: 0.0 <= x ==> 0.0 <= root(x) && Obstacles.Sq(root(x)) == x
  }

  /** The globals of pong.py, plus the two settings entries the match reads
      and writes. */
  datatype MatchState = MatchState(
    ball: Rect, playerPaddle: Rect, computerPaddle: Rect,
    ballDx: real, ballDy: real,
    playerScore: int, computerScore: int, strikeCount: int, currentBallSpeed: real,
    longestRally: int, gameStartTime: int, lastCollisionTime: int, rallyStartTime: int,
    running: bool, gameStarted: bool, ballMoving: bool,
    obstacle: Option<Obstacles.Obstacle>, settings: GameSettings, recordRally: int)

  /** The state pong.py sets up when it is loaded. */
  function InitialState(settings: GameSettings, recordRally: int): (st: MatchState)
  {
    MatchState(
      Rect(WIDTH / 2, HEIGHT / 2, BALL_RADIUS * 2, BALL_RADIUS * 2),
      Rect(WIDTH - 20, HEIGHT / 2 - INITIAL_PADDLE_HEIGHT / 2, PADDLE_WIDTH, INITIAL_PADDLE_HEIGHT),
      Rect(10, HEIGHT / 2 - INITIAL_PADDLE_HEIGHT / 2, PADDLE_WIDTH, INITIAL_PADDLE_HEIGHT),
      0.0, 0.0, 0, 0, 0, 0.0, 0, 0, 0, 0,
      false, false, false, None, settings, recordRally)
  }

  /** The obstacle `reset_game_state` creates, if the setting asks for one. */
  function NewObstacle(s: GameSettings, d: Draws, roots: Obstacles.Roots): (o: Option<Obstacles.Obstacle>)
    requires DrawsInDomain(d) && Obstacles.Positive(roots)
    ensures o.Some? <==> s.obstacle
    ensures o.Some? ==> Obstacles.WellFormed(o.value, WIDTH, HEIGHT, BALL_RADIUS)
  {
    if s.obstacle then
      Obstacles.GenerateWellFormed(WIDTH, HEIGHT, BALL_RADIUS, d.shape, d.sizeFactor, d.ux, d.uy, roots);
      Some(Obstacles.Generate(WIDTH, HEIGHT, BALL_RADIUS, d.shape, d.sizeFactor, d.ux, d.uy, roots))
    else None
  }

  /** The speed update would divide by a zero velocity component. */
  predicate SpeedUpdateFails(st: MatchState)
    requires st.settings.ballSpeedTurns != 0
  {
    SpeedUpdateDue(st.strikeCount, st.settings) && (st.ballDx == 0.0 || st.ballDy == 0.0)
  }

  /** The state after `update_ball_speed`, when it does not fail. */
  function SpeedUpdated(st: MatchState): (r: MatchState)
    requires st.settings.ballSpeedTurns != 0 && !SpeedUpdateFails(st)
  {
    if SpeedUpdateDue(st.strikeCount, st.settings) then
      var m := SpeedMultiplier(st.strikeCount, st.settings);
      st.(ballDx := Rescaled(st.ballDx, m), ballDy := Rescaled(st.ballDy, m),
          currentBallSpeed := DisplaySpeed(Rescaled(st.ballDx, m), Rescaled(st.ballDy, m)))
    else st
  }

  /** A due speed update keeps each component's direction and gives both the
      serve speed times the multiplier, which lies between 1 and the cap;
      otherwise nothing changes. Only the velocity and the displayed speed are
      touched. */
  lemma SpeedUpdateEffect(st: MatchState)
    requires 0 < st.settings.ballSpeedTurns && !SpeedUpdateFails(st)
    requires 0 <= st.strikeCount && 0 <= st.settings.ballSpeed && 0 <= st.settings.ballIncrement
    ensures var r := SpeedUpdated(st);
      r == st.(ballDx := r.ballDx, ballDy := r.ballDy, currentBallSpeed := r.currentBallSpeed)
    ensures !SpeedUpdateDue(st.strikeCount, st.settings) ==> SpeedUpdated(st) == st
    ensures SpeedUpdateDue(st.strikeCount, st.settings) ==>
      var r := SpeedUpdated(st);
      (r.ballDx > 0.0 <==> st.ballDx > 0.0) && (r.ballDy > 0.0 <==> st.ballDy > 0.0) &&
      AbsReal(r.ballDx) == AbsReal(r.ballDy) == r.currentBallSpeed &&
      SERVE_SPEED <= r.currentBallSpeed <= SERVE_SPEED * (1.0 + st.settings.ballSpeed as real / 50.0)
  {
    if SpeedUpdateDue(st.strikeCount, st.settings) {
      var m := SpeedMultiplier(st.strikeCount, st.settings);
      SpeedMultiplierBounds(st.strikeCount, st.settings);
      RescaledKeepsDirection(st.ballDx, st.ballDy, m);
    }
  }

  lemma RootPositive(root: real -> real, x: real)
    requires IsSqrt(root) && 0.0 < x
    ensures 0.0 < root(x)
  {
    assert Obstacles.Sq(root(x)) == root(x) * root(x);
  }

  /** The obstacle rule of a frame (pong.py:245-255). `check_collision`
      raises (`normalize` of a zero vector) when the first edge within reach
      passes through the ball's centre: the first component is then false.
      Otherwise a contact past the cooldown pushes the ball out along the
      normal, reflects the velocity about it and turns it by the random
      angle, and restarts the cooldown; anything else changes nothing. */
  function ObstacleRule(st: MatchState, now: int, root: real -> real, jitter: Obstacles.Rotation): (r: (bool, MatchState))
    requires st.obstacle.Some? && Obstacles.NonDegenerate(st.obstacle.value.points) && IsSqrt(root)
  {
    var o := st.obstacle.value;
    var c := Obstacles.BallCenter(st.ball);
    var k := Obstacles.FirstContact(o.points, c, o.ballRadius, 0);
    if k.NoContact? then (true, st)
    else
      Obstacles.FirstContactTouches(o.points, c, o.ballRadius, 0);
      if k.dist2 == 0.0 then (false, st)
      else if !CooledDown(now, st.lastCollisionTime) then (true, st)
      else
        RootPositive(root, k.dist2);
        var dist := root(k.dist2);
        var n := Obstacles.Normal(k, c, dist);
        var v := Obstacles.Rotate(Obstacles.Reflect(Obstacles.Vec(st.ballDx, st.ballDy), n), jitter);
        (true, st.(ball := Obstacles.Displaced(st.ball, Obstacles.Displacement(n, o.ballRadius as real - dist)),
                   ballDx := v.x, ballDy := v.y, lastCollisionTime := now))
  }

  /** Without a contact, or within the cooldown, the rule changes nothing and
      never fails. */
  lemma ObstacleRuleQuiet(st: MatchState, now: int, root: real -> real, jitter: Obstacles.Rotation)
    requires st.obstacle.Some? && Obstacles.NonDegenerate(st.obstacle.value.points) && IsSqrt(root)
    requires var o := st.obstacle.value;
      Obstacles.FirstContact(o.points, Obstacles.BallCenter(st.ball), o.ballRadius, 0).NoContact? ||
      (!CooledDown(now, st.lastCollisionTime) &&
       Obstacles.FirstContact(o.points, Obstacles.BallCenter(st.ball), o.ballRadius, 0).dist2 != 0.0)
    ensures ObstacleRule(st, now, root, jitter) == (true, st)
  {
  }

  /** A deflection keeps the ball's speed, and the ball is pushed out along
      the unit normal by 1.01 times an overlap that lies between zero and
      the ball's radius. */
  lemma ObstacleRuleDeflects(st: MatchState, now: int, root: real -> real, jitter: Obstacles.Rotation)
    requires st.obstacle.Some? && Obstacles.NonDegenerate(st.obstacle.value.points) && IsSqrt(root)
    requires Obstacles.IsRotation(jitter)
    requires var o := st.obstacle.value;
      var k := Obstacles.FirstContact(o.points, Obstacles.BallCenter(st.ball), o.ballRadius, 0);
      k.Contact? && k.dist2 != 0.0 && CooledDown(now, st.lastCollisionTime)
    ensures var r := ObstacleRule(st, now, root, jitter);
      r.0 && r.1.lastCollisionTime == now &&
      Obstacles.Len2(Obstacles.Vec(r.1.ballDx, r.1.ballDy)) == Obstacles.Len2(Obstacles.Vec(st.ballDx, st.ballDy))
    ensures var o := st.obstacle.value;
      var c := Obstacles.BallCenter(st.ball);
      var k := Obstacles.FirstContact(o.points, c, o.ballRadius, 0);
      0.0 < k.dist2 &&
      0.0 <= o.ballRadius as real - root(k.dist2) <= o.ballRadius as real
  {
    var o := st.obstacle.value;
    var c := Obstacles.BallCenter(st.ball);
    var k := Obstacles.FirstContact(o.points, c, o.ballRadius, 0);
    Obstacles.FirstContactTouches(o.points, c, o.ballRadius, 0);
    RootPositive(root, k.dist2);
    var dist := root(k.dist2);
    var n := Obstacles.Normal(k, c, dist);
    var u := Obstacles.Vec(st.ballDx, st.ballDy);
    Obstacles.NormalIsUnit(k, c, dist);
    Obstacles.ReflectKeepsLength(u, n);
    Obstacles.RotateKeepsLength(Obstacles.Reflect(u, n), jitter);
    Obstacles.OverlapWithinRadius(o.points, c, o.ballRadius, dist);
  }

  /** The AI is handed `computer_paddle.centery` as the paddle's top, so the
      "centre" it steers by is the paddle's bottom edge (for an even height,
      which every paddle height here is). */
  lemma AiSteersByBottomEdge(paddle: Rect)
    requires 0 <= paddle.h && paddle.h % 2 == 0
    ensures ComputerAi.PaddleCenter(paddle.CenterY(), paddle.h) == paddle.Bottom() as real
  {
  }

  /** The state `reset_game_state` leaves behind: the ball centred and at
      rest, scores, strikes and rally cleared, both paddles at full height
      and centred, the match clock restarted and a new obstacle if the
      setting asks for one. `ball_moving` and the rally start are left
      alone. */
  function ResetState(st: MatchState, now: int, d: Draws, roots: Obstacles.Roots): MatchState
    requires DrawsInDomain(d) && Obstacles.Positive(roots)
  {
    st.(ball := st.ball.WithCenter(WIDTH / 2, HEIGHT / 2),
        ballDx := 0.0, ballDy := 0.0, strikeCount := 0, currentBallSpeed := 0.0,
        playerScore := 0, computerScore := 0, longestRally := 0,
        playerPaddle := st.playerPaddle.(h := INITIAL_PADDLE_HEIGHT).WithCenterY(HEIGHT / 2),
        computerPaddle := st.computerPaddle.(h := INITIAL_PADDLE_HEIGHT).WithCenterY(HEIGHT / 2),
        gameStartTime := now, lastCollisionTime := 0,
        obstacle := NewObstacle(st.settings, d, roots))
  }

  /** What a reset promises, field by field. */
  lemma ResetStateFacts(st: MatchState, now: int, d: Draws, roots: Obstacles.Roots)
    requires DrawsInDomain(d) && Obstacles.Positive(roots)
    ensures var r := ResetState(st, now, d, roots);
      r.ball.CenterX() == WIDTH / 2 && r.ball.CenterY() == HEIGHT / 2 &&
      r.ball.w == st.ball.w && r.ball.h == st.ball.h &&
      r.ballDx == 0.0 && r.ballDy == 0.0 && r.currentBallSpeed == 0.0 &&
      r.playerScore == 0 && r.computerScore == 0 && r.strikeCount == 0 && r.longestRally == 0 &&
      r.playerPaddle.h == INITIAL_PADDLE_HEIGHT && r.playerPaddle.CenterY() == HEIGHT / 2 &&
      r.playerPaddle.x == st.playerPaddle.x && r.playerPaddle.w == st.playerPaddle.w &&
      r.computerPaddle.h == INITIAL_PADDLE_HEIGHT && r.computerPaddle.CenterY() == HEIGHT / 2 &&
      r.computerPaddle.x == st.computerPaddle.x && r.computerPaddle.w == st.computerPaddle.w &&
      r.gameStartTime == now && r.lastCollisionTime == 0 &&
      (r.obstacle.Some? <==> st.settings.obstacle) &&
      r.running == st.running && r.gameStarted == st.gameStarted && r.ballMoving == st.ballMoving &&
      r.rallyStartTime == st.rallyStartTime && r.settings == st.settings && r.recordRally == st.recordRally
  {
  }

  /** The state `start_ball_movement` leaves behind: each velocity component
      is the serve speed in the drawn direction and the rally clock starts. */
  function Served(st: MatchState, now: int, serveRight: bool, serveDown: bool): (r: MatchState)
    ensures AbsReal(r.ballDx) == SERVE_SPEED && AbsReal(r.ballDy) == SERVE_SPEED
    ensures (r.ballDx > 0.0 <==> serveRight) && (r.ballDy > 0.0 <==> serveDown)
    ensures r == st.(ballDx := r.ballDx, ballDy := r.ballDy, rallyStartTime := now)
  {
    st.(ballDx := (if serveRight then 1.0 else -1.0) * SERVE_SPEED,
        ballDy := (if serveDown then 1.0 else -1.0) * SERVE_SPEED,
        rallyStartTime := now)
  }

  /** The events a frame may hand over carry usable draws. */
  predicate EventsInDomain(events: seq<GameEvent>)
  {
    forall e | e in events && e.KeyPress? :: DrawsInDomain(e.draws)
  }

  /** The state after one event of the play loop (pong.py:324-334). */
  function EventEffect(st: MatchState, now: int, e: GameEvent, roots: Obstacles.Roots): MatchState
    requires Obstacles.Positive(roots) && (e.KeyPress? ==> DrawsInDomain(e.draws))
  {
    match e
    case QuitEvent => st.(running := false)
    case KeyPress(key, d) =>
      if key == KeyQ then st.(running := false)
      else if key == KeyR then ResetState(st, now, d, roots).(ballMoving := false)
      else if !st.ballMoving then Served(st, now, d.serveRight, d.serveDown).(ballMoving := true)
      else st
    case OtherGameEvent => st
  }

  /** The state after the events of a frame, handled in the order they
      arrived. */
  function EventsEffect(st: MatchState, now: int, events: seq<GameEvent>, roots: Obstacles.Roots): MatchState
    requires Obstacles.Positive(roots) && EventsInDomain(events)
    decreases |events|
  {
    if events == [] then st
    else EventsEffect(EventEffect(st, now, events[0], roots), now, events[1..], roots)
  }

  /** Each kind of event, as the play loop handles it: closing the window
      or Q stops the game and changes nothing else; R resets the match and
      puts the ball at rest; another key serves a ball at rest in the drawn
      direction and does nothing to a moving one; other events do nothing.
      None of them touches the settings, the stored record or whether a
      match is under way. */
  lemma EventEffectFacts(st: MatchState, now: int, e: GameEvent, roots: Obstacles.Roots)
    requires Obstacles.Positive(roots) && (e.KeyPress? ==> DrawsInDomain(e.draws))
    ensures var r := EventEffect(st, now, e, roots);
      (r.running <==> st.running && !StopsGame(e)) &&
      r.settings == st.settings && r.recordRally == st.recordRally && r.gameStarted == st.gameStarted
    ensures StopsGame(e) ==> EventEffect(st, now, e, roots) == st.(running := false)
    ensures e.KeyPress? && e.key == KeyR ==>
      var r := EventEffect(st, now, e, roots);
      !r.ballMoving && r.ballDx == 0.0 && r.ballDy == 0.0 &&
      r.ball.CenterX() == WIDTH / 2 && r.ball.CenterY() == HEIGHT / 2 &&
      r.playerScore == 0 && r.computerScore == 0 && r.strikeCount == 0 && r.longestRally == 0 &&
      r.gameStartTime == now && (r.obstacle.Some? <==> st.settings.obstacle)
    ensures e.KeyPress? && e.key == AnyOtherKey && !st.ballMoving ==>
      var r := EventEffect(st, now, e, roots);
      r.ballMoving && r.rallyStartTime == now &&
      AbsReal(r.ballDx) == SERVE_SPEED && AbsReal(r.ballDy) == SERVE_SPEED &&
      (r.ballDx > 0.0 <==> e.draws.serveRight) && (r.ballDy > 0.0 <==> e.draws.serveDown)
    ensures (e.KeyPress? && e.key == AnyOtherKey && st.ballMoving) || e == OtherGameEvent ==>
      EventEffect(st, now, e, roots) == st
  {
    if e.KeyPress? && e.key == KeyR {
      ResetStateFacts(st, now, e.draws, roots);
    }
  }

  /** Handling one more event after a run of them is handling the longer
      run: the events take effect in their order. */
  lemma {:induction false} EventsEffectAppend(st: MatchState, now: int, events: seq<GameEvent>,
                                              e: GameEvent, roots: Obstacles.Roots)
    requires Obstacles.Positive(roots) && EventsInDomain(events + [e])
    ensures EventsInDomain(events)
    ensures EventsEffect(st, now, events + [e], roots) ==
      EventEffect(EventsEffect(st, now, events, roots), now, e, roots)
    decreases |events|
  {
    assert forall x | x in events :: x in events + [e];
    if events == [] {
      assert [e][1..] == [];
    } else {
      assert (events + [e])[0] == events[0];
      assert (events + [e])[1..] == events[1..] + [e];
      EventsEffectAppend(EventEffect(st, now, events[0], roots), now, events[1..], e, roots);
    }
  }

  /** After a frame's events the game still runs exactly when it did and
      none of them stopped it; the settings, the stored record and whether a
      match is under way are as they were. */
  lemma {:induction false} EventsEffectRunning(st: MatchState, now: int, events: seq<GameEvent>,
                                               roots: Obstacles.Roots)
    requires Obstacles.Positive(roots) && EventsInDomain(events)
    ensures var r := EventsEffect(st, now, events, roots);
      (r.running <==> st.running && forall j | 0 <= j < |events| :: !StopsGame(events[j])) &&
      r.settings == st.settings && r.recordRally == st.recordRally && r.gameStarted == st.gameStarted
    decreases |events|
  {
    if events != [] {
      var next := EventEffect(st, now, events[0], roots);
      EventEffectFacts(st, now, events[0], roots);
      EventsEffectRunning(next, now, events[1..], roots);
      assert forall j | 1 <= j < |events| :: events[j] == events[1..][j - 1];
    }
  }

  /** An R pressed last leaves a reset match with the ball at rest, whatever
      came before it in the frame. */
  lemma LastResetWins(st: MatchState, now: int, events: seq<GameEvent>, d: Draws, roots: Obstacles.Roots)
    requires Obstacles.Positive(roots) && DrawsInDomain(d) && EventsInDomain(events + [KeyPress(KeyR, d)])
    ensures var r := EventsEffect(st, now, events + [KeyPress(KeyR, d)], roots);
      !r.ballMoving && r.playerScore == 0 && r.computerScore == 0 && r.strikeCount == 0 &&
      r.ballDx == 0.0 && r.ballDy == 0.0 && r.gameStartTime == now
  {
    EventsEffectAppend(st, now, events, KeyPress(KeyR, d), roots);
    EventEffectFacts(EventsEffect(st, now, events, roots), now, KeyPress(KeyR, d), roots);
  }

  class Match {
    var ball: Rect
    var playerPaddle: Rect
    var computerPaddle: Rect
    var ballDx: real
    var ballDy: real
    var playerScore: int
    var computerScore: int
    var strikeCount: int
    var currentBallSpeed: real
    var longestRally: int
    var gameStartTime: int
    var lastCollisionTime: int
    var rallyStartTime: int
    var running: bool
    var gameStarted: bool
    var ballMoving: bool
    var obstacle: Option<Obstacles.Obstacle>
    /** `SETTINGS["GAME_SETTINGS"]`. */
    var settings: GameSettings
    /** `SETTINGS["GAME_STATS"]["LONGEST_RALLY"]`. */
    var recordRally: int

    function State(): MatchState
      reads this
    {
      MatchState(ball, playerPaddle, computerPaddle, ballDx, ballDy,
                 playerScore, computerScore, strikeCount, currentBallSpeed,
                 longestRally, gameStartTime, lastCollisionTime, rallyStartTime,
                 running, gameStarted, ballMoving, obstacle, settings, recordRally)
    }

    /** What every rule keeps: the sizes and columns of the ball and the
        paddles, the player paddle's height between half and all of its
        initial height, the computer paddle inside the court, non-negative
        counters, a usable speed-ramp setting and a well-formed obstacle. */
    predicate Valid()
      reads this
    {
      ball.w == 2 * BALL_RADIUS && ball.h == 2 * BALL_RADIUS &&
      playerPaddle.x == WIDTH - 20 && playerPaddle.w == PADDLE_WIDTH &&
      INITIAL_PADDLE_HEIGHT / 2 <= playerPaddle.h <= INITIAL_PADDLE_HEIGHT &&
      computerPaddle.x == 10 && computerPaddle.w == PADDLE_WIDTH &&
      computerPaddle.h == INITIAL_PADDLE_HEIGHT && Inside(computerPaddle, Court()) &&
      0 <= playerScore && 0 <= computerScore && 0 <= strikeCount && 0 <= longestRally &&
      settings.ballSpeedTurns != 0 &&
      (obstacle.Some? ==> Obstacles.WellFormed(obstacle.value, WIDTH, HEIGHT, BALL_RADIUS))
    }

    /** Loading pong.py (lines 46-61). A zero BALL_SPEED_TURNS would make the
        first paddle hit divide by zero. */
    constructor(s: GameSettings, record: int)
      requires s.ballSpeedTurns != 0
      ensures Valid() && State() == InitialState(s, record)
    {
      ball := Rect(WIDTH / 2, HEIGHT / 2, BALL_RADIUS * 2, BALL_RADIUS * 2);
      playerPaddle := Rect(WIDTH - 20, HEIGHT / 2 - INITIAL_PADDLE_HEIGHT / 2, PADDLE_WIDTH, INITIAL_PADDLE_HEIGHT);
      computerPaddle := Rect(10, HEIGHT / 2 - INITIAL_PADDLE_HEIGHT / 2, PADDLE_WIDTH, INITIAL_PADDLE_HEIGHT);
      ballDx, ballDy := 0.0, 0.0;
      playerScore, computerScore, strikeCount, currentBallSpeed := 0, 0, 0, 0.0;
      longestRally, gameStartTime, lastCollisionTime, rallyStartTime := 0, 0, 0, 0;
      running, gameStarted, ballMoving := false, false, false;
      obstacle := None;
      settings, recordRally := s, record;
    }

    /** `reset_game_state`: the state becomes `ResetState` of the old one. */
    method Reset(now: int, d: Draws, roots: Obstacles.Roots)
      requires Valid() && DrawsInDomain(d) && Obstacles.Positive(roots)
      modifies this
      ensures Valid()
      ensures State() == ResetState(old(State()), now, d, roots)
      ensures gameStartTime == now && settings == old(settings) && running == old(running)
      ensures recordRally == old(recordRally) && gameStarted == old(gameStarted)
    {
      var created := NewObstacle(settings, d, roots);
      ResetBall();
      ResetCounters();
      ResetField(now, created);
    }

    /** Part of `reset_game_state`: the ball back in the centre, at rest. */
    method ResetBall()
      requires Valid()
      modifies this
      ensures Valid()
      ensures State() == old(State()).(
        ball := old(ball).WithCenter(WIDTH / 2, HEIGHT / 2),
        ballDx := 0.0, ballDy := 0.0, currentBallSpeed := 0.0)
    {
      ball := ball.WithCenter(WIDTH / 2, HEIGHT / 2);
      ballDx, ballDy, currentBallSpeed := 0.0, 0.0, 0.0;
    }

    /** Part of `reset_game_state`: strikes, scores and the rally cleared. */
    method ResetCounters()
      requires Valid()
      modifies this
      ensures Valid()
      ensures State() == old(State()).(strikeCount := 0, playerScore := 0, computerScore := 0, longestRally := 0)
    {
      strikeCount, playerScore, computerScore, longestRally := 0, 0, 0, 0;
    }

    /** Part of `reset_game_state`: both paddles, the clocks and
        the obstacle. */
    method ResetField(now: int, created: Option<Obstacles.Obstacle>)
      requires Valid()
      requires created.Some? ==> Obstacles.WellFormed(created.value, WIDTH, HEIGHT, BALL_RADIUS)
      modifies this
      ensures Valid()
      ensures State() == old(State()).(
        playerPaddle := old(playerPaddle).(h := INITIAL_PADDLE_HEIGHT).WithCenterY(HEIGHT / 2),
        computerPaddle := old(computerPaddle).(h := INITIAL_PADDLE_HEIGHT).WithCenterY(HEIGHT / 2),
        gameStartTime := now, lastCollisionTime := 0, obstacle := created)
    {
      playerPaddle := playerPaddle.(h := INITIAL_PADDLE_HEIGHT).WithCenterY(HEIGHT / 2);
      computerPaddle := computerPaddle.(h := INITIAL_PADDLE_HEIGHT).WithCenterY(HEIGHT / 2);
      gameStartTime, lastCollisionTime := now, 0;
      obstacle := created;
    }

    /** `start_ball_movement`: each component becomes +5 or -5 and the rally
        clock starts. */
    method StartBallMovement(now: int, serveRight: bool, serveDown: bool)
      requires Valid()
      modifies this
      ensures Valid()
      ensures AbsReal(ballDx) == SERVE_SPEED && AbsReal(ballDy) == SERVE_SPEED
      ensures (ballDx > 0.0 <==> serveRight) && (ballDy > 0.0 <==> serveDown)
      ensures State() == Served(old(State()), now, serveRight, serveDown)
      ensures gameStartTime == old(gameStartTime) && settings == old(settings) && running == old(running)
      ensures recordRally == old(recordRally) && gameStarted == old(gameStarted) && ballMoving == old(ballMoving)
    {
      ballDx := (if serveRight then 1.0 else -1.0) * SERVE_SPEED;
      ballDy := (if serveDown then 1.0 else -1.0) * SERVE_SPEED;
      rallyStartTime := now;
    }

    /** `update_ball_speed`: on a multiple of BALL_SPEED_TURNS strikes each
        component is set to the serve speed times the multiplier, in its own
        direction. A zero component makes the source raise
        `ZeroDivisionError`: `ok` is then false and the state is left as it
        was. */
    method UpdateBallSpeed() returns (ok: bool)
      requires Valid()
      modifies this
      ensures Valid()
      ensures ok <==> !SpeedUpdateFails(old(State()))
      ensures ok ==> State() == SpeedUpdated(old(State()))
      ensures !ok ==> State() == old(State())
    {
      if FloorMod(strikeCount, settings.ballSpeedTurns) == 0 {
        if ballDx == 0.0 || ballDy == 0.0 {
          return false;
        }
        var multiplier := SpeedMultiplier(strikeCount, settings);
        ballDx := Rescaled(ballDx, multiplier);
        ballDy := Rescaled(ballDy, multiplier);
        currentBallSpeed := DisplaySpeed(ballDx, ballDy);
      }
      return true;
    }

    /** Paddle erosion (pong.py:207-214): with the setting on, the player's
        paddle takes the height for the time since the match started; the
        computer's paddle is never eroded. `get_ticks` never runs backwards,
        so `now` is not before the start of the match. */
    method ErodePaddle(now: int)
      requires Valid() && gameStartTime <= now
      modifies this
      ensures Valid()
      ensures State() == if old(settings).paddleErosion
        then old(State()).(playerPaddle := old(playerPaddle).(h := ErodedHeight(now - old(gameStartTime))))
        else old(State())
    {
      if settings.paddleErosion {
        ErodedHeightBounds(now - gameStartTime);
        playerPaddle := playerPaddle.(h := ErodedHeight(now - gameStartTime));
      }
    }

    /** `longest_rally` is the running maximum of the whole seconds of the
        current rally. */
    method TrackRally(now: int)
      requires Valid()
      modifies this
      ensures Valid()
      ensures gameStartTime == old(gameStartTime) && settings == old(settings) && running == old(running)
      ensures old(recordRally) <= recordRally
      ensures State() == old(State()).(longestRally := MaxInt(old(longestRally), RallySeconds(now, old(rallyStartTime))))
    {
      longestRally := MaxInt(longestRally, RallySeconds(now, rallyStartTime));
    }

    /** `ball.x += ball_dx; ball.y += ball_dy`, stored back as integers. */
    method MoveBall()
      requires Valid()
      modifies this
      ensures Valid()
      ensures gameStartTime == old(gameStartTime) && settings == old(settings) && running == old(running)
      ensures old(recordRally) <= recordRally
      ensures State() == old(State()).(
        ball := Rect(Trunc(old(ball).x as real + old(ballDx)), Trunc(old(ball).y as real + old(ballDy)),
                     old(ball).w, old(ball).h))
    {
      ball := Rect(Trunc(ball.x as real + ballDx), Trunc(ball.y as real + ballDy), ball.w, ball.h);
    }

    /** The obstacle rule (pong.py:245-255), as `ObstacleRule` states it. */
    method ObstacleStep(now: int, root: real -> real, jitter: Obstacles.Rotation) returns (ok: bool)
      requires Valid() && obstacle.Some? && IsSqrt(root)
      modifies this
      ensures Valid()
      ensures gameStartTime == old(gameStartTime) && settings == old(settings) && running == old(running)
      ensures old(recordRally) <= recordRally
      ensures (ok, State()) == ObstacleRule(old(State()), now, root, jitter)
    {
      var o := obstacle.value;
      var k := Obstacles.CheckCollision(o, ball);
      if k.NoContact? {
        return true;
      }
      Obstacles.FirstContactTouches(o.points, Obstacles.BallCenter(ball), o.ballRadius, 0);
      if k.dist2 == 0.0 {
        return false;
      }
      RootPositive(root, k.dist2);
      var dist := root(k.dist2);
      if CooledDown(now, lastCollisionTime) {
        var ball', v' := Obstacles.ResolveCollision(o, ball, Obstacles.Vec(ballDx, ballDy), dist, jitter);
        Deflect(now, ball', v');
      }
      return true;
    }

    /** The assignments after `resolve_collision` (pong.py:251-255): the
        pushed-out ball, the new velocity and the cooldown restarted. */
    method Deflect(now: int, ball': Rect, v': Obstacles.Vec)
      requires Valid() && ball'.w == ball.w && ball'.h == ball.h
      modifies this
      ensures Valid()
      ensures State() == old(State()).(ball := ball', ballDx := v'.x, ballDy := v'.y, lastCollisionTime := now)
    {
      ball, ballDx, ballDy := ball', v'.x, v'.y;
      lastCollisionTime := now;
    }

    /** Top or bottom contact (pong.py:257-259): the ball is clamped into the
        court and the vertical component flips; nothing else changes. */
    method WallBounce()
      requires Valid()
      modifies this
      ensures Valid()
      ensures gameStartTime == old(gameStartTime) && settings == old(settings) && running == old(running)
      ensures old(recordRally) <= recordRally
      ensures AtTopOrBottom(old(ball)) ==>
        Inside(ball, Court()) &&
        State() == old(State()).(ball := Clamp(old(ball), Court()), ballDy := -old(ballDy))
      ensures !AtTopOrBottom(old(ball)) ==> State() == old(State())
    {
      if ball.Top() <= 0 || ball.Bottom() >= HEIGHT {
        ball := Clamp(ball, Court());
        ballDy := -ballDy;
      }
    }

    /** A paddle hit (pong.py:261-271) past the cooldown snaps the ball to
        the paddle it hit, reverses the horizontal direction, counts the
        strike, updates the speed and restarts the cooldown; without an
        overlap, or within the cooldown, nothing changes. `ok` is false when
        the speed update fails. */
    method PaddleHit(now: int) returns (ok: bool)
      requires Valid()
      modifies this
      ensures Valid()
      ensures gameStartTime == old(gameStartTime) && settings == old(settings) && running == old(running)
      ensures old(recordRally) <= recordRally
      ensures var hit := Collide(old(ball), old(playerPaddle)) || Collide(old(ball), old(computerPaddle));
        !(hit && CooledDown(now, old(lastCollisionTime))) ==> ok && State() == old(State())
      ensures var hit := Collide(old(ball), old(playerPaddle)) || Collide(old(ball), old(computerPaddle));
        hit && CooledDown(now, old(lastCollisionTime)) ==>
          var struck := old(State()).(
            ball := Snap(old(ball), old(playerPaddle), old(computerPaddle)),
            ballDx := -old(ballDx), strikeCount := old(strikeCount) + 1);
          (ok <==> !SpeedUpdateFails(struck)) &&
          (ok ==> State() == SpeedUpdated(struck).(lastCollisionTime := now)) &&
          (!ok ==> State() == struck)
    {
      ok := true;
      if Collide(ball, playerPaddle) || Collide(ball, computerPaddle) {
        if CooledDown(now, lastCollisionTime) {
          ok := Strike(now);
        }
      }
    }

    /** The start of a strike (pong.py:263-268): the ball snapped to the
        paddle it hit, the horizontal direction reversed and the strike
        counted. */
    method Rebound()
      requires Valid()
      modifies this
      ensures Valid()
      ensures State() == old(State()).(
        ball := Snap(old(ball), old(playerPaddle), old(computerPaddle)),
        ballDx := -old(ballDx), strikeCount := old(strikeCount) + 1)
    {
      ball := Snap(ball, playerPaddle, computerPaddle);
      ballDx := -ballDx;
      strikeCount := strikeCount + 1;
    }

    /** The body of the paddle-hit rule: snap, reverse, count, update the
        speed and, when that succeeds, restart the cooldown. */
    method Strike(now: int) returns (ok: bool)
      requires Valid()
      modifies this
      ensures Valid()
      ensures gameStartTime == old(gameStartTime) && settings == old(settings) && running == old(running)
      ensures recordRally == old(recordRally)
      ensures var struck := old(State()).(
            ball := Snap(old(ball), old(playerPaddle), old(computerPaddle)),
            ballDx := -old(ballDx), strikeCount := old(strikeCount) + 1);
          (ok <==> !SpeedUpdateFails(struck)) &&
          (ok ==> State() == SpeedUpdated(struck).(lastCollisionTime := now)) &&
          (!ok ==> State() == struck)
    {
      Rebound();
      ok := UpdateBallSpeed();
      if ok {
        lastCollisionTime := now;
      }
    }

    /** The ball leaving sideways (pong.py:273-283): exactly one score goes
        up by one, the ball is put back in the centre at rest and the rally
        clock restarts. */
    method Score(now: int)
      requires Valid()
      modifies this
      ensures Valid()
      ensures gameStartTime == old(gameStartTime) && settings == old(settings) && running == old(running)
      ensures old(recordRally) <= recordRally
      ensures OutSideways(old(ball)) ==>
        playerScore + computerScore == old(playerScore) + old(computerScore) + 1 &&
        State() == old(State()).(
          playerScore := ScoresAfterExit(old(ball), old(playerScore), old(computerScore)).0,
          computerScore := ScoresAfterExit(old(ball), old(playerScore), old(computerScore)).1,
          ballMoving := false, ball := old(ball).WithCenter(WIDTH / 2, HEIGHT / 2),
          rallyStartTime := now)
      ensures !OutSideways(old(ball)) ==> State() == old(State())
    {
      if ball.Left() <= 0 || ball.Right() >= WIDTH {
        ExactlyOneScores(ball, playerScore, computerScore);
        var scores := ScoresAfterExit(ball, playerScore, computerScore);
        playerScore, computerScore := scores.0, scores.1;
        ballMoving, ball, rallyStartTime := false, ball.WithCenter(WIDTH / 2, HEIGHT / 2), now;
      }
    }

    /** Win detection (pong.py:285-292): once a score reaches WINNING_POINTS
        the match stops and the stored record becomes the longest rally if
        that is strictly longer. `newRecord` is the corrected flag for the
        menu: whether this win replaced the record. */
    method CheckWin() returns (newRecord: bool)
      requires Valid()
      modifies this
      ensures Valid()
      ensures gameStartTime == old(gameStartTime) && settings == old(settings) && running == old(running)
      ensures old(recordRally) <= recordRally
      ensures Won(old(playerScore), old(computerScore), old(settings)) ==>
        State() == old(State()).(recordRally := RecordAfterWin(old(recordRally), old(longestRally)),
                                 gameStarted := false)
      ensures !Won(old(playerScore), old(computerScore), old(settings)) ==> State() == old(State())
      ensures newRecord <==> Won(old(playerScore), old(computerScore), old(settings)) &&
                             NewRecord(old(longestRally), old(recordRally))
    {
      newRecord := false;
      if playerScore >= settings.winningPoints || computerScore >= settings.winningPoints {
        if longestRally > recordRally {
          recordRally := longestRally;
          newRecord := true;
        }
        gameStarted := false;
      }
    }

    /** The computer's paddle (pong.py:294-302) moves by the AI's decision
        times a tenth of COMPUTER_SPEED and is clamped into the court. */
    method MoveComputerPaddle(draw: real)
      requires Valid()
      modifies this
      ensures Valid()
      ensures gameStartTime == old(gameStartTime) && settings == old(settings) && running == old(running)
      ensures old(recordRally) <= recordRally
      ensures var move := ComputerAi.CalculateComputerMove(
          old(ball).CenterY(), old(computerPaddle).CenterY(), old(computerPaddle).h, HEIGHT,
          old(settings).computerSpeed, old(settings).computerRandomness, draw);
        State() == old(State()).(computerPaddle := Clamp(
          old(computerPaddle).(y := ComputerPaddleY(old(computerPaddle).y, move, old(settings).computerSpeed)),
          Court()))
    {
      var move := ComputerAi.CalculateComputerMove(
        ball.CenterY(), computerPaddle.CenterY(), computerPaddle.h, HEIGHT,
        settings.computerSpeed, settings.computerRandomness, draw);
      computerPaddle := computerPaddle.(y := ComputerPaddleY(computerPaddle.y, move, settings.computerSpeed));
      computerPaddle := Clamp(computerPaddle, Court());
    }

    /** The player's paddle (pong.py:319-321) moves 5 pixels per frame for
        the arrow held and is clamped into the court. */
    method MovePlayerPaddle(down: bool, up: bool)
      requires Valid()
      modifies this
      ensures Valid()
      ensures Inside(playerPaddle, Court())
      ensures State() == old(State()).(playerPaddle := Clamp(
        old(playerPaddle).(y := old(playerPaddle).y + PlayerPaddleDelta(down, up)), Court()))
    {
      playerPaddle := playerPaddle.(y := playerPaddle.y + PlayerPaddleDelta(down, up));
      playerPaddle := Clamp(playerPaddle, Court());
    }

    /** One event of a frame's event loop (pong.py:324-334): closing the
        window or Q stops the game, R resets the match and puts the ball at
        rest, any other key serves when the ball is at rest. */
    method HandleEvent(now: int, e: GameEvent, roots: Obstacles.Roots)
      requires Valid() && Obstacles.Positive(roots)
      requires e.KeyPress? ==> DrawsInDomain(e.draws)
      requires gameStartTime <= now
      modifies this
      ensures Valid() && gameStartTime <= now
      ensures running <==> old(running) && !StopsGame(e)
      ensures settings == old(settings) && recordRally == old(recordRally) && gameStarted == old(gameStarted)
      ensures State() == EventEffect(old(State()), now, e, roots)
    {
      match e {
        case QuitEvent =>
          running := false;
        case KeyPress(key, d) =>
          if key == KeyQ {
            running := false;
          } else if key == KeyR {
            Reset(now, d, roots);
            ballMoving := false;
          } else if !ballMoving {
            StartBallMovement(now, d.serveRight, d.serveDown);
            ballMoving := true;
          }
        case OtherGameEvent =>
      }
    }

    /** The event loop of a frame (pong.py:323-334): the events in the order
        they arrived; the game keeps running exactly when none of them stops
        it. */
    method HandleEvents(now: int, events: seq<GameEvent>, roots: Obstacles.Roots)
      requires Valid() && Obstacles.Positive(roots)
      requires EventsInDomain(events)
      requires gameStartTime <= now
      modifies this
      ensures Valid() && gameStartTime <= now
      ensures running <==> old(running) && forall j | 0 <= j < |events| :: !StopsGame(events[j])
      ensures settings == old(settings) && recordRally == old(recordRally) && gameStarted == old(gameStarted)
      ensures State() == EventsEffect(old(State()), now, events, roots)
    {
      var i := 0;
      while i < |events|
        invariant 0 <= i <= |events|
        invariant Valid() && gameStartTime <= now
        invariant running <==> old(running) && forall j | 0 <= j < i :: !StopsGame(events[j])
        invariant settings == old(settings) && recordRally == old(recordRally) && gameStarted == old(gameStarted)
        invariant EventsInDomain(events[..i]) && State() == EventsEffect(old(State()), now, events[..i], roots)
      {
        assert events[..i + 1] == events[..i] + [events[i]];
        EventsEffectAppend(old(State()), now, events[..i], events[i], roots);
        HandleEvent(now, events[i], roots);
        i := i + 1;
      }
      assert events[..i] == events;
    }

    /** The rules of a frame that apply while the ball moves
        (pong.py:238-302), in the source's order. `ok` is false when a rule
        raised. `newRecord` is the corrected flag for the next menu. */
    method BallRules(f: FrameInput, root: real -> real) returns (ok: bool, newRecord: bool)
      requires Valid() && IsSqrt(root)
      modifies this
      ensures Valid()
      ensures gameStartTime == old(gameStartTime) && settings == old(settings) && running == old(running)
      ensures old(recordRally) <= recordRally
    {
      newRecord := false;
      TrackRally(f.now);
      MoveBall();
      if obstacle.Some? {
        ok := ObstacleStep(f.now, root, f.jitter);
        if !ok {
          return;
        }
      }
      WallBounce();
      ok := PaddleHit(f.now);
      if !ok {
        return;
      }
      Score(f.now);
      newRecord := CheckWin();
      MoveComputerPaddle(f.aiDraw);
    }

    /** A frame of a match in progress (pong.py:204-337): erosion, the ball's
        rules while it moves, the player's paddle and the events. */
    method PlayFrame(f: FrameInput, root: real -> real, roots: Obstacles.Roots) returns (ok: bool, newRecord: bool)
      requires Valid() && FrameInDomain(f) && IsSqrt(root) && Obstacles.Positive(roots)
      requires gameStartTime <= f.now
      modifies this
      ensures Valid() && gameStartTime <= f.now
      ensures settings == old(settings) && old(recordRally) <= recordRally
    {
      ok, newRecord := true, false;
      ErodePaddle(f.now);
      if ballMoving {
        ok, newRecord := BallRules(f, root);
        if !ok {
          return;
        }
      }
      MovePlayerPaddle(f.keyDown, f.keyUp);
      HandleEvents(f.now, f.events, roots);
    }

    /** One pass of `run_game`'s loop (pong.py:193-337). Before a match the
        menu is shown: the settings become those the menu leaves behind, and
        its answer either starts a match, after a reset, or stops the game;
        during one the frame is played. `ok` is false when a rule raised; the
        source's loop would end there. */
    method Frame(f: FrameInput, root: real -> real, roots: Obstacles.Roots) returns (ok: bool, newRecord: bool)
      requires Valid() && running && FrameInDomain(f) && IsSqrt(root) && Obstacles.Positive(roots)
      requires gameStartTime <= f.now
      modifies this
      ensures Valid() && gameStartTime <= f.now
      ensures settings == if old(gameStarted) then old(settings) else f.menuSettings
      ensures old(recordRally) <= recordRally
      ensures !old(gameStarted) ==> ok && gameStarted == f.startFromMenu && running == f.startFromMenu
      ensures !old(gameStarted) && !f.startFromMenu ==>
        State() == old(State()).(settings := f.menuSettings, running := false)
      ensures !old(gameStarted) && f.startFromMenu ==>
        State() == ResetState(old(State()).(settings := f.menuSettings, gameStarted := true),
                              f.now, f.menuDraws, roots).(ballMoving := false)
    {
      if !gameStarted {
        ok, newRecord := true, false;
        settings := f.menuSettings;
        gameStarted := f.startFromMenu;
        if !gameStarted {
          running := false;
        } else {
          ghost var chosen := State();
          assert chosen == old(State()).(settings := f.menuSettings, gameStarted := true);
          Reset(f.now, f.menuDraws, roots);
          ballMoving := false;
        }
      } else {
        ok, newRecord := PlayFrame(f, root, roots);
      }
    }

    /** `run_game`: frames are played while `running` holds. A game that is
        not running plays no frame at all and changes nothing. */
    method RunGame(frames: seq<FrameInput>, root: real -> real, roots: Obstacles.Roots)
      returns (played: nat, crashed: bool)
      requires Valid() && IsSqrt(root) && Obstacles.Positive(roots)
      requires forall f | f in frames :: FrameInDomain(f)
      requires forall i, j | 0 <= i < j < |frames| :: frames[i].now <= frames[j].now
      requires |frames| > 0 ==> gameStartTime <= frames[0].now
      modifies this
      ensures Valid() && played <= |frames|
      ensures !old(running) ==> played == 0 && !crashed && State() == old(State())
      ensures old(running) && |frames| > 0 ==> played >= 1
      ensures !crashed && played < |frames| ==> !running
      ensures old(recordRally) <= recordRally
      ensures old(running) && !old(gameStarted) && |frames| > 0 && !frames[0].startFromMenu ==>
        played == 1 && !crashed && !running && settings == frames[0].menuSettings
    {
      played, crashed := 0, false;
      while running && played < |frames|
        invariant Valid() && played <= |frames|
        invariant played < |frames| ==> gameStartTime <= frames[played].now
        invariant !old(running) ==> played == 0
        invariant played == 0 ==> State() == old(State())
        invariant old(recordRally) <= recordRally
        invariant played >= 1 && !old(gameStarted) && !frames[0].startFromMenu ==>
          played == 1 && !running && settings == frames[0].menuSettings
      {
        var ok, _ := Frame(frames[played], root, roots);
        played := played + 1;
        if !ok {
          crashed := true;
          return;
        }
      }
    }
  }

  /** The script's entry point as written (pong.py:340-343): `running` is
      set to False when the module loads and nothing sets it to True, so
      `run_game` returns at once, whatever the frames would have been. */
  method LaunchAsWritten(s: GameSettings, record: int, startTime: int, startDraws: Draws,
                         frames: seq<FrameInput>, root: real -> real, roots: Obstacles.Roots)
    returns (played: nat, crashed: bool)
    requires s.ballSpeedTurns != 0 && DrawsInDomain(startDraws) && IsSqrt(root) && Obstacles.Positive(roots)
    requires forall f | f in frames :: FrameInDomain(f)
    requires forall i, j | 0 <= i < j < |frames| :: frames[i].now <= frames[j].now
    requires |frames| > 0 ==> startTime <= frames[0].now
    ensures played == 0 && !crashed
  {
    var m := new Match(s, record);
    m.Reset(startTime, startDraws, roots);
    played, crashed := m.RunGame(frames, root, roots);
  }

  /** The evident intent: the game is running when the loop starts, so the
      first frame, which shows the menu, is always played. */
  method Launch(s: GameSettings, record: int, startTime: int, startDraws: Draws,
                frames: seq<FrameInput>, root: real -> real, roots: Obstacles.Roots)
    returns (played: nat, crashed: bool)
    requires s.ballSpeedTurns != 0 && DrawsInDomain(startDraws) && IsSqrt(root) && Obstacles.Positive(roots)
    requires forall f | f in frames :: FrameInDomain(f)
    requires forall i, j | 0 <= i < j < |frames| :: frames[i].now <= frames[j].now
    requires |frames| > 0 ==> startTime <= frames[0].now
    ensures played <= |frames|
    ensures |frames| > 0 ==> played >= 1
  {
    var m := new Match(s, record);
    m.Reset(startTime, startDraws, roots);
    m.running := true;
    played, crashed := m.RunGame(frames, root, roots);
  }
}
