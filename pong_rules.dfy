/**
 * The game's rules (pong.py) as pure functions of the values they read: the
 * court constants, the speed ramp, paddle erosion, the rally clock, the
 * collision cooldown, the scoring decision, the paddle moves and the snap of
 * the ball to the paddle it hit. The class in pong.dfy applies them to the
 * match state one rule at a time. Python floats are modelled as exact reals.
 */
module PongRules {
  import opened Geometry

  const WIDTH: int := 800
  const HEIGHT: int := 600
  const BALL_RADIUS: int := 10
  const PADDLE_WIDTH: int := 10
  const INITIAL_PADDLE_HEIGHT: int := 100
  /** `INITIAL_PADDLE_HEIGHT / 60`: pixels of paddle lost per second. */
  const PADDLE_SHRINK_RATE: real := 100.0 / 60.0
  /** Milliseconds during which a second hit is ignored. */
  const COLLISION_COOLDOWN: int := 100
  /** The magnitude of each velocity component at a serve. */
  const SERVE_SPEED: real := 5.0

  /** `screen.get_rect()`. */
  function Court(): Rect
  {
    Rect(0, 0, WIDTH, HEIGHT)
  }

  /** The part of `SETTINGS["GAME_SETTINGS"]` the match reads. */
  datatype GameSettings = GameSettings(
    winningPoints: int, ballSpeed: int, ballSpeedTurns: int, ballIncrement: int,
    computerSpeed: int, computerRandomness: int, obstacle: bool, paddleErosion: bool)

  /** The ranges the options menu keeps the numeric settings in. */
  predicate InMenuRanges(s: GameSettings)
  {
    1 <= s.winningPoints <= 10 && 1 <= s.ballSpeedTurns <= 10 && 1 <= s.ballIncrement <= 20 &&
    0 <= s.ballSpeed <= 100 && 0 <= s.computerSpeed <= 100 && 0 <= s.computerRandomness <= 100
  }

  /** Python's `a // b`: the floor of the quotient. */
  function FloorDiv(a: int, b: int): (q: int)
    requires b != 0
    ensures b > 0 ==> q * b <= a < q * b + b
    ensures b < 0 ==> q * b + b < a <= q * b
  {
    if b > 0 then a / b else (-a) / (-b)
  }

  /** Python's `a % b`: the remainder takes the sign of the divisor. */
  function FloorMod(a: int, b: int): (r: int)
    requires b != 0
    ensures a == FloorDiv(a, b) * b + r
    ensures b > 0 ==> 0 <= r < b
    ensures b < 0 ==> b < r <= 0
  {
    a - FloorDiv(a, b) * b
  }

  function MinReal(a: real, b: real): (m: real)
    ensures m <= a && m <= b && (m == a || m == b)
  {
    if a <= b then a else b
  }

  function MaxInt(a: int, b: int): (m: int)
    ensures a <= m && b <= m && (m == a || m == b)
  {
    if a >= b then a else b
  }

  /** `update_ball_speed` acts only on a strike count that is a multiple of
      `BALL_SPEED_TURNS`. */
  predicate SpeedUpdateDue(strikeCount: int, s: GameSettings)
    requires s.ballSpeedTurns != 0
  {
    FloorMod(strikeCount, s.ballSpeedTurns) == 0
  }

  /** `1 + min(BALL_SPEED / 50, (strike_count // BALL_SPEED_TURNS) *
      (BALL_INCREMENT / 100))`. */
  function SpeedMultiplier(strikeCount: int, s: GameSettings): real
    requires s.ballSpeedTurns != 0
  {
    1.0 + MinReal(s.ballSpeed as real / 50.0,
                  FloorDiv(strikeCount, s.ballSpeedTurns) as real * (s.ballIncrement as real / 100.0))
  }

  /** The multiplier never drops below 1 and never exceeds the cap
      `1 + BALL_SPEED / 50`. */
  lemma SpeedMultiplierBounds(strikeCount: int, s: GameSettings)
    requires 0 <= strikeCount && 0 < s.ballSpeedTurns && 0 <= s.ballSpeed && 0 <= s.ballIncrement
    ensures 1.0 <= SpeedMultiplier(strikeCount, s) <= 1.0 + s.ballSpeed as real / 50.0
  {
    var turns := FloorDiv(strikeCount, s.ballSpeedTurns);
    assert 0 <= turns;
    NonNegativeProduct(turns as real, s.ballIncrement as real / 100.0);
  }

  lemma ScaleMonotone(a: real, b: real, k: real)
    requires a <= b && 0.0 <= k
    ensures a * k <= b * k
  {
  }

  /** Floor division by a positive divisor is monotone. */
  lemma FloorDivMonotone(a: int, b: int, d: int)
    requires a <= b && 0 < d
    ensures FloorDiv(a, d) <= FloorDiv(b, d)
  {
    var qa, qb := FloorDiv(a, d), FloorDiv(b, d);
    if qa > qb {
      assert qa * d >= (qb + 1) * d by { IntScaleMonotone(qb + 1, qa, d); }
    }
  }

  lemma IntScaleMonotone(a: int, b: int, k: int)
    requires a <= b && 0 <= k
    ensures a * k <= b * k
  {
  }

  /** More strikes never give a smaller multiplier. */
  lemma SpeedMultiplierMonotone(strikes1: int, strikes2: int, s: GameSettings)
    requires strikes1 <= strikes2 && 0 < s.ballSpeedTurns && 0 <= s.ballIncrement
    ensures SpeedMultiplier(strikes1, s) <= SpeedMultiplier(strikes2, s)
  {
    FloorDivMonotone(strikes1, strikes2, s.ballSpeedTurns);
    ScaleMonotone(FloorDiv(strikes1, s.ballSpeedTurns) as real,
                  FloorDiv(strikes2, s.ballSpeedTurns) as real,
                  s.ballIncrement as real / 100.0);
  }

  /** With BALL_SPEED 50, BALL_SPEED_TURNS 5 and BALL_INCREMENT 10 the ball
      speeds up by a tenth every fifth strike until the cap of twice the serve
      speed. */
  lemma SpeedMultiplierExamples()
    ensures SpeedMultiplier(5, GameSettings(5, 50, 5, 10, 50, 0, false, false)) == 1.1
    ensures SpeedMultiplier(10, GameSettings(5, 50, 5, 10, 50, 0, false, false)) == 1.2
    ensures SpeedMultiplier(100, GameSettings(5, 50, 5, 10, 50, 0, false, false)) == 2.0
  {
    assert FloorDiv(5, 5) == 1;
    assert FloorDiv(10, 5) == 2;
    assert FloorDiv(100, 5) == 20;
  }

  /** `abs(v) / v * 5 * multiplier`: the serve speed scaled by the multiplier,
      in the direction `v` had. A zero component makes the source divide by
      zero. */
  function Rescaled(v: real, multiplier: real): (r: real)
    requires v != 0.0
    ensures v > 0.0 ==> r == SERVE_SPEED * multiplier
    ensures v < 0.0 ==> r == -(SERVE_SPEED * multiplier)
  {
    var magnitude := if v < 0.0 then -v else v;
    magnitude / v * SERVE_SPEED * multiplier
  }

  function AbsReal(v: real): (a: real)
    ensures 0.0 <= a && (a == v || a == -v)
  {
    if v < 0.0 then -v else v
  }

  /** `current_ball_speed`: the mean magnitude of the two components. */
  function DisplaySpeed(dx: real, dy: real): (speed: real)
    ensures 0.0 <= speed
  {
    (AbsReal(dx) + AbsReal(dy)) / 2.0
  }

  /** A rescaled velocity keeps the direction of each component, and its
      displayed speed is the serve speed times the multiplier. */
  lemma RescaledKeepsDirection(dx: real, dy: real, multiplier: real)
    requires dx != 0.0 && dy != 0.0 && 0.0 < multiplier
    ensures (Rescaled(dx, multiplier) > 0.0) == (dx > 0.0)
    ensures (Rescaled(dy, multiplier) > 0.0) == (dy > 0.0)
    ensures Rescaled(dx, multiplier) != 0.0 && Rescaled(dy, multiplier) != 0.0
    ensures DisplaySpeed(Rescaled(dx, multiplier), Rescaled(dy, multiplier)) == SERVE_SPEED * multiplier
  {
  }

  /** The player paddle's height after `elapsed` milliseconds of erosion:
      `max(100 - int(PADDLE_SHRINK_RATE * elapsed // 1000), 100 // 2)`. */
  function ErodedHeight(elapsed: int): int
  {
    MaxInt(INITIAL_PADDLE_HEIGHT - (PADDLE_SHRINK_RATE * elapsed as real / 1000.0).Floor,
           INITIAL_PADDLE_HEIGHT / 2)
  }

  /** One pixel is lost every 600 ms: the height is `max(100 - elapsed //
      600, 50)`. */
  lemma ErodedHeightClosedForm(elapsed: int)
    ensures ErodedHeight(elapsed) == MaxInt(100 - FloorDiv(elapsed, 600), 50)
  {
    assert PADDLE_SHRINK_RATE * elapsed as real / 1000.0 == elapsed as real / 600.0;
    FloorOfQuotient(elapsed, 600);
  }

  /** The floor of the real quotient is Python's floor division. */
  lemma FloorOfQuotient(a: int, d: int)
    requires 0 < d
    ensures (a as real / d as real).Floor == FloorDiv(a, d)
  {
    var q := FloorDiv(a, d);
    assert q as real * d as real <= a as real < (q + 1) as real * d as real;
    assert q as real <= a as real / d as real < (q + 1) as real;
  }

  /** The paddle never grows past its initial height for a non-negative
      elapsed time and never shrinks below half of it. */
  lemma ErodedHeightBounds(elapsed: int)
    requires 0 <= elapsed
    ensures INITIAL_PADDLE_HEIGHT / 2 <= ErodedHeight(elapsed) <= INITIAL_PADDLE_HEIGHT
  {
    ErodedHeightClosedForm(elapsed);
  }

  /** The paddle only shrinks as time passes. */
  lemma ErodedHeightMonotone(e1: int, e2: int)
    requires e1 <= e2
    ensures ErodedHeight(e2) <= ErodedHeight(e1)
  {
    ErodedHeightClosedForm(e1);
    ErodedHeightClosedForm(e2);
    FloorDivMonotone(e1, e2, 600);
  }

  /** The full height lasts for the first 600 ms and the floor of 50 is
      reached after 30 seconds. */
  lemma ErodedHeightMilestones(elapsed: int)
    ensures 0 <= elapsed < 600 ==> ErodedHeight(elapsed) == 100
    ensures 30000 <= elapsed ==> ErodedHeight(elapsed) == 50
  {
    ErodedHeightClosedForm(elapsed);
  }

  /** `(current_time - rally_start_time) // 1000`: whole seconds of rally. */
  function RallySeconds(now: int, rallyStart: int): int
  {
    FloorDiv(now - rallyStart, 1000)
  }

  /** A hit counts only when more than the cooldown has passed since the
      last one. */
  predicate CooledDown(now: int, lastCollision: int)
  {
    now - lastCollision > COLLISION_COOLDOWN
  }

  /** The ball has reached a side edge of the court. */
  predicate OutSideways(ball: Rect)
  {
    ball.Left() <= 0 || ball.Right() >= WIDTH
  }

  /** The ball touches the top or the bottom of the court. */
  predicate AtTopOrBottom(ball: Rect)
  {
    ball.Top() <= 0 || ball.Bottom() >= HEIGHT
  }

  /** The scores after the ball left the court sideways: the player, whose
      paddle is on the right, scores when the ball left on the left. */
  function ScoresAfterExit(ball: Rect, playerScore: int, computerScore: int): (scores: (int, int))
  {
    if ball.Left() <= 0 then (playerScore + 1, computerScore)
    else (playerScore, computerScore + 1)
  }

  /** Exactly one score goes up, by one, and it is the player's exactly when
      the ball left on the left. */
  lemma ExactlyOneScores(ball: Rect, playerScore: int, computerScore: int)
    ensures var (p, c) := ScoresAfterExit(ball, playerScore, computerScore);
      (p == playerScore + 1 && c == computerScore) != (p == playerScore && c == computerScore + 1)
    ensures (ScoresAfterExit(ball, playerScore, computerScore).0 == playerScore + 1) <==> ball.Left() <= 0
  {
  }

  /** The match is over once either score reaches WINNING_POINTS. */
  predicate Won(playerScore: int, computerScore: int, s: GameSettings)
  {
    playerScore >= s.winningPoints || computerScore >= s.winningPoints
  }

  /** The stored longest rally after a win: replaced only by a strictly
      longer one. */
  function RecordAfterWin(record: int, longestRally: int): int
  {
    if longestRally > record then longestRally else record
  }

  /** The record is the running maximum: it never decreases, covers the
      rally just played, and changes only when that rally beat it. */
  lemma RecordIsMaximum(record: int, longestRally: int)
    ensures RecordAfterWin(record, longestRally) == MaxInt(record, longestRally)
    ensures RecordAfterWin(record, longestRally) != record ==> longestRally > record
  {
  }

  /** `computer_paddle.y + move * (COMPUTER_SPEED / 10)`, stored back as an
      integer. */
  function ComputerPaddleY(y: int, move: int, computerSpeed: int): (ny: int)
  {
    Trunc(y as real + move as real * (computerSpeed as real / 10.0))
  }

  /** Before clamping, for a paddle at a non-negative height: no move keeps
      it in place; a move down covers `COMPUTER_SPEED // 10` pixels, the
      truncated step; a move up that stays inside the court covers the step
      rounded up. Truncation toward zero makes the two directions unequal. */
  lemma ComputerPaddleStep(y: int, move: int, computerSpeed: int)
    requires 0 <= y && 0 <= computerSpeed
    ensures move == 0 ==> ComputerPaddleY(y, move, computerSpeed) == y
    ensures move == 1 ==> ComputerPaddleY(y, move, computerSpeed) == y + computerSpeed / 10
    ensures move == -1 && computerSpeed <= 10 * y ==>
      ComputerPaddleY(y, move, computerSpeed) == y - (computerSpeed + 9) / 10
  {
    var step := computerSpeed as real / 10.0;
    if move == 0 {
      assert y as real + move as real * step == y as real;
      TruncOfInt(y);
    } else if move == 1 {
      var k := computerSpeed / 10;
      assert k as real <= step < k as real + 1.0;
      assert y as real + move as real * step == y as real + step;
    } else if move == -1 && computerSpeed <= 10 * y {
      var c := (computerSpeed + 9) / 10;
      assert c as real - 1.0 < step <= c as real;
      assert y as real + move as real * step == y as real - step;
    }
  }

  /** With COMPUTER_SPEED 5 a decision to move down leaves the paddle where
      it is, while a decision to move up lifts it by one pixel. */
  lemma SlowPaddleCannotDescend()
    ensures ComputerPaddleY(250, 1, 5) == 250
    ensures ComputerPaddleY(250, -1, 5) == 249
  {
    ComputerPaddleStep(250, 1, 5);
    ComputerPaddleStep(250, -1, 5);
  }

  /** `(keys[K_DOWN] - keys[K_UP]) * 5`: the player paddle's move. */
  function PlayerPaddleDelta(down: bool, up: bool): (delta: int)
    ensures delta == 0 <==> down == up
    ensures delta == 5 <==> down && !up
    ensures delta == -5 <==> up && !down
  {
    ((if down then 1 else 0) - (if up then 1 else 0)) * 5
  }

  /** A Python value the unpacking assignment can be given. */
  datatype PyValue = PyInt(n: int) | PyPair(first: int, second: int)

  /** `a, b = v`: only a pair unpacks into two targets; an int raises
      `TypeError`. */
  datatype Unpacked = Unpacked(first: int, second: int) | TypeError

  function UnpackTwo(v: PyValue): (u: Unpacked)
    ensures u.Unpacked? <==> v.PyPair?
  {
    match v
    case PyPair(a, b) => Unpacked(a, b)
    case PyInt(_) => TypeError
  }

  /** The snap at pong.py:263-266 as written: the tuple is indexed first, so
      the right-hand side is one int, and unpacking it into `ball.right,
      ball.left` fails. */
  function SnapAsWritten(ball: Rect, player: Rect, computer: Rect): (r: Option<Rect>)
  {
    var chosen := if Collide(ball, computer) then computer.Right() else player.Left();
    match UnpackTwo(PyInt(chosen))
    case Unpacked(right, left) => Some(ball.WithRight(right).WithLeft(left))
    case TypeError => None
  }

  datatype Option<T> = None | Some(value: T)

  /** Every paddle hit past the cooldown raises as written, whatever the
      positions. */
  lemma SnapAsWrittenAlwaysRaises(ball: Rect, player: Rect, computer: Rect)
    ensures SnapAsWritten(ball, player, computer).None?
  {
  }

  /** The evident intent: put the ball against the paddle it hit, to the
      right of the computer's paddle or to the left of the player's. */
  function Snap(ball: Rect, player: Rect, computer: Rect): (r: Rect)
    ensures r.y == ball.y && r.w == ball.w && r.h == ball.h
  {
    if Collide(ball, computer) then ball.WithLeft(computer.Right())
    else ball.WithRight(player.Left())
  }

  /** After the snap the ball touches the paddle it hit without overlapping
      it. */
  lemma SnapSeparates(ball: Rect, player: Rect, computer: Rect)
    requires Collide(ball, player) || Collide(ball, computer)
    ensures Collide(ball, computer) ==>
      Snap(ball, player, computer).Left() == computer.Right() &&
      !Collide(Snap(ball, player, computer), computer)
    ensures !Collide(ball, computer) ==>
      Snap(ball, player, computer).Right() == player.Left() &&
      !Collide(Snap(ball, player, computer), player)
  {
  }

  /** The menu's "new record" flag at pong.py:196, evaluated after the win
      check has already stored the rally: it can never be set. */
  predicate NewRecordFlagAsWritten(longestRally: int, recordAfterWin: int)
  {
    longestRally > recordAfterWin
  }

  lemma NewRecordFlagNeverSet(record: int, longestRally: int)
    ensures !NewRecordFlagAsWritten(longestRally, RecordAfterWin(record, longestRally))
  {
  }

  /** The evident intent: the rally beat the record stored before the win. */
  predicate NewRecord(longestRally: int, recordBeforeWin: int)
  {
    longestRally > recordBeforeWin
  }

  /** The corrected flag is set exactly when the win replaced the record. */
  lemma NewRecordExactlyWhenReplaced(record: int, longestRally: int)
    ensures NewRecord(longestRally, record) <==> RecordAfterWin(record, longestRally) != record
  {
  }
}
