/**
 * The computer paddle's controller (modules/computer_ai.py): a stateless
 * three-way decision. The one `random.random()` draw is the parameter
 * `draw`, a value in [0, 1). Python floats are modelled as exact reals.
 */
module ComputerAi {
  import opened Geometry

  /** The dead zone around the paddle centre inside which the paddle stays. */
  const DEAD_ZONE: real := 2.0

  /** `paddle_y + paddle_height / 2`, with Python's true division. */
  function PaddleCenter(paddleY: int, paddleHeight: int): real
  {
    paddleY as real + paddleHeight as real / 2.0
  }

  /** `(random.random() - 0.5) * randomness / 50`. */
  function RandomFactor(draw: real, randomness: int): real
  {
    (draw - 0.5) * randomness as real / 50.0
  }

  /** The jitter added to the ball's y position. */
  function RandomOffset(draw: real, randomness: int, paddleHeight: int): real
  {
    RandomFactor(draw, randomness) * paddleHeight as real
  }

  /** The if/elif/else chain: up, down, or stay inside the dead zone. */
  function Decide(target: real, center: real): (move: int)
    ensures move == -1 <==> target < center - DEAD_ZONE
    ensures move == 1 <==> target > center + DEAD_ZONE
    ensures move == 0 <==> center - DEAD_ZONE <= target <= center + DEAD_ZONE
  {
    if target < center - DEAD_ZONE then -1
    else if target > center + DEAD_ZONE then 1
    else 0
  }

  /** `calculate_computer_move`. `courtHeight` and `speed` are accepted and
      not used: the caller scales the move by the speed. */
  function CalculateComputerMove(ballY: int, paddleY: int, paddleHeight: int,
                                 courtHeight: int, speed: int, randomness: int,
                                 draw: real): (move: int)
    ensures move == -1 || move == 0 || move == 1
    ensures randomness == 0 ==>
      (move == -1 <==> (ballY as real) < PaddleCenter(paddleY, paddleHeight) - DEAD_ZONE) &&
      (move == 1 <==> (ballY as real) > PaddleCenter(paddleY, paddleHeight) + DEAD_ZONE)
  {
    Decide(ballY as real + RandomOffset(draw, randomness, paddleHeight),
           PaddleCenter(paddleY, paddleHeight))
  }

  /** The factor lies in [-randomness/100, randomness/100): for settings up to
      100 that is inside the "-1 to 1" range the source's comment claims. */
  lemma RandomFactorBounds(draw: real, randomness: int)
    requires 0.0 <= draw < 1.0
    requires 0 <= randomness
    ensures -(randomness as real) / 100.0 <= RandomFactor(draw, randomness)
    ensures randomness > 0 ==> RandomFactor(draw, randomness) < randomness as real / 100.0
    ensures randomness <= 100 ==> -1.0 <= RandomFactor(draw, randomness) < 1.0
  {
    var k := randomness as real;
    LowerBound(draw - 0.5, k);
    if 0.0 < k {
      UpperBound(draw - 0.5, k);
    } else {
      assert k == 0.0;
    }
    ScaledBounds((draw - 0.5) * k, k);
  }

  /** The linear half of the bound: from `m` in [-k/2, k/2) to `m / 50` in
      [-k/100, k/100). */
  lemma ScaledBounds(m: real, k: real)
    requires 0.0 <= k && -0.5 * k <= m
    requires 0.0 < k ==> m < 0.5 * k
    requires k == 0.0 ==> m == 0.0
    ensures -k / 100.0 <= m / 50.0
    ensures 0.0 < k ==> m / 50.0 < k / 100.0
    ensures k <= 100.0 ==> -1.0 <= m / 50.0 < 1.0
  {
  }

  /** For `d` at least -1/2 and `k` non-negative, `d * k` is at least -k/2. */
  lemma LowerBound(d: real, k: real)
    requires -0.5 <= d && 0.0 <= k
    ensures -0.5 * k <= d * k
  {
    NonNegativeProduct(d + 0.5, k);
    assert (d + 0.5) * k == d * k + 0.5 * k;
  }

  /** For `d` below 1/2 and `k` positive, `d * k` is below k/2. */
  lemma UpperBound(d: real, k: real)
    requires d < 0.5 && 0.0 < k
    ensures d * k < 0.5 * k
  {
    PositiveProduct(0.5 - d, k);
    assert (0.5 - d) * k == 0.5 * k - d * k;
  }

  /** The decision never moves the other way when the target moves down. */
  lemma DecideMonotone(t1: real, t2: real, center: real)
    requires t1 <= t2
    ensures Decide(t1, center) <= Decide(t2, center)
  {
  }

  /** A lower ball (larger y), with the same draw, never gives a smaller move. */
  lemma MoveMonotoneInBall(ball1: int, ball2: int, paddleY: int, paddleHeight: int,
                           courtHeight: int, speed: int, randomness: int, draw: real)
    requires ball1 <= ball2
    ensures CalculateComputerMove(ball1, paddleY, paddleHeight, courtHeight, speed, randomness, draw)
         <= CalculateComputerMove(ball2, paddleY, paddleHeight, courtHeight, speed, randomness, draw)
  {
    var off := RandomOffset(draw, randomness, paddleHeight);
    DecideMonotone(ball1 as real + off, ball2 as real + off, PaddleCenter(paddleY, paddleHeight));
  }

  /** The speed setting has no influence on the decision. */
  lemma SpeedIgnored(ballY: int, paddleY: int, paddleHeight: int, courtHeight: int,
                     speed1: int, speed2: int, randomness: int, draw: real)
    ensures CalculateComputerMove(ballY, paddleY, paddleHeight, courtHeight, speed1, randomness, draw)
         == CalculateComputerMove(ballY, paddleY, paddleHeight, courtHeight, speed2, randomness, draw)
  {
  }

  /** Without randomness: a paddle whose centre is at 300 moves up for a
      ball at 250, stays for 301 and moves down for 310. */
  lemma DeterministicExamples(draw: real)
    ensures CalculateComputerMove(250, 250, 100, 600, 50, 0, draw) == -1
    ensures CalculateComputerMove(301, 250, 100, 600, 50, 0, draw) == 0
    ensures CalculateComputerMove(310, 250, 100, 600, 50, 0, draw) == 1
  {
  }
}
