# Pong, modelled in Dafny

A model of the core of a pygame Pong game. Four Python files make up that core:

- `pong.py`: the match state, the per-frame rules, the `run_game` loop and the entry point.
- `modules/obstacle.py`: the random polygonal obstacle, its collision test and the deflection.
- `modules/computer_ai.py`: the computer paddle's decision.
- `modules/game_options.py`: the options menu's key handling and the statistics update.

The Dafny modules follow those files:

| module | file | models |
|---|---|---|
| `Geometry` | geometry.dfy | the parts of pygame's `Rect` the game uses, as a value: `center`, `centery`, `left`, `right`, `colliderect`, `clamp_ip`, and the truncation of a float stored into an integer field |
| `ComputerAi` | computer_ai.dfy | `calculate_computer_move` |
| `Obstacles` | obstacle.dfy | `Obstacle.generate`, `check_collision`, `resolve_collision` |
| `PongRules` | pong_rules.dfy | the constants and each rule of a frame as a pure function, with two findings |
| `GameOptions` | game_options.dfy | `show_options_menu`, as a step function and a loop over the events, and `update_game_stats` |
| `Pong` | pong.dfy | the globals of `pong.py` as a class `Match`, with one method per rule, a frame, `run_game` and the entry point |

How the model treats the outside world:

- Python floats are exact reals.
- The following are parameters, not computations:
  - every random draw;
  - the clock (`get_ticks`);
  - the keys held and the events of a frame;
  - the start menu's answer, and the settings it leaves behind;
  - `math.sqrt`, as a function `root` with `Sq(root(x)) == x`;
  - the constants `sqrt(2)` and `sqrt(3)`;
  - the rotation by the random angle added in `resolve_collision`.
- Where a rule of a frame raises in the source on a reachable state, the model returns `ok == false` instead of crashing. Two exceptions are listed under "## Left out": the paddle-hit snap, which uses the corrected code of the first finding, and a `BALL_SPEED_TURNS` of zero, which the model excludes.

## Model

| member | source | states |
|---|---|---|
| Geometry.HalfOf | pong.py:78 | pygame's C halving of a size: within one of half, rounded toward zero |
| Geometry.Trunc | pong.py:242-243 | a float stored into a `Rect` field is truncated toward zero: within one of the value, on the side of zero |
| Geometry.TruncOfInt | pong.py:242-243 | an integral value is stored unchanged |
| Geometry.Rect.WithCenter | pong.py:73 | assigning `center` keeps the size and puts the centre at the given point |
| Geometry.Rect.WithCenterY | pong.py:78 | assigning `centery` keeps x and the size and puts the vertical centre at the given value |
| Geometry.Rect.WithLeft | pong.py:263-266 | assigning `left` moves the rectangle horizontally so that its left edge is at the value |
| Geometry.Rect.WithRight | pong.py:263-266 | assigning `right` moves the rectangle horizontally so that its right edge is at the value |
| Geometry.ClampAxis | pong.py:258 | `clamp_ip` on one axis: a span that fits ends up inside; one already inside is untouched; one sticking out is moved to the near edge |
| Geometry.Clamp | pong.py:257-259 | `clamp_ip` keeps the size, puts a rectangle that fits inside the area, and leaves one already inside alone |
| Geometry.ClampIdempotent | pong.py:321 | clamping a second time changes nothing |
| ComputerAi.Decide | modules/computer_ai.py:27-32 | up exactly below the dead zone, down exactly above it, still exactly inside it |
| ComputerAi.CalculateComputerMove | modules/computer_ai.py:4-32 | the move is -1, 0 or 1; without randomness it compares the ball with the paddle centre and the 2-pixel dead zone, in both directions |
| ComputerAi.RandomFactorBounds | modules/computer_ai.py:23 | the random factor lies in [-r/100, r/100), so within the "-1 to 1" range the comment claims for r up to 100 |
| ComputerAi.DecideMonotone | modules/computer_ai.py:27-32 | a lower target never gives a move further up |
| ComputerAi.MoveMonotoneInBall | modules/computer_ai.py:20-32 | with the same draw, a lower ball never gives a move further up |
| ComputerAi.SpeedIgnored | modules/computer_ai.py:4-34 | the speed argument has no influence on the decision |
| ComputerAi.DeterministicExamples | modules/computer_ai.py:20-32 | concrete decisions for a paddle centred at 300 |
| Obstacles.RandInt | modules/obstacle.py:23-24 | `randint(lo, hi)` lies between both bounds |
| Obstacles.Vertices | modules/obstacle.py:28-55 | six, three or four vertices for a hexagon, triangle or square |
| Obstacles.Generate | modules/obstacle.py:14-25 | size between 2 and 10 ball radii, centre in the middle third of each axis, the vertices are `Vertices` of the drawn shape, centre and size (so `VerticesOnCircle` applies), one per corner, consecutive ones distinct |
| Obstacles.SizeBetweenBounds | modules/obstacle.py:16-19 | `min_size + (max_size - min_size) * factor` lies between the two sizes |
| Obstacles.GeneratedVerticesNonDegenerate | modules/obstacle.py:28-55 | for a positive ball radius no edge has zero length, so the projection never divides by zero |
| Obstacles.GenerateWellFormed | modules/obstacle.py:7-55 | the constructor always yields an obstacle satisfying `WellFormed` |
| Obstacles.VerticesOnCircle | modules/obstacle.py:28-55 | with exact roots every vertex lies at distance `size` from the centre |
| Obstacles.HexagonOnCircle | modules/obstacle.py:28-35 | the hexagon's vertices lie on the circle of radius `size` |
| Obstacles.TriangleOnCircle | modules/obstacle.py:36-47 | the triangle's vertices lie on the circle of radius `size` |
| Obstacles.SquareOnCircle | modules/obstacle.py:48-55 | the square's vertices, at `size / sqrt(2)` on each axis, lie on the circle of radius `size` |
| Obstacles.VerticesNonDegenerate | modules/obstacle.py:28-55 | for a positive size each vertex differs from the next one, cyclically |
| Obstacles.EdgeEnd | modules/obstacle.py:64 | the end of edge i is the next vertex, wrapping to the first after the last |
| Obstacles.Projection | modules/obstacle.py:70-71 | the clamped projection parameter lies in [0, 1] |
| Obstacles.FirstContactTouches | modules/obstacle.py:62-88 | a reported contact is on an edge within reach, with the closest point and squared distance of that edge |
| Obstacles.BeforeContactClear | modules/obstacle.py:62-88 | no edge scanned before the reported one, or any edge when none is reported, is within reach |
| Obstacles.FirstContactIsFirst | modules/obstacle.py:62-88 | the contact found is the first edge within reach, in list order, and there is none exactly when no edge is within reach |
| Obstacles.CheckCollision | modules/obstacle.py:60-88 | the loop returns the first edge within the ball's radius of its centre, or no contact |
| Obstacles.ProbeEdge | modules/obstacle.py:66-81 | the loop body computes the closest point of the segment and its squared distance |
| Obstacles.ClosestIsNearest | modules/obstacle.py:66-76 | the clamped projection gives the point of the segment nearest to the ball's centre |
| Obstacles.OverlapWithinRadius | modules/obstacle.py:82-86 | the returned overlap `ball_radius - distance` lies between 0 and the radius |
| Obstacles.NormalIsUnit | modules/obstacle.py:83-85 | the normal has length one |
| Obstacles.ReflectKeepsLength | modules/obstacle.py:94 | reflecting about a unit normal keeps the speed |
| Obstacles.RotateKeepsLength | modules/obstacle.py:102-108 | adding the random angle keeps the speed |
| Obstacles.DisplacementAlongNormal | modules/obstacle.py:96-99 | the push-out moves the ball along the normal by 1.01 times the overlap |
| Obstacles.Displaced | modules/obstacle.py:98-99 | moving the ball keeps its size |
| Obstacles.ResolveCollision | modules/obstacle.py:90-109 | without contact the ball and velocity are unchanged; with one the ball is pushed out along the normal and the velocity reflected and rotated, keeping its length |
| PongRules.FloorDiv | pong.py:99 | Python's `//`: the floor of the quotient, for either sign of the divisor |
| PongRules.FloorMod | pong.py:96 | Python's `%`: the remainder that completes `//` and takes the divisor's sign |
| PongRules.SpeedMultiplierBounds | pong.py:97-101 | the multiplier lies between 1 and the cap `1 + BALL_SPEED / 50` |
| PongRules.SpeedMultiplierMonotone | pong.py:97-101 | more strikes never give a smaller multiplier |
| PongRules.SpeedMultiplierExamples | pong.py:97-101 | with the default-like settings the ball speeds up by a tenth every fifth strike up to the cap |
| PongRules.Rescaled | pong.py:102-103 | each component becomes plus or minus five times the multiplier, in its own direction |
| PongRules.DisplaySpeed | pong.py:104 | the displayed speed is never negative |
| PongRules.RescaledKeepsDirection | pong.py:102-104 | a rescaled velocity keeps each component's sign, and its displayed speed is five times the multiplier |
| PongRules.ErodedHeightClosedForm | pong.py:207-214 | the eroded height is `max(100 - elapsed // 600, 50)`: one pixel every 600 ms |
| PongRules.FloorOfQuotient | pong.py:211 | the floor of a real quotient is Python's floor division |
| PongRules.ErodedHeightBounds | pong.py:208-214 | the eroded height stays between half and all of the initial height |
| PongRules.ErodedHeightMonotone | pong.py:207-214 | the paddle only shrinks as time passes |
| PongRules.ErodedHeightMilestones | pong.py:207-214 | full height for the first 600 ms; the floor of 50 from 30 seconds on |
| PongRules.ExactlyOneScores | pong.py:273-278 | exactly one score goes up by one, the player's exactly when the ball left on the left |
| PongRules.RecordIsMaximum | pong.py:289-290 | the stored record after a win is the maximum of the old record and the rally, and changes only when the rally beat it |
| PongRules.ComputerPaddleStep | pong.py:294-301 | the computer paddle moves down by `COMPUTER_SPEED // 10` but up by that rounded up, because truncation is toward zero |
| PongRules.SlowPaddleCannotDescend | pong.py:294-301 | with COMPUTER_SPEED 5 a move down leaves the paddle in place, while a move up lifts it one pixel |
| PongRules.PlayerPaddleDelta | pong.py:320 | the player paddle moves 5 down, 5 up, or not at all when both or neither arrow is held |
| PongRules.UnpackTwo | pong.py:263-266 | only a pair unpacks into two targets |
| PongRules.SnapAsWrittenAlwaysRaises | pong.py:263-266 | the snap as written always raises `TypeError` |
| PongRules.Snap | pong.py:263-266 | the corrected snap keeps the ball's row and size |
| PongRules.SnapSeparates | pong.py:261-266 | after the corrected snap the ball touches the paddle it hit without overlapping it |
| PongRules.NewRecordFlagNeverSet | pong.py:194-197 | the menu's new-record flag as written is never set after a win |
| PongRules.NewRecordExactlyWhenReplaced | pong.py:285-292 | the corrected flag is set exactly when the win replaced the record |
| GameOptions.Range | modules/game_options.py:87-98 | WINNING_POINTS and BALL_SPEED_TURNS lie in 1..10, BALL_INCREMENT in 1..20, every other integer option in 0..100 |
| GameOptions.ClampTo | modules/game_options.py:88-98 | `max(lo, min(hi, v))` lies in the range and is `v` when `v` already does |
| GameOptions.Adjusted | modules/game_options.py:80-98 | LEFT or RIGHT flips a boolean; an integer moves by -1 on LEFT and +1 on RIGHT and is then clamped to its option's range; anything else is left |
| GameOptions.SelectPrevious | modules/game_options.py:76-77 | UP moves to the previous option, wrapping from the first to the last |
| GameOptions.SelectNext | modules/game_options.py:78-79 | DOWN moves to the next option, wrapping from the last to the first |
| GameOptions.Step | modules/game_options.py:72-103 | one event: the menu closes without saving exactly on QUIT or ESCAPE, and saves exactly on RETURN; UP and DOWN move the selection with wrap-around and change no setting; LEFT and RIGHT adjust the selected option only; other events change nothing; an open menu keeps a valid selection and the same keys |
| GameOptions.ShowOptionsMenu | modules/game_options.py:41-103 | the loop's outcome is the session of steps over the events, starting on the first option |
| GameOptions.SessionKeepsRanges | modules/game_options.py:80-98 | a session never brings an integer option out of its range and never adds or removes a key |
| GameOptions.StepKeepsRanges | modules/game_options.py:80-98 | one step keeps every integer option in its range |
| GameOptions.SelectionRoundTrip | modules/game_options.py:76-79 | UP undoes DOWN and DOWN undoes UP |
| GameOptions.ToggleTwice | modules/game_options.py:83-84 | flipping a boolean twice restores it |
| GameOptions.ClampIdempotentAtBound | modules/game_options.py:85-98 | pressing toward a bound already reached changes nothing |
| GameOptions.ArrowsInverse | modules/game_options.py:85-98 | inside the range, LEFT undoes RIGHT and RIGHT undoes LEFT |
| GameOptions.UpdateGameStats | modules/game_options.py:106-110 | the statistic is replaced and saved exactly when the new value is larger; a missing one counts as 0; other entries are untouched |
| GameOptions.UpdateGameStatsMonotone | modules/game_options.py:106-110 | a statistic never decreases, and repeating an update saves nothing |
| Pong.NewObstacle | pong.py:81-85 | an obstacle exists exactly when the setting asks for one, and it is well formed |
| Pong.SpeedUpdateEffect | pong.py:94-104 | a due update keeps the directions, equalises the magnitudes between 5 and the cap, and touches only the velocity and the displayed speed; otherwise nothing changes |
| Pong.ObstacleRuleQuiet | pong.py:245-255 | without a contact, or within the cooldown, the obstacle rule changes nothing |
| Pong.ObstacleRuleDeflects | pong.py:245-255 | a deflection keeps the ball's speed and restarts the cooldown, with an overlap between 0 and the radius |
| Pong.AiSteersByBottomEdge | pong.py:294-297 | passing `centery` as the paddle's top makes the AI steer by the paddle's bottom edge |
| Pong.Match.constructor | pong.py:46-61 | the state the module sets up when loaded |
| Pong.ResetStateFacts | pong.py:71-85 | after `reset_game_state`: ball centred and still, counters cleared, paddles full height and centred, match clock at `now`, an obstacle exactly when the setting asks for one, and the flags, rally start, settings and record as they were |
| Pong.Served | pong.py:88-91 | after `start_ball_movement`: each component is plus or minus 5 in the drawn direction, the rally clock starts, and nothing else changes |
| Pong.EventEffectFacts | pong.py:324-334 | QUIT or Q stops the game and changes nothing else; R resets the match and stops the ball; another key serves a ball at rest in the drawn direction and leaves a moving one alone; other events change nothing; no event touches the settings, the record or the match flag |
| Pong.EventsEffectAppend | pong.py:323-334 | the events of a frame take effect one after another, in the order they arrived |
| Pong.EventsEffectRunning | pong.py:323-334 | after a frame's events the game runs exactly when it did and none of them stopped it; settings, record and match flag are unchanged |
| Pong.LastResetWins | pong.py:328-331 | an R pressed last in a frame leaves a reset match with the ball at rest, whatever came before it |
| Pong.Match.Reset | pong.py:71-85 | `reset_game_state`: the new state is `ResetState` of the old, whose meaning `ResetStateFacts` states |
| Pong.Match.ResetBall | pong.py:73-76 | the ball centred with a zero velocity and displayed speed |
| Pong.Match.ResetCounters | pong.py:74-76 | strikes, scores and the longest rally cleared |
| Pong.Match.ResetField | pong.py:77-85 | both paddles at full height and centred, the clocks reset and the new obstacle stored |
| Pong.Match.StartBallMovement | pong.py:88-91 | the new state is `Served` of the old: each component plus or minus 5 in the drawn direction, and the rally clock started |
| Pong.Match.UpdateBallSpeed | pong.py:94-104 | the new state is `SpeedUpdated` of the old; it fails, changing nothing, exactly when a due update meets a zero component |
| Pong.Match.ErodePaddle | pong.py:207-214 | with erosion on, only the player paddle's height changes, to the eroded height |
| Pong.Match.TrackRally | pong.py:239-241 | the longest rally becomes the maximum of itself and the current rally's seconds |
| Pong.Match.MoveBall | pong.py:242-243 | the ball moves by the velocity, truncated to integers |
| Pong.Match.ObstacleStep | pong.py:245-255 | the outcome and the new state are exactly `ObstacleRule` of the old state |
| Pong.Match.Deflect | pong.py:251-255 | the pushed-out ball, the new velocity and the collision time are stored |
| Pong.Match.WallBounce | pong.py:257-259 | at the top or bottom the ball is clamped into the court and the vertical velocity flips; otherwise nothing changes |
| Pong.Match.PaddleHit | pong.py:261-271 | a hit past the cooldown snaps, reverses, counts, updates the speed and restarts the cooldown; otherwise nothing changes |
| Pong.Match.Rebound | pong.py:263-268 | the ball snapped, the horizontal velocity reversed and the strike counted |
| Pong.Match.Strike | pong.py:263-271 | the new state after a strike, failing exactly when the speed update does |
| Pong.Match.Score | pong.py:273-283 | when the ball leaves sideways, exactly one score goes up and the ball is centred and stopped; otherwise nothing changes |
| Pong.Match.CheckWin | pong.py:285-292 | on a win the record becomes the maximum and the match stops; the flag is set exactly when the record was beaten |
| Pong.Match.MoveComputerPaddle | pong.py:294-302 | the computer paddle moves by the AI's decision times a tenth of the speed, then is clamped into the court |
| Pong.Match.MovePlayerPaddle | pong.py:319-321 | the player paddle moves by the arrow delta and ends up inside the court |
| Pong.Match.HandleEvent | pong.py:324-334 | the new state is `EventEffect` of the old state and the event, whose meaning `EventEffectFacts` states |
| Pong.Match.HandleEvents | pong.py:323-334 | the new state is `EventsEffect` of the old state and the events, in their order; the game keeps running exactly when no event stops it; settings, record and match flag are untouched |
| Pong.Match.BallRules | pong.py:238-302 | the moving-ball rules keep the invariant, the settings and the clock, and never lower the record |
| Pong.Match.PlayFrame | pong.py:204-337 | a frame of play keeps the invariant and the settings, and never lowers the record |
| Pong.Match.Frame | pong.py:193-337 | before a match, the menu's settings are taken; a start resets the match (`ResetState`) with the ball at rest, a refusal stops the game and changes nothing else; the record never decreases |
| Pong.Match.RunGame | pong.py:186-337 | a game that is not running plays no frame and changes nothing; a running one plays at least one; the loop stops only when the game stops, the frames run out or a rule raises; the record never decreases; a first menu that declines ends the game after that one frame, with its settings kept |
| Pong.LaunchAsWritten | pong.py:340-343 | as written, no frame is ever played |
| Pong.Launch | pong.py:340-343 | with `running` set first, at least the first frame is played |

## Left out

- Rendering, fonts, sounds, music, the splash GIF and `clock.tick(60)`: they change no state the rules read.
- `load_settings` and `save_settings` (JSON file I/O): settings are values in the model. A save corresponds to the `Saved` outcome of the menu, or to the flag returned by `UpdateGameStats`.
- `show_menu`'s own drawing and key loop: its result is an input of each menu frame. That input is whether to start, plus the settings after any options-menu edits.
- `Obstacle.draw`: drawing only.
- Floats are exact reals. The model does not capture rounding, NaN or infinity.
- `math.sqrt`, `math.cos`, `math.sin` and `math.atan2` are parameters, tied to their meaning by `IsSqrt`, `Exact` and `IsRotation`. The hexagon's vertices use the exact values of cos and sin at multiples of pi/3, written with `sqrt(3)`.
- `Obstacle` is an immutable value, built by `Generate`, because no method of the class changes its fields after construction.
- Obstacles.ResolveCollision: the ball is returned as a new `Rect`, not updated in place. The caller stores it.
- Pong.Match.UpdateBallSpeed: when a due update meets a zero component, the source raises `ZeroDivisionError` after possibly assigning `ball_dx`. The model reports `ok == false` and leaves the state as it was. The game loop ends there either way.
- Pong.Match.ObstacleStep: the source raises a `ValueError` when the first edge within reach passes through the ball's centre (`normalize` of a zero vector). The model reports `ok == false`.
- Paddle erosion shrinks only the player's paddle: pong.py:207-214 assigns only `player_paddle.height`.
- Each event of a frame carries its own random draws, which are used only if that event serves or resets.
- Pong.Match.Rebound: the paddle-hit snap at pong.py:263-266 raises `TypeError` on every hit past the cooldown. The match uses the corrected snap of the first finding, so `Rebound` and `Strike` succeed; the raise is modelled only by `PongRules.SnapAsWritten`.
- Pong.Match.constructor: a `BALL_SPEED_TURNS` of zero makes `strike_count % BALL_SPEED_TURNS` (pong.py:96) raise `ZeroDivisionError` on the first paddle hit. The constructor and `FrameInDomain` exclude it; the options menu keeps the value between 1 and 10, but a settings file could hold 0.
- The clock: `reset_game_state` (pong.py:79) and `start_ball_movement` (pong.py:91) each call `get_ticks()`. The model gives every reading within one frame the frame's single `now`.
- Pong.Match.RunGame: it ties the final state to the first frame's menu answer only. It does not compose all the frames, because a frame of play is stated by `PlayFrame`'s invariants alone.
- Pong.Match.BallRules, Pong.Match.PlayFrame: their contracts state the invariant, the unchanged clock and settings, and the monotone record. They do not restate the composition of the rules they call, which the contracts of those rules state one by one.

## Findings

| source | as written | input that shows it | evidently intended | confidence | as-written member | corrected member |
|---|---|---|---|---|---|---|
| pong.py:263-266 | the tuple is indexed before unpacking, so `ball.right, ball.left = <int>` raises `TypeError` on every paddle hit | any ball overlapping a paddle more than 100 ms after the last hit | set the ball's left edge to the computer paddle's right edge, or its right edge to the player paddle's left edge | not executed | PongRules.SnapAsWrittenAlwaysRaises | PongRules.SnapSeparates |
| pong.py:58 | `running` starts False and nothing sets it True, so `run_game` returns at once and the game never starts | starting the script with any settings and any input | set `running = True` before `run_game()` | not executed | Pong.LaunchAsWritten | Pong.Launch |
| pong.py:194-197 | the new-record flag compares the rally with the record that the win check has already updated, so it is never set | a match won with a rally longer than the stored record | compare with the record stored before the win | not executed | PongRules.NewRecordFlagNeverSet | PongRules.NewRecordExactlyWhenReplaced |
