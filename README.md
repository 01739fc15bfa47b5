# Pong game logic in Dafny

This project models the integer game logic of an SDL2 Pong game written in C++:

- the axis-aligned box geometry (Minkowski difference, `hasPoint`, the closest-edge classifier);
- the entity box with its edge and centre-convention accessors;
- the bounded `uint8_t` score;
- the tick-based countdown;
- paddle control;
- the collision rules (paddle clamp, wall bounce, goals, paddle bounce);
- the input bus (action tables, key and button dispatch to an observer list, subscriptions);
- the event-domain arithmetic;
- the game itself: eight states, a fixed edge table and a deferred transition queue, driven frame by frame and event by event.

One Dafny module covers each source file:

| module | file | source |
|---|---|---|
| `Geometry` | `rect.dfy` | `rect.cpp` |
| `Entities` | `entity.dfy` | `entity.cpp` |
| `ScoreCounter` | `score.dfy` | `score.cpp` |
| `CountdownTimer` | `countdown.dfy` | `countdown.cpp` |
| `Paddles` | `paddle.dfy` | `paddle.cpp` |
| `Balls` | `ball.dfy` | `ball.cpp` |
| `Collision` | `collision_system.dfy` | `collision_system.cpp` |
| `Input` | `input_bus.dfy` | `input_bus.cpp` |
| `Events` | `event_bus.dfy` | `event_bus.cpp` |
| `GameLoop` | `game.dfy` | `game.cpp` |

Two more modules support the rest:

- `StateMachine` (`state_machine.dfy`) models the edge table and the queue of `game.cpp` as values, and the `Game` class is proved against it.
- `CppInt` and `Wrappers` hold C++ truncating division, the unsigned integer widths and `Option`/`Result`.

State-changing code is imperative Dafny:

- `Entity`, `Score`, `Countdown`, `Paddle`, `Ball`, `CollisionSystem`, `InputBus`, `InputBus::Config` and `Game` are classes whose methods update their fields.
- The scancode and button tables are arrays.
- The observer list is a sequence.

C++ inheritance from `Entity` becomes composition: a paddle and a ball each hold an `Entity` named `body`.

The model keeps several behaviours of the code as written:

- **`hasPoint` is always false.** `Rect::hasPoint(x, y)` names its parameters like the box fields, so every comparison is between a parameter and itself. As a result:
  - `getIntersectingEdge` always returns `Edge::none`;
  - the ball-paddle bounces in `resolve` and `resolveFrameCollisions` never change the ball's velocity;
  - a ball overlapping a paddle passes through it.
- **Queued targets are fixed when queued.** The transition queue stores the target a trigger resolved from the state current at that moment. Queued targets are applied in order whatever the current state has become, so the machine can reach states the edge table does not connect:
  - Pause into Countdown;
  - Game Over into Playing.
- **Tall paddles flip under repeated clamps.** The paddle clamp is "top first". A paddle taller than the field, clamped again and again without moving in between, alternates between aligning its top and aligning its bottom.

## Model

| member | source | states |
|---|---|---|
| Geometry.MinkowskiDifference | src/game/rect.cpp:4-11 | The difference of A and B starts at (A.x-(B.x+B.w), A.y-(B.y+B.h)) and measures (A.w+B.w, A.h+B.h); its right and bottom edges are A's minus B's left and top; its size is non-negative when both operands' sizes are |
| Geometry.Difference | src/game/rect.cpp:13 | `A - B` is exactly the Minkowski difference of A and B |
| Geometry.DifferenceContainsOriginIffOverlap | src/game/rect.cpp:4-13 | The origin lies strictly inside A - B if and only if A and B overlap (interiors intersect), in both directions |
| Geometry.HasPoint | src/game/rect.cpp:15-22 | As written `hasPoint` is false for every box and every point |
| Geometry.HasPointMissesInteriorPoint | src/game/rect.cpp:15-22 | A point strictly inside a box (5,5 in a 10x10 box at the origin) is still reported as outside |
| Geometry.ClosestEdge | src/game/rect.cpp:30-47 | The intersecting branch never yields `none`; the chosen edge's distance is minimal, and a tie goes to left, then right, then top, then bottom |
| Geometry.ClosestEdgeTieGoesLeft | src/game/rect.cpp:37-43 | When the left and right distances tie for the minimum, the classifier answers left |
| Geometry.ClosestEdgeRightBeatsTop | src/game/rect.cpp:37-45 | When the right and top distances tie for the minimum and left is larger, the classifier answers right, not top, which comes earlier in the `Edge` declaration |
| Geometry.GetIntersectingEdge | src/game/rect.cpp:24-51 | As written `getIntersectingEdge` returns `none` for every pair of boxes, since its guard is `hasPoint` |
| Geometry.OverlappingBoxesGetNoEdge | src/game/rect.cpp:24-51 | Two boxes that do overlap still get `none` |
| Entities.PositionAfterPlacement | src/game/entity.cpp:3-10 | `setPosition(x, y)` keeps the size; `getPosition` afterwards is (x - 2*(w/2), y - 2*(h/2)), which equals (x, y) exactly when the box is at most one unit wide and high, so the two are not inverses |
| Entities.MoveKeepsSize | src/game/entity.cpp:36-39 | Moving keeps the size, and a zero velocity leaves the box in place |
| Entities.Entity.constructor | src/game/entity.h:127-128 | A new entity has a zero box and zero velocity |
| Entities.Entity.SetPosition | src/game/entity.cpp:3-10 | Stores top-left (x - w/2, y - h/2) with C++ truncating division; size and velocity unchanged; `getPosition` then reads (x - 2*(w/2), y - 2*(h/2)) |
| Entities.Entity.SetLeftEdgePosition | src/game/entity.cpp:12-13 | The left-edge getter returns the value set; only `aabb.x` changes |
| Entities.Entity.SetTopEdgePosition | src/game/entity.cpp:15-16 | The top-edge getter returns the value set; only `aabb.y` changes |
| Entities.Entity.SetRightEdgePosition | src/game/entity.cpp:18-19 | The right-edge getter returns the value set; the width is kept, so x becomes the value minus the width |
| Entities.Entity.SetBottomEdgePosition | src/game/entity.cpp:21-22 | The bottom-edge getter returns the value set; the height is kept, so y becomes the value minus the height |
| Entities.Entity.SetSize | src/game/entity.cpp:24-28 | `getSize` returns the size set; position and velocity unchanged |
| Entities.Entity.SetVelocity | src/game/entity.cpp:30-34 | `getVelocity` returns (vx, vy); the box is unchanged |
| Entities.Entity.Move | src/game/entity.cpp:36-41 | The box advances by velocity times elapsed time, truncated toward zero; velocity unchanged |
| ScoreCounter.IncrementStaysInRange | src/game/entities/score.cpp:32-41 | From a value within [0, max], an increment succeeds if and only if the value is below max, and then yields value + 1, still within range |
| ScoreCounter.IncrementsFrom | src/game/entities/score.cpp:32-39 | From v <= max, k successive increments all succeed exactly when v + k <= max, and then reach v + k; otherwise one of them fails |
| ScoreCounter.IncrementsFromZeroReachMax | src/game/entities/score.h:65 | From 0, exactly max increments reach max, the next one fails, and no shorter run reaches max |
| ScoreCounter.Score.constructor | src/game/entities/score.h:12-65 | A new score is 0 out of the given `uint8_t` maximum |
| ScoreCounter.Score.Increment | src/game/entities/score.cpp:32-41 | Fails (`out_of_range`) exactly when at max, leaving the value unchanged; otherwise raises the value by exactly 1; the value stays within [0, max] |
| ScoreCounter.Score.Reset | src/game/entities/score.cpp:40 | The value becomes 0 |
| CountdownTimer.CountIsQuotient | src/game/entities/countdown.cpp:16-25 | Negative ticks give count 0; non-negative ticks within `unsigned short` range give ticks / interval |
| CountdownTimer.CountNonIncreasing | src/game/entities/countdown.cpp:16-25 | Fewer ticks never give a larger count |
| CountdownTimer.CountAtMostStart | src/game/entities/countdown.cpp:16-29 | Below the reset value, the count is at most the starting count |
| CountdownTimer.CountAtReset | src/game/entities/countdown.cpp:16-29 | At the reset value (s+1)*interval the count is s+1 (modulo 2^16), one past the starting count |
| CountdownTimer.ResetTicksSign | src/game/entities/countdown.cpp:27-29 | The reset value (s+1)*interval has the sign of the interval and is at least one interval when the interval is positive |
| CountdownTimer.AsWrittenCheckAdmitsOutOfRangeTexture | src/game/entities/countdown.cpp:40-43 | Three textures for a starting count of 3 pass the length check as written, yet the first update yields count 3, an index past the last texture |
| CountdownTimer.CorrectedCheckKeepsTextureIndexInRange | src/game/entities/countdown.cpp:51-64 | With more textures than the starting count, every count after a positive elapsed time indexes a texture |
| CountdownTimer.Countdown.Create | src/game/entities/countdown.cpp:34-45 | Construction fails exactly when the check as written fails (fewer textures than the starting count); otherwise ticks start at the reset value |
| CountdownTimer.Countdown.Init | src/game/entities/countdown.cpp:34-39 | For any settings that pass the check as written, ticks start at (s+1)*interval and the settings are stored |
| CountdownTimer.Countdown.Update | src/game/entities/countdown.cpp:51-59 | The timeout fires exactly when ticks drop below 0; it restores the reset ticks and leaves the count alone; otherwise ticks drop by the elapsed time, the count is the tick quotient, never rises, stays at most the starting count after a positive elapsed time, and then indexes a texture whenever there is one texture per count |
| Paddles.InputDifference | src/game/entities/paddle.cpp:18-21 | The difference pressed(down) - pressed(up) is in {-1, 0, 1}: zero exactly when both or neither are pressed, 1 exactly when only the second is |
| Paddles.VerticalVelocity | src/game/entities/paddle.cpp:8-44 | Vertical velocity is -400, 0 or 400: 400 exactly when only down is held, -400 exactly when only up is, 0 when both or neither are |
| Paddles.VelocityReadsOnlyOwnActions | src/game/entities/paddle.cpp:34-43 | A paddle's velocity depends only on its own player's up and down actions |
| Paddles.Paddle.constructor | src/game/entities/paddle.cpp:13 | A new paddle is 8x64, at rest, for the given player |
| Paddles.Paddle.Update | src/game/entities/paddle.cpp:31-46 | Sets velocity (0, vertical velocity from the held actions), then moves by it |
| Balls.Ball.constructor | src/game/entities/ball.cpp:9 | A new ball is 8x8 and at rest |
| Balls.Ball.Update | src/game/entities/ball.cpp:22 | The ball moves by its velocity; velocity unchanged |
| Balls.Ball.RandomizeVelocity | src/game/entities/ball.cpp:28-39 | The velocity becomes the given serve; the box is unchanged |
| Collision.Clamped | src/game/collision_system.cpp:39-50 | Above the field, the top aligns with the field's top; otherwise, below it, the bottom aligns with the field's bottom; a box inside is kept; x and size never change |
| Collision.ClampSettlesShortBox | src/game/collision_system.cpp:39-50 | A paddle no taller than the field ends inside it, and a second clamp changes nothing |
| Collision.ClampOscillatesTallBox | src/game/collision_system.cpp:39-50 | A paddle taller than the field, clamped repeatedly without moving in between, alternates between top-aligned and bottom-aligned |
| Collision.FieldContactOf | src/game/collision_system.cpp:53-63 | Exactly one branch is taken: the top wall if the ball is above the field, else the bottom wall if below, else the left goal, else the right goal, else none |
| Collision.WallBeatsGoal | src/game/collision_system.cpp:53-63 | A ball past a wall and a goal line at once bounces and scores nothing |
| Collision.BouncedOffField | src/game/collision_system.cpp:53-58 | The top bounce sets vy to abs(vy), the bottom one to -abs(vy); vx and speed are kept; goals keep the velocity |
| Collision.BounceIdempotent | src/game/collision_system.cpp:53-58 | Bouncing twice off the same wall is the same as once |
| Collision.BouncedOffPaddle | src/game/collision_system.cpp:66-75 | As written the paddle test never changes the velocity |
| Collision.BallPassesThroughPaddle | src/game/collision_system.cpp:66-75 | A ball overlapping the left paddle while moving left keeps moving left |
| Collision.GoalCallOf | src/game/collision_system.cpp:59-62 | A callback runs only on a goal, the matching side's; an empty callback on a goal is `bad_function_call` |
| Collision.ClampToField | src/game/collision_system.cpp:39-50 | The entity's box becomes its clamped box; velocity unchanged |
| Collision.BounceOffField | src/game/collision_system.cpp:53-63 | Returns the branch the chain takes for the old box and sets the bounced velocity; the box never moves |
| Collision.BounceOffPaddles | src/game/collision_system.cpp:66-75 | Neither the ball's box nor its velocity changes |
| Collision.CollisionSystem.constructor | src/game/collision_system.cpp:7 | Both goal callbacks start empty |
| Collision.CollisionSystem.Initialize | src/game/collision_system.cpp:23-27 | Stores the two goal callbacks |
| Collision.CollisionSystem.Resolve | src/game/collision_system.cpp:36-76 | Both paddles are clamped with velocity kept; the ball's box never moves; its velocity is the field bounce; the callback run is the one for the branch taken |
| StateMachine.ShutdownHasNoEdges | src/game/game.cpp:96-124 | Shutdown has no outgoing edge |
| StateMachine.QuitLeadsToShutdown | src/game/game.cpp:96-124 | Every state but Shutdown has a quit edge to Shutdown |
| StateMachine.DoneAndCancelEdges | src/game/game.cpp:96-124 | No state wires `onDone`; only Game Over wires `onCancel` |
| StateMachine.Schedule | src/game/game.cpp:325-354 | A trigger appends the current state's edge target at the back, or changes nothing when the edge is missing; the current state is unchanged |
| StateMachine.ScheduleAll | src/game/game.cpp:325-354 | Several triggers only grow the queue, by at most one entry each, and every new entry is an edge target of the current state |
| StateMachine.EnterTriggers | src/game/game.cpp:141-204 | Only the Reset and Field Setup enter hooks trigger, once each |
| StateMachine.Advance | src/game/game.cpp:299-346 | With an empty queue nothing changes; otherwise the oldest target becomes current, the rest of the queue is kept in order, and at most one new entry (an edge of the new state) is added |
| StateMachine.ConfirmFromGameOverTakesThreeFrames | src/game/game.cpp:122-305 | After Game Over and confirm, Reset, Field Setup and Countdown become current on three consecutive frames |
| StateMachine.QueuedTargetsBypassEdgeTable | src/game/game.cpp:112-119 | A goal in the Playing hook, then a pause polled before the next drain, lead through Pause into Countdown, although Pause has no edge to Countdown |
| StateMachine.StalePauseResumesPlayAfterGameOver | src/game/game.cpp:112-122 | Starting paused, two pauses in one poll leave a stale Playing queued; a pause in the next frame and then the winning goal queue Pause ahead of Game Over; a pause while paused then enters Game Over and, a frame later, Playing again |
| StateMachine.ShutdownIsQuiescent | src/game/game.cpp:96-124 | Once in Shutdown with nothing queued, no sequence of triggers and no frame moves the machine (the game as written never enters Shutdown: nothing calls `quit`, and the Quit action stops the loop directly) |
| Input.TablesGrow | src/game/input_bus.cpp:24-44 | Loading one more entry adds exactly that entry to the type table and to the table of its kind, and binds exactly that action to its input |
| Input.DistinctInputsMapBack | src/game/input_bus.cpp:24-44 | When inputs are distinct, each configured input is bound to its own action only |
| Input.ConfiguredKeyDispatches | src/game/input_bus.cpp:24-86 | After loading a configuration with distinct inputs, each configured key's slot holds exactly its action |
| Input.IndexOf | src/game/input_bus.cpp:112-114 | The position of a subscription in the list: the first occurrence |
| Input.LaterSettingWins | src/game/input_bus.cpp:120-128 | A second setting for the same action overwrites the first |
| Input.Config.constructor | src/game/input_bus.cpp:120-128 | A new configuration binds nothing |
| Input.Config.SetKeyboardKeyDownAction | src/game/input_bus.cpp:120-123 | The action is bound to the key, replacing any earlier binding of that action |
| Input.Config.SetMouseButtonDownAction | src/game/input_bus.cpp:125-128 | The action is bound to the button, replacing any earlier binding of that action |
| Input.InputBus.constructor | src/game/input_bus.cpp:14-69 | The singleton starts zero-initialised: empty tables, every slot `none` (the first `Action`), no observers |
| Input.InputBus.Initialize | src/game/input_bus.cpp:21-45 | The type, scancode and button tables gain exactly the configuration's entries; every key and button slot is untouched when no action is bound to it, and otherwise holds a bound action |
| Input.InputBus.Load | src/game/input_bus.cpp:26-38 | One loop iteration: records the input type, and the table entry and reverse slot of the input's kind |
| Input.InputBus.Terminate | src/game/input_bus.cpp:47-54 | The three tables become empty and every slot holds `none`; observers unchanged |
| Input.InputBus.Reinitialize | src/game/input_bus.cpp:56-59 | The tables hold exactly the new configuration and the slots are refilled from all-`none`, so nothing from the previous configuration survives |
| Input.InputBus.NotifyObservers | src/game/input_bus.cpp:84-100 | Calls every observer exactly once, with the action, in subscription order |
| Input.InputBus.HandleKeyDownEvent | src/game/input_bus.cpp:75-87 | A key whose slot holds `none` notifies nobody; otherwise every observer gets the slot's action |
| Input.InputBus.HandleMouseButtonDownEvent | src/game/input_bus.cpp:89-101 | The same for a mouse button |
| Input.InputBus.OnActionPressed | src/game/input_bus.cpp:107-110 | A new subscription, not already in the list, is appended at the end; the tables are unchanged |
| Input.InputBus.OffActionPressed | src/game/input_bus.cpp:112-114 | Exactly that subscription is removed and the others keep their order |
| Input.InputBus.IsActionPressed | src/game/input_bus.cpp:134-155 | Fails (`.at`) exactly for an action never configured; otherwise reads the key state or the held buttons for the bound input |
| Events.Domain.Identity | src/core/event_bus.cpp:11 | Returns the identity the domain was built with |
| Events.Domain.Size | src/core/event_bus.cpp:13 | Returns the size the domain was built with |
| Events.Domain.RawToDomain | src/core/event_bus.cpp:15-17 | Adding the identity to the result gives back the raw type, modulo 2^32; with no wrap-around it is raw - identity |
| Events.Domain.DomainToRaw | src/core/event_bus.cpp:19-22 | The result minus the identity equals the domain event, modulo 2^32; with no wrap-around it is identity + event |
| Events.AccessorsReturnConstructorArguments | src/core/event_bus.cpp:8-13 | Both accessors return the constructor arguments |
| Events.DomainRoundTrip | src/core/event_bus.cpp:15-22 | `rawToDomain(domainToRaw(d)) == d` for every 32-bit d, wrap-around included |
| Events.RawRoundTrip | src/core/event_bus.cpp:15-22 | `domainToRaw(rawToDomain(r)) == r` for every 32-bit r |
| Events.RawBelowIdentityWraps | src/core/event_bus.cpp:15-17 | A raw type below the identity wraps to the top of the 32-bit range |
| GameLoop.DefaultConfig | src/game/game.cpp:57-70 | The constructor's configuration binds A, Z, K, M, Return, Backspace, P and Q to the eight actions |
| GameLoop.DefaultBindingsDistinct | src/game/game.cpp:57-70 | The default bindings cover every action except `none`, each with its own key |
| GameLoop.ConfigureInput | src/game/game.cpp:56-89 | Loads the default bindings into the bus and appends the game's subscription |
| GameLoop.GameCountdown | src/game/game.cpp:164-172 | The 3-2-1 countdown with four textures passes the texture check, and its ticks start at the reset value |
| GameLoop.GameCountdownHasEveryTexture | src/game/game.cpp:164-172 | Four textures cover counts 0 to 3 under both the written and the corrected check |
| GameLoop.PlacedBall | src/game/game.cpp:35-37 | The ball is centred on the field centre, at rest |
| GameLoop.PlacedPaddle | src/game/game.cpp:40-43 | A paddle centred on the given point |
| GameLoop.PlacedEntities | src/game/game.cpp:33-43 | The ball at the centre and the paddles a sixth of the width in from each side, at the centre's height, as distinct objects |
| GameLoop.NewScores | src/game/game.cpp:27-28 | Two distinct scores, 0 out of the game's maximum |
| GameLoop.ActionTrigger | src/game/game.cpp:74-88 | Only pause and confirm reach a trigger, their own |
| GameLoop.CancelIsIgnored | src/game/game.cpp:74-88 | Cancel and quit leave the state machine unchanged |
| GameLoop.GoalQueuesGameOverOnlyAtMax | src/game/game.cpp:418-434 | During play, a goal that reaches the maximum queues Game Over; any earlier goal queues Field Setup |
| GameLoop.Game.constructor | src/game/game.cpp:17-124 | Entities placed, scores at 0, default bindings loaded, game subscribed, state Start with an empty queue, running |
| GameLoop.Game.Stop | src/core/app.cpp:141-144 | Clears the running flag only |
| GameLoop.Game.ScheduleTransition | src/game/game.cpp:325-329 | A present target joins the back of the queue; a null one is ignored |
| GameLoop.Game.Fire | src/game/game.cpp:348-354 | The state machine steps as `Schedule` says |
| GameLoop.Game.HandleTransition | src/game/game.cpp:331-346 | The target becomes current and its enter hook runs: Reset zeroes both scores and queues its `next` edge; Field Setup re-centres and serves the ball and queues its `next` edge; Shutdown stops the application; nothing else changes |
| GameLoop.Game.HandleLeftGoal | src/game/game.cpp:418-425 | At the maximum, the increment throws and nothing changes; otherwise the left score rises by 1 and `gameOver` (now at max) or `next` is triggered |
| GameLoop.Game.HandleRightGoal | src/game/game.cpp:427-434 | The same for the right score |
| GameLoop.Game.ResolveFrameCollisions | src/game/game.cpp:362-416 | Both paddles clamped; the ball bounced off the walls and never moved; a left goal changes only the left score and a right goal only the right one, as `AfterGoal` says; no goal leaves scores and state machine alone |
| GameLoop.Game.PlayFrame | src/game/game.cpp:208-219 | The ball moves by velocity times elapsed time and bounces off the wall it then touches; each paddle takes the vertical velocity of its player's pressed keys and moves, clamped to the field; a goal at the moved position scores as `AfterGoal` says, otherwise scores and state machine are unchanged; the queue gains at most one entry |
| GameLoop.Game.DrainTransition | src/game/game.cpp:300-303 | The machine advances as `Advance` says; entering Reset zeroes the scores, entering Field Setup serves the ball from the centre, and nothing else touches them; the application stops exactly when Shutdown is entered |
| GameLoop.Game.CountdownFrame | src/game/game.cpp:164-173 | The countdown ticks as `Update` says; on a timeout Playing is queued, otherwise the queue is unchanged |
| GameLoop.Game.ProcessFrame | src/game/game.cpp:299-305 | After the drain, the Countdown hook ticks the countdown and on timeout queues Playing; the Playing hook moves, bounces and scores as `PlayFrame` says, from the machine the drain left; every other state leaves paddles, countdown, scores and ball as the entered state's enter hook left them; the application stops exactly when Shutdown is entered; a crash can only happen while playing |
| GameLoop.Game.OnAction | src/game/game.cpp:74-88 | Quit stops the application; pause and confirm fire their triggers; every other action changes nothing |
| GameLoop.Game.ProcessEvent | src/game/game.cpp:306-318 | A key-down or button-down event reaches the game's own subscription once, so the state machine and the running flag change exactly as the switch says for the bound action |

## Left out

- Rendering, fonts, textures, display and every `draw` method are SDL foreign calls. The `Entity` boxes that `Score` and `Countdown` carry serve only `draw` and are left out too.
- Floating-point time: elapsed time is an integer number of milliseconds. `Entity::move` takes the exact product and truncates toward zero; float rounding is not modelled.
- The FadingText animations of the Start, Pause and Game Over frame hooks are float alpha animations and are not modelled.
- Balls.Ball.RandomizeVelocity: `rand`, trigonometry and `floor` are replaced by a serve velocity given as a parameter. The model places no bound on that velocity.
- The keyboard and mouse state that `isKeyboardKeyDownActionPressed` and `isMouseButtonDownActionPressed` read from SDL are parameters of `IsActionPressed`.
- Paddles.Paddle.Update: the paddle takes the set of held actions as a parameter. It does not go through `IsActionPressed`, so the `.at` failure on an unconfigured action is not modelled there.
- The application loop, event polling, frame timing and the single-instance rule of the application class are not modelled. Only the running flag that `stop` clears is kept.
- `EventBus::registerDomain` and `push` call SDL and are not modelled.
- `Rect::operator+` is declared but never defined.
- The input system stub and the input component do not match their headers and are not part of this model. The game, paddle and ball headers are stale as well; the model follows the .cpp files.
- `Rect::getCenter` and `Game::maxScore` are not part of this model. The field centre and the maximum score are constructor parameters.
- The Countdown is a static local of the countdown frame hook. Here it is a field of the game, built in the constructor with the same arguments.
- Game destruction (`offActionPressed` in `~Game`) and the debug check that every state has a frame hook are not modelled.
- GameLoop.Game.ProcessEvent: only the game's own subscription callback is run. Other observers' callbacks are opaque and do not change the game.
- An uncaught `out_of_range` from a score increment ends the program. Frames report it as `crashed` and stop at that point.
- C++ `int` overflow in coordinates, velocities and tick arithmetic is not modelled; those quantities are unbounded integers. The score is a `uint8_t` bounded by its maximum, the count an `unsigned short`, and domain arithmetic wraps modulo 2^32.
- Input.InputBus.Initialize, Input.InputBus.Load, Input.InputBus.Reinitialize, Input.InputBus.HandleMouseButtonDownEvent and GameLoop.Game.ProcessEvent: mouse button numbers of 6 or more are excluded by a precondition, in bindings and in events. The source indexes its 6-slot button table with them unchecked (src/game/input_bus.cpp:35 writes, src/game/input_bus.cpp:90 reads), which is out of bounds; the model does not say what happens then.
- CountdownTimer.Countdown.Update: the texture index is promised in range only when there is one texture per count. Construction follows the check as written, which admits one texture too few (see Findings); the game's own countdown has four textures for counts 0 to 3.
- Collision.BounceOffPaddles: the paddle tests always call `setVelocity` with the unchanged velocity, where the source skips the call. The resulting state is the same.

## Findings

| source | as written | input that shows it | evidently intended | confidence | as-written member | corrected member |
|---|---|---|---|---|---|---|
| src/game/entities/countdown.cpp:40-43,64 | The constructor throws only when `textures.size() < startingCount`, but `draw` indexes `textures[currentCount]` and the count reaches `startingCount` right after construction | startingCount 3, interval 600, three textures: the check passes, and an update of 1 ms gives ticks 2399 and count 3, one past the last texture | throw unless `textures.size() > startingCount`, so every count from 0 to `startingCount` has a texture | high; follows from the arithmetic, not executed | CountdownTimer.AsWrittenCheckAdmitsOutOfRangeTexture | CountdownTimer.CorrectedCheckKeepsTextureIndexInRange |
