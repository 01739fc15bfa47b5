/**
 * The game (src/game/game.cpp): the entities, the two scores, the countdown,
 * the input bindings, and the state machine with its deferred transition
 * queue, updated frame by frame and event by event.
 *
 * Elapsed time is an integer number of milliseconds. The random serve
 * velocity, the field centre and the maximum score are inputs. The keyboard
 * state a paddle reads is given as the set of held actions. An uncaught
 * `std::out_of_range` from a score increment ends the program; frames report
 * it as `crashed`.
 */
module GameLoop {
  import opened Wrappers
  import opened CppInt
  import opened Geometry
  import opened Entities
  import opened ScoreCounter
  import opened CountdownTimer
  import opened Paddles
  import opened Balls
  import opened Collision
  import opened Input
  import opened StateMachine

  /** SDL scancodes of the keys the game binds. */
  const SCANCODE_A: Scancode := 4
  const SCANCODE_Z: Scancode := 29
  const SCANCODE_K: Scancode := 14
  const SCANCODE_M: Scancode := 16
  const SCANCODE_RETURN: Scancode := 40
  const SCANCODE_BACKSPACE: Scancode := 42
  const SCANCODE_P: Scancode := 19
  const SCANCODE_Q: Scancode := 20

  /** The countdown of the countdown frame hook: 3, 2, 1, GO!, 600 ms apiece. */
  const COUNTDOWN_START: Uint16 := 3
  const COUNTDOWN_INTERVAL_MS: int := 600
  const COUNTDOWN_TEXTURES: nat := 4

  /** The ratio the constructor places the paddles by: a sixth of the width in from each side. */
  const PADDLE_INSET_RATIO: int := 6

  /** The configuration the constructor loads into the input bus. */
  function DefaultBindings(): map<Action, Description>
  {
    map[
      PlayerOneUp := KeyDown(SCANCODE_A),
      PlayerOneDown := KeyDown(SCANCODE_Z),
      PlayerTwoUp := KeyDown(SCANCODE_K),
      PlayerTwoDown := KeyDown(SCANCODE_M),
      Confirm := KeyDown(SCANCODE_RETURN),
      Cancel := KeyDown(SCANCODE_BACKSPACE),
      Pause := KeyDown(SCANCODE_P),
      Quit := KeyDown(SCANCODE_Q)
    ]
  }

  /** The `Config` the constructor builds, one setter call per binding. */
  method DefaultConfig() returns (config: Config)
    ensures fresh(config) && config.actionMap == DefaultBindings()
  {
    config := new Config();
    config.SetKeyboardKeyDownAction(SCANCODE_A, PlayerOneUp);
    config.SetKeyboardKeyDownAction(SCANCODE_Z, PlayerOneDown);
    config.SetKeyboardKeyDownAction(SCANCODE_K, PlayerTwoUp);
    config.SetKeyboardKeyDownAction(SCANCODE_M, PlayerTwoDown);
    config.SetKeyboardKeyDownAction(SCANCODE_RETURN, Confirm);
    config.SetKeyboardKeyDownAction(SCANCODE_BACKSPACE, Cancel);
    config.SetKeyboardKeyDownAction(SCANCODE_P, Pause);
    config.SetKeyboardKeyDownAction(SCANCODE_Q, Quit);
  }

  /**
   * The input bus holds the default bindings on top of the tables it had
   * before (`types0`, `scancodes0`, `buttons0`, key slots `slots0`).
   */
  ghost predicate DefaultsLoaded(
    input: InputBus, types0: map<Action, InputType>, scancodes0: map<Action, Scancode>,
    buttons0: map<Action, Button>, slots0: seq<Action>)
    reads input, input.scancodeToAction
  {
    && input.actionToInputType == types0 + TypesOf(DefaultBindings())
    && input.actionToScancode == scancodes0 + ScancodesOf(DefaultBindings())
    && input.actionToMouseButton == buttons0 + ButtonsOf(DefaultBindings())
    && KeySlotsRefilled(slots0, DefaultBindings(), input.scancodeToAction[..])
  }

  /** The constructor's input set-up: load the default bindings, then subscribe. */
  method ConfigureInput(input: InputBus) returns (subscription: Subscription)
    requires input.Valid()
    modifies input, input.scancodeToAction, input.buttonToAction
    ensures input.Valid() && subscription in input.observers
    ensures DefaultsLoaded(input, old(input.actionToInputType), old(input.actionToScancode),
                           old(input.actionToMouseButton), old(input.scancodeToAction[..]))
    ensures input.observers == old(input.observers) + [subscription]
  {
    var config := DefaultConfig();
    input.Initialize(config);
    subscription := input.OnActionPressed();
  }

  /** The countdown of the countdown frame hook, through the constructor's texture check. */
  method GameCountdown() returns (c: Countdown)
    ensures fresh(c) && c.Valid()
    ensures c.startingCount == COUNTDOWN_START && c.interval == COUNTDOWN_INTERVAL_MS
    ensures c.textureCount == COUNTDOWN_TEXTURES
    ensures c.currentTicks == ResetTicks(COUNTDOWN_START, COUNTDOWN_INTERVAL_MS)
  {
    var created := Countdown.Create(COUNTDOWN_START, COUNTDOWN_INTERVAL_MS, COUNTDOWN_TEXTURES);
    c := created;
  }

  /** A new ball centred on `center`, at rest. */
  method PlacedBall(center: Vector2) returns (b: Ball)
    ensures fresh(b) && fresh(b.body)
    ensures b.body.aabb == PlacedAt(Rect(0, 0, 8, 8), center.x, center.y)
    ensures b.body.velocity == Vector2(0, 0)
  {
    b := new Ball();
    b.body.SetPosition(center.x, center.y);
    b.body.SetVelocity(0, 0);
  }

  /**
   * The ball at the field centre and the two paddles, each a sixth of the
   * field's width in from its side, as the constructor places them.
   */
  method PlacedEntities(width: int, center: Vector2) returns (b: Ball, lp: Paddle, rp: Paddle)
    ensures fresh(b) && fresh(b.body) && fresh(lp) && fresh(lp.body) && fresh(rp) && fresh(rp.body)
    ensures lp.body != rp.body && lp.body != b.body && rp.body != b.body
    ensures lp.player == One && rp.player == Two
    ensures b.body.aabb == PlacedAt(Rect(0, 0, 8, 8), center.x, center.y)
    ensures b.body.velocity == Vector2(0, 0)
    ensures lp.body.aabb == PlacedAt(Rect(0, 0, 8, 64), TruncDiv(width, PADDLE_INSET_RATIO), center.y)
    ensures rp.body.aabb
            == PlacedAt(Rect(0, 0, 8, 64), width - TruncDiv(width, PADDLE_INSET_RATIO), center.y)
  {
    b := PlacedBall(center);
    lp := PlacedPaddle(One, TruncDiv(width, PADDLE_INSET_RATIO), center.y);
    rp := PlacedPaddle(Two, width - TruncDiv(width, PADDLE_INSET_RATIO), center.y);
  }

  /** The two score counters, both at zero out of `maxScore`. */
  method NewScores(maxScore: Uint8) returns (left: Score, right: Score)
    ensures fresh(left) && fresh(right) && left != right
    ensures left.Valid() && right.Valid() && left.max == right.max == maxScore
    ensures left.value == 0 && right.value == 0
  {
    left := new Score(maxScore);
    right := new Score(maxScore);
  }

  /** A new paddle for `player` centred on (x, y). */
  method PlacedPaddle(player: Player, x: int, y: int) returns (p: Paddle)
    ensures fresh(p) && fresh(p.body) && p.player == player
    ensures p.body.aabb == PlacedAt(Rect(0, 0, 8, 64), x, y)
  {
    p := new Paddle(player);
    p.body.SetPosition(x, y);
  }

  /** Every action except `none` is bound, each to its own key. */
  lemma DefaultBindingsDistinct()
    ensures DistinctInputs(DefaultBindings())
    ensures forall a :: a in DefaultBindings() <==> a != NoAction
    ensures forall a :: a in DefaultBindings() ==> DefaultBindings()[a].KeyDown?
  {
  }

  /** The game's countdown passes the constructor's texture check. */
  lemma GameCountdownHasEveryTexture()
    ensures HasTextureForEveryCount(COUNTDOWN_TEXTURES, COUNTDOWN_START)
    ensures LengthCheckPassesAsWritten(COUNTDOWN_TEXTURES, COUNTDOWN_START)
  {
  }

  /**
   * The action-subscription switch: pause and confirm reach their triggers,
   * quit stops the application outside the state machine, and every other
   * action (cancel included) is ignored.
   */
  function ActionTrigger(a: Action): (t: Option<Trigger>)
    ensures t.Some? <==> a == Pause || a == Confirm
    ensures a == Pause ==> t == Some(OnPause)
    ensures a == Confirm ==> t == Some(OnConfirm)
  {
    match a
    case Pause => Some(OnPause)
    case Confirm => Some(OnConfirm)
    case _ => None
  }

  /** The state machine after the subscription switch has handled `a`. */
  function AfterAction(m: Machine, a: Action): Machine
  {
    match ActionTrigger(a)
    case None => m
    case Some(t) => Schedule(m, t)
  }

  /** The cancel key reaches no trigger, so it never leaves Game Over. */
  lemma CancelIsIgnored(m: Machine)
    ensures AfterAction(m, Cancel) == m
    ensures AfterAction(m, Quit) == m
  {
  }

  /**
   * What a goal does to the scoring side and the state machine: at the
   * maximum the increment throws; otherwise the score rises by one and
   * `gameOver` or `next` is triggered, depending on whether it is now at the maximum.
   */
  ghost predicate AfterGoal(max: Uint8, before: Uint8, after: Uint8, m: Machine, m': Machine, crashed: bool)
  {
    if before == max then crashed && after == before && m' == m
    else !crashed && after == before + 1 && m' == Schedule(m, if after == max then OnGameOver else OnNext)
  }

  /**
   * During play, a goal that brings the score to the maximum queues Game
   * Over; any earlier goal queues Field Setup.
   */
  lemma GoalQueuesGameOverOnlyAtMax(max: Uint8, before: Uint8, after: Uint8, q: seq<StateId>, m': Machine, crashed: bool)
    requires AfterGoal(max, before, after, Machine(PlayingState, q), m', crashed)
    requires before < max
    ensures !crashed && m'.current == PlayingState
    ensures after == max ==> m'.queue == q + [GameOverState]
    ensures after < max ==> m'.queue == q + [FieldSetupState]
  {
  }

  /** An event as `processEvent` sees it. */
  datatype Event = KeyDownEvent(scancode: Scancode) | MouseButtonDownEvent(button: Button) | OtherEvent

  class Game {
    const field: Rect
    const fieldCenter: Vector2
    const maxScore: Uint8
    const leftPaddle: Paddle
    const rightPaddle: Paddle
    const ball: Ball
    const leftScore: Score
    const rightScore: Score
    const countdown: Countdown
    const input: InputBus
    const actionSubscription: Subscription
    var currentState: StateId
    var transitionQueue: seq<StateId>
    /** `App::isRunning`, cleared by `stop()`. */
    var running: bool

    /** The state machine part of the game. */
    ghost function Fsm(): Machine
      reads this
    {
      Machine(currentState, transitionQueue)
    }

    /**
     * The entities are distinct objects, the scores count up to the game's
     * maximum, the countdown is the 3-2-1 one, and the game is subscribed to
     * the input bus.
     */
    ghost predicate Valid()
      reads this, leftScore, rightScore, countdown, input
    {
      && leftPaddle.body != rightPaddle.body
      && leftPaddle.body != ball.body && rightPaddle.body != ball.body
      && leftPaddle.player == One && rightPaddle.player == Two
      && leftScore != rightScore
      && leftScore.Valid() && rightScore.Valid()
      && leftScore.max == maxScore && rightScore.max == maxScore
      && countdown.Valid()
      && countdown.startingCount == COUNTDOWN_START && countdown.interval == COUNTDOWN_INTERVAL_MS
      && countdown.textureCount == COUNTDOWN_TEXTURES
      && input.Valid() && actionSubscription in input.observers
    }

    /**
     * `Game::Game`: place the entities, load the default bindings, subscribe
     * to the input bus, and start in the Start state.
     */
    constructor (width: int, height: int, center: Vector2, maxScore: Uint8, input: InputBus)
      requires input.Valid()
      modifies input, input.scancodeToAction, input.buttonToAction
      ensures Valid() && Fsm() == Initial && running
      ensures this.input == input && this.maxScore == maxScore && this.fieldCenter == center
      ensures field == Rect(0, 0, width, height)
      ensures leftScore.value == 0 && rightScore.value == 0
      ensures ball.body.aabb == PlacedAt(Rect(0, 0, 8, 8), center.x, center.y)
      ensures ball.body.velocity == Vector2(0, 0)
      ensures leftPaddle.body.aabb
              == PlacedAt(Rect(0, 0, 8, 64), TruncDiv(width, PADDLE_INSET_RATIO), center.y)
      ensures rightPaddle.body.aabb
              == PlacedAt(Rect(0, 0, 8, 64), width - TruncDiv(width, PADDLE_INSET_RATIO), center.y)
      ensures DefaultsLoaded(input, old(input.actionToInputType), old(input.actionToScancode),
                             old(input.actionToMouseButton), old(input.scancodeToAction[..]))
      ensures input.observers == old(input.observers) + [actionSubscription]
    {
      field := Rect(0, 0, width, height);
      fieldCenter := center;
      this.maxScore := maxScore;
      this.input := input;

      var b, lp, rp := PlacedEntities(width, center);
      ball, leftPaddle, rightPaddle := b, lp, rp;

      var ls, rs := NewScores(maxScore);
      leftScore, rightScore := ls, rs;

      var c := GameCountdown();
      countdown := c;

      var subscription := ConfigureInput(input);
      actionSubscription := subscription;

      currentState := StartState;
      transitionQueue := [];
      running := true;
    }

    /** `App::stop`. */
    method Stop()
      modifies this
      ensures !running && Fsm() == old(Fsm())
    {
      running := false;
    }

    /** `scheduleTransition`: a null target is ignored. */
    method ScheduleTransition(target: Option<StateId>)
      modifies this
      ensures currentState == old(currentState) && running == old(running)
      ensures target.Some? ==> transitionQueue == old(transitionQueue) + [target.value]
      ensures target.None? ==> transitionQueue == old(transitionQueue)
    {
      if target.Some? {
        transitionQueue := transitionQueue + [target.value];
      }
    }

    /**
     * The seven trigger methods (`done`, `quit`, `pause`, `next`, `confirm`,
     * `cancel`, `gameOver`): schedule the current state's edge for `t`.
     */
    method Fire(t: Trigger)
      modifies this
      ensures Fsm() == Schedule(old(Fsm()), t)
      ensures running == old(running)
    {
      ScheduleTransition(TargetOf(currentState, t));
    }

    /**
     * `handleTransition`: run the old state's exit hook (only Shutdown has
     * one, and it does nothing), make `target` current, then run its enter
     * hook: Reset zeroes both scores and calls `next`; Field Setup re-centres
     * the ball, serves it and calls `next`; Shutdown stops the application.
     */
    method HandleTransition(target: StateId, serve: Vector2)
      requires Valid()
      modifies this, leftScore, rightScore, ball.body
      ensures Valid()
      ensures Fsm() == ScheduleAll(Machine(target, old(transitionQueue)), EnterTriggers(target))
      ensures running == (old(running) && target != ShutdownState)
      ensures target == ResetState ==> leftScore.value == 0 && rightScore.value == 0
      ensures target != ResetState ==>
                leftScore.value == old(leftScore.value) && rightScore.value == old(rightScore.value)
      ensures target == FieldSetupState ==>
                ball.body.aabb == PlacedAt(old(ball.body.aabb), fieldCenter.x, fieldCenter.y)
                && ball.body.velocity == serve
      ensures target != FieldSetupState ==>
                ball.body.aabb == old(ball.body.aabb) && ball.body.velocity == old(ball.body.velocity)
    {
      currentState := target;
      match target {
        case ResetState =>
          leftScore.Reset();
          rightScore.Reset();
          Fire(OnNext);
          assert ScheduleAll(Machine(target, old(transitionQueue)), [OnNext])
                 == Schedule(Machine(target, old(transitionQueue)), OnNext);
        case FieldSetupState =>
          ball.body.SetPosition(fieldCenter.x, fieldCenter.y);
          ball.RandomizeVelocity(serve);
          Fire(OnNext);
          assert ScheduleAll(Machine(target, old(transitionQueue)), [OnNext])
                 == Schedule(Machine(target, old(transitionQueue)), OnNext);
        case ShutdownState =>
          Stop();
        case _ =>
      }
    }

    /**
     * `handleLeftGoal`: increment the left score, then trigger `gameOver` if
     * it is at its maximum and `next` otherwise.
     */
    method HandleLeftGoal() returns (crashed: bool)
      requires Valid()
      modifies this, leftScore
      ensures Valid() && running == old(running)
      ensures AfterGoal(maxScore, old(leftScore.value), leftScore.value, old(Fsm()), Fsm(), crashed)
    {
      var r := leftScore.Increment();
      if r.Failure? {
        return true;
      }
      crashed := false;
      if leftScore.IsAtMax() {
        Fire(OnGameOver);
      } else {
        Fire(OnNext);
      }
    }

    /** `handleRightGoal`: the same for the right score. */
    method HandleRightGoal() returns (crashed: bool)
      requires Valid()
      modifies this, rightScore
      ensures Valid() && running == old(running)
      ensures AfterGoal(maxScore, old(rightScore.value), rightScore.value, old(Fsm()), Fsm(), crashed)
    {
      var r := rightScore.Increment();
      if r.Failure? {
        return true;
      }
      crashed := false;
      if rightScore.IsAtMax() {
        Fire(OnGameOver);
      } else {
        Fire(OnNext);
      }
    }

    /**
     * The scores and the state machine after a collision pass whose ball took
     * branch `contact`, from scores `left0`, `right0` and machine `m0`: a goal
     * runs that side's handler and leaves the other score alone; any other
     * branch changes neither score nor the machine.
     */
    ghost predicate GoalOutcome(contact: FieldContact, left0: Uint8, right0: Uint8, m0: Machine, crashed: bool)
      reads this, leftScore, rightScore
    {
      && (contact == LeftGoal ==>
            AfterGoal(maxScore, left0, leftScore.value, m0, Fsm(), crashed) && rightScore.value == right0)
      && (contact == RightGoal ==>
            AfterGoal(maxScore, right0, rightScore.value, m0, Fsm(), crashed) && leftScore.value == left0)
      && (contact != LeftGoal && contact != RightGoal ==>
            !crashed && Fsm() == m0 && leftScore.value == left0 && rightScore.value == right0)
    }

    /**
     * `resolveFrameCollisions`: the collision rules with the goal branches
     * delegated to the goal handlers. Only the scoring side's score changes.
     */
    method ResolveFrameCollisions() returns (crashed: bool)
      requires Valid()
      modifies this, leftScore, rightScore, ball.body, leftPaddle.body, rightPaddle.body
      ensures Valid() && running == old(running)
      ensures leftPaddle.body.aabb == Clamped(field, old(leftPaddle.body.aabb))
      ensures rightPaddle.body.aabb == Clamped(field, old(rightPaddle.body.aabb))
      ensures leftPaddle.body.velocity == old(leftPaddle.body.velocity)
      ensures rightPaddle.body.velocity == old(rightPaddle.body.velocity)
      ensures ball.body.aabb == old(ball.body.aabb)
      ensures ball.body.velocity
              == BouncedOffField(FieldContactOf(field, old(ball.body.aabb)), old(ball.body.velocity))
      ensures GoalOutcome(FieldContactOf(field, old(ball.body.aabb)),
                          old(leftScore.value), old(rightScore.value), old(Fsm()), crashed)
    {
      ClampToField(field, leftPaddle.body);
      ClampToField(field, rightPaddle.body);
      var contact := BounceOffField(field, ball.body);
      crashed := false;
      if contact == LeftGoal {
        crashed := HandleLeftGoal();
      } else if contact == RightGoal {
        crashed := HandleRightGoal();
      }
      if crashed {
        return;
      }
      BounceOffPaddles(leftPaddle.body, rightPaddle.body, ball.body);
    }

    /**
     * The Playing frame hook: move the ball, steer and move both paddles,
     * then resolve collisions against the moved boxes. The ball is never
     * moved back; each paddle ends clamped into the field; a goal runs the
     * scoring side's handler.
     */
    method PlayFrame(elapsedMs: int, pressed: set<Action>) returns (crashed: bool)
      requires Valid()
      modifies this, leftScore, rightScore, ball.body, leftPaddle.body, rightPaddle.body
      ensures Valid() && running == old(running) && currentState == old(currentState)
      ensures var moved := Moved(old(ball.body.aabb), old(ball.body.velocity), elapsedMs);
              && ball.body.aabb == moved
              && ball.body.velocity == BouncedOffField(FieldContactOf(field, moved), old(ball.body.velocity))
              && GoalOutcome(FieldContactOf(field, moved),
                             old(leftScore.value), old(rightScore.value), old(Fsm()), crashed)
      ensures leftPaddle.body.velocity == Vector2(0, VerticalVelocity(One, pressed))
      ensures leftPaddle.body.aabb
              == Clamped(field, Moved(old(leftPaddle.body.aabb), leftPaddle.body.velocity, elapsedMs))
      ensures rightPaddle.body.velocity == Vector2(0, VerticalVelocity(Two, pressed))
      ensures rightPaddle.body.aabb
              == Clamped(field, Moved(old(rightPaddle.body.aabb), rightPaddle.body.velocity, elapsedMs))
      ensures old(transitionQueue) <= transitionQueue && |transitionQueue| <= |old(transitionQueue)| + 1
      ensures crashed ==> Fsm() == old(Fsm())
    {
      ball.Update(elapsedMs);
      leftPaddle.Update(pressed, elapsedMs);
      rightPaddle.Update(pressed, elapsedMs);
      crashed := ResolveFrameCollisions();
    }

    /**
     * The Countdown frame hook: tick the countdown and, when it times out,
     * trigger `next`, which queues Playing.
     */
    method CountdownFrame(elapsedMs: int) returns (timedOut: bool)
      requires Valid() && elapsedMs >= 0
      requires currentState == CountdownState
      modifies this, countdown
      ensures Valid() && running == old(running) && currentState == old(currentState)
      ensures timedOut <==> old(countdown.currentTicks) - elapsedMs < 0
      ensures timedOut ==> countdown.currentTicks == ResetTicks(COUNTDOWN_START, COUNTDOWN_INTERVAL_MS)
                           && countdown.currentCount == old(countdown.currentCount)
                           && transitionQueue == old(transitionQueue) + [PlayingState]
      ensures !timedOut ==> countdown.currentTicks == old(countdown.currentTicks) - elapsedMs
                            && countdown.currentCount
                               == CountFromTicks(countdown.currentTicks, COUNTDOWN_INTERVAL_MS)
                            && transitionQueue == old(transitionQueue)
    {
      timedOut := countdown.Update(elapsedMs);
      if timedOut {
        Fire(OnNext);
      }
    }

    /** The first half of `processFrame`: apply the oldest queued transition, if any. */
    method DrainTransition(serve: Vector2)
      requires Valid()
      modifies this, leftScore, rightScore, ball.body
      ensures Valid()
      ensures Fsm() == Advance(old(Fsm()))
      ensures running == (old(running) && (old(transitionQueue) == [] || old(transitionQueue)[0] != ShutdownState))
      ensures old(transitionQueue) != [] && currentState == ResetState ==>
                leftScore.value == 0 && rightScore.value == 0
      ensures old(transitionQueue) == [] || currentState != ResetState ==>
                leftScore.value == old(leftScore.value) && rightScore.value == old(rightScore.value)
      ensures old(transitionQueue) != [] && currentState == FieldSetupState ==>
                ball.body.aabb == PlacedAt(old(ball.body.aabb), fieldCenter.x, fieldCenter.y)
                && ball.body.velocity == serve
      ensures old(transitionQueue) == [] || currentState != FieldSetupState ==>
                ball.body.aabb == old(ball.body.aabb) && ball.body.velocity == old(ball.body.velocity)
    {
      if transitionQueue != [] {
        HandleTransition(transitionQueue[0], serve);
        transitionQueue := transitionQueue[1..];
      }
    }

    /**
     * `processFrame`: apply the oldest queued transition, if any, then run the
     * frame hook of the state that is current now. Only the Countdown hook
     * (on timeout) and the Playing hook (on a goal) can queue another
     * transition, one at most; only Reset and Field Setup, on entry, touch
     * the scores and the ball outside the Playing hook.
     */
    method ProcessFrame(elapsedMs: int, pressed: set<Action>, serve: Vector2) returns (crashed: bool)
      requires Valid() && elapsedMs >= 0
      modifies this, leftScore, rightScore, countdown, ball.body, leftPaddle.body, rightPaddle.body
      ensures Valid()
      ensures currentState == Advance(old(Fsm())).current
      ensures Advance(old(Fsm())).queue <= transitionQueue
      ensures |transitionQueue| <= |Advance(old(Fsm())).queue| + 1
      ensures running == (old(running) && (old(transitionQueue) == [] || old(transitionQueue)[0] != ShutdownState))
      ensures crashed ==> currentState == PlayingState
      // Countdown: the countdown ticks; a timeout queues Playing.
      ensures currentState == CountdownState ==>
                && (old(countdown.currentTicks) - elapsedMs < 0 ==>
                      countdown.currentTicks == ResetTicks(COUNTDOWN_START, COUNTDOWN_INTERVAL_MS)
                      && countdown.currentCount == old(countdown.currentCount)
                      && Fsm() == Schedule(Advance(old(Fsm())), OnNext)
                      && transitionQueue == Advance(old(Fsm())).queue + [PlayingState])
                && (old(countdown.currentTicks) - elapsedMs >= 0 ==>
                      countdown.currentTicks == old(countdown.currentTicks) - elapsedMs
                      && countdown.currentCount
                         == CountFromTicks(countdown.currentTicks, COUNTDOWN_INTERVAL_MS)
                      && Fsm() == Advance(old(Fsm())))
                && leftScore.value == old(leftScore.value) && rightScore.value == old(rightScore.value)
                && ball.body.aabb == old(ball.body.aabb) && ball.body.velocity == old(ball.body.velocity)
      // Playing: the Playing hook, from the machine the transition left.
      ensures currentState == PlayingState ==>
                && (var moved := Moved(old(ball.body.aabb), old(ball.body.velocity), elapsedMs);
                    && ball.body.aabb == moved
                    && ball.body.velocity == BouncedOffField(FieldContactOf(field, moved), old(ball.body.velocity))
                    && GoalOutcome(FieldContactOf(field, moved),
                                   old(leftScore.value), old(rightScore.value), Advance(old(Fsm())), crashed))
                && leftPaddle.body.velocity == Vector2(0, VerticalVelocity(One, pressed))
                && leftPaddle.body.aabb
                   == Clamped(field, Moved(old(leftPaddle.body.aabb), leftPaddle.body.velocity, elapsedMs))
                && rightPaddle.body.velocity == Vector2(0, VerticalVelocity(Two, pressed))
                && rightPaddle.body.aabb
                   == Clamped(field, Moved(old(rightPaddle.body.aabb), rightPaddle.body.velocity, elapsedMs))
      // Every other state: only the enter hook of a state entered now has effects.
      ensures currentState != CountdownState && currentState != PlayingState ==>
                Fsm() == Advance(old(Fsm()))
      ensures currentState != PlayingState ==> unchanged(leftPaddle.body, rightPaddle.body)
      ensures currentState != CountdownState ==> unchanged(countdown)
      ensures old(transitionQueue) != [] && currentState == ResetState ==>
                leftScore.value == 0 && rightScore.value == 0
                && ball.body.aabb == old(ball.body.aabb) && ball.body.velocity == old(ball.body.velocity)
      ensures old(transitionQueue) != [] && currentState == FieldSetupState ==>
                ball.body.aabb == PlacedAt(old(ball.body.aabb), fieldCenter.x, fieldCenter.y)
                && ball.body.velocity == serve
                && leftScore.value == old(leftScore.value) && rightScore.value == old(rightScore.value)
      ensures (old(transitionQueue) == [] || (currentState != ResetState && currentState != FieldSetupState))
              && currentState != PlayingState ==>
                leftScore.value == old(leftScore.value) && rightScore.value == old(rightScore.value)
                && ball.body.aabb == old(ball.body.aabb) && ball.body.velocity == old(ball.body.velocity)
    {
      DrainTransition(serve);
      crashed := false;
      match currentState {
        case CountdownState =>
          var timedOut := CountdownFrame(elapsedMs);
        case PlayingState =>
          crashed := PlayFrame(elapsedMs, pressed);
        case _ =>
      }
    }

    /** The Game's input subscription: the switch on the pressed action. */
    method OnAction(a: Action)
      modifies this
      ensures Fsm() == AfterAction(old(Fsm()), a)
      ensures running == (old(running) && a != Quit)
    {
      match a {
        case Quit => Stop();
        case Pause => Fire(OnPause);
        case Confirm => Fire(OnConfirm);
        case _ =>
      }
    }

    /** The action a key-down or button-down event is bound to, `none` for any other event. */
    ghost function ActionOf(event: Event): Action
      requires input.Valid()
      requires event.MouseButtonDownEvent? ==> event.button < MOUSE_BUTTON_COUNT
      reads input, input.scancodeToAction, input.buttonToAction
    {
      match event
      case KeyDownEvent(scancode) => input.scancodeToAction[scancode]
      case MouseButtonDownEvent(button) => input.buttonToAction[button]
      case OtherEvent => NoAction
    }

    /**
     * `processEvent`: hand key-down and button-down events to the input bus,
     * and run the Game's own callback for the notification addressed to it.
     * Other observers' callbacks are not part of this model.
     */
    method ProcessEvent(event: Event)
      requires Valid()
      requires event.MouseButtonDownEvent? ==> event.button < MOUSE_BUTTON_COUNT
      modifies this
      ensures Valid()
      ensures Fsm() == AfterAction(old(Fsm()), ActionOf(event))
      ensures running == (old(running) && ActionOf(event) != Quit)
    {
      var calls: seq<Notification>;
      match event {
        case KeyDownEvent(scancode) =>
          calls := input.HandleKeyDownEvent(scancode);
        case MouseButtonDownEvent(button) =>
          calls := input.HandleMouseButtonDownEvent(button);
        case OtherEvent =>
          calls := [];
      }
      ghost var action := ActionOf(event);
      assert action == NoAction ==> calls == [];
      assert action != NoAction ==> NotifiesAll(calls, input.observers, action);
      for i := 0 to |calls|
        invariant Valid()
        invariant calls == [] || |calls| == |input.observers|
        invariant if action != NoAction && actionSubscription in input.observers[..i]
                  then Fsm() == AfterAction(old(Fsm()), action) && running == (old(running) && action != Quit)
                  else Fsm() == old(Fsm()) && running == old(running)
      {
        assert input.observers[..i + 1] == input.observers[..i] + [input.observers[i]];
        if calls[i].observer == actionSubscription {
          assert actionSubscription !in input.observers[..i];
          OnAction(calls[i].action);
        }
      }
      if action != NoAction {
        assert input.observers[..|calls|] == input.observers;
      }
    }
  }
}
