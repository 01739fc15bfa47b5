/**
 * The game's state machine (src/game/game.cpp) on values: eight states, a
 * fixed edge table, triggers that enqueue the current state's edge, and a
 * frame step that applies at most one queued transition.
 *
 * A queued target is resolved when its trigger fires, from the state current
 * then, and applied later whatever the current state has become by that time.
 */
module StateMachine {
  import opened Wrappers

  /** The eight `State` members of `Game`. */
  datatype StateId =
    | StartState | ResetState | FieldSetupState | CountdownState
    | PlayingState | PauseState | GameOverState | ShutdownState

  /** The seven edge slots of a `State`, one per trigger method. */
  datatype Trigger = OnDone | OnQuit | OnPause | OnNext | OnConfirm | OnCancel | OnGameOver

  /** The edge table the `Game` constructor wires; every other slot is null. */
  function TargetOf(s: StateId, t: Trigger): Option<StateId>
  {
    match (s, t)
    case (StartState, OnConfirm) => Some(FieldSetupState)
    case (StartState, OnQuit) => Some(ShutdownState)
    case (ResetState, OnNext) => Some(FieldSetupState)
    case (ResetState, OnQuit) => Some(ShutdownState)
    case (FieldSetupState, OnNext) => Some(CountdownState)
    case (FieldSetupState, OnQuit) => Some(ShutdownState)
    case (CountdownState, OnNext) => Some(PlayingState)
    case (CountdownState, OnQuit) => Some(ShutdownState)
    case (PlayingState, OnPause) => Some(PauseState)
    case (PlayingState, OnNext) => Some(FieldSetupState)
    case (PlayingState, OnGameOver) => Some(GameOverState)
    case (PlayingState, OnQuit) => Some(ShutdownState)
    case (PauseState, OnPause) => Some(PlayingState)
    case (PauseState, OnQuit) => Some(ShutdownState)
    case (GameOverState, OnConfirm) => Some(ResetState)
    case (GameOverState, OnCancel) => Some(ShutdownState)
    case (GameOverState, OnQuit) => Some(ShutdownState)
    case _ => None
  }

  /** Some edge of `s` leads to `target`. */
  ghost predicate IsEdgeTarget(s: StateId, target: StateId)
  {
    exists t :: TargetOf(s, t) == Some(target)
  }

  /** Shutdown has no outgoing edge. */
  lemma ShutdownHasNoEdges(t: Trigger)
    ensures TargetOf(ShutdownState, t) == None
  {
  }

  /** Quit leads every other state to Shutdown. */
  lemma QuitLeadsToShutdown(s: StateId)
    requires s != ShutdownState
    ensures TargetOf(s, OnQuit) == Some(ShutdownState)
  {
  }

  /** No state wires `onDone`, and only Game Over wires `onCancel`. */
  lemma DoneAndCancelEdges(s: StateId)
    ensures TargetOf(s, OnDone) == None
    ensures TargetOf(s, OnCancel).Some? <==> s == GameOverState
  {
  }

  /** The current state and the pending targets, oldest first. */
  datatype Machine = Machine(current: StateId, queue: seq<StateId>)

  /** `currentState{&startState}` with an empty queue. */
  const Initial: Machine := Machine(StartState, [])

  /**
   * A trigger (`scheduleTransition(currentState->onX)`): the current state's
   * edge, if any, joins the back of the queue; a missing edge changes nothing.
   */
  function Schedule(m: Machine, t: Trigger): (r: Machine)
    ensures r.current == m.current
    ensures m.queue <= r.queue && |r.queue| <= |m.queue| + 1
    ensures r == m <==> TargetOf(m.current, t).None?
    ensures TargetOf(m.current, t).Some? ==> r.queue[|m.queue|] == TargetOf(m.current, t).value
  {
    match TargetOf(m.current, t)
    case None => m
    case Some(target) => m.(queue := m.queue + [target])
  }

  /**
   * Several triggers fired from the same state: the queue only grows, by at
   * most one entry per trigger, and every new entry is an edge of that state.
   */
  function ScheduleAll(m: Machine, ts: seq<Trigger>): (r: Machine)
    ensures r.current == m.current
    ensures m.queue <= r.queue && |r.queue| <= |m.queue| + |ts|
    ensures forall i :: |m.queue| <= i < |r.queue| ==> IsEdgeTarget(m.current, r.queue[i])
    decreases |ts|
  {
    if ts == [] then m
    else
      var m' := Schedule(m, ts[0]);
      assert |m'.queue| > |m.queue| ==> IsEdgeTarget(m.current, m'.queue[|m.queue|]);
      ScheduleAll(m', ts[1..])
  }

  /** The triggers an enter hook fires: Reset and Field Setup each call `next`. */
  function EnterTriggers(s: StateId): (ts: seq<Trigger>)
    ensures |ts| <= 1
    ensures ts != [] <==> s == ResetState || s == FieldSetupState
  {
    match s
    case ResetState => [OnNext]
    case FieldSetupState => [OnNext]
    case _ => []
  }

  /**
   * The transition part of `processFrame`: with an empty queue nothing
   * happens; otherwise the oldest target becomes current, its enter hook may
   * queue its own `next` edge at the back, and the applied entry is popped.
   */
  function Advance(m: Machine): (r: Machine)
    ensures m.queue == [] ==> r == m
    ensures m.queue != [] ==> r.current == m.queue[0]
    ensures m.queue != [] ==> m.queue[1..] <= r.queue && |r.queue| <= |m.queue|
    ensures m.queue != [] ==> forall i :: |m.queue| - 1 <= i < |r.queue| ==>
              IsEdgeTarget(m.queue[0], r.queue[i])
  {
    if m.queue == [] then m
    else
      var entered := ScheduleAll(Machine(m.queue[0], m.queue), EnterTriggers(m.queue[0]));
      Machine(entered.current, entered.queue[1..])
  }

  /** After Game Over and confirm, Reset, Field Setup and Countdown each take one frame. */
  lemma ConfirmFromGameOverTakesThreeFrames()
    ensures Schedule(Machine(GameOverState, []), OnConfirm) == Machine(GameOverState, [ResetState])
    ensures Advance(Machine(GameOverState, [ResetState])) == Machine(ResetState, [FieldSetupState])
    ensures Advance(Machine(ResetState, [FieldSetupState])) == Machine(FieldSetupState, [CountdownState])
    ensures Advance(Machine(FieldSetupState, [CountdownState])) == Machine(CountdownState, [])
  {
    assert Advance(Machine(ResetState, [FieldSetupState])).queue == [CountdownState];
  }

  /**
   * A goal in one frame's Playing hook, then a pause polled before the next
   * drain, queues Field Setup then Pause; the frames after that pass through
   * Pause into Countdown, although Pause has no edge to Countdown.
   */
  lemma QueuedTargetsBypassEdgeTable()
    ensures Schedule(Schedule(Machine(PlayingState, []), OnNext), OnPause)
            == Machine(PlayingState, [FieldSetupState, PauseState])
    ensures Advance(Machine(PlayingState, [FieldSetupState, PauseState]))
            == Machine(FieldSetupState, [PauseState, CountdownState])
    ensures Advance(Machine(FieldSetupState, [PauseState, CountdownState]))
            == Machine(PauseState, [CountdownState])
    ensures Advance(Machine(PauseState, [CountdownState])) == Machine(CountdownState, [])
    ensures !IsEdgeTarget(PauseState, CountdownState)
  {
    assert Advance(Machine(PlayingState, [FieldSetupState, PauseState])).queue
           == [PauseState, CountdownState];
  }

  /**
   * While paused, two pauses polled in one frame queue Playing twice. The
   * next drain resumes play with a stale Playing still queued. A pause polled
   * in the following frame queues Pause behind it, so that frame's drain
   * leaves Playing current with Pause queued; the winning goal in its Playing
   * hook then queues Game Over behind the Pause. From there a pause while
   * paused takes the game through Game Over and, one frame later, into
   * Playing again.
   */
  lemma StalePauseResumesPlayAfterGameOver()
    ensures Schedule(Schedule(Machine(PauseState, []), OnPause), OnPause)
            == Machine(PauseState, [PlayingState, PlayingState])
    ensures Advance(Machine(PauseState, [PlayingState, PlayingState]))
            == Machine(PlayingState, [PlayingState])
    ensures Schedule(Machine(PlayingState, [PlayingState]), OnPause)
            == Machine(PlayingState, [PlayingState, PauseState])
    ensures Advance(Machine(PlayingState, [PlayingState, PauseState]))
            == Machine(PlayingState, [PauseState])
    ensures Schedule(Machine(PlayingState, [PauseState]), OnGameOver)
            == Machine(PlayingState, [PauseState, GameOverState])
    ensures Advance(Machine(PlayingState, [PauseState, GameOverState]))
            == Machine(PauseState, [GameOverState])
    ensures Schedule(Machine(PauseState, [GameOverState]), OnPause)
            == Machine(PauseState, [GameOverState, PlayingState])
    ensures Advance(Machine(PauseState, [GameOverState, PlayingState]))
            == Machine(GameOverState, [PlayingState])
    ensures Advance(Machine(GameOverState, [PlayingState])) == Machine(PlayingState, [])
  {
  }

  /**
   * Once Shutdown is current with nothing queued, no trigger and no frame
   * moves it. In the game as written Shutdown is never entered: nothing calls
   * `quit`, `cancel` or `done` (src/game/game.cpp:348-353), and the Quit
   * action stops the loop directly (src/game/game.cpp:77).
   */
  lemma {:induction false} ShutdownIsQuiescent(ts: seq<Trigger>)
    ensures ScheduleAll(Machine(ShutdownState, []), ts) == Machine(ShutdownState, [])
    ensures Advance(ScheduleAll(Machine(ShutdownState, []), ts)) == Machine(ShutdownState, [])
    decreases |ts|
  {
    if ts != [] {
      ShutdownHasNoEdges(ts[0]);
      ShutdownIsQuiescent(ts[1..]);
    }
  }
}
