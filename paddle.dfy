/**
 * The player paddle (src/game/entities/paddle.cpp): an 8x64 box whose vertical
 * velocity each frame is (down pressed - up pressed) x 400 and whose horizontal
 * velocity is always 0. Which actions are held down is an input here.
 */
module Paddles {
  import opened Geometry
  import opened Entities
  import opened Input

  /** Paddle speed in units per second. */
  const SPEED: int := 400

  datatype Player = One | Two

  function UpAction(player: Player): Action
  {
    match player
    case One => PlayerOneUp
    case Two => PlayerTwoUp
  }

  function DownAction(player: Player): Action
  {
    match player
    case One => PlayerOneDown
    case Two => PlayerTwoDown
  }

  /** `getInputDifference(a, b)`: pressed(b) - pressed(a), booleans counted as 0 or 1. */
  function InputDifference(aPressed: bool, bPressed: bool): (d: int)
    ensures -1 <= d <= 1
    ensures d == 0 <==> aPressed == bPressed
    ensures d == 1 <==> bPressed && !aPressed
  {
    (if bPressed then 1 else 0) - (if aPressed then 1 else 0)
  }

  /** The vertical velocity `Paddle::update` sets for `player` given the held actions. */
  function VerticalVelocity(player: Player, pressed: set<Action>): (vy: int)
    ensures vy == -SPEED || vy == 0 || vy == SPEED
    ensures vy == 0 <==> (UpAction(player) in pressed <==> DownAction(player) in pressed)
    ensures vy == SPEED <==> DownAction(player) in pressed && UpAction(player) !in pressed
    ensures vy == -SPEED <==> UpAction(player) in pressed && DownAction(player) !in pressed
  {
    InputDifference(UpAction(player) in pressed, DownAction(player) in pressed) * SPEED
  }

  /** A paddle reads only its own player's two actions. */
  lemma VelocityReadsOnlyOwnActions(player: Player, a: set<Action>, b: set<Action>)
    requires UpAction(player) in a <==> UpAction(player) in b
    requires DownAction(player) in a <==> DownAction(player) in b
    ensures VerticalVelocity(player, a) == VerticalVelocity(player, b)
  {
  }

  class Paddle {
    const player: Player
    const body: Entity

    constructor (player: Player)
      ensures this.player == player && fresh(body)
      ensures body.aabb == Rect(0, 0, 8, 64) && body.velocity == Vector2(0, 0)
    {
      var b := new Entity();
      b.SetSize(8, 64);
      this.player := player;
      body := b;
    }

    /** `Paddle::update`: set the velocity from the held actions, then move. */
    method Update(pressed: set<Action>, elapsedMs: int)
      modifies body
      ensures body.velocity == Vector2(0, VerticalVelocity(player, pressed))
      ensures body.aabb == Moved(old(body.aabb), body.velocity, elapsedMs)
    {
      var vx := 0;
      var vy := 0;
      match player {
        case One =>
          vy := InputDifference(PlayerOneUp in pressed, PlayerOneDown in pressed);
        case Two =>
          vy := InputDifference(PlayerTwoUp in pressed, PlayerTwoDown in pressed);
      }
      body.SetVelocity(vx, vy * SPEED);
      body.Move(elapsedMs);
    }
  }
}
