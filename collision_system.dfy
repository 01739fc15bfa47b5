/**
 * The collision rules (src/game/collision_system.cpp, repeated in
 * `Game::resolveFrameCollisions`): clamp both paddles into the field, run the
 * exclusive top-bounce / bottom-bounce / left-goal / right-goal chain for the
 * ball, then test the ball against each paddle.
 *
 * The paddle tests go through `HasPoint`, which never holds as written, so the
 * ball-paddle bounces never change the ball's velocity.
 */
module Collision {
  import opened Wrappers
  import opened CppInt
  import opened Geometry
  import opened Entities
  import opened Paddles
  import opened Balls

  /** The box of a paddle after the top-first clamp into field `f`. */
  function Clamped(f: Rect, r: Rect): (c: Rect)
    ensures c.x == r.x && c.w == r.w && c.h == r.h
    ensures r.y < f.y ==> c.y == f.y
    ensures f.y <= r.y && r.y + r.h > f.y + f.h ==> c.y + c.h == f.y + f.h
    ensures f.y <= r.y && r.y + r.h <= f.y + f.h ==> c == r
  {
    if r.y < f.y then r.(y := f.y)
    else if r.y + r.h > f.y + f.h then r.(y := f.y + f.h - r.h)
    else r
  }

  /** The box lies vertically within the field. */
  predicate VerticallyInside(f: Rect, r: Rect)
  {
    f.y <= r.y && r.y + r.h <= f.y + f.h
  }

  /** A box no taller than the field ends inside it, and clamping again changes nothing. */
  lemma ClampSettlesShortBox(f: Rect, r: Rect)
    requires 0 <= r.h <= f.h
    ensures VerticallyInside(f, Clamped(f, r))
    ensures Clamped(f, Clamped(f, r)) == Clamped(f, r)
  {
  }

  /**
   * A box taller than the field, clamped repeatedly with no movement in
   * between, never settles: starting above the field, the clamp alternates
   * between aligning its top and aligning its bottom.
   */
  lemma ClampOscillatesTallBox(f: Rect, r: Rect)
    requires r.h > f.h && r.y < f.y
    ensures Clamped(f, r).y == f.y
    ensures Clamped(f, Clamped(f, r)).y == f.y + f.h - r.h < f.y
    ensures Clamped(f, Clamped(f, Clamped(f, r))) == Clamped(f, r)
  {
  }

  /** Which branch of the ball's `else if` chain is taken. */
  datatype FieldContact = TopWall | BottomWall | LeftGoal | RightGoal | InPlay

  /** The ball lies entirely within the field on both axes. */
  predicate InsideField(f: Rect, b: Rect)
  {
    VerticallyInside(f, b) && f.x <= b.x && b.x + b.w <= f.x + f.w
  }

  /**
   * The branch the chain takes for ball box `b`: exactly one, the walls tested
   * before the goals and the left goal before the right one.
   */
  function FieldContactOf(f: Rect, b: Rect): (c: FieldContact)
    ensures c == TopWall <==> b.y < f.y
    ensures c == BottomWall <==> f.y <= b.y && b.y + b.h > f.y + f.h
    ensures c == LeftGoal <==> VerticallyInside(f, b) && b.x < f.x
    ensures c == RightGoal <==> VerticallyInside(f, b) && f.x <= b.x && b.x + b.w > f.x + f.w
    ensures c == InPlay <==> InsideField(f, b)
  {
    if b.y < f.y then TopWall
    else if b.y + b.h > f.y + f.h then BottomWall
    else if b.x < f.x then LeftGoal
    else if b.x + b.w > f.x + f.w then RightGoal
    else InPlay
  }

  /** A ball past a wall and a goal line at once bounces and scores nothing. */
  lemma WallBeatsGoal(f: Rect, b: Rect)
    requires b.y < f.y || b.y + b.h > f.y + f.h
    ensures FieldContactOf(f, b) != LeftGoal && FieldContactOf(f, b) != RightGoal
  {
  }

  /**
   * The ball velocity after the chain: after the top wall it moves down
   * (vy >= 0), after the bottom wall up (vy <= 0); the speed on each axis and
   * the horizontal velocity are kept; goals leave the velocity alone.
   */
  function BouncedOffField(c: FieldContact, v: Vector2): (r: Vector2)
    ensures r.x == v.x && Abs(r.y) == Abs(v.y)
    ensures c == TopWall ==> r.y >= 0
    ensures c == BottomWall ==> r.y <= 0
    ensures c != TopWall && c != BottomWall ==> r == v
  {
    match c
    case TopWall => Vector2(v.x, Abs(v.y))
    case BottomWall => Vector2(v.x, -(Abs(v.y) as int))
    case _ => v
  }

  /** A wall bounce is idempotent: a second bounce off the same wall changes nothing. */
  lemma BounceIdempotent(c: FieldContact, v: Vector2)
    ensures BouncedOffField(c, BouncedOffField(c, v)) == BouncedOffField(c, v)
  {
  }

  /**
   * The ball velocity after the test against one paddle: the left paddle
   * (`sendRight`) would send it right, the right paddle left. The test uses
   * `HasPoint`, so as written the velocity is always returned unchanged.
   */
  function BouncedOffPaddle(paddle: Rect, ball: Rect, v: Vector2, sendRight: bool): (r: Vector2)
    ensures r == v
  {
    if HasPoint(Difference(paddle, ball), 0, 0) then
      Vector2(if sendRight then Abs(v.x) else -(Abs(v.x) as int), v.y)
    else v
  }

  /** A ball overlapping the left paddle while moving left keeps moving left, into the paddle. */
  lemma BallPassesThroughPaddle()
    ensures Overlap(Rect(0, 0, 8, 64), Rect(4, 10, 8, 8))
    ensures BouncedOffPaddle(Rect(0, 0, 8, 64), Rect(4, 10, 8, 8), Vector2(-300, 0), true).x < 0
  {
  }

  /** The paddle clamp of `resolve`, through the entity's edge accessors. */
  method ClampToField(f: Rect, e: Entity)
    modifies e
    ensures e.aabb == Clamped(f, old(e.aabb))
    ensures e.velocity == old(e.velocity)
  {
    if e.GetTopEdgePosition() < f.y {
      e.SetTopEdgePosition(f.y);
    } else if e.GetBottomEdgePosition() > f.y + f.h {
      e.SetBottomEdgePosition(f.y + f.h);
    }
  }

  /** The ball's `else if` chain, less the goal handlers: returns the branch taken. */
  method BounceOffField(f: Rect, ball: Entity) returns (contact: FieldContact)
    modifies ball
    ensures contact == FieldContactOf(f, old(ball.aabb))
    ensures ball.aabb == old(ball.aabb)
    ensures ball.velocity == BouncedOffField(contact, old(ball.velocity))
  {
    if ball.GetTopEdgePosition() < f.y {
      var v := ball.GetVelocity();
      ball.SetVelocity(v.x, Abs(v.y));
      contact := TopWall;
    } else if ball.GetBottomEdgePosition() > f.y + f.h {
      var v := ball.GetVelocity();
      ball.SetVelocity(v.x, -(Abs(v.y) as int));
      contact := BottomWall;
    } else if ball.GetLeftEdgePosition() < f.x {
      contact := LeftGoal;
    } else if ball.GetRightEdgePosition() > f.x + f.w {
      contact := RightGoal;
    } else {
      contact := InPlay;
    }
  }

  /**
   * The two ball-paddle tests. Each sets the velocity `BouncedOffPaddle`
   * gives, which is the velocity already there.
   */
  method BounceOffPaddles(left: Entity, right: Entity, ball: Entity)
    requires ball != left && ball != right
    modifies ball
    ensures ball.aabb == old(ball.aabb)
    ensures ball.velocity == old(ball.velocity)
  {
    var v := BouncedOffPaddle(left.GetRect(), ball.GetRect(), ball.GetVelocity(), true);
    ball.SetVelocity(v.x, v.y);
    v := BouncedOffPaddle(right.GetRect(), ball.GetRect(), ball.GetVelocity(), false);
    ball.SetVelocity(v.x, v.y);
  }

  /** A `std::function` callback, identified by what its owner registered. */
  type CallbackId = nat

  /** The goal callback a `resolve` call runs, if any; an empty one throws `bad_function_call`. */
  datatype GoalCall = NoCall | Called(callback: CallbackId) | BadFunctionCall

  /** The callback run for the branch taken: one only for a goal, and the matching side's. */
  function GoalCallOf(c: FieldContact, onLeft: Option<CallbackId>, onRight: Option<CallbackId>)
    : (call: GoalCall)
    ensures call == NoCall <==> c != LeftGoal && c != RightGoal
    ensures call.Called? <==> (c == LeftGoal && onLeft.Some?) || (c == RightGoal && onRight.Some?)
    ensures call.Called? && c == LeftGoal ==> call.callback == onLeft.value
    ensures call.Called? && c == RightGoal ==> call.callback == onRight.value
  {
    match c
    case LeftGoal => if onLeft.Some? then Called(onLeft.value) else BadFunctionCall
    case RightGoal => if onRight.Some? then Called(onRight.value) else BadFunctionCall
    case _ => NoCall
  }

  class CollisionSystem {
    var onLeftGoal: Option<CallbackId>
    var onRightGoal: Option<CallbackId>

    /** The singleton as first created: both callbacks empty. */
    constructor ()
      ensures onLeftGoal == None && onRightGoal == None
    {
      onLeftGoal := None;
      onRightGoal := None;
    }

    /** `CollisionSystem::initialize`: store the two goal callbacks. */
    method Initialize(onLeft: CallbackId, onRight: CallbackId)
      modifies this
      ensures onLeftGoal == Some(onLeft) && onRightGoal == Some(onRight)
    {
      onLeftGoal := Some(onLeft);
      onRightGoal := Some(onRight);
    }

    /**
     * `CollisionSystem::resolve`: clamps both paddles, runs the ball chain and
     * the paddle tests, and returns the goal callback it runs. The ball's box
     * is never moved.
     */
    method Resolve(f: Rect, lp: Paddle, rp: Paddle, b: Ball) returns (call: GoalCall)
      requires lp.body != rp.body && lp.body != b.body && rp.body != b.body
      modifies lp.body, rp.body, b.body
      ensures lp.body.aabb == Clamped(f, old(lp.body.aabb)) && lp.body.velocity == old(lp.body.velocity)
      ensures rp.body.aabb == Clamped(f, old(rp.body.aabb)) && rp.body.velocity == old(rp.body.velocity)
      ensures b.body.aabb == old(b.body.aabb)
      ensures b.body.velocity == BouncedOffField(FieldContactOf(f, old(b.body.aabb)), old(b.body.velocity))
      ensures call == GoalCallOf(FieldContactOf(f, old(b.body.aabb)), onLeftGoal, onRightGoal)
    {
      ClampToField(f, lp.body);
      ClampToField(f, rp.body);
      var contact := BounceOffField(f, b.body);
      call := GoalCallOf(contact, onLeftGoal, onRightGoal);
      BounceOffPaddles(lp.body, rp.body, b.body);
    }
  }
}
