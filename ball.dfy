/**
 * The ball (src/game/entities/ball.cpp): an 8x8 box that moves by its velocity.
 * The random serve velocity is chosen by the caller.
 */
module Balls {
  import opened Geometry
  import opened Entities

  class Ball {
    const body: Entity

    constructor ()
      ensures fresh(body)
      ensures body.aabb == Rect(0, 0, 8, 8) && body.velocity == Vector2(0, 0)
    {
      var b := new Entity();
      b.SetSize(8, 8);
      body := b;
    }

    /** `Ball::update`: move by the current velocity. */
    method Update(elapsedMs: int)
      modifies body
      ensures body.aabb == Moved(old(body.aabb), body.velocity, elapsedMs)
      ensures body.velocity == old(body.velocity)
    {
      body.Move(elapsedMs);
    }

    /** `Ball::randomizeVelocity`, with the random draw made by the caller. */
    method RandomizeVelocity(serve: Vector2)
      modifies body
      ensures body.velocity == serve && body.aabb == old(body.aabb)
    {
      body.SetVelocity(serve.x, serve.y);
    }
  }
}
