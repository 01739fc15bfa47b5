/**
 * The entity box (src/game/entity.cpp): an integer bounding box plus an
 * integer velocity, with edge and centre-convention accessors.
 */
module Entities {
  import opened CppInt
  import opened Geometry

  /** A 2D integer vector: a position, a size or a velocity. */
  datatype Vector2 = Vector2(x: int, y: int)

  /** C++ `n / 2` on an `int`. */
  function Half(n: int): int
  {
    TruncDiv(n, 2)
  }

  /** `getPosition`: the top-left corner shifted back by half the size. */
  function PositionOf(r: Rect): Vector2
  {
    Vector2(r.x - Half(r.w), r.y - Half(r.h))
  }

  /** The box `setPosition(x, y)` leaves: top-left at (x - w/2, y - h/2), size kept. */
  function PlacedAt(r: Rect, x: int, y: int): Rect
  {
    r.(x := x - Half(r.w), y := y - Half(r.h))
  }

  /**
   * `getPosition` after `setPosition(x, y)` subtracts the half-size a second time,
   * so it gives back (x, y) only for boxes at most one unit wide and high.
   */
  lemma PositionAfterPlacement(r: Rect, x: int, y: int)
    ensures PlacedAt(r, x, y).w == r.w && PlacedAt(r, x, y).h == r.h
    ensures PositionOf(PlacedAt(r, x, y)) == Vector2(x - 2 * Half(r.w), y - 2 * Half(r.h))
    ensures PositionOf(PlacedAt(r, x, y)) == Vector2(x, y) <==> -1 <= r.w <= 1 && -1 <= r.h <= 1
  {
  }

  /**
   * `Entity::move(delta)` with delta = elapsedMs / 1000 seconds: each coordinate
   * becomes `coordinate + velocity * delta`, truncated toward zero on the way
   * back to `int`. The product is taken exactly here.
   */
  function Moved(r: Rect, v: Vector2, elapsedMs: int): Rect
  {
    r.(x := TruncDiv(r.x * 1000 + v.x * elapsedMs, 1000),
       y := TruncDiv(r.y * 1000 + v.y * elapsedMs, 1000))
  }

  /** Moving leaves the size alone, and a zero velocity leaves the box where it is. */
  lemma MoveKeepsSize(r: Rect, v: Vector2, elapsedMs: int)
    ensures Moved(r, v, elapsedMs).w == r.w && Moved(r, v, elapsedMs).h == r.h
    ensures v == Vector2(0, 0) ==> Moved(r, v, elapsedMs) == r
  {
    if v == Vector2(0, 0) {
      assert TruncDiv(r.x * 1000, 1000) == r.x;
      assert TruncDiv(r.y * 1000, 1000) == r.y;
    }
  }

  class Entity {
    var velocity: Vector2
    var aabb: Rect

    constructor ()
      ensures velocity == Vector2(0, 0) && aabb == Rect(0, 0, 0, 0)
    {
      velocity := Vector2(0, 0);
      aabb := Rect(0, 0, 0, 0);
    }

    function GetPosition(): Vector2
      reads this
    {
      PositionOf(aabb)
    }

    method SetPosition(x: int, y: int)
      modifies this
      ensures aabb == PlacedAt(old(aabb), x, y)
      ensures GetPosition() == Vector2(x - 2 * Half(aabb.w), y - 2 * Half(aabb.h))
      ensures velocity == old(velocity)
    {
      aabb := aabb.(x := x - Half(aabb.w));
      aabb := aabb.(y := y - Half(aabb.h));
      PositionAfterPlacement(old(aabb), x, y);
    }

    function GetLeftEdgePosition(): int
      reads this
    {
      aabb.x
    }

    method SetLeftEdgePosition(x: int)
      modifies this
      ensures GetLeftEdgePosition() == x
      ensures aabb == old(aabb).(x := x) && velocity == old(velocity)
    {
      aabb := aabb.(x := x);
    }

    function GetTopEdgePosition(): int
      reads this
    {
      aabb.y
    }

    method SetTopEdgePosition(y: int)
      modifies this
      ensures GetTopEdgePosition() == y
      ensures aabb == old(aabb).(y := y) && velocity == old(velocity)
    {
      aabb := aabb.(y := y);
    }

    function GetRightEdgePosition(): int
      reads this
    {
      aabb.x + aabb.w
    }

    method SetRightEdgePosition(x: int)
      modifies this
      ensures GetRightEdgePosition() == x
      ensures aabb == old(aabb).(x := x - old(aabb).w) && velocity == old(velocity)
    {
      aabb := aabb.(x := x - aabb.w);
    }

    function GetBottomEdgePosition(): int
      reads this
    {
      aabb.y + aabb.h
    }

    method SetBottomEdgePosition(y: int)
      modifies this
      ensures GetBottomEdgePosition() == y
      ensures aabb == old(aabb).(y := y - old(aabb).h) && velocity == old(velocity)
    {
      aabb := aabb.(y := y - aabb.h);
    }

    function GetSize(): Vector2
      reads this
    {
      Vector2(aabb.w, aabb.h)
    }

    method SetSize(w: int, h: int)
      modifies this
      ensures GetSize() == Vector2(w, h)
      ensures aabb == old(aabb).(w := w, h := h) && velocity == old(velocity)
    {
      aabb := aabb.(w := w, h := h);
    }

    function GetVelocity(): Vector2
      reads this
    {
      velocity
    }

    method SetVelocity(vx: int, vy: int)
      modifies this
      ensures GetVelocity() == Vector2(vx, vy)
      ensures aabb == old(aabb)
    {
      velocity := Vector2(vx, vy);
    }

    method Move(elapsedMs: int)
      modifies this
      ensures aabb == Moved(old(aabb), velocity, elapsedMs)
      ensures velocity == old(velocity)
    {
      aabb := Moved(aabb, velocity, elapsedMs);
    }

    function GetRect(): Rect
      reads this
    {
      aabb
    }
  }
}
