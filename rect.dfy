/**
 * Axis-aligned bounding boxes (src/game/rect.cpp): the Minkowski difference,
 * the point test `hasPoint` and the closest-edge classifier.
 *
 * `hasPoint` is modelled as the C++ code is written: its parameters `x` and `y`
 * shadow the box's own fields, so its first conjunct compares the parameter
 * with itself and the test is false for every box and every point.
 */
module Geometry {
  import opened CppInt

  /** An `SDL_Rect`: top-left corner and size, all `int`. */
  datatype Rect = Rect(x: int, y: int, w: int, h: int)

  /** `Rect::Edge`, in declaration order. */
  datatype Edge = NoEdge | Left | Top | Right | Bottom

  /** Open interiors of two boxes overlap on both axes. */
  predicate Overlap(a: Rect, b: Rect)
  {
    a.x < b.x + b.w && b.x < a.x + a.w && a.y < b.y + b.h && b.y < a.y + a.h
  }

  /** Point (px, py) lies strictly inside `r`: the containment `hasPoint` is meant to test. */
  predicate StrictlyContains(r: Rect, px: int, py: int)
  {
    r.x < px < r.x + r.w && r.y < py < r.y + r.h
  }

  /**
   * `Rect::minkowskiDifference`: the box swept by `a - p` for every point p of `b`.
   * Horizontally it runs from a's left minus b's right to a's right minus b's left.
   */
  function MinkowskiDifference(a: Rect, b: Rect): (d: Rect)
    ensures d.x == a.x - (b.x + b.w) && d.x + d.w == (a.x + a.w) - b.x
    ensures d.y == a.y - (b.y + b.h) && d.y + d.h == (a.y + a.h) - b.y
    ensures d.w == a.w + b.w && d.h == a.h + b.h
    ensures a.w >= 0 && b.w >= 0 ==> d.w >= 0
    ensures a.h >= 0 && b.h >= 0 ==> d.h >= 0
  {
    Rect(a.x - (b.x + b.w), a.y - (b.y + b.h), a.w + b.w, a.h + b.h)
  }

  /** `Rect::operator-`: the Minkowski difference under another name. */
  function Difference(a: Rect, b: Rect): (d: Rect)
    ensures d == MinkowskiDifference(a, b)
  {
    MinkowskiDifference(a, b)
  }

  /** The origin lies strictly inside the difference exactly when the two boxes overlap. */
  lemma DifferenceContainsOriginIffOverlap(a: Rect, b: Rect)
    ensures StrictlyContains(MinkowskiDifference(a, b), 0, 0) <==> Overlap(a, b)
  {
  }

  /**
   * `Rect::hasPoint` as written: `left` and `top` are the parameters themselves,
   * so `left < x` is `x < x` and the result is false for every input.
   */
  function HasPoint(r: Rect, x: int, y: int): (inside: bool)
    ensures !inside
  {
    var left := x;
    var top := y;
    var right := x + r.w;
    var bottom := y + r.h;
    left < x && x < right && top < y && y < bottom
  }

  /** A box and a point on which the written test and the intended one disagree. */
  lemma HasPointMissesInteriorPoint()
    ensures StrictlyContains(Rect(0, 0, 10, 10), 5, 5)
    ensures !HasPoint(Rect(0, 0, 10, 10), 5, 5)
  {
  }

  /**
   * The classification in the intersecting branch of `getIntersectingEdge`:
   * the smallest of the four distances wins, ties going to left, then right,
   * then top, then bottom (not the order of the `Edge` declaration).
   */
  function ClosestEdge(d: Rect): (e: Edge)
    ensures e != NoEdge
    ensures var left, top, right, bottom := Abs(d.x), Abs(d.y), Abs(d.x + d.w), Abs(d.y + d.h);
            && (e == Left ==> left <= right && left <= top && left <= bottom)
            && (e == Right ==> right < left && right <= top && right <= bottom)
            && (e == Top ==> top < left && top < right && top <= bottom)
            && (e == Bottom ==> bottom < left && bottom < right && bottom < top)
  {
    var left := Abs(d.x);
    var top := Abs(d.y);
    var right := Abs(d.x + d.w);
    var bottom := Abs(d.y + d.h);
    var closest := Min(Min(left, right), Min(top, bottom));
    if closest == left then Left
    else if closest == right then Right
    else if closest == top then Top
    else Bottom
  }

  function Min(a: int, b: int): int
  {
    if a <= b then a else b
  }

  /** When the left and right distances tie for the minimum, `Left` wins over `Right`. */
  lemma ClosestEdgeTieGoesLeft(d: Rect)
    requires Abs(d.x) == Abs(d.x + d.w) && Abs(d.x) <= Abs(d.y) && Abs(d.x) <= Abs(d.y + d.h)
    ensures ClosestEdge(d) == Left
  {
  }

  /**
   * When the right and top distances tie for the minimum and left is larger,
   * `Right` wins although `Top` comes before it in the `Edge` declaration.
   */
  lemma ClosestEdgeRightBeatsTop(d: Rect)
    requires Abs(d.x + d.w) == Abs(d.y) && Abs(d.x + d.w) < Abs(d.x) && Abs(d.y) <= Abs(d.y + d.h)
    ensures ClosestEdge(d) == Right
  {
  }

  /**
   * `Rect::getIntersectingEdge` as written. It tests the difference with
   * `hasPoint(0, 0)`, which never holds, so it answers `NoEdge` for every pair.
   */
  function GetIntersectingEdge(a: Rect, b: Rect): (e: Edge)
    ensures e == NoEdge
  {
    var minkowski := MinkowskiDifference(a, b);
    var isIntersecting := HasPoint(minkowski, 0, 0);
    if isIntersecting then ClosestEdge(minkowski) else NoEdge
  }

  /** Even two overlapping boxes get `NoEdge`. */
  lemma OverlappingBoxesGetNoEdge()
    ensures Overlap(Rect(0, 0, 10, 10), Rect(5, 5, 10, 10))
    ensures GetIntersectingEdge(Rect(0, 0, 10, 10), Rect(5, 5, 10, 10)) == NoEdge
  {
  }
}
