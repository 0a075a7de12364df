/** Screen size and the axis-aligned collision boxes shared by every entity. */
module Geometry {

  /** Logical screen size in pixels (the fixed layout of the game). */
  const ScreenWidth: real := 320.0
  const ScreenHeight: real := 240.0

  /** Absolute value, as math.Abs on the integral values the game uses. */
  function Abs(v: real): (r: real)
    ensures r >= 0.0
    ensures r == v || r == -v
  {
    if v < 0.0 then -v else v
  }

  /** A collision box: the top-left corner of a sprite and the sprite's size. */
  datatype Box = Box(x: real, y: real, w: real, h: real)

  /** The same box moved by (dx, dy). */
  function Shift(b: Box, dx: real, dy: real): Box
  {
    b.(x := b.x + dx, y := b.y + dy)
  }

  /** The ball's box `b` counts as inside the collider box `c`: the horizontal
      extents touch or overlap, and `b` lies vertically within `c`. Stated
      through the centres: the horizontal distance between them is at most
      half the two widths together; and only a box no taller than `c` fits. */
  predicate InArea(b: Box, c: Box): (r: bool)
    ensures r <==> && Abs((b.x + b.w / 2.0) - (c.x + c.w / 2.0)) <= (b.w + c.w) / 2.0
                   && c.y <= b.y && b.y + b.h <= c.y + c.h
    ensures r ==> b.h <= c.h
  {
    && b.x + b.w >= c.x && b.x <= c.x + c.w
    && b.y >= c.y && b.y + b.h <= c.y + c.h
  }
}
