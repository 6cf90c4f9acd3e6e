/** Plain value shapes shared by the entity code: points, extents and axis-aligned boxes. */
module Geometry {

  /** `{x, y}`: a position, a velocity or an acceleration. */
  datatype Vec = Vec(x: real, y: real) {
    function Plus(other: Vec): (r: Vec)
      ensures r.x - x == other.x && r.y - y == other.y
    {
      Vec(x + other.x, y + other.y)
    }
  }

  const Zero: Vec := Vec(0.0, 0.0)

  /** `{width, height}`. */
  datatype Size = Size(width: real, height: real)

  /** What a collision test reads of an entity: its top-left corner and its extent. */
  datatype Box = Box(position: Vec, size: Size)

  /** The point `p` lies in the closed rectangle of `b`. */
  ghost predicate Contains(b: Box, p: Vec) {
    b.position.x <= p.x <= b.position.x + b.size.width &&
    b.position.y <= p.y <= b.position.y + b.size.height
  }
}
