/** Points in space and axis-aligned boxes, as the numeric arrays of the pipeline hold them. */
module Geometry {

  /** A coordinate index: 0 is x, 1 is y, 2 is z. */
  type Axis = a: int | 0 <= a < 3

  /** One row of an N x 3 point array. */
  datatype Vec3 = Vec3(x: real, y: real, z: real) {
    function At(a: Axis): real {
      if a == 0 then x else if a == 1 then y else z
    }
  }

  function Add(u: Vec3, v: Vec3): Vec3 {
    Vec3(u.x + v.x, u.y + v.y, u.z + v.z)
  }

  function Neg(v: Vec3): Vec3 {
    Vec3(-v.x, -v.y, -v.z)
  }

  /** A bounding box `[[minx, miny, minz], [maxx, maxy, maxz]]`. */
  datatype Box = Box(lo: Vec3, hi: Vec3)

  predicate InBox(p: Vec3, b: Box) {
    b.lo.x <= p.x <= b.hi.x && b.lo.y <= p.y <= b.hi.y && b.lo.z <= p.z <= b.hi.z
  }
}
