/** Three-dimensional points as the quad-set loader uses them: a value with
    three coordinates, and the component-wise minimum and maximum that fold
    vertices into a bounding box. The source's float coordinates are modelled
    as reals; the loader only compares them. */
module Geometry {

  /** The three coordinate axes, used to talk about one component at a time. */
  datatype Axis = X | Y | Z

  datatype Vec3 = Vec3(x: real, y: real, z: real) {

    /** The coordinate along axis `a`. */
    function At(a: Axis): real
    {
      match a
      case X => x
      case Y => y
      case Z => z
    }

    /** Component-wise minimum of this point and `o` (Vec3::min): each
        coordinate is lowered to `o`'s where `o`'s is smaller. */
    function Min(o: Vec3): (r: Vec3)
      ensures Le(r, this) && Le(r, o)
      ensures forall a :: r.At(a) == At(a) || r.At(a) == o.At(a)
    {
      Vec3(if o.x < x then o.x else x,
           if o.y < y then o.y else y,
           if o.z < z then o.z else z)
    }

    /** Component-wise maximum of this point and `o` (Vec3::max): each
        coordinate is raised to `o`'s where `o`'s is larger. */
    function Max(o: Vec3): (r: Vec3)
      ensures Le(this, r) && Le(o, r)
      ensures forall a :: r.At(a) == At(a) || r.At(a) == o.At(a)
    {
      Vec3(if x < o.x then o.x else x,
           if y < o.y then o.y else y,
           if z < o.z then o.z else z)
    }
  }

  /** `a` lies below `b` on every axis. */
  predicate Le(a: Vec3, b: Vec3)
  {
    a.x <= b.x && a.y <= b.y && a.z <= b.z
  }
}
