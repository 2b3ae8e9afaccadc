/** Points and vectors of the game world; a coordinate (vec_t) is a real number. */
module Vectors {

  datatype Vec3 = Vec3(x: real, y: real, z: real)
  {
    function At(axis: nat): real
      requires axis < 3
    {
      if axis == 0 then x else if axis == 1 then y else z
    }

    function Plus(v: Vec3): Vec3 { Vec3(x + v.x, y + v.y, z + v.z) }

    function Minus(v: Vec3): Vec3 { Vec3(x - v.x, y - v.y, z - v.z) }
  }

  const ORIGIN := Vec3(0.0, 0.0, 0.0)

  function Dot(a: Vec3, b: Vec3): real { a.x * b.x + a.y * b.y + a.z * b.z }

  function Abs(x: real): real { if x < 0.0 then -x else x }
}
