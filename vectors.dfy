/** Integer 3-vectors (glam's IVec3 and UVec3) with unbounded components. */
module Vectors {

  /** A signed integer vector: world positions, chunk grid positions, translations. */
  datatype IVec3 = IVec3(x: int, y: int, z: int)

  /** An unsigned integer vector: positions local to a chunk, model sizes. */
  datatype UVec3 = UVec3(x: nat, y: nat, z: nat)

  const ZERO: IVec3 := IVec3(0, 0, 0)

  function Add(a: IVec3, b: IVec3): IVec3 {
    IVec3(a.x + b.x, a.y + b.y, a.z + b.z)
  }

  function Sub(a: IVec3, b: IVec3): IVec3 {
    IVec3(a.x - b.x, a.y - b.y, a.z - b.z)
  }

  function Scale(a: IVec3, k: int): IVec3 {
    IVec3(a.x * k, a.y * k, a.z * k)
  }

  /** `as_ivec3` of an unsigned vector. */
  function Signed(u: UVec3): IVec3 {
    IVec3(u.x, u.y, u.z)
  }

  /** glam's `length_squared`. */
  function LengthSquared(a: IVec3): nat {
    a.x * a.x + a.y * a.y + a.z * a.z
  }
}
