/** Vectors and quaternions over the reals. */
module Vectors {
  datatype Vec3 = Vec3(x: real, y: real, z: real)

  datatype Quat = Quat(x: real, y: real, z: real, w: real)
}
