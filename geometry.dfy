/**
 * The little geometry the placement controller needs: a 3-vector for the box
 * position and scale, and a pose as the 4x4 transform the reticle carries.
 */
module Geometry {

  datatype Vec3 = Vec3(x: real, y: real, z: real)

  const Origin: Vec3 := Vec3(0.0, 0.0, 0.0)

  /**
   * A rigid transform as a 4x4 matrix in column-major order (the layout of a
   * three.js Matrix4 and of an XRRigidTransform matrix): sixteen reals.
   */
  type Pose = m: seq<real> | |m| == 16
    witness [1.0, 0.0, 0.0, 0.0, 0.0, 1.0, 0.0, 0.0, 0.0, 0.0, 1.0, 0.0, 0.0, 0.0, 0.0, 1.0]

  /** The identity transform, which a fresh three.js mesh matrix holds. */
  const Identity: Pose :=
    [1.0, 0.0, 0.0, 0.0, 0.0, 1.0, 0.0, 0.0, 0.0, 0.0, 1.0, 0.0, 0.0, 0.0, 0.0, 1.0]

  /** The translation part of a pose: the fourth column, as Vector3.setFromMatrixPosition reads it. */
  function Position(p: Pose): Vec3 {
    Vec3(p[12], p[13], p[14])
  }
}
