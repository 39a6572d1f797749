/**
 The look direction of the water reflection camera: the main camera's look
 direction mirrored in the horizontal water plane.
 */
module Reflection {
  import opened SceneTypes

  /** The direction seen in a horizontal mirror: X and Z kept, Y negated. */
  function Mirrored(v: Vec3): Vec3
  {
    Vec3(v.x, -v.y, v.z)
  }

  /** Mirroring twice gives back the original direction. */
  lemma MirroredInvolutive(v: Vec3)
    ensures Mirrored(Mirrored(v)) == v
  {
  }

  /** Mirroring keeps the squared length of a direction. */
  lemma MirroredKeepsLength(v: Vec3)
    ensures Mirrored(v).x * Mirrored(v).x + Mirrored(v).y * Mirrored(v).y + Mirrored(v).z * Mirrored(v).z
         == v.x * v.x + v.y * v.y + v.z * v.z
  {
  }
}
