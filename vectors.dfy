/** Three-component points shared by the ribbon, the fish head and the lanterns. */
module Vectors {

  /** A position in scene space (THREE.Vector3), with exact real coordinates. */
  datatype Vector3 = Vector3(x: real, y: real, z: real)

  /** The origin, where a fresh THREE.Vector3 starts. */
  const Origin: Vector3 := Vector3(0.0, 0.0, 0.0)
}
