/**
 * The glm vector types the engine stores in vertices and materials.
 * Components are kept as reals: the model only copies them or writes
 * documented constants, so no floating-point arithmetic is involved.
 */
module Glm {

  datatype Vec2 = Vec2(x: real, y: real)

  datatype Vec3 = Vec3(x: real, y: real, z: real)

  datatype Vec4 = Vec4(x: real, y: real, z: real, w: real)

  /** `glm::vec2(0.0f)` */
  const Zero2 := Vec2(0.0, 0.0)

  /** `glm::vec3(0.0f)` */
  const Zero3 := Vec3(0.0, 0.0, 0.0)

  /** `glm::vec3(0.0f, 1.0f, 0.0f)`, the default normal */
  const Up := Vec3(0.0, 1.0, 0.0)

  /** `glm::vec4(1.0f)`, opaque white */
  const One4 := Vec4(1.0, 1.0, 1.0, 1.0)
}
