/** The parts of the bevy engine and the heron physics crate that the game
    touches. Coordinates are kept opaque: they are copied, never computed on. */
module Engine {

  /** A bevy entity handle. */
  type Entity = nat

  /** A heron collision event between the rigid bodies of two entities. */
  datatype CollisionEvent = Started(e1: Entity, e2: Entity) | Stopped(e1: Entity, e2: Entity)

  datatype Vec2 = Vec2(x: real, y: real)
  datatype Vec3 = Vec3(x: real, y: real, z: real)
  datatype Quat = Quat(x: real, y: real, z: real, w: real)

  const Vec3Zero := Vec3(0.0, 0.0, 0.0)
  const Vec3One := Vec3(1.0, 1.0, 1.0)
  const QuatIdentity := Quat(0.0, 0.0, 0.0, 1.0)

  /** bevy's `Transform`. */
  datatype Transform = Transform(translation: Vec3, rotation: Quat, scale: Vec3)

  /** `Transform::default()`. */
  const DefaultTransform := Transform(Vec3Zero, QuatIdentity, Vec3One)

  /** heron's angular velocity. */
  datatype AxisAngle = AxisAngle(v: Vec3)

  /** heron's `Velocity`. */
  datatype Velocity = Velocity(linear: Vec3, angular: AxisAngle)

  /** `Velocity::default()`. */
  const DefaultVelocity := Velocity(Vec3Zero, AxisAngle(Vec3Zero))
}
