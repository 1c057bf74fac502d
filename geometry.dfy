/// Plane geometry as far as the integer skeleton of the simulator needs it.
/// Positions, velocities and radii are `float` in the source; here they are reals
/// that are only copied, compared, added and subtracted. Every computation that
/// needs real float arithmetic (normalisation, rotation, deceleration, collision
/// response, clamping into the field, the circle hit tests) is an opaque function
/// carried by a `Kinematics` value that the caller passes in.
module Geometry {
  /// `Vec2` (HPCVec2.hpp).
  datatype Vec2 = Vec2(x: real, y: real)

  /// The default-constructed vector and the result of `Vec2::reset`.
  const Zero := Vec2(0.0, 0.0)

  function Add(a: Vec2, b: Vec2): Vec2 {
    Vec2(a.x + b.x, a.y + b.y)
  }

  function Sub(a: Vec2, b: Vec2): Vec2 {
    Vec2(a.x - b.x, a.y - b.y)
  }

  function Neg(a: Vec2): Vec2 {
    Vec2(-a.x, -a.y)
  }

  /// `Vec2::isZero`: both coordinates exactly zero.
  predicate IsZero(v: Vec2) {
    v.x == 0.0 && v.y == 0.0
  }

  /// The vector from `p` to `t` is zero exactly when the two points coincide; this
  /// is the test behind "the target equals the current position".
  lemma SubIsZeroIff(t: Vec2, p: Vec2)
    ensures IsZero(Sub(t, p)) <==> t == p
  {
  }

  /// `Circle` (HPCCircle.hpp): a centre and a radius.
  datatype Circle = Circle(pos: Vec2, radius: real)

  /// `Rectangle` (HPCRectangle.hpp); the default one is all zeros.
  datatype Rect = Rect(left: real, right: real, bottom: real, top: real)

  /// `Field` (HPCField.hpp): the playing area and the flow added to every move.
  datatype Field = Field(rect: Rect, flowVel: Vec2)

  /// The default-constructed and the reset `Field`.
  const EmptyField := Field(Rect(0.0, 0.0, 0.0, 0.0), Zero)

  /// The float computations of the simulator, supplied from outside the model.
  datatype Kinematics = Kinematics(
    /// `Parameter::CharaRadius()`.
    charaRadius: real,
    /// `v.getNormalized(Parameter::CharaAccelSpeed())`.
    accelVel: Vec2 -> Vec2,
    /// `Chara::move`: region moved by velocity plus flow, then velocity decelerated;
    /// arguments are position, velocity and flow, result the new position and velocity.
    move: (Vec2, Vec2, Vec2) -> (Vec2, Vec2),
    /// `Collision::IsHit(Circle, Circle)`.
    isHit: (Circle, Circle) -> bool,
    /// `Collision::IsHit(Circle, Circle, Vec2)`: does the second circle, moving to the
    /// given point, sweep over the first?
    isHitSwept: (Circle, Circle, Vec2) -> bool,
    /// The pairwise response of `procCheckColl`: from the two regions and velocities,
    /// the new velocity of each and the separation offset pushed onto the second.
    collide: (Circle, Vec2, Circle, Vec2) -> (Vec2, Vec2, Vec2),
    /// `CalcVelSet::calculatedVel`: the mean of the collected velocities.
    meanVel: seq<Vec2> -> Vec2,
    /// `Chara::correctInside`: whether the circle leaves the rectangle, and the
    /// corrected centre when it does.
    correctInside: (Circle, Rect) -> (bool, Vec2),
    /// `Vec2::rotate(Math::DegToRad(deg))`.
    rotateDeg: (Vec2, real) -> Vec2
  )
}
