/** What the controller takes from the engine (Bevy and avian2d): entity
    handles, 2D vectors, the trigonometry behind `Quat` and `atan2`, and the
    analog readings of a gamepad. Scalars are `real`: the f32 rounding of
    avian2d's `Scalar` is not modelled. */
module Engine {

  /** An entity handle, as the engine allocates it. */
  type Entity = nat

  datatype Option<T> = None | Some(value: T)

  datatype Vec2 = Vec2(x: real, y: real)

  function Abs(x: real): (r: real)
    ensures r >= 0.0 && (r == x || r == -x)
  {
    if x < 0.0 then -x else x
  }

  /** The squared length of a vector. */
  function Norm2(v: Vec2): real
  {
    v.x * v.x + v.y * v.y
  }

  /** The transcendental functions the controller uses, left uninterpreted:
      the value of pi, `atan2(y, x)`, `cos` and `sin`. */
  datatype Trig = Trig(pi: real, atan2: (real, real) -> real, cos: real -> real, sin: real -> real)

  /** The one fact about cos and sin that the model relies on. */
  ghost predicate UnitCircle(t: Trig)
  {
    forall a: real :: t.cos(a) * t.cos(a) + t.sin(a) * t.sin(a) == 1.0
  }

  /** One gamepad entity: its entity index (the key of the player
      assignments) and the readings `Gamepad::get` returns, `None` where the
      button or axis reports nothing. */
  datatype Gamepad = Gamepad(
    index: nat,
    leftStickX: Option<real>,
    south: Option<real>,
    rightStickX: Option<real>,
    rightStickY: Option<real>,
    rightTrigger: Option<real>)

  /** A reading with a missing value taken as 0.0 (`unwrap_or(0.0)`). */
  function Reading(r: Option<real>): (v: real)
    ensures r.Some? ==> v == r.value
    ensures r.None? ==> v == 0.0
  {
    match r
    case Some(v) => v
    case None => 0.0
  }
}
