/**
 * Values shared by the ripple pipeline: surface points, ripple sources and
 * the four-component uniform slots the vertex shader reads.
 *
 * Coordinates and times are `real`: JavaScript doubles and GLSL floats are
 * idealised, which keeps the 0.1 clock step and the 0.02 gate exact.
 */
module RippleData {

  /** Capacity of the ripple list and length of the `uRipples` uniform array. */
  const MAX_RIPPLES: nat := 5

  /** A point of the screen's normalised square or of the surface's plane. */
  datatype Vec2 = Vec2(x: real, y: real)

  /** A mesh vertex position. */
  datatype Vec3 = Vec3(x: real, y: real, z: real)

  /**
   * One `vec4` uniform slot: (x, y) the ripple centre, z its start time,
   * w its strength. A slot whose strength is not positive is inert.
   */
  datatype Vec4 = Vec4(x: real, y: real, z: real, w: real)

  /** Square of the Euclidean distance between two points. */
  function SquaredDistance(a: Vec2, b: Vec2): (d2: real)
  {
    (a.x - b.x) * (a.x - b.x) + (a.y - b.y) * (a.y - b.y)
  }

  lemma SquaredDistanceToSelf(a: Vec2)
    ensures SquaredDistance(a, a) == 0.0
  {
  }

  /** A ripple source as held in the host-side list. */
  datatype Ripple = Ripple(position: Vec2, startTime: real, strength: real)

  /** The strength every ripple is created with. */
  const CREATED_STRENGTH: real := 1.0

  /** The placeholder written into unused slots. */
  const Inert: Vec4 := Vec4(0.0, 0.0, 0.0, 0.0)

  /** A slot is live for the shader when its strength is positive. */
  predicate IsActive(slot: Vec4) {
    slot.w > 0.0
  }

  /** The uniform slot holding one ripple. */
  function ToSlot(r: Ripple): (slot: Vec4)
    ensures IsActive(slot) <==> r.strength > 0.0
    ensures FromSlot(slot) == r
  {
    Vec4(r.position.x, r.position.y, r.startTime, r.strength)
  }

  /** How the shader reads a slot back as a ripple (centre, start, strength). */
  function FromSlot(slot: Vec4): Ripple {
    Ripple(Vec2(slot.x, slot.y), slot.z, slot.w)
  }
}
