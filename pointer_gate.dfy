/**
 * The pointer side of the input handlers: screen pixels to normalised
 * device coordinates, and the movement threshold that decides whether a
 * move event raises a ripple.
 */
module PointerGate {
  import opened RippleData

  /** Minimum distance, in normalised units, between two accepted samples. */
  const MOVEMENT_THRESHOLD: real := 0.02

  /** One entry of a touch event's `touches` list. */
  datatype Touch = Touch(clientX: real, clientY: real)

  /**
   * Pixel coordinates to normalised device coordinates: x grows to the
   * right and y grows upwards, both spanning [-1, 1] over the viewport.
   * The mapping loses nothing: the pixel position can be recovered.
   */
  function Normalize(clientX: real, clientY: real, width: real, height: real): (p: Vec2)
    requires width > 0.0 && height > 0.0
    ensures 0.0 <= clientX <= width ==> -1.0 <= p.x <= 1.0
    ensures 0.0 <= clientY <= height ==> -1.0 <= p.y <= 1.0
    ensures clientX == (p.x + 1.0) * width / 2.0
    ensures clientY == (1.0 - p.y) * height / 2.0
  {
    Ratio(clientX, width);
    Ratio(clientY, height);
    Vec2((clientX / width) * 2.0 - 1.0, -(clientY / height) * 2.0 + 1.0)
  }

  /** The fraction of the viewport a pixel coordinate covers. */
  lemma Ratio(a: real, extent: real)
    requires extent > 0.0
    ensures (a / extent) * extent == a
    ensures 0.0 <= a <= extent ==> 0.0 <= a / extent <= 1.0
  {
    var q := a / extent;
    assert q * extent == a;
  }

  /**
   * The gate of the move handlers, on squared distances: over the reals
   * `distanceTo(prev, sample) > 0.02` is the same test.
   */
  predicate Moved(prev: Vec2, sample: Vec2) {
    SquaredDistance(prev, sample) > MOVEMENT_THRESHOLD * MOVEMENT_THRESHOLD
  }

  /**
   * For the Euclidean distance `d` between the samples (the non-negative
   * root of the squared distance), the gate opens exactly when `d`
   * exceeds the threshold.
   */
  lemma GateIsDistanceThreshold(prev: Vec2, sample: Vec2, d: real)
    requires d >= 0.0 && d * d == SquaredDistance(prev, sample)
    ensures Moved(prev, sample) <==> d > MOVEMENT_THRESHOLD
  {
    var t := MOVEMENT_THRESHOLD;
    assert t * t == 0.0004;
    if d > t {
      assert d * d > t * d >= t * t;
    } else {
      assert d * d <= t * d <= t * t;
    }
  }

  /** A sample equal to the last accepted one never opens the gate. */
  lemma StillPointerIsGated(prev: Vec2)
    ensures !Moved(prev, prev)
  {
    SquaredDistanceToSelf(prev);
  }
}
