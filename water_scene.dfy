/**
 * The module-level state of the page that the ripple path updates in place:
 * the ripple list, the `uRipples` uniform array, the `uTime` clock and the
 * two pointer positions, with the event handlers and the frame step that
 * change them.
 *
 * The screen-to-plane mapping reads the camera, which lives outside this
 * model; every handler receives it as the function `project`.
 */
module WaterScene {
  import opened RippleData
  import opened RippleStore
  import opened PointerGate

  /** Increment of the `uTime` uniform per rendered frame. */
  const FRAME_STEP: real := 0.1

  /** The clock after `frames` calls of `animate`, from its initial 0. */
  function Clock(frames: nat): (t: real)
    ensures t >= 0.0
  {
    if frames == 0 then 0.0 else Clock(frames - 1) + FRAME_STEP
  }

  /** The clock is the frame count times the step: it is never reset. */
  lemma {:induction false} ClockClosedForm(frames: nat)
    ensures Clock(frames) == frames as real * FRAME_STEP
  {
    if frames > 0 {
      ClockClosedForm(frames - 1);
    }
  }

  /** Later frames read a later clock: the clock never stalls. */
  lemma ClockIncreasing(a: nat, b: nat)
    requires a < b
    ensures Clock(a) < Clock(b)
  {
    ClockClosedForm(a);
    ClockClosedForm(b);
  }

  /**
   * A list as the ripple path keeps it: created at strength 1.0, in
   * non-decreasing start-time order, none started after `now`.
   */
  ghost predicate Chronological(rs: seq<Ripple>, now: real) {
    && (forall i, j :: 0 <= i < j < |rs| ==> rs[i].startTime <= rs[j].startTime)
    && (forall i :: 0 <= i < |rs| ==> rs[i].startTime <= now && rs[i].strength == CREATED_STRENGTH)
  }

  /** The ripple a move to `sample` raises at clock `now`: centred on the mirrored plane point. */
  function RippleAt(project: (real, real) -> Vec2, sample: Vec2, now: real): Ripple {
    var planePos := project(sample.x, sample.y);
    Ripple(Vec2(planePos.x * -1.0, planePos.y * -1.0), now, CREATED_STRENGTH)
  }

  /** A ripple stamped with the current clock keeps the list chronological. */
  lemma ChronologicalPushed(rs: seq<Ripple>, x: Ripple, now: real)
    requires Chronological(rs, now)
    requires x.startTime == now && x.strength == CREATED_STRENGTH
    ensures Chronological(Pushed(rs, x), now)
  {
    var s := rs + [x];
    assert Chronological(s, now);
    if |s| > MAX_RIPPLES {
      assert Pushed(rs, x) == s[1..];
    }
  }

  class Simulation {
    /** Live ripples, oldest first. */
    var ripples: seq<Ripple>
    /** The `uRipples` uniform: MAX_RIPPLES slots, overwritten in place. */
    var uRipples: array<Vec4>
    /** The `uTime` uniform. */
    var uTime: real
    /** Last normalised pointer sample. */
    var mousePosition: Vec2
    /** Last sample that raised a ripple. */
    var prevMousePosition: Vec2
    /** Every ripple created so far, oldest first. */
    ghost var created: seq<Ripple>
    /** Frames rendered so far. */
    ghost var frames: nat

    ghost predicate Valid()
      reads this, uRipples
    {
      && uRipples.Length == MAX_RIPPLES
      && |ripples| <= MAX_RIPPLES
      && ripples == Window(created)
      && uRipples[..] == Snapshot(ripples)
      && uTime == Clock(frames)
      && Chronological(ripples, uTime)
    }

    /**
     * The state before `init` renders its first frame: no ripples, five
     * inert slots, clock at 0. The `animate` call that ends `init` is `Animate`.
     */
    constructor ()
      ensures Valid() && fresh(uRipples)
      ensures ripples == [] && created == []
      ensures uTime == 0.0 && frames == 0
      ensures mousePosition == Vec2(0.0, 0.0) && prevMousePosition == Vec2(0.0, 0.0)
    {
      var rippleUniforms := new Vec4[MAX_RIPPLES];
      for i := 0 to MAX_RIPPLES
        invariant forall k :: 0 <= k < i ==> rippleUniforms[k] == Inert
      {
        rippleUniforms[i] := Inert;
      }
      ripples := [];
      uRipples := rippleUniforms;
      uTime := 0.0;
      mousePosition := Vec2(0.0, 0.0);
      prevMousePosition := Vec2(0.0, 0.0);
      created := [];
      frames := 0;
    }

    /** Copy the ripple list into the uniform slots and reset the rest. */
    method UpdateRippleUniforms()
      requires uRipples.Length == MAX_RIPPLES && |ripples| <= MAX_RIPPLES
      modifies uRipples
      ensures uRipples[..] == Snapshot(ripples)
    {
      for i := 0 to |ripples|
        invariant forall k :: 0 <= k < i ==> uRipples[k] == ToSlot(ripples[k])
      {
        var ripple := ripples[i];
        uRipples[i] := Vec4(ripple.position.x, ripple.position.y, ripple.startTime, ripple.strength);
      }
      for i := |ripples| to MAX_RIPPLES
        invariant forall k :: 0 <= k < |ripples| ==> uRipples[k] == ToSlot(ripples[k])
        invariant forall k :: |ripples| <= k < i ==> uRipples[k] == Inert
      {
        uRipples[i] := Inert;
      }
    }

    /**
     * Append a ripple at (x, y) stamped with the current clock, evict the
     * oldest when over capacity, and refresh the uniform slots.
     */
    method CreateRipple(x: real, y: real)
      requires Valid()
      modifies this, uRipples
      ensures Valid()
      ensures uRipples == old(uRipples) && uTime == old(uTime) && frames == old(frames)
      ensures mousePosition == old(mousePosition) && prevMousePosition == old(prevMousePosition)
      ensures created == old(created) + [Ripple(Vec2(x, y), uTime, CREATED_STRENGTH)]
      ensures ripples == Pushed(old(ripples), Ripple(Vec2(x, y), uTime, CREATED_STRENGTH))
    {
      var ripple := Ripple(Vec2(x, y), uTime, CREATED_STRENGTH);
      ghost var before := ripples;
      PushedWindow(created, ripple);
      ChronologicalPushed(ripples, ripple, uTime);
      ripples := ripples + [ripple];
      created := created + [ripple];
      if |ripples| > MAX_RIPPLES {
        ripples := ripples[1..];
      }
      assert ripples == Pushed(before, ripple);
      UpdateRippleUniforms();
    }

    /**
     * The body both move handlers share: record the sample and, when it is
     * farther than the threshold from the last accepted one, raise one
     * ripple at the mirrored plane point and accept the sample.
     */
    method TrackPointer(sample: Vec2, project: (real, real) -> Vec2)
      requires Valid()
      modifies this, uRipples
      ensures Valid()
      ensures uRipples == old(uRipples) && uTime == old(uTime) && frames == old(frames)
      ensures mousePosition == sample
      ensures Moved(old(prevMousePosition), sample) ==>
        && ripples == Pushed(old(ripples), RippleAt(project, sample, uTime))
        && created == old(created) + [RippleAt(project, sample, uTime)]
        && prevMousePosition == sample
      ensures !Moved(old(prevMousePosition), sample) ==>
        && ripples == old(ripples) && created == old(created)
        && prevMousePosition == old(prevMousePosition)
        && uRipples[..] == old(uRipples[..])
    {
      mousePosition := sample;
      if Moved(prevMousePosition, mousePosition) {
        var planePos := project(mousePosition.x, mousePosition.y);
        assert Ripple(Vec2(planePos.x * -1.0, planePos.y * -1.0), uTime, CREATED_STRENGTH) == RippleAt(project, sample, uTime);
        CreateRipple(planePos.x * -1.0, planePos.y * -1.0);
        prevMousePosition := mousePosition;
      }
    }

    /** The `mousemove` handler. */
    method OnMouseMove(clientX: real, clientY: real, width: real, height: real, project: (real, real) -> Vec2)
      requires Valid()
      requires width > 0.0 && height > 0.0
      modifies this, uRipples
      ensures Valid()
      ensures uRipples == old(uRipples) && uTime == old(uTime) && frames == old(frames)
      ensures mousePosition == Normalize(clientX, clientY, width, height)
      ensures Moved(old(prevMousePosition), mousePosition) ==>
        && ripples == Pushed(old(ripples), RippleAt(project, mousePosition, uTime))
        && created == old(created) + [RippleAt(project, mousePosition, uTime)]
        && prevMousePosition == mousePosition
      ensures !Moved(old(prevMousePosition), mousePosition) ==>
        && ripples == old(ripples) && created == old(created)
        && prevMousePosition == old(prevMousePosition)
        && uRipples[..] == old(uRipples[..])
    {
      TrackPointer(Normalize(clientX, clientY, width, height), project);
    }

    /** The `touchmove` handler: only the first touch is consulted; no touch, no change. */
    method OnTouchMove(touches: seq<Touch>, width: real, height: real, project: (real, real) -> Vec2)
      requires Valid()
      requires width > 0.0 && height > 0.0
      modifies this, uRipples
      ensures Valid()
      ensures uRipples == old(uRipples) && uTime == old(uTime) && frames == old(frames)
      ensures |touches| == 0 ==>
        && ripples == old(ripples) && created == old(created)
        && mousePosition == old(mousePosition) && prevMousePosition == old(prevMousePosition)
        && uRipples[..] == old(uRipples[..])
      ensures |touches| > 0 ==>
        mousePosition == Normalize(touches[0].clientX, touches[0].clientY, width, height)
      ensures |touches| > 0 && Moved(old(prevMousePosition), mousePosition) ==>
        && ripples == Pushed(old(ripples), RippleAt(project, mousePosition, uTime))
        && created == old(created) + [RippleAt(project, mousePosition, uTime)]
        && prevMousePosition == mousePosition
      ensures |touches| > 0 && !Moved(old(prevMousePosition), mousePosition) ==>
        && ripples == old(ripples) && created == old(created)
        && prevMousePosition == old(prevMousePosition)
        && uRipples[..] == old(uRipples[..])
    {
      if |touches| > 0 {
        var touch := touches[0];
        TrackPointer(Normalize(touch.clientX, touch.clientY, width, height), project);
      }
    }

    /** One frame: the clock advances by exactly one step; nothing else changes. */
    method Animate()
      requires Valid()
      modifies this`uTime, this`frames
      ensures Valid()
      ensures uTime == old(uTime) + FRAME_STEP && uTime > old(uTime)
      ensures frames == old(frames) + 1
    {
      uTime := uTime + FRAME_STEP;
      frames := frames + 1;
    }
  }
}
