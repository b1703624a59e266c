/**
 * The vertex shader's ripple loop: every one of the MAX_RIPPLES slots whose
 * strength is positive adds one circular wave to the vertex's height.
 *
 * The transcendental functions are kept abstract: `sqrt` (inside GLSL's
 * `distance`), `sin` and `exp` are supplied as a `GlslMath` value, so the
 * model fixes the formula's structure but not its floating-point values.
 */
module WaveField {
  import opened RippleData
  import RippleStore

  /** The built-in GLSL functions the wave formula uses. */
  datatype GlslMath = GlslMath(sqrt: real -> real, sin: real -> real, exp: real -> real)

  /** The wave uniforms copied from the tuning panel every frame. */
  datatype WaveUniforms = WaveUniforms(
    rippleSpeed: real,
    rippleDecay: real,
    waveAmplitude: real,
    waveFrequency: real)

  /** GLSL `distance` between a vertex and a ripple centre. */
  function Distance(m: GlslMath, vertex: Vec2, centre: Vec2): real {
    m.sqrt(SquaredDistance(vertex, centre))
  }

  /** The phase of the wave at `distance` from the centre, `timeSinceRipple` after its start. */
  function Phase(u: WaveUniforms, distance: real, timeSinceRipple: real): real {
    var rippleProgress := timeSinceRipple * u.rippleSpeed;
    distance * u.waveFrequency - rippleProgress
  }

  /**
   * The circular wave one active slot raises at `vertex` at clock `uTime`:
   * sin(phase) * exp(-distance * decay) * strength.
   */
  function Wave(m: GlslMath, u: WaveUniforms, uTime: real, vertex: Vec2, slot: Vec4): real {
    var timeSinceRipple := uTime - slot.z;
    var distance := Distance(m, vertex, Vec2(slot.x, slot.y));
    m.sin(Phase(u, distance, timeSinceRipple)) * m.exp(-distance * u.rippleDecay) * slot.w
  }

  /**
   * What one slot adds to `pos.z` at `vertex`: an inert slot adds nothing,
   * whatever its other components hold; an active one its amplified wave.
   */
  function Contribution(m: GlslMath, u: WaveUniforms, uTime: real, vertex: Vec2, slot: Vec4): (dz: real)
    ensures !IsActive(slot) ==> dz == 0.0
  {
    if slot.w > 0.0 then Wave(m, u, uTime, vertex, slot) * u.waveAmplitude else 0.0
  }

  /** Superposition: the total height offset the slots add at `vertex`. */
  function Field(m: GlslMath, u: WaveUniforms, uTime: real, vertex: Vec2, slots: seq<Vec4>): real {
    if slots == [] then 0.0
    else Field(m, u, uTime, vertex, slots[..|slots| - 1]) + Contribution(m, u, uTime, vertex, slots[|slots| - 1])
  }

  /**
   * The shader's loop over the uniform array: the vertex keeps its x and y
   * and its height grows by the superposed waves of all slots.
   */
  method DisplaceVertex(m: GlslMath, u: WaveUniforms, uTime: real, uRipples: seq<Vec4>, position: Vec3)
    returns (pos: Vec3)
    requires |uRipples| == MAX_RIPPLES
    ensures pos.x == position.x && pos.y == position.y
    ensures pos.z == position.z + Field(m, u, uTime, Vec2(position.x, position.y), uRipples)
  {
    pos := position;
    for i := 0 to MAX_RIPPLES
      invariant pos.x == position.x && pos.y == position.y
      invariant pos.z == position.z + Field(m, u, uTime, Vec2(pos.x, pos.y), uRipples[..i])
    {
      ghost var before := pos.z;
      var rippleStrength := uRipples[i].w;
      if rippleStrength > 0.0 {
        var wave := Wave(m, u, uTime, Vec2(pos.x, pos.y), uRipples[i]);
        pos := pos.(z := pos.z + wave * u.waveAmplitude);
      }
      FieldStep(m, u, uTime, Vec2(pos.x, pos.y), uRipples, i, before, pos.z);
    }
    assert uRipples[..MAX_RIPPLES] == uRipples;
  }

  /**
   * One pass of the shader loop: adding slot `i`'s wave when it is active,
   * and nothing otherwise, extends the field to one more slot.
   */
  lemma FieldStep(m: GlslMath, u: WaveUniforms, uTime: real, vertex: Vec2, slots: seq<Vec4>, i: nat, before: real, after: real)
    requires i < |slots|
    requires after == if slots[i].w > 0.0 then before + Wave(m, u, uTime, vertex, slots[i]) * u.waveAmplitude else before
    ensures after - Field(m, u, uTime, vertex, slots[..i + 1]) == before - Field(m, u, uTime, vertex, slots[..i])
  {
    FieldSnoc(m, u, uTime, vertex, slots, i);
    if slots[i].w > 0.0 {
      assert Contribution(m, u, uTime, vertex, slots[i]) == Wave(m, u, uTime, vertex, slots[i]) * u.waveAmplitude;
    }
  }

  /** The field of the first `i + 1` slots is that of the first `i` plus slot `i`'s contribution. */
  lemma FieldSnoc(m: GlslMath, u: WaveUniforms, uTime: real, vertex: Vec2, slots: seq<Vec4>, i: nat)
    requires i < |slots|
    ensures Field(m, u, uTime, vertex, slots[..i + 1])
         == Field(m, u, uTime, vertex, slots[..i]) + Contribution(m, u, uTime, vertex, slots[i])
  {
    var prefix := slots[..i + 1];
    assert prefix[..i] == slots[..i] && prefix[i] == slots[i];
  }

  /** Overlapping ripples simply sum: the field of two slot runs is the sum of their fields. */
  lemma {:induction false} FieldAppend(m: GlslMath, u: WaveUniforms, uTime: real, vertex: Vec2, a: seq<Vec4>, b: seq<Vec4>)
    ensures Field(m, u, uTime, vertex, a + b) == Field(m, u, uTime, vertex, a) + Field(m, u, uTime, vertex, b)
    decreases |b|
  {
    if b == [] {
      assert a + b == a;
    } else {
      var b' := b[..|b| - 1];
      assert (a + b)[..|a + b| - 1] == a + b';
      FieldAppend(m, u, uTime, vertex, a, b');
    }
  }

  /**
   * Slots whose strength is not positive add nothing: the sum over all
   * slots equals the sum over the active slots only.
   */
  lemma {:induction false} FieldSkipsInert(m: GlslMath, u: WaveUniforms, uTime: real, vertex: Vec2, slots: seq<Vec4>)
    ensures Field(m, u, uTime, vertex, slots) == Field(m, u, uTime, vertex, RippleStore.ActiveSlots(slots))
  {
    if slots != [] {
      var init := slots[..|slots| - 1];
      var last := slots[|slots| - 1];
      FieldSkipsInert(m, u, uTime, vertex, init);
      var tail := if IsActive(last) then [last] else [];
      FieldAppend(m, u, uTime, vertex, RippleStore.ActiveSlots(init), tail);
      if IsActive(last) {
        assert tail[..0] == [];
      }
    }
  }

  /**
   * The inert padding of a snapshot does not move the surface: the height
   * offset is that of the live ripples' slots alone.
   */
  lemma {:induction false} SnapshotField(m: GlslMath, u: WaveUniforms, uTime: real, vertex: Vec2, rs: seq<Ripple>)
    requires |rs| <= MAX_RIPPLES
    requires forall i :: 0 <= i < |rs| ==> rs[i].strength > 0.0
    ensures Field(m, u, uTime, vertex, RippleStore.Snapshot(rs)) == Field(m, u, uTime, vertex, RippleStore.Encode(rs))
  {
    FieldSkipsInert(m, u, uTime, vertex, RippleStore.Snapshot(rs));
    RippleStore.SnapshotActiveSlots(rs);
  }

  /**
   * A vertex exactly at a ripple's centre, at the ripple's own start time,
   * is not displaced by it, whatever the frequency, decay, speed or
   * amplitude: sin(0 * frequency - 0 * speed) = sin(0) = 0.
   */
  lemma CentreAtStartIsFlat(m: GlslMath, u: WaveUniforms, slot: Vec4)
    requires m.sqrt(0.0) == 0.0 && m.sin(0.0) == 0.0
    ensures Contribution(m, u, slot.z, Vec2(slot.x, slot.y), slot) == 0.0
  {
    SquaredDistanceToSelf(Vec2(slot.x, slot.y));
    assert Phase(u, 0.0, 0.0) == 0.0;
  }
}
