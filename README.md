# Ripple bookkeeping of the interactive water surface

A Dafny model of the ripple path in `src/main.ts` of the scrolling-mouse page. The page
renders a plane mesh whose vertices a vertex shader displaces with circular waves. Moving
the mouse, or a finger, raises a ripple where the pointer meets the plane. The modelled
core is the host-side state and the shader loop that consumes it:

- **Ripple store** (`createRipple`): a list of at most `MAX_RIPPLES` = 5 ripples, oldest
  first. A new ripple is pushed with the current `uTime` and strength 1.0. When the list
  then holds six, the oldest is shifted off.
- **Uniform snapshot** (`updateRippleUniforms`): the five-slot `uRipples` array of
  `vec4`s is overwritten in place. Slot `i` takes ripple `i` as
  `(x, y, startTime, strength)`. Every remaining slot becomes `(0, 0, 0, 0)`.
- **Movement gate** (the `mousemove` and `touchmove` handlers): a sample is normalised to
  [-1, 1]. A ripple is raised only when the sample is farther than 0.02 from the last
  accepted sample. The ripple is centred on the plane point with both axes negated. Only
  then does the accepted sample move.
- **Clock** (`animate`): `uTime` grows by exactly 0.1 per frame.
- **Shader slot loop**: each slot whose strength is positive adds
  `sin(d * frequency - elapsed * speed) * exp(-d * decay) * strength * amplitude` to the
  vertex's height. Other slots add nothing.

Modules, one file each:

- `RippleData` (`ripple_data.dfy`): points, ripples, `vec4` slots, and how a ripple is
  written to a slot and read back.
- `RippleStore` (`ripple_store.dfy`): the push-then-shift step as a function (`Pushed`),
  the last-five window of the creation history, and the slot layout (`Snapshot`) with its
  decoding.
- `WaveField` (`wave_field.dfy`): the shader loop as a method on one vertex, specified by
  the superposition function `Field`.
- `PointerGate` (`pointer_gate.dfy`): pixel normalisation and the threshold test.
- `WaterScene` (`water_scene.dfy`): the class `Simulation` holding the page's mutable
  state. Its fields are `ripples`, the `uRipples` array, `uTime`, `mousePosition` and
  `prevMousePosition`. Its methods are the handlers and the frame step. Its invariant
  `Valid()` states four facts. The array always equals `Snapshot(ripples)`. The list is
  the last five ripples ever created. The clock equals the frame count times 0.1. Every
  live ripple has strength 1.0 and start times in order, none after the clock.

Inputs the model takes as parameters:

- The screen-to-plane mapping `getPlanePositionFromScreen` reads the camera. Each handler
  receives it as the function `project`.
- `sqrt` (inside GLSL `distance`), `sin` and `exp` are fields of a `GlslMath` value.
- The wave uniforms (`WaveUniforms`) are a parameter of the vertex method.
- The viewport size is a parameter of both handlers.

Two points of the source that the model keeps as written:

- `getPlanePositionFromScreen` (src/main.ts:226-233) divides by `dir.z` with no guard for a
  ray parallel to the plane. So `project` is total and no move event is skipped for that
  reason.
- `createRipple` pushes the new ripple first and then shifts the oldest off
  (src/main.ts:273-281). For a list of at most 5 this gives the same list as evicting first
  and then appending: `Pushed` states `rs[1..] + [x]` at capacity and `rs + [x]` below it.

## Model

| member | source | states |
|---|---|---|
| `RippleData.ToSlot` | src/main.ts:289-292 | The slot written for a ripple is active exactly when the ripple's strength is positive. The shader's reading of the slot (`xy`, `z`, `w`, lines 124-126) gives the ripple back. |
| `RippleStore.Pushed` | src/main.ts:272-281 | After push and shift the new ripple is last. A list of at most 5 stays at most 5. Below capacity it grows by exactly that ripple. At capacity exactly the oldest entry goes and the rest keep their order. |
| `RippleStore.PushedWindow` | src/main.ts:272-281 | Pushing onto the last five of a creation history gives the last five of the extended history, so the list is always the five most recent ripples, oldest first. |
| `RippleStore.PushAllWindow` | src/main.ts:272-281 | Any run of insertions into the last five of a history gives the last five of the history extended by that run. |
| `RippleStore.SixInsertionsEvictFirst` | src/main.ts:279-281 | Six insertions into an empty list leave the 2nd to 6th in order, so the oldest survivor is the 2nd one inserted. |
| `RippleStore.WindowIsSuffix` | src/main.ts:279-281 | Unfolds the definition of `Window` (the last five of a history): the list holds `min(n, 5)` of `n` created ripples, and they are exactly the newest ones in creation order. |
| `RippleStore.Snapshot` | src/main.ts:286-297 | Built from `Encode` (one slot per ripple, line 291) and `Padding` (inert slots, line 295). The uniform array has exactly 5 slots. Slot `i < len` is `(pos.x, pos.y, startTime, strength)` of ripple `i`. Every later slot is `(0, 0, 0, 0)` and inert. |
| `RippleStore.SnapshotActiveSlots` | src/main.ts:123-128 | For ripples of positive strength, the slots the shader acts on are exactly the ripples' own slots, in list order. No placeholder is ever active. |
| `RippleStore.SnapshotRoundTrip` | src/main.ts:286-297 | Reading the active slots of the uniform array back as ripples gives the ripple list itself: the layout loses and reorders nothing. |
| `RippleStore.SingleInsertionSnapshot` | src/main.ts:272-297 | One insertion of `(x, y)` at clock `t` into an empty list yields the slots `(x, y, t, 1)` followed by four `(0, 0, 0, 0)`. |
| `WaveField.Contribution` | src/main.ts:128-144 | A slot whose strength is not positive adds nothing to `pos.z`, whatever its other components hold. |
| `WaveField.DisplaceVertex` | src/main.ts:120-145 | The shader loop over the 5 slots leaves x and y alone. It raises z by the superposition `Field` of all slots' contributions. Each active slot contributes `Wave` (the formula of lines 129-140) times the amplitude. |
| `WaveField.FieldAppend` | src/main.ts:123-145 | Superposition is additive: the field of two runs of slots is the sum of their fields. |
| `WaveField.FieldSkipsInert` | src/main.ts:128-144 | The displacement summed over all slots equals the sum over the active slots only. |
| `WaveField.SnapshotField` | src/main.ts:123-145 | Over the uniform array built from the list, the displacement is that of the live ripples alone. The padding does not move the surface. |
| `WaveField.CentreAtStartIsFlat` | src/main.ts:129-140 | At a ripple's own centre and start time its contribution is 0, for every frequency, decay, speed and amplitude, given `sqrt(0) = 0` and `sin(0) = 0`. |
| `PointerGate.Normalize` | src/main.ts:236-237 | A pixel inside the viewport maps into [-1, 1] on both axes, with y pointing up. The pixel position is recoverable from the normalised one. |
| `PointerGate.GateIsDistanceThreshold` | src/main.ts:239-240 | Let `d` be the Euclidean distance between the previous and the new sample. The gate `Moved`, the `distanceTo(...) > 0.02` test of lines 240 and 254 written on squared distances, opens exactly when `d > 0.02`. |
| `PointerGate.StillPointerIsGated` | src/main.ts:240 | A sample equal to the last accepted one never raises a ripple. |
| `WaterScene.Clock` | src/main.ts:95 | The clock read after any number of frames is never negative. |
| `WaterScene.ClockClosedForm` | src/main.ts:307 | After `n` frames the clock reads exactly `n * 0.1`: it is never reset. |
| `WaterScene.ClockIncreasing` | src/main.ts:307 | The clock is strictly increasing across frames. |
| `WaterScene.ChronologicalPushed` | src/main.ts:272-281 | A ripple stamped with the current clock at strength 1.0, pushed onto a list whose start times are in order and none after the clock, keeps the list so, including when the oldest entry is shifted off. |
| `WaterScene.Simulation.constructor` | src/main.ts:191-195 | State before `init`'s first frame (line 269 then calls `animate`, modelled by `Animate`): no ripples, five `(0, 0, 0, 0)` slots, clock 0, pointer positions at the origin. The invariant holds. |
| `WaterScene.Simulation.UpdateRippleUniforms` | src/main.ts:286-297 | The two index loops leave the array equal to `Snapshot(ripples)`. |
| `WaterScene.Simulation.CreateRipple` | src/main.ts:272-284 | The list becomes `Pushed(old list, (x, y, uTime, 1.0))`, and the history grows by that ripple. The uniform array is refreshed in place and the invariant is kept. Clock and pointer state are unchanged. |
| `WaterScene.Simulation.TrackPointer` | src/main.ts:239-244 | The gate rule. Beyond 0.02, exactly one ripple is created: `RippleAt`, centred on the plane point with both axes negated (lines 241-242), stamped with the clock and strength 1.0, and the sample becomes the previous position. Otherwise neither the list, the slots nor the previous position changes. |
| `WaterScene.Simulation.OnMouseMove` | src/main.ts:235-245 | The normalised sample becomes `mousePosition`, and the gate rule applies to it. |
| `WaterScene.Simulation.OnTouchMove` | src/main.ts:247-260 | With no touches nothing changes. Otherwise only `touches[0]` is normalised, and the gate rule applies to it. |
| `WaterScene.Simulation.Animate` | src/main.ts:299-309 | One frame advances `uTime` by exactly 0.1 and changes nothing else. The invariant (live ripples never start after the clock) is kept. |

## Left out

- Scene, camera, lights, renderer and the missing-canvas error (src/main.ts:25-45): rendering setup outside the ripple path.
- Model loading and the boat tween (src/main.ts:47-84): asynchronous asset I/O and a foreign animation library.
- Texture loading, the fragment shader and the colour variation derived from `pos.z` (src/main.ts:86-89, 147-153, 159-184): floating-point shading with no contract of its own.
- Audio and the tuning panel (src/main.ts:197-223): foreign libraries. The panel only writes the wave parameters, which the model takes as the `WaveUniforms` argument.
- `requestAnimationFrame`, `renderer.render`, the resize handler, and the per-frame copy of the panel values into the wave uniforms (src/main.ts:262-267, 300-305, 308): event-loop and rendering glue. The copy is plain assignment.
- The body of `getPlanePositionFromScreen` (src/main.ts:226-233): camera unprojection through three.js matrices, replaced by the `project` parameter.
- The values of `sqrt`, `sin` and `exp`: supplied abstractly. Only `CentreAtStartIsFlat` assumes `sqrt(0) = 0` and `sin(0) = 0`.
- The projection of the displaced vertex to clip space (src/main.ts:156): a matrix product outside the ripple path.
- Floating point: coordinates and times are exact reals. The drift of repeated `+= 0.1` in doubles, `-0` from `* -1`, and `NaN`/`Infinity` are not modelled.
- `WaterScene.Simulation.OnMouseMove`: requires a positive viewport width and height. A zero-sized window would make the source divide by zero, and that is not modelled.
- `WaterScene.Simulation.OnTouchMove`: requires a positive viewport width and height, for the same reason.
- `PointerGate.Normalize`: requires a positive viewport width and height, for the same reason.
- The `Vector4` objects of the uniform array are modelled as values in an array. In the source they are five distinct objects updated with `set`, never aliased, so overwriting a slot's value is equivalent.
- The shader runs on the GPU once per vertex. The model states one vertex's loop (`DisplaceVertex`).
