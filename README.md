# Ethereal: verified model of the per-frame ribbon and lantern logic

Ethereal draws a glowing ribbon (the "fish") that trails an animated leader point, plus a field of
400 lanterns that float upwards, all composited with a bloom pass. This project models the frame
logic of `src/script.js` in Dafny, with exact `real` arithmetic, and proves what that logic promises.

- **Path history** (`Ribbon`). The curve's control points form a window of `CurvePoints` = 100 points,
  oldest first. It is seeded as the straight line (0, 0, 0.5·i). Every frame, `shift()` drops the
  oldest point and `push()` appends the fish head. `RibbonPath` is the in-place class, and `Advance`
  and `AdvanceAll` are its value-level specification. Over any sequence of heads, the history is the
  sliding window `(seed + heads)[|heads|..]`. After 100 frames no seed point is left.
  `SetPositions` models the `TypedArray.set` that copies the regenerated tube positions into the
  existing buffer. A source list longer than the buffer raises a RangeError and leaves the buffer unchanged.
- **Gradient colouring** (`Gradient`). Vertex `i` of `count` gets `t = i / count`, with 0 ≤ t < 1,
  t = 0 only at vertex 0, and t strictly increasing. Each channel is `lerpColors`' `a + (b − a)·t`.
  `ComputeColors` is the loop that appends three channels per vertex. It yields `3·count` entries,
  and entries 3i..3i+2 hold vertex i's colour. Every colour lies between the head and tail colours,
  and colours move monotonically towards the tail.
- **Leader** (`Leader`). The fish head is `(10·cos(0.5e), 5·sin(0.7e), 10·sin(0.4e))`. The trigonometric
  values are inputs, so only their range [−1, 1] is used. That range gives the head's bounding box.
- **Lanterns** (`Lanterns`). Each slot starts at `(Math.random() − 0.5)·spread`, which places x and z in
  [−25, 25) and y in [−15, 15). Each frame a slot rises by `delta·(0.5 + r·0.5)`, and a slot that goes
  above 15 is reset to −15. x and z never change. With `delta ≥ 0` a lantern stays in [−15, 15]
  for any number of frames.
- **Frame** (`Frame`). `Scene.Animate` is one run of `animate()`, in the source's order: head, path
  update, buffer copy, then the lantern step.

A fixed speed per lantern, drawn once at start-up, would be the natural reading of the effect. The
code instead draws a fresh `Math.random()` for every slot on every frame (`src/script.js:109`), and
the model follows the code: `Float` and `LanternField.Step` take one draw per slot per frame.

## Model

| member | source | states |
|---|---|---|
| `Ribbon.SeedPath` | src/script.js:26-30 | the seed has exactly 100 points; point i is (0, 0, 0.5·i), starting at the origin, each 0.5 further along z than the last |
| `Ribbon.Shift` | src/script.js:96 | `shift()` drops exactly the oldest point and keeps the rest in order; an empty list stays empty |
| `Ribbon.Advance` | src/script.js:95-97 | one frame keeps the history length, slides every survivor down one place (new[j] = old[j+1]) and puts the head last |
| `Ribbon.AdvanceAllWindow` | src/script.js:95-97 | after any number of frames the history is the sliding window `(start + heads)[|heads|..]` |
| `Ribbon.SeedWindow` | src/script.js:26-30 | from the seed, the history stays exactly 100 long, always ends with the latest head, and after 100 or more frames holds exactly the last 100 heads |
| `Ribbon.RibbonPath.constructor` | src/script.js:27-30 | the curve's point list starts as the seed line |
| `Ribbon.RibbonPath.Update` | src/script.js:95-97 | the in-place shift/push turns the point list into `Advance(old, head)` and keeps length 100 |
| `Ribbon.SetPositions` | src/script.js:101-102 | the copy into the ribbon buffer succeeds exactly when the new positions fit; it then overwrites the front of the buffer with them and leaves the rest; otherwise nothing changes |
| `Gradient.Param` | src/script.js:41-42 | t = i / count lies in [0, 1) and is 0 exactly at vertex 0 |
| `Gradient.ParamIncreasing` | src/script.js:40-42 | t is strictly increasing in the vertex index |
| `Gradient.LerpBetween` | src/script.js:44 | a channel blended with 0 ≤ t ≤ 1 lies between its head and tail values, and equals them at t = 0 and t = 1 |
| `Gradient.LerpMonotone` | src/script.js:44 | a larger t moves a channel further from the head value towards the tail value |
| `Gradient.VertexColor` | src/script.js:42-44 | every vertex colour lies channel-wise between the head and tail colours; vertex 0 gets exactly the head colour |
| `Gradient.VertexColorMonotone` | src/script.js:40-44 | a later vertex's colour lies between an earlier vertex's colour and the tail colour, channel by channel |
| `Gradient.GradientPrefix` | src/script.js:40-45 | after n vertices the colour list has exactly 3·n entries |
| `Gradient.GradientPrefixAt` | src/script.js:40-45 | entries 3i..3i+2 of the colour list are the r, g, b channels of vertex i's blended colour |
| `Gradient.ComputeColors` | src/script.js:35-46 | the colour loop yields 3·count entries; vertex i owns entries 3i..3i+2, which hold its blended colour; the first three are the head colour |
| `Leader.FishHead` | src/script.js:90-92 | with cos/sin values in [−1, 1] the head stays within |x| ≤ 10, |y| ≤ 5, |z| ≤ 10; for cos = 1 and both sines 0 it is (10, 0, 0) |
| `Lanterns.Scatter` | src/script.js:69-73 | `(Math.random() − 0.5)·spread` lies in [−spread/2, spread/2) |
| `Lanterns.StartPosition` | src/script.js:68-73 | a lantern starts with x and z in [−25, 25) and y in [−15, 15) |
| `Lanterns.Speed` | src/script.js:109 | the rising speed 0.5 + r·0.5 lies in [0.5, 1.0) |
| `Lanterns.Float` | src/script.js:109-112 | one frame never leaves y above 15; y is reset to exactly −15 when y + delta·speed exceeds 15 and otherwise rises by delta·speed, which is between delta/2 and delta; x and z are unchanged |
| `Lanterns.FloatAll` | src/script.js:106-115 | over any number of frames a lantern's x and z never change |
| `Lanterns.FloatAllInBand` | src/script.js:106-115 | with non-negative time steps a lantern that starts in [−15, 15] stays there for any number of frames |
| `Lanterns.LanternField.constructor` | src/script.js:67-76 | slot i is placed from its own three draws, in x, y, z order, and every lantern starts inside the start box |
| `Lanterns.LanternField.Step` | src/script.js:106-116 | the loop visits all 400 slots; slot i's new position is `Float` of its own old position and draw; x and z stay unchanged; with delta ≥ 0 every lantern stays in the band |
| `Frame.Scene.constructor` | src/script.js:26-76 | set-up gives the seed path, a buffer holding the first tube's positions, the gradient over its vertices, and 400 lanterns with slot i placed from its own three draws, x and z in [−25, 25) and y in [−15, 15) |
| `Frame.Scene.Animate` | src/script.js:84-121 | one frame advances the path by the fish head and copies the new positions into the same buffer; when the copy throws the buffer and the lanterns are left unchanged; otherwise every lantern is floated and the band is kept; the colours never change |

## Left out

- Rendering: the WebGL renderer, the bloom composer, orbit controls, the `needsUpdate` upload flags and
  the resize handler (`src/script.js:8-23, 79-80, 103, 116, 119-130`). These are GPU and window I/O.
- Frame pacing: `requestAnimationFrame` and `THREE.Clock` (`src/script.js:81, 85-87`). The elapsed time
  and the frame's `delta` are inputs. `getElapsedTime` already advances the clock, so the following
  `getDelta` is close to zero. This is one more reason to take `delta` as an input.
- Catmull-Rom fitting and `TubeGeometry` generation (`src/script.js:27, 32, 98, 101`). This is library code
  whose algorithm is not part of this model. The generated position list is an input to
  `Scene.constructor` and `Scene.Animate`. The model does not derive its length from
  (100, 0.2, 8), so `Animate` reports the RangeError case instead of ruling it out.
- `Math.cos` and `Math.sin` (`src/script.js:90-92`). Their values are inputs, and `FishHead` uses only
  their range.
- `Math.random` (`src/script.js:70-72, 109`). Each draw is an input constrained to [0, 1), and the draws
  are passed in call order.
- The lantern matrices (`src/script.js:74-75, 107-108, 113-114`). Instance matrices are decomposed into
  positions by library code, so the model stores the positions directly.
- IEEE-754 doubles and the `Float32BufferAttribute` conversion (`src/script.js:48`). All arithmetic is
  exact over the reals.
- The hex colour constants and their sRGB-to-linear conversion (`src/script.js:37-38`). The head and tail
  colours are parameters.
- Frame.Scene.constructor: the vertex count is taken as `|positions| / 3`. This assumes, as `TubeGeometry`
  guarantees, that the position list holds whole vertices. The model does not check that.
- Calling the colour computation twice with the same arguments yields the same list. This follows from
  `ComputeColors`' contract, which fixes every entry from the count and the two colours, so no separate
  lemma states it.
