# AR measuring box: the placement controller

`script.js` is a browser page that opens a WebXR augmented-reality session,
looks for a floor with the device's hit test, shows a ring-shaped reticle where
the view ray meets the floor, and places a semi-transparent box there when the
user taps. Three sliders set the box's width, height and depth in centimetres,
and an info label echoes them. This project models the script's controller:
the handlers `onSelect`, `onARSessionStart`, `onARSessionEnd` and
`updateBoxSize`, the hit-test branch of `render`, and the state `init` and
`createBox` set up.

The module-level variables and mesh properties these handlers assign are
fields of the class `ArSession.PlacementController`:
- `isPlaced`, `hitTestSourceRequested`, and whether `hitTestSource` is set;
- the reticle's visibility and matrix;
- the box's position, scale and membership in the scene;
- whether the overlay is displayed, and the info label's text.

Each handler is a method. Its postcondition says the new state is one step
function of module `Placement` applied to the old state. The step functions
carry the handlers' properties in their own contracts. The lemmas beside them
are about whole event sequences: the invariant every reachable state keeps, at
most one hit-test request and at most one placement per session, and taps
without a reticle changing nothing.

Files:
- `wrappers.dfy`: `Option`, for a DOM element or slider that may be missing and for a frame that may be absent.
- `geometry.dfy`: `Vec3` and `Pose`. A pose is a 4x4 column-major matrix of reals. `Position` takes its translation column, as three.js `setFromMatrixPosition` does.
- `sizing.dfy`: the slider-to-scale conversion, the decimal text of a slider value with its parser, and the info label.
- `placement.dfy`: the controller state as a value, one step function per handler, event runs, and the lemmas.
- `controller.dfy`: the class with mutable fields and one method per handler, plus two client methods that run session scenarios: `PlaceAndEndScenario` (a hit, a tap, then session end) and `NoSurfaceScenario` (frames with no hit, then a tap that places nothing).

Abstractions:
- The hit-test results of a frame are a `seq<Option<Pose>>`. Each entry is the hit's pose in the renderer's reference space (script.js:182, 203), or `None` where `getPose` returns null. The viewer space only sets where the hit-test ray starts (script.js:186-187).
- The asynchronous request for a hit-test source (`requestReferenceSpace`, then `requestHitTestSource`) is split into two parts. Issuing the request increments the field `inFlight`. Its completion is the separate event `OnHitTestSourceResolved`. Ending the session rejects every request still pending, so session end leaves none in flight.
- Whether the overlay, the info element and the three sliders exist on the page is passed to the handlers as a parameter.
- A slider value is an integer number of centimetres. The label shows its decimal text. The scale is that value times 0.01, computed exactly.

Behaviour the script has and the model keeps:
- Every tap while the reticle is visible moves the box, including after it is placed.
- The overlay is shown when the session starts, not when the box is placed.
- The reticle keeps following hits while the box is placed.
- Session end leaves the reticle's visibility and pose as they were.
- When the first hit has no pose, the script has already made the reticle visible, and then reading the null pose throws. The reticle stays visible at its old pose.

A session start does not reset the controller. It only shows the overlay.

## Model

| member | source | states |
|---|---|---|
| `Placement.Initial` | script.js:94-111 | The start-up state satisfies the invariant. Nothing is placed or requested, no source is stored, the reticle is hidden, the box is out of the scene, its scale is what 30 cm sliders give (0.3), and no label has been written. |
| `ArSession.PlacementController.constructor` | script.js:68-76 | The fields start as `Placement.Initial`: the box is built unplaced with scale 0.3, and the reticle is hidden with an identity matrix. |
| `Sizing.Scale` | script.js:142 | Each scale component times 100 equals the slider value in centimetres. |
| `Sizing.InitialScaleIsThirtyCentimetres` | script.js:110 | The initial scale of 0.3 per axis is the scale of a 30 x 30 x 30 cm box. |
| `Sizing.Digits` | script.js:135-137 | A slider value's text is a non-empty string of decimal digits with no leading zero. |
| `Sizing.DigitsRoundTrip` | script.js:135-137 | Reading a number's digits back gives the number. |
| `Sizing.DecimalRoundTrip` | script.js:135-140 | Parsing the label text of any slider value gives that value back. The text contains no space. |
| `Sizing.Label` | script.js:140 | The info text starts with the prefix "サイズ: " and ends with " cm". |
| `Sizing.LabelInjective` | script.js:140 | Two labels are equal only when all three slider values are equal. |
| `Sizing.LabelAndScaleExample` | script.js:139-142 | Sliders at 25, 30 and 15 give the label "サイズ: 25 x 30 x 15 cm" and the scale (0.25, 0.30, 0.15). |
| `Placement.SelectStep` | script.js:113-123 | With the reticle hidden, a tap changes nothing. With it visible, a tap moves the box to the reticle's position whether or not the box was placed, and leaves the box placed. The box enters the scene only when it was not yet placed. The invariant is kept, and scale, reticle, overlay, label and source state are untouched. |
| `Placement.SessionStartStep` | script.js:151-161 | The overlay is shown afterwards exactly when the overlay element exists or it was already shown. Nothing else changes. |
| `Placement.SessionEndStep` | script.js:163-174 | From any state: not placed, box out of the scene, no source requested or stored. No request is left in flight, because shutting the session down rejects them. The overlay is hidden when the element exists. The invariant holds afterwards. Reticle visibility and pose, box position and scale, and the label are unchanged. |
| `Placement.RenderStep` | script.js:180-208 | With no frame, nothing changes. A frame leaves the source marked requested, and it adds one request in flight exactly when none had been requested. With a stored source the reticle is visible iff there are hits. Its pose becomes the first hit's pose. It stays as it was when there are no hits, or when the first hit has no pose. Without a source the reticle is left alone. Placement, box, overlay and label are untouched, and the invariant is kept. |
| `Placement.SourceResolvedStep` | script.js:186-190 | A request in flight settles: a source is then stored and one fewer request is in flight. Nothing else changes, and the invariant is kept. |
| `Placement.UpdateBoxSizeStep` | script.js:125-143 | With a slider missing, nothing changes. Otherwise the scale is the slider values in metres, whatever the placement state. The label becomes the formatted text when the info element exists and is not written otherwise. Only scale and label change, and the invariant is kept. |
| `Placement.UpdateBoxSizeIdempotent` | script.js:125-143 | Applying the same slider values twice gives the same state as applying them once. |
| `Placement.RunKeepsInv` | script.js:113-196 | From a state where "placed iff the box is in the scene" and "requested implies stored or in flight" hold, every sequence of events keeps both. |
| `Placement.ReachableStatesKeepInv` | script.js:94-196 | Every state reachable from start-up satisfies the invariant. |
| `Placement.AtMostOneRequestPerSession` | script.js:185-196 | In a run with no session end, at most one hit-test source request is issued, and none once one is outstanding. Once requested, the flag stays set. |
| `Placement.AtMostOnePlacementPerSession` | script.js:113-123 | In a run with no session end, the box is added to the scene at most once, and never when it is already placed. Once placed, it stays placed. |
| `Placement.TapsWithoutReticleChangeNothing` | script.js:113-114 | Any number of taps while the reticle is hidden leave the whole state as it was. |
| `Placement.PlaceThenEnd` | script.js:113-208 | With a stored source, a frame whose first hit is T followed by a tap places the box at T's position, in the scene. A session end then removes it from the scene and keeps its position. |
| `Placement.NoSourceWithoutRequest` | script.js:185-198 | With no source stored and no request in flight, events that include no frame leave it that way. |
| `Placement.NoSourceAfterSessionEnd` | script.js:163-196 | After a session end no source is stored and no request is in flight until a frame issues a new request. |
| `ArSession.PlacementController.OnSelect` | script.js:113-123 | New state = `SelectStep` of the old. With the reticle hidden, no field changes. With it visible, the box is placed, in the scene, at the reticle's position. |
| `ArSession.PlacementController.OnSessionStart` | script.js:151-161 | New state = `SessionStartStep` of the old. |
| `ArSession.PlacementController.OnSessionEnd` | script.js:163-174 | New state = `SessionEndStep` of the old. Flags, scene membership and requests in flight are reset. Reticle visibility, box position and scale are kept. |
| `ArSession.PlacementController.Render` | script.js:180-208 | New state = `RenderStep` of the old, including a first hit with no pose. Without a frame, no field changes. |
| `ArSession.PlacementController.OnHitTestSourceResolved` | script.js:186-190 | New state = `SourceResolvedStep` of the old: the source is stored and one request fewer is in flight. |
| `ArSession.PlacementController.UpdateBoxSize` | script.js:125-143 | New state = `UpdateBoxSizeStep` of the old. With a slider missing, no field changes. Otherwise the scale is `Scale` of the slider values. |

## Left out

- Scene, camera, light, renderer, geometry, material and edge-line construction (script.js:18-51, 94-108): three.js object setup with no controller logic. The box is assumed to exist from construction, so the `if(!boxMesh) return` guard of `updateBoxSize` never fires.
- `ARButton` creation and the session feature configuration (script.js:55-62): a call into a library.
- DOM styling, `pointerEvents`, `console.log` and the `addEventListener` wiring: page plumbing. The handlers are methods called directly.
- The overlay's first display comes from the page's markup and stylesheet, which are not part of this model. It is a constructor parameter.
- `onWindowResize` (script.js:145-149): a floating-point aspect ratio and a renderer call.
- `renderer.render`, `setAnimationLoop` and the reference-space lookup: rendering, with no controller state.
- A request rejected while its session is still running: the script has no handler for it. In the model such a request stays in flight until the session ends and never stores a source, which has the same effect.
- The exception thrown when the first hit's pose is null: the model keeps its effect on the controller's fields. It does not capture what the throw does beyond those fields: the frame is not drawn, and the animation loop may stop. The model still allows later frames.
- The session's own `end` listener that `render` registers (script.js:191-194) makes the same resets as `onARSessionEnd`. It is folded into `OnSessionEnd`.
- Matrix arithmetic (`fromArray`, `setFromMatrixPosition`): a pose is the sixteen matrix entries, and only its translation column is read.
- IEEE floating point in `* 0.01`: the scale is exact real arithmetic.
- Slider values that are not integers: a range input with a fractional step would write a fractional value. The model takes integer values.
