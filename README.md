# Hand-gesture control core of the Point-Cloud viewer, modelled in Dafny

The Point-Cloud viewer lets a user turn and zoom a 3D point cloud with bare-hand gestures
seen by a webcam. This project models the deterministic logic between the hand tracker and
the renderer, and proves what it promises:

- **Gesture classifier** (`detect_gesture.dfy`, module `DetectGesture`). A pure decision
  over six of the 21 hand landmarks: PINCH first, then FIST, then OPEN, else NONE. It uses
  planar (x, y) distances against fixed thresholds. The model compares squared distances
  with squared thresholds. `DetectAgreesWithDistances` proves this gives the same answer as
  the code's square-root distances.
- **Gesture smoother** (`gesture_smoother.dfy`, module `GestureSmoother`). A debounce with
  two pieces of state, `lastGesture` and `lastTime`. It returns NONE on every change of the
  raw gesture. It passes the raw gesture through once that gesture has been held for
  strictly more than `delay`. The pure `Step` specifies one call and the class `Smoother`
  implements it with mutable fields.
- **Hand orbit controller** (`hand_orbit_controller.dfy`, module `HandOrbitController`). The
  per-frame callback of the orbit camera:
  - a hidden left hand re-arms the first-frame flag;
  - the first visible frame only seeds the previous position;
  - later frames turn theta and tilt phi (kept away from the poles);
  - a left PINCH zooms out and a left FIST zooms in, with the radius clamped to [1, 10];
  - the camera moves a tenth of the way toward its goal.
  `Step` specifies one frame and the class `OrbitController` implements it.
- **Model scale record** (`model_scale.dfy`, module `ModelScale`). `setFromGeometry` stores
  the bounding-box size, its largest side and the equal scale factor. The class
  `ModelScaleRecord` holds the fields and the pure `Update` specifies the call.
- Shared types: `GestureState.Gesture` (the six labels) and the gesture channels
  (`gesture_state.dfy`); `HandState.HandPoint` (`hand_state.dfy`); `Wrappers.Option`
  (`wrappers.dfy`); and in `ThreeMath` (`three_math.dfy`), the three.js pieces used (vectors, `lerp`,
  `MathUtils.clamp`, `Math.max`, `Math.PI`).

All arithmetic is over exact `real`s. Randomness, I/O and clocks do not occur; the smoother's
`now` and the frame inputs are parameters.

Where the system's written design and its code differ, the model follows the code:

- The design says a frame with missing landmarks is classified NONE. The code reads
  landmarks 0, 4, 8, 12, 16 and 20 unconditionally, so `Detect` requires at least 21
  landmarks.
- The design says the smoother's first call always restarts the dwell timer. In the code the
  stored gesture starts as NONE at time 0, so a first call with NONE changes nothing.
- The design gives a scenario: NONE, then PINCH held, sampled every 30 ms with a 100 ms
  dwell, with PINCH committed at the fifth sample. In the code the change is stored at
  30 ms, so at the fifth sample (120 ms) only 90 ms have elapsed. PINCH first comes out at
  the sixth sample (150 ms). `DwellScenario` proves this.

## Model

| member | source | states |
|---|---|---|
| ThreeMath.Clamp | app/components/HandOrbitController.tsx:53-57 | `clamp(v, lo, hi)` lies in [lo, hi] when lo ≤ hi, is `v` when `v` is already inside, `lo` below and `hi` above |
| ThreeMath.Lerp | app/components/HandOrbitController.tsx:82 | `lerp(b, t)` stays put at t = 0, reaches `b` at t = 1 and is a fixed point at `b` |
| ThreeMath.LerpShrinksDistance | app/components/HandOrbitController.tsx:82 | a lerp by `t` scales the squared distance to the goal by exactly (1 − t)² |
| ThreeMath.Max3 | app/lib/modelScale.ts:22 | `Math.max(a, b, c)` is ≥ each argument and equal to one of them |
| DetectGesture.PlanarSqDist | app/lib/detectGesture.ts:3-7 | the squared planar distance, from x and y only, is never negative |
| DetectGesture.Detect | app/lib/detectGesture.ts:9-48 | the classifier never returns SPREAD or ORDER |
| DetectGesture.FromDistances | app/lib/detectGesture.ts:24-47 | the decision chain as written over the five square-root distances: a pinch distance below 0.07 gives PINCH whatever the others are, and SPREAD or ORDER never come out; it is the reference `DetectAgreesWithDistances` equates `Detect` with |
| DetectGesture.SquareMonotone | app/lib/detectGesture.ts:3-7 | for non-negative d and t, d < t iff d² < t², and t < d iff t² < d²; this is why the square root can be dropped |
| DetectGesture.DetectAgreesWithDistances | app/lib/detectGesture.ts:9-48 | for every frame, the squared-distance classifier equals the code's decision chain over the five true planar distances (thresholds 0.07, 0.25, 0.35) |
| DetectGesture.PinchIffWithinThreshold | app/lib/detectGesture.ts:17-27 | the result is PINCH iff the thumb–index distance is strictly below 0.07, whatever the other landmarks; exactly 0.07 is not a pinch |
| DetectGesture.Classification | app/lib/detectGesture.ts:24-47 | PINCH iff pinching; FIST iff not pinching and all four tips closer than 0.25 to the wrist; OPEN iff neither and index and middle both farther than 0.35; NONE in every other case |
| DetectGesture.DependsOnKeyPlanarOnly | app/lib/detectGesture.ts:3-15 | two frames that agree on x and y of landmarks 0, 4, 8, 12, 16, 20 get the same gesture |
| DetectGesture.DepthIgnored | app/lib/detectGesture.ts:3-7 | changing any landmark's z leaves the result unchanged |
| DetectGesture.OtherLandmarksIgnored | app/lib/detectGesture.ts:10-15 | replacing any landmark other than the six read leaves the result unchanged |
| GestureSmoother.Step | app/lib/gestureSmoother.ts:11-21 | the output is NONE or the input, never a third gesture; the state changes only when the input differs from the stored gesture |
| GestureSmoother.ChangeRestartsWindow | app/lib/gestureSmoother.ts:11-15 | a changed input returns NONE and stores the input and `now` |
| GestureSmoother.PassThroughIff | app/lib/gestureSmoother.ts:17-21 | a non-NONE input is returned iff it equals the stored gesture and `now − lastTime > delay` strictly; at exactly `delay` the result is NONE |
| GestureSmoother.StaysPassedThrough | app/lib/gestureSmoother.ts:17-19 | once a call with X returned X, a later call with X at a time no smaller returns X again |
| GestureSmoother.Run | app/lib/gestureSmoother.ts:6-22 | a run of calls yields one output per sample, each NONE or that sample's gesture |
| GestureSmoother.RepeatsKeepState | app/lib/gestureSmoother.ts:11-19 | repeated inputs equal to the stored gesture leave the state untouched, and each passes through exactly when more than `delay` has elapsed since `lastTime` |
| GestureSmoother.HeldGestureCommitsAfterDwell | app/lib/gestureSmoother.ts:11-21 | a held gesture is output as NONE until more than `delay` has elapsed since its change time, and as itself from then on (for every delay ≥ 0) |
| GestureSmoother.CommittedStaysCommitted | app/lib/gestureSmoother.ts:17-19 | with time running forward, a held gesture once output keeps being output |
| GestureSmoother.DwellScenario | app/lib/gestureSmoother.ts:3-22 | from the initial state, NONE then PINCH held, every 30 ms with delay 100, outputs NONE ×5 then PINCH at 150 ms |
| GestureSmoother.Smoother.constructor | app/lib/gestureSmoother.ts:3-4 | the initial state is `lastGesture = NONE`, `lastTime = 0` |
| GestureSmoother.Smoother.Smooth | app/lib/gestureSmoother.ts:6-22 | `smoothGesture` with `delay` defaulting to 120: returns NONE or the input; a change returns NONE and stores the input and `now`; a repeat changes nothing; the result and new state are those of `Step` |
| HandOrbitController.Zoom | app/components/HandOrbitController.tsx:59-75 | a gesture other than PINCH or FIST leaves the radius unchanged; after PINCH or FIST it lies in [1, 10] |
| HandOrbitController.Goal | app/components/HandOrbitController.tsx:78-79 | `setFromSpherical` then `add(target)`: with the target at the origin the goal is the Cartesian point of the spherical coordinates itself |
| HandOrbitController.Step | app/components/HandOrbitController.tsx:18-87 | a hidden hand sets `isFirstFrame`; a visible frame clears it and leaves the hand's (x, y) as `prevPosition`; orbit and camera change only on visible non-first frames |
| HandOrbitController.HiddenHandFreezes | app/components/HandOrbitController.tsx:22-25 | with the left hand hidden, only `isFirstFrame` changes (to true) |
| HandOrbitController.FirstVisibleFrameSeeds | app/components/HandOrbitController.tsx:32-36 | the first visible frame sets `prevPosition` to the hand's (x, y) and clears the flag, changing nothing else |
| HandOrbitController.DragRotates | app/components/HandOrbitController.tsx:39-57 | theta decreases by exactly 2·(x − prevX); phi becomes phi + 2·(y − prevY) when that is within [0.1, PI − 0.1], else the nearer bound |
| HandOrbitController.ZoomByGesture | app/components/HandOrbitController.tsx:59-75 | from a radius in [1, 10]: PINCH gives min(r + 0.05, 10), FIST gives max(r − 0.05, 1), anything else keeps r |
| HandOrbitController.CameraEases | app/components/HandOrbitController.tsx:77-82 | the camera moves to old + 0.1·(goal − old), so its squared distance to the goal becomes 0.81 times what it was |
| HandOrbitController.MountedFrameIdle | app/components/HandOrbitController.tsx:10-25 | from the mounted state, with the initial hand and gesture records (left hand hidden), a frame changes nothing |
| HandOrbitController.InitialInRange | app/components/HandOrbitController.tsx:15 | the initial orbit (radius 3, phi PI/2) is within the limits |
| HandOrbitController.StepPreservesRange | app/components/HandOrbitController.tsx:50-75 | every frame keeps the radius in [1, 10] and phi in [0.1, PI − 0.1] |
| HandOrbitController.RunFrames | app/components/HandOrbitController.tsx:18-87 | the callback once per frame: no frames change nothing; after the last frame `isFirstFrame` is set iff the hand was hidden in it, else `prevPosition` is that frame's hand (x, y) |
| HandOrbitController.RunStaysInRange | app/components/HandOrbitController.tsx:15-75 | any sequence of frames keeps the radius in [1, 10] and phi in [0.1, PI − 0.1] |
| HandOrbitController.StillHandConverges | app/components/HandOrbitController.tsx:39-86 | while the visible hand rests without a zoom gesture, the orbit stays put and after n frames the camera's squared distance to its goal is 0.81ⁿ of the start |
| HandOrbitController.OrbitController.constructor | app/components/HandOrbitController.tsx:10-16 | starts with `isFirstFrame` set, `prevPosition` (0, 0), spherical (3, PI/2, 0) and the scene's camera |
| HandOrbitController.OrbitController.OnFrame | app/components/HandOrbitController.tsx:18-87 | the callback keeps radius and phi within their limits and leaves the state that `Step` gives |
| ModelScale.Update | app/lib/modelScale.ts:16-32 | without a box nothing changes; with one, `size` is the box size, `maxDimension` its largest side and `scaleFactor` equal to it |
| ModelScale.MaxDimensionIsLargestSide | app/lib/modelScale.ts:21-24 | after an update with a box, `maxDimension` is ≥ each side and equal to one of them, and `scaleFactor` equals it |
| ModelScale.InitialConsistent | app/lib/modelScale.ts:6-13 | the initial size (1, 1, 1) with `maxDimension` 1 and `scaleFactor` 1 satisfies the record's invariant |
| ModelScale.UpdatePreservesConsistent | app/lib/modelScale.ts:20-24 | every update keeps `maxDimension = max(size)` and `scaleFactor = maxDimension` |
| ModelScale.UpdateIdempotent | app/lib/modelScale.ts:16-32 | measuring the same box twice gives the state that measuring it once gives |
| ModelScale.UpdateForgetsPast | app/lib/modelScale.ts:20-24 | an update with a box overwrites all three fields, whatever they held before |
| ModelScale.ModelScaleRecord.constructor | app/lib/modelScale.ts:4-13 | the record starts with size (1, 1, 1), `maxDimension` 1 and `scaleFactor` 1 |
| ModelScale.ModelScaleRecord.SetFromGeometry | app/lib/modelScale.ts:16-32 | with no box no field changes; with a box `size` is overwritten, `maxDimension = max(size.x, size.y, size.z)` and `scaleFactor = maxDimension` |

## Left out

- DetectGesture.Detect: requires at least 21 landmarks. On a shorter frame the code throws a `TypeError` (a coordinate is read from an undefined landmark, at the latest at `app/lib/detectGesture.ts:22`) before any return; that throwing path is not modelled.

- Floating point: all coordinates, times and angles are exact reals. IEEE rounding, NaN and infinities are not modelled.
- `Math.sqrt` in `dist`: replaced by squared distances. `DetectAgreesWithDistances` proves the replacement exact for any non-negative root.
- `Vector3.setFromSpherical` (sines and cosines): taken as an arbitrary function parameter `toCartesian`, so nothing is proved about where on the sphere the goal lies.
- `camera.lookAt` and the camera object itself: the model keeps only the camera's position, as a field of the controller. Aliasing with the scene's camera object is not captured.
- The React `useFrame`/`useRef` lifecycle: the callback is a method called once per frame. Nothing in these files calls `smoothGesture`, and no frame order is assumed beyond the sequences in the lemmas.
- `geometry.computeBoundingBox` and `box.getSize`: abstracted to an optional size. `getSize` writes into the existing `size` vector in place; the model assigns a new value.
- `console.log` in `setFromGeometry`: output only.
- Hand tracking (`HandTracker.tsx`), including its image-to-scene position remap. It is camera and MediaPipe plumbing, not part of this model. In the files shown it writes only the right hand and right gesture channel, so the left-hand inputs of the orbit controller are free parameters here.
- `PointCloud.tsx`, `HandSpheres.tsx`, `Scene.tsx`, `UploadPLY.tsx`, `page.tsx` and `rotationState.ts`: rendering, loading and UI composition. They hold no logic these modules depend on.
