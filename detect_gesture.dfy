/** The per-frame gesture classifier (`app/lib/detectGesture.ts`): a priority-ordered
    decision over six of a hand's 21 landmarks, using planar (x, y) distances only.

    The source compares `Math.sqrt(dx*dx + dy*dy)` against non-negative thresholds;
    the model compares `dx*dx + dy*dy` against the squared threshold instead.
    `DetectAgreesWithDistances` proves the two decisions are the same. */
module DetectGesture {
  import opened ThreeMath
  import opened GestureState

  /** Indices of the landmarks the classifier reads. */
  const Wrist: nat := 0
  const ThumbTip: nat := 4
  const IndexTip: nat := 8
  const MiddleTip: nat := 12
  const RingTip: nat := 16
  const PinkyTip: nat := 20

  /** Landmarks per hand frame; every index above is below it. */
  const LandmarkCount: nat := 21

  const KeyLandmarks: set<nat> := {Wrist, ThumbTip, IndexTip, MiddleTip, RingTip, PinkyTip}

  /** Thumb tip to index tip, below which the hand pinches. */
  const PinchThreshold: real := 0.07
  /** Fingertip to wrist, below which (for all four fingers) the hand is a fist. */
  const FistThreshold: real := 0.25
  /** Index and middle tip to wrist, above which (for both) the hand is open. */
  const OpenThreshold: real := 0.35

  /** Squared planar distance: the source's `dist` before its square root. */
  function PlanarSqDist(a: Vec3, b: Vec3): (d: real)
    ensures d >= 0.0
  {
    (a.x - b.x) * (a.x - b.x) + (a.y - b.y) * (a.y - b.y)
  }

  /** `d` is the source's `dist(a, b)`: the non-negative square root of the squared planar distance. */
  ghost predicate IsPlanarDist(d: real, a: Vec3, b: Vec3) {
    0.0 <= d && d * d == PlanarSqDist(a, b)
  }

  /** `dist(a, b) < t`, stated without the square root. */
  predicate Closer(a: Vec3, b: Vec3, t: real) {
    PlanarSqDist(a, b) < t * t
  }

  /** `dist(a, b) > t`, stated without the square root. */
  predicate Farther(a: Vec3, b: Vec3, t: real) {
    PlanarSqDist(a, b) > t * t
  }

  predicate IsPinch(lm: seq<Vec3>)
    requires |lm| >= LandmarkCount
  {
    Closer(lm[ThumbTip], lm[IndexTip], PinchThreshold)
  }

  predicate IsClosed(lm: seq<Vec3>)
    requires |lm| >= LandmarkCount
  {
    Closer(lm[IndexTip], lm[Wrist], FistThreshold) && Closer(lm[MiddleTip], lm[Wrist], FistThreshold) &&
    Closer(lm[RingTip], lm[Wrist], FistThreshold) && Closer(lm[PinkyTip], lm[Wrist], FistThreshold)
  }

  predicate IsOpenHand(lm: seq<Vec3>)
    requires |lm| >= LandmarkCount
  {
    Farther(lm[IndexTip], lm[Wrist], OpenThreshold) && Farther(lm[MiddleTip], lm[Wrist], OpenThreshold)
  }

  /** `detectGesture`: PINCH, then FIST, then OPEN, else NONE. The source reads the six
      landmarks unconditionally, so a frame with fewer than 21 is outside its domain. */
  function Detect(lm: seq<Vec3>): (g: Gesture)
    requires |lm| >= LandmarkCount
    ensures g != Spread && g != Order
  {
    if IsPinch(lm) then Pinch
    else if IsClosed(lm) then Fist
    else if IsOpenHand(lm) then Open
    else None
  }

  /** The source's decision chain as written, over the five Euclidean distances it computes:
      a pinch distance below 0.07 decides PINCH whatever the others are, and SPREAD and ORDER
      never come out. */
  function FromDistances(pinchDist: real, indexToWrist: real, middleToWrist: real,
                         ringToWrist: real, pinkyToWrist: real): (g: Gesture)
    ensures pinchDist < 0.07 ==> g == Pinch
    ensures g != Spread && g != Order
  {
    if pinchDist < 0.07 then Pinch
    else if indexToWrist < 0.25 && middleToWrist < 0.25 && ringToWrist < 0.25 && pinkyToWrist < 0.25 then Fist
    else if indexToWrist > 0.35 && middleToWrist > 0.35 then Open
    else None
  }

  lemma SquareStrictlyMonotone(a: real, b: real)
    requires 0.0 <= a < b
    ensures a * a < b * b
  {
    assert a * (b - a) >= 0.0;
    assert b * (b - a) > 0.0;
    assert a * (b - a) + b * (b - a) == b * b - a * a;
  }

  /** Squaring preserves strict comparisons between non-negative reals, both ways:
      the reason the square root can be dropped. */
  lemma SquareMonotone(d: real, t: real)
    requires 0.0 <= d && 0.0 <= t
    ensures d < t <==> d * d < t * t
    ensures t < d <==> t * t < d * d
  {
    if d < t {
      SquareStrictlyMonotone(d, t);
    } else if t < d {
      SquareStrictlyMonotone(t, d);
    }
  }

  /** For any frame, the sqrt-free classifier returns what the source's decision over the
      true planar distances returns. */
  lemma DetectAgreesWithDistances(lm: seq<Vec3>, pinchDist: real, indexToWrist: real,
                                  middleToWrist: real, ringToWrist: real, pinkyToWrist: real)
    requires |lm| >= LandmarkCount
    requires IsPlanarDist(pinchDist, lm[ThumbTip], lm[IndexTip])
    requires IsPlanarDist(indexToWrist, lm[IndexTip], lm[Wrist])
    requires IsPlanarDist(middleToWrist, lm[MiddleTip], lm[Wrist])
    requires IsPlanarDist(ringToWrist, lm[RingTip], lm[Wrist])
    requires IsPlanarDist(pinkyToWrist, lm[PinkyTip], lm[Wrist])
    ensures Detect(lm) == FromDistances(pinchDist, indexToWrist, middleToWrist, ringToWrist, pinkyToWrist)
  {
    SquareMonotone(pinchDist, PinchThreshold);
    SquareMonotone(indexToWrist, FistThreshold);
    SquareMonotone(middleToWrist, FistThreshold);
    SquareMonotone(ringToWrist, FistThreshold);
    SquareMonotone(pinkyToWrist, FistThreshold);
    SquareMonotone(indexToWrist, OpenThreshold);
    SquareMonotone(middleToWrist, OpenThreshold);
  }

  /** A thumb-to-index distance strictly below 0.07 is a pinch whatever the other fingers
      do; at exactly 0.07 or above it is not. */
  lemma PinchIffWithinThreshold(lm: seq<Vec3>, pinchDist: real)
    requires |lm| >= LandmarkCount
    requires IsPlanarDist(pinchDist, lm[ThumbTip], lm[IndexTip])
    ensures Detect(lm) == Pinch <==> pinchDist < 0.07
  {
    SquareMonotone(pinchDist, PinchThreshold);
  }

  /** The four outcomes, each characterised in both directions with its priority. */
  lemma Classification(lm: seq<Vec3>)
    requires |lm| >= LandmarkCount
    ensures Detect(lm) == Pinch <==> IsPinch(lm)
    ensures Detect(lm) == Fist <==> !IsPinch(lm) && IsClosed(lm)
    ensures Detect(lm) == Open <==> !IsPinch(lm) && !IsClosed(lm) && IsOpenHand(lm)
    ensures Detect(lm) == None <==> !IsPinch(lm) && !IsClosed(lm) && !IsOpenHand(lm)
  {
  }

  predicate SamePlanar(a: Vec3, b: Vec3) {
    a.x == b.x && a.y == b.y
  }

  lemma PlanarSqDistPlanarOnly(a: Vec3, b: Vec3, a': Vec3, b': Vec3)
    requires SamePlanar(a, a') && SamePlanar(b, b')
    ensures PlanarSqDist(a, b) == PlanarSqDist(a', b')
  {
  }

  /** The result is a function of the x and y of landmarks 0, 4, 8, 12, 16 and 20 alone. */
  lemma DependsOnKeyPlanarOnly(lm: seq<Vec3>, lm': seq<Vec3>)
    requires |lm| >= LandmarkCount && |lm'| >= LandmarkCount
    requires SamePlanar(lm[Wrist], lm'[Wrist]) && SamePlanar(lm[ThumbTip], lm'[ThumbTip])
    requires SamePlanar(lm[IndexTip], lm'[IndexTip]) && SamePlanar(lm[MiddleTip], lm'[MiddleTip])
    requires SamePlanar(lm[RingTip], lm'[RingTip]) && SamePlanar(lm[PinkyTip], lm'[PinkyTip])
    ensures Detect(lm) == Detect(lm')
  {
    var w, w' := lm[Wrist], lm'[Wrist];
    PlanarSqDistPlanarOnly(lm[ThumbTip], lm[IndexTip], lm'[ThumbTip], lm'[IndexTip]);
    PlanarSqDistPlanarOnly(lm[IndexTip], w, lm'[IndexTip], w');
    PlanarSqDistPlanarOnly(lm[MiddleTip], w, lm'[MiddleTip], w');
    PlanarSqDistPlanarOnly(lm[RingTip], w, lm'[RingTip], w');
    PlanarSqDistPlanarOnly(lm[PinkyTip], w, lm'[PinkyTip], w');
  }

  /** Changing any landmark's depth leaves the result unchanged. */
  lemma DepthIgnored(lm: seq<Vec3>, i: nat, z: real)
    requires |lm| >= LandmarkCount && i < |lm|
    ensures Detect(lm[i := lm[i].(z := z)]) == Detect(lm)
  {
    DependsOnKeyPlanarOnly(lm, lm[i := lm[i].(z := z)]);
  }

  /** Replacing any landmark other than the six read leaves the result unchanged. */
  lemma OtherLandmarksIgnored(lm: seq<Vec3>, i: nat, p: Vec3)
    requires |lm| >= LandmarkCount && i < |lm| && i !in KeyLandmarks
    ensures Detect(lm[i := p]) == Detect(lm)
  {
    DependsOnKeyPlanarOnly(lm, lm[i := p]);
  }
}
