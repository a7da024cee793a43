/** The hand-driven orbit camera (`app/components/HandOrbitController.tsx`): the body of its
    per-frame callback. Horizontal motion of the left hand turns the camera about the
    vertical axis (theta), vertical motion tilts it (phi, kept away from the poles), a left
    PINCH zooms out and a left FIST zooms in, and the camera eases toward the point on the
    sphere.

    Converting spherical to Cartesian coordinates (`Vector3.setFromSpherical`, sines and
    cosines) is left abstract: every operation takes it as the parameter `toCartesian`. */
module HandOrbitController {
  import opened ThreeMath
  import opened GestureState
  import opened HandState

  /** Radians of rotation per unit of hand motion. */
  const RotationSpeed: real := 2.0
  const PhiMin: real := 0.1
  const PhiMax: real := PI - 0.1
  const ZoomStep: real := 0.05
  const MinRadius: real := 1.0
  const MaxRadius: real := 10.0
  /** Fraction of the remaining way the camera moves each frame. */
  const LerpAlpha: real := 0.1
  /** The point the camera orbits and looks at. */
  const Target: Vec3 := Vec3(0.0, 0.0, 0.0)

  /** `THREE.Spherical`: distance from the centre, polar angle from +y, azimuth about y. */
  datatype Spherical = Spherical(radius: real, phi: real, theta: real)

  const InitialSpherical: Spherical := Spherical(3.0, PI / 2.0, 0.0)

  datatype OrbitState = OrbitState(isFirstFrame: bool, prevPosition: Vec2, spherical: Spherical, camera: Vec3)

  /** The state when the component mounts; the camera starts wherever the scene put it. */
  function Initial(camera: Vec3): OrbitState {
    OrbitState(true, Vec2(0.0, 0.0), InitialSpherical, camera)
  }

  /** Radius within the zoom limits and polar angle away from the poles. */
  predicate InRange(sph: Spherical) {
    MinRadius <= sph.radius <= MaxRadius && PhiMin <= sph.phi <= PhiMax
  }

  /** The two zoom rules, applied in the source's order: PINCH adds a step, FIST removes
      one, each clamped to the radius limits; any other gesture leaves the radius alone. */
  function Zoom(radius: real, gesture: Gesture): (r: real)
    ensures gesture != Pinch && gesture != Fist ==> r == radius
    ensures gesture == Pinch || gesture == Fist ==> MinRadius <= r <= MaxRadius
  {
    var zoomedOut := if gesture == Pinch then Clamp(radius + ZoomStep, MinRadius, MaxRadius) else radius;
    if gesture == Fist then Clamp(zoomedOut - ZoomStep, MinRadius, MaxRadius) else zoomedOut
  }

  /** The point the camera eases toward for the given spherical coordinates: the Cartesian
      point offset by the look-at target, which is the origin, so the point itself. */
  function Goal(sph: Spherical, toCartesian: Spherical -> Vec3): (p: Vec3)
    ensures p == toCartesian(sph)
  {
    Add(toCartesian(sph), Target)
  }

  /** One frame of the callback, reading the left hand and the left gesture channel. The
      orbit and the camera move only on a visible frame that is not the first after the hand
      appeared; every visible frame leaves the hand's (x, y) as the previous position. */
  function Step(s: OrbitState, hands: Hands, gestures: GestureChannels, toCartesian: Spherical -> Vec3): (r: OrbitState)
    ensures !hands.left.visible ==> r.isFirstFrame
    ensures hands.left.visible ==>
      !r.isFirstFrame && r.prevPosition == Vec2(hands.left.position.x, hands.left.position.y)
    ensures (r.spherical != s.spherical || r.camera != s.camera) ==> hands.left.visible && !s.isFirstFrame
  {
    var left := hands.left;
    if !left.visible then
      s.(isFirstFrame := true)
    else
      var current := Vec2(left.position.x, left.position.y);
      if s.isFirstFrame then
        s.(prevPosition := current, isFirstFrame := false)
      else
        var deltaX := current.x - s.prevPosition.x;
        var deltaY := current.y - s.prevPosition.y;
        var theta := s.spherical.theta - deltaX * RotationSpeed;
        var phi := Clamp(s.spherical.phi + deltaY * RotationSpeed, PhiMin, PhiMax);
        var radius := Zoom(s.spherical.radius, gestures.left);
        var sph := Spherical(radius, phi, theta);
        OrbitState(false, current, sph, Lerp(s.camera, Goal(sph, toCartesian), LerpAlpha))
  }

  /** While the left hand is hidden only the first-frame flag changes (it is set). */
  lemma HiddenHandFreezes(s: OrbitState, hands: Hands, gestures: GestureChannels, toCartesian: Spherical -> Vec3)
    requires !hands.left.visible
    ensures Step(s, hands, gestures, toCartesian) == s.(isFirstFrame := true)
  {
  }

  /** The first visible frame only records the hand's (x, y) and clears the flag. */
  lemma FirstVisibleFrameSeeds(s: OrbitState, hands: Hands, gestures: GestureChannels, toCartesian: Spherical -> Vec3)
    requires hands.left.visible && s.isFirstFrame
    ensures Step(s, hands, gestures, toCartesian)
         == s.(isFirstFrame := false, prevPosition := Vec2(hands.left.position.x, hands.left.position.y))
  {
  }

  /** On a later visible frame theta falls by twice the horizontal hand motion, and phi
      rises by twice the vertical motion, stopped at the pole margins. */
  lemma DragRotates(s: OrbitState, hands: Hands, gestures: GestureChannels, toCartesian: Spherical -> Vec3)
    requires hands.left.visible && !s.isFirstFrame
    ensures var r := Step(s, hands, gestures, toCartesian);
      var dx := hands.left.position.x - s.prevPosition.x;
      var dy := hands.left.position.y - s.prevPosition.y;
      && r.spherical.theta == s.spherical.theta - 2.0 * dx
      && PhiMin <= r.spherical.phi <= PhiMax
      && (PhiMin <= s.spherical.phi + 2.0 * dy <= PhiMax ==> r.spherical.phi == s.spherical.phi + 2.0 * dy)
      && (s.spherical.phi + 2.0 * dy < PhiMin ==> r.spherical.phi == PhiMin)
      && (PhiMax < s.spherical.phi + 2.0 * dy ==> r.spherical.phi == PhiMax)
  {
  }

  /** Within the limits, PINCH zooms out by 0.05 up to 10, FIST zooms in by 0.05 down to 1,
      and any other left gesture keeps the radius. */
  lemma ZoomByGesture(radius: real, gesture: Gesture)
    requires MinRadius <= radius <= MaxRadius
    ensures gesture == Pinch ==> Zoom(radius, gesture) == Min(radius + 0.05, 10.0)
    ensures gesture == Fist ==> Zoom(radius, gesture) == Max(radius - 0.05, 1.0)
    ensures gesture != Pinch && gesture != Fist ==> Zoom(radius, gesture) == radius
  {
  }

  /** On a later visible frame the camera moves a tenth of the way to its goal, so its
      distance to the goal shrinks by the factor 0.9 (squared: 0.81). */
  lemma CameraEases(s: OrbitState, hands: Hands, gestures: GestureChannels, toCartesian: Spherical -> Vec3)
    requires hands.left.visible && !s.isFirstFrame
    ensures var r := Step(s, hands, gestures, toCartesian);
      var goal := Goal(r.spherical, toCartesian);
      && r.camera == Vec3(s.camera.x + 0.1 * (goal.x - s.camera.x),
                          s.camera.y + 0.1 * (goal.y - s.camera.y),
                          s.camera.z + 0.1 * (goal.z - s.camera.z))
      && SqDist(r.camera, goal) == 0.81 * SqDist(s.camera, goal)
  {
    var r := Step(s, hands, gestures, toCartesian);
    LerpShrinksDistance(s.camera, Goal(r.spherical, toCartesian), LerpAlpha);
  }

  /** Right after mounting, with the hands and gesture channels in their initial records (the
      left hand hidden), a frame leaves the state as it was. */
  lemma MountedFrameIdle(camera: Vec3, toCartesian: Spherical -> Vec3)
    ensures Step(Initial(camera), InitialHands, InitialChannels, toCartesian) == Initial(camera)
  {
  }

  lemma InitialInRange()
    ensures InRange(InitialSpherical)
  {
  }

  /** Every frame keeps the radius in [1, 10] and phi in [0.1, PI - 0.1]. */
  lemma StepPreservesRange(s: OrbitState, hands: Hands, gestures: GestureChannels, toCartesian: Spherical -> Vec3)
    requires InRange(s.spherical)
    ensures InRange(Step(s, hands, gestures, toCartesian).spherical)
  {
  }

  datatype Frame = Frame(hands: Hands, gestures: GestureChannels)

  /** The callback run once per frame, in order. No frames change nothing; after the last
      frame the first-frame flag is set exactly when the hand was hidden in it, and otherwise
      the previous position is that frame's hand (x, y). */
  function RunFrames(s: OrbitState, frames: seq<Frame>, toCartesian: Spherical -> Vec3): (r: OrbitState)
    ensures frames == [] ==> r == s
    ensures frames != [] ==> (r.isFirstFrame <==> !frames[|frames| - 1].hands.left.visible)
    ensures frames != [] && frames[|frames| - 1].hands.left.visible ==>
      r.prevPosition == Vec2(frames[|frames| - 1].hands.left.position.x, frames[|frames| - 1].hands.left.position.y)
    decreases |frames|
  {
    if frames == [] then s
    else RunFrames(Step(s, frames[0].hands, frames[0].gestures, toCartesian), frames[1..], toCartesian)
  }

  /** From the mounted state, any sequence of frames keeps radius and phi within their limits. */
  lemma {:induction false} RunStaysInRange(s: OrbitState, frames: seq<Frame>, toCartesian: Spherical -> Vec3)
    requires InRange(s.spherical)
    ensures InRange(RunFrames(s, frames, toCartesian).spherical)
    decreases |frames|
  {
    if frames != [] {
      StepPreservesRange(s, frames[0].hands, frames[0].gestures, toCartesian);
      RunStaysInRange(Step(s, frames[0].hands, frames[0].gestures, toCartesian), frames[1..], toCartesian);
    }
  }

  /** A visible left hand resting at the previous position with no zoom gesture. */
  predicate StillFrames(frames: seq<Frame>, at: Vec2) {
    forall k :: 0 <= k < |frames| ==>
      && frames[k].hands.left.visible
      && frames[k].hands.left.position.x == at.x
      && frames[k].hands.left.position.y == at.y
      && frames[k].gestures.left != Pinch && frames[k].gestures.left != Fist
  }

  /** While the hand rests, the orbit stays put and the camera converges on its goal:
      after n frames its squared distance to it is 0.81^n of what it was. */
  lemma {:induction false} StillHandConverges(s: OrbitState, frames: seq<Frame>, toCartesian: Spherical -> Vec3)
    requires !s.isFirstFrame && InRange(s.spherical)
    requires StillFrames(frames, s.prevPosition)
    ensures RunFrames(s, frames, toCartesian).spherical == s.spherical
    ensures RunFrames(s, frames, toCartesian).prevPosition == s.prevPosition
    ensures !RunFrames(s, frames, toCartesian).isFirstFrame
    ensures var goal := Goal(s.spherical, toCartesian);
      SqDist(RunFrames(s, frames, toCartesian).camera, goal) == Power(0.81, |frames|) * SqDist(s.camera, goal)
    decreases |frames|
  {
    var goal := Goal(s.spherical, toCartesian);
    if frames != [] {
      var s1 := Step(s, frames[0].hands, frames[0].gestures, toCartesian);
      assert s1.spherical == s.spherical;
      assert s1 == s.(camera := Lerp(s.camera, goal, LerpAlpha));
      LerpShrinksDistance(s.camera, goal, LerpAlpha);
      assert StillFrames(frames[1..], s1.prevPosition) by {
        forall k | 0 <= k < |frames[1..]|
          ensures frames[1..][k] == frames[k + 1]
        {
        }
      }
      StillHandConverges(s1, frames[1..], toCartesian);
      assert RunFrames(s, frames, toCartesian) == RunFrames(s1, frames[1..], toCartesian);
    }
  }

  class OrbitController {
    var isFirstFrame: bool
    var prevPosition: Vec2
    var spherical: Spherical
    var cameraPosition: Vec3

    function State(): OrbitState
      reads this
    {
      OrbitState(isFirstFrame, prevPosition, spherical, cameraPosition)
    }

    predicate Valid()
      reads this
    {
      InRange(spherical)
    }

    constructor (camera: Vec3)
      ensures Valid() && State() == Initial(camera)
    {
      isFirstFrame := true;
      prevPosition := Vec2(0.0, 0.0);
      spherical := InitialSpherical;
      cameraPosition := camera;
    }

    /** The `useFrame` callback. */
    method OnFrame(hands: Hands, gestures: GestureChannels, toCartesian: Spherical -> Vec3)
      requires Valid()
      modifies this
      ensures Valid()
      ensures State() == Step(old(State()), hands, gestures, toCartesian)
    {
      var left := hands.left;
      if !left.visible {
        isFirstFrame := true;
        return;
      }
      var currentX := left.position.x;
      var currentY := left.position.y;
      if isFirstFrame {
        prevPosition := Vec2(currentX, currentY);
        isFirstFrame := false;
        return;
      }
      var deltaX := currentX - prevPosition.x;
      var deltaY := currentY - prevPosition.y;
      var theta := spherical.theta - deltaX * RotationSpeed;
      var phi := Clamp(spherical.phi + deltaY * RotationSpeed, PhiMin, PhiMax);
      var radius := spherical.radius;
      if gestures.left == Pinch {
        radius := Clamp(radius + ZoomStep, MinRadius, MaxRadius);
      }
      if gestures.left == Fist {
        radius := Clamp(radius - ZoomStep, MinRadius, MaxRadius);
      }
      spherical := Spherical(radius, phi, theta);
      cameraPosition := Lerp(cameraPosition, Goal(spherical, toCartesian), LerpAlpha);
      prevPosition := Vec2(currentX, currentY);
    }
  }
}
