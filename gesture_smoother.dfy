/** The gesture debounce (`app/lib/gestureSmoother.ts`). The source keeps its state in two
    module-level variables, `lastGesture` and `lastTime`; here they are the fields of a
    `Smoother` object, and `Step` is the pure function that specifies one call. */
module GestureSmoother {
  import opened GestureState

  /** The default dwell `delay`, in the same unit as `now` (milliseconds). */
  const DefaultDelay: real := 120.0

  datatype SmootherState = SmootherState(lastGesture: Gesture, lastTime: real)

  /** The state before the first call: 'NONE' seen at time 0. */
  const Initial: SmootherState := SmootherState(None, 0.0)

  datatype StepResult = StepResult(state: SmootherState, output: Gesture)

  /** One call of `smoothGesture(next, now, delay)`: the new state and the returned gesture.
      The output is never a third gesture, and the state moves only when the input changes. */
  function Step(s: SmootherState, next: Gesture, now: real, delay: real): (r: StepResult)
    ensures r.output == None || r.output == next
    ensures r.state != s ==> next != s.lastGesture
  {
    if next != s.lastGesture then StepResult(SmootherState(next, now), None)
    else if now - s.lastTime > delay then StepResult(s, next)
    else StepResult(s, None)
  }

  /** A changed input returns NONE and restarts the dwell window at `now`. */
  lemma ChangeRestartsWindow(s: SmootherState, next: Gesture, now: real, delay: real)
    requires next != s.lastGesture
    ensures Step(s, next, now, delay) == StepResult(SmootherState(next, now), None)
  {
  }

  /** A gesture other than NONE is passed through exactly when it repeats the stored one and
      strictly more than `delay` has elapsed since it was stored; at exactly `delay` it is not. */
  lemma PassThroughIff(s: SmootherState, next: Gesture, now: real, delay: real)
    requires next != None
    ensures Step(s, next, now, delay).output == next <==> next == s.lastGesture && now - s.lastTime > delay
  {
  }

  /** Once a call with `x` has returned `x`, a later call with `x` returns `x` again. */
  lemma StaysPassedThrough(s: SmootherState, x: Gesture, t1: real, t2: real, delay: real)
    requires x != None && t1 <= t2
    requires Step(s, x, t1, delay).output == x
    ensures Step(Step(s, x, t1, delay).state, x, t2, delay).output == x
  {
  }

  datatype Sample = Sample(gesture: Gesture, now: real)

  datatype Trace = Trace(state: SmootherState, outputs: seq<Gesture>)

  /** Successive calls, one per sample: the final state and the returned gestures. */
  function Run(s: SmootherState, samples: seq<Sample>, delay: real): (t: Trace)
    ensures |t.outputs| == |samples|
    ensures forall k :: 0 <= k < |samples| ==> t.outputs[k] == None || t.outputs[k] == samples[k].gesture
    decreases |samples|
  {
    if samples == [] then Trace(s, [])
    else
      var r := Step(s, samples[0].gesture, samples[0].now, delay);
      var rest := Run(r.state, samples[1..], delay);
      Trace(rest.state, [r.output] + rest.outputs)
  }

  predicate AllGesture(samples: seq<Sample>, x: Gesture) {
    forall k :: 0 <= k < |samples| ==> samples[k].gesture == x
  }

  /** Repeating the stored gesture never touches the state, and each call passes the
      gesture through exactly when more than `delay` has elapsed since the stored time. */
  lemma {:induction false} RepeatsKeepState(s: SmootherState, samples: seq<Sample>, delay: real)
    requires AllGesture(samples, s.lastGesture)
    ensures Run(s, samples, delay).state == s
    ensures forall k :: 0 <= k < |samples| ==>
      Run(s, samples, delay).outputs[k] == if samples[k].now - s.lastTime > delay then s.lastGesture else None
    decreases |samples|
  {
    if samples != [] {
      RepeatsKeepState(s, samples[1..], delay);
      var t := Run(s, samples, delay);
      var rest := Run(s, samples[1..], delay);
      assert t.outputs == [Step(s, samples[0].gesture, samples[0].now, delay).output] + rest.outputs;
      forall k | 1 <= k < |samples|
        ensures t.outputs[k] == if samples[k].now - s.lastTime > delay then s.lastGesture else None
      {
        assert t.outputs[k] == rest.outputs[k - 1];
        assert samples[1..][k - 1] == samples[k];
      }
    }
  }

  /** The time the dwell window of a held gesture `x` is measured from: the stored time if
      `x` is already stored, else the time of the first sample, where the change is seen. */
  function ChangeTime(s: SmootherState, first: Sample, x: Gesture): real {
    if s.lastGesture == x then s.lastTime else first.now
  }

  /** A gesture held over a run of samples is output as NONE until more than `delay` has
      elapsed since its change time, and as itself from then on; the state ends as that
      gesture stored at its change time. */
  lemma {:induction false} HeldGestureCommitsAfterDwell(s: SmootherState, samples: seq<Sample>, x: Gesture, delay: real)
    requires delay >= 0.0
    requires |samples| > 0 && AllGesture(samples, x)
    ensures Run(s, samples, delay).state == SmootherState(x, ChangeTime(s, samples[0], x))
    ensures forall k :: 0 <= k < |samples| ==>
      Run(s, samples, delay).outputs[k] == if samples[k].now - ChangeTime(s, samples[0], x) > delay then x else None
  {
    var t0 := ChangeTime(s, samples[0], x);
    if s.lastGesture == x {
      RepeatsKeepState(s, samples, delay);
    } else {
      var s1 := SmootherState(x, t0);
      assert Step(s, x, samples[0].now, delay) == StepResult(s1, None);
      RepeatsKeepState(s1, samples[1..], delay);
      var t := Run(s, samples, delay);
      var rest := Run(s1, samples[1..], delay);
      assert t.outputs == [None] + rest.outputs;
      forall k | 0 <= k < |samples|
        ensures t.outputs[k] == if samples[k].now - t0 > delay then x else None
      {
        if k > 0 {
          assert t.outputs[k] == rest.outputs[k - 1];
          assert samples[1..][k - 1] == samples[k];
        }
      }
    }
  }

  predicate NonDecreasing(samples: seq<Sample>) {
    forall i, j :: 0 <= i <= j < |samples| ==> samples[i].now <= samples[j].now
  }

  /** With time running forward, a held gesture once output keeps being output. */
  lemma CommittedStaysCommitted(s: SmootherState, samples: seq<Sample>, x: Gesture, delay: real, j: nat, k: nat)
    requires delay >= 0.0 && x != None
    requires |samples| > 0 && AllGesture(samples, x) && NonDecreasing(samples)
    requires j <= k < |samples|
    requires Run(s, samples, delay).outputs[j] == x
    ensures Run(s, samples, delay).outputs[k] == x
  {
    HeldGestureCommitsAfterDwell(s, samples, x, delay);
  }

  /** NONE, then PINCH held, sampled every 30 ms with a 100 ms dwell from the initial state:
      PINCH is first output at the sixth sample (150 ms, 120 ms after the change at 30 ms);
      at the fifth (120 ms) only 90 ms have elapsed. */
  lemma DwellScenario()
    ensures Run(Initial, [Sample(None, 0.0), Sample(Pinch, 30.0), Sample(Pinch, 60.0),
                          Sample(Pinch, 90.0), Sample(Pinch, 120.0), Sample(Pinch, 150.0)], 100.0).outputs
            == [None, None, None, None, None, Pinch]
  {
    var samples := [Sample(None, 0.0), Sample(Pinch, 30.0), Sample(Pinch, 60.0),
                    Sample(Pinch, 90.0), Sample(Pinch, 120.0), Sample(Pinch, 150.0)];
    var held := samples[1..];
    assert AllGesture(held, Pinch);
    HeldGestureCommitsAfterDwell(Initial, held, Pinch, 100.0);
    var rest := Run(Initial, held, 100.0);
    assert Run(Initial, samples, 100.0).outputs == [None] + rest.outputs;
  }

  class Smoother {
    var lastGesture: Gesture
    var lastTime: real

    function State(): SmootherState
      reads this
    {
      SmootherState(lastGesture, lastTime)
    }

    constructor ()
      ensures State() == Initial
    {
      lastGesture := None;
      lastTime := 0.0;
    }

    /** `smoothGesture(next, now, delay = 120)`. */
    method Smooth(next: Gesture, now: real, delay: real := DefaultDelay) returns (g: Gesture)
      modifies this
      ensures g == None || g == next
      ensures next != old(lastGesture) ==> g == None && lastGesture == next && lastTime == now
      ensures next == old(lastGesture) ==> unchanged(this)
      ensures StepResult(State(), g) == Step(old(State()), next, now, delay)
    {
      if next != lastGesture {
        lastGesture := next;
        lastTime := now;
        return None;
      }
      if now - lastTime > delay {
        return next;
      }
      return None;
    }
  }
}
