// The skeletal data processor: the worker that receives every skeleton frame,
// sends it to the skeleton drawing, and decides whether the gestures see it.
// Gesture recognition is armed by raising the right hand above the head with the
// left hand below it, and disarmed by raising both hands above the head.
module SkeletalDataProcessor {
  import opened Wrappers
  import opened Kinect
  import opened GestureBase
  import ResultCodes
  import GestureDispatcher
  import KeyboardInputProcessor
  import MouseInputProcessor

  /** Both hands strictly above the head: the stop pose. */
  predicate HandsAboveHead(s: SkeletonData) {
    s.joints(HandRight).y > s.joints(Head).y && s.joints(HandLeft).y > s.joints(Head).y
  }

  /** Right hand strictly above the head, left hand strictly below it: the start pose. */
  predicate StartPose(s: SkeletonData) {
    s.joints(HandRight).y > s.joints(Head).y && s.joints(HandLeft).y < s.joints(Head).y
  }

  /** Some tracked skeleton of the frame holds the stop pose. */
  predicate StopRequested(frame: SkeletonFrame) {
    exists i | 0 <= i < |frame| :: IsTracked(frame[i]) && HandsAboveHead(frame[i])
  }

  /** The start check over the skeletons in order: the first decisive skeleton gives
      GestureDetectionFailed when `stop` (the previous frame's stop flag) is set or
      it holds the stop pose, and GestureDetected when it holds the start pose; with
      no decisive skeleton the result is -1. */
  function InitialCondition(frame: SkeletonFrame, stop: bool): (r: int)
    ensures r == -1 || r == ResultCodes.GestureDetectionFailed || r == ResultCodes.GestureDetected
  {
    if |frame| == 0 then -1
    else if IsTracked(frame[0]) && (stop || HandsAboveHead(frame[0])) then ResultCodes.GestureDetectionFailed
    else if IsTracked(frame[0]) && StartPose(frame[0]) then ResultCodes.GestureDetected
    else InitialCondition(frame[1..], stop)
  }

  /** The start pose is recognised exactly when the previous frame did not ask to
      stop, and some tracked skeleton holds the start pose with no tracked skeleton
      before it holding the stop pose. */
  lemma {:induction false} InitialConditionDetects(frame: SkeletonFrame, stop: bool)
    ensures InitialCondition(frame, stop) == ResultCodes.GestureDetected
      <==> !stop && exists i | 0 <= i < |frame| ::
             && IsTracked(frame[i]) && StartPose(frame[i])
             && forall j | 0 <= j < i :: IsTracked(frame[j]) ==> !HandsAboveHead(frame[j])
  {
    if |frame| > 0 {
      var tail := frame[1..];
      InitialConditionDetects(tail, stop);
      assert forall k | 1 <= k < |frame| :: frame[k] == tail[k - 1];
      if InitialCondition(frame, stop) == ResultCodes.GestureDetected {
        if !(IsTracked(frame[0]) && StartPose(frame[0])) {
          var i :| 0 <= i < |tail| && IsTracked(tail[i]) && StartPose(tail[i])
            && forall j | 0 <= j < i :: IsTracked(tail[j]) ==> !HandsAboveHead(tail[j]);
          assert IsTracked(frame[i + 1]) && StartPose(frame[i + 1]);
        }
      } else if !stop && IsTracked(frame[0]) && StartPose(frame[0]) {
        assert false;
      } else if !stop {
        forall i | 0 <= i < |frame| && IsTracked(frame[i]) && StartPose(frame[i])
          ensures exists j | 0 <= j < i :: IsTracked(frame[j]) && HandsAboveHead(frame[j])
        {
          if !(IsTracked(frame[0]) && HandsAboveHead(frame[0])) {
            assert IsTracked(tail[i - 1]) && StartPose(tail[i - 1]);
            var j :| 0 <= j < i - 1 && IsTracked(tail[j]) && HandsAboveHead(tail[j]);
            assert frame[j + 1] == tail[j];
          }
        }
      }
    }
  }

  /** With the stop flag of the previous frame set, the start check never succeeds:
      it fails on the first tracked skeleton, or gives -1 when there is none. */
  lemma {:induction false} StopFlagBlocksStart(frame: SkeletonFrame)
    ensures InitialCondition(frame, true)
      == (if FirstTracked(frame).Some? then ResultCodes.GestureDetectionFailed else -1)
  {
    if |frame| > 0 && !IsTracked(frame[0]) {
      StopFlagBlocksStart(frame[1..]);
    }
  }

  /** The arm/disarm gate: `trackedState` says whether gestures are being
      recognised, `stopGestureRecognition` whether the last frame asked to stop. */
  datatype Gate = Gate(trackedState: bool, stopGestureRecognition: bool)

  /** One frame through the gate: the new gate and whether the frame goes to the
      gestures. An unarmed gate arms when the start check succeeds; an armed gate
      dispatches the frame unless it holds the stop pose, in which case it disarms. */
  function GateStep(g: Gate, frame: SkeletonFrame): (r: (Gate, bool)) {
    var armed := g.trackedState || InitialCondition(frame, g.stopGestureRecognition) == ResultCodes.GestureDetected;
    var stop := StopRequested(frame);
    if armed && !stop then (Gate(true, stop), true)
    else (Gate(false, stop), false)
  }

  /** After every frame the gate is armed exactly when the frame went to the
      gestures, and the stop flag records whether the frame held the stop pose. */
  lemma GateArmedIffDispatched(g: Gate, frame: SkeletonFrame)
    ensures GateStep(g, frame).0.trackedState == GateStep(g, frame).1
    ensures GateStep(g, frame).0.stopGestureRecognition == StopRequested(frame)
  {
  }

  /** A frame reaches the gestures exactly when the gate was armed or the start pose
      was recognised, and no tracked skeleton holds the stop pose. */
  lemma Dispatching(g: Gate, frame: SkeletonFrame)
    ensures GateStep(g, frame).1 <==>
      (g.trackedState || InitialCondition(frame, g.stopGestureRecognition) == ResultCodes.GestureDetected)
      && !StopRequested(frame)
  {
  }

  /** An unarmed gate arms exactly when the previous frame did not ask to stop, the
      start pose is held by a tracked skeleton with no earlier tracked skeleton in
      the stop pose, and no tracked skeleton of the frame is in the stop pose. */
  lemma Arming(g: Gate, frame: SkeletonFrame)
    requires !g.trackedState
    ensures GateStep(g, frame).0.trackedState <==>
      && !g.stopGestureRecognition
      && (exists i | 0 <= i < |frame| ::
            && IsTracked(frame[i]) && StartPose(frame[i])
            && forall j | 0 <= j < i :: IsTracked(frame[j]) ==> !HandsAboveHead(frame[j]))
      && !StopRequested(frame)
  {
    InitialConditionDetects(frame, g.stopGestureRecognition);
  }

  /** An armed gate disarms on a stop pose and does not dispatch that frame. */
  lemma Disarming(g: Gate, frame: SkeletonFrame)
    requires g.trackedState && StopRequested(frame)
    ensures !GateStep(g, frame).0.trackedState && !GateStep(g, frame).1
    ensures GateStep(g, frame).0.stopGestureRecognition
  {
  }

  /** The gate over a run of frames: the final gate and, per frame, whether it was
      dispatched. */
  function GateRun(g: Gate, frames: seq<SkeletonFrame>): (r: (Gate, seq<bool>))
    ensures |r.1| == |frames|
    decreases |frames|
  {
    if |frames| == 0 then (g, [])
    else
      var step := GateStep(g, frames[0]);
      var rest := GateRun(step.0, frames[1..]);
      (rest.0, [step.1] + rest.1)
  }

  /** Once armed, every frame without a stop pose is dispatched, and the gate is
      still armed afterwards. */
  lemma {:induction false} ArmedUntilStopped(g: Gate, frames: seq<SkeletonFrame>)
    requires g.trackedState
    requires forall k | 0 <= k < |frames| :: !StopRequested(frames[k])
    ensures GateRun(g, frames).0.trackedState
    ensures forall k | 0 <= k < |frames| :: GateRun(g, frames).1[k]
    decreases |frames|
  {
    if |frames| > 0 {
      var step := GateStep(g, frames[0]);
      ArmedUntilStopped(step.0, frames[1..]);
      var rest := GateRun(step.0, frames[1..]);
      assert GateRun(g, frames).1 == [step.1] + rest.1;
      forall k | 0 <= k < |frames| ensures GateRun(g, frames).1[k] {
        if k > 0 {
          assert frames[1..][k - 1] == frames[k];
        }
      }
    }
  }

  class SkeletalDataProcessor {
    /** The worker's queue; an element is None when the posted object was null. */
    const inbox: RequestQueue<Option<SkeletonFrame>>
    /** The skeleton drawing's queue. */
    const drawingQueue: RequestQueue<SkeletonFrame>
    const gestureDispatch: GestureDispatcher.GestureDispatcher
    var trackedState: bool
    var stopGestureRecognition: bool
    var stopVisualThreads: bool
    /** The frames handed to the dispatcher so far, with their timestamps. */
    ghost var dispatched: seq<(SkeletonFrame, int)>

    /** The dispatcher's detectors have their own queues, apart from this worker's. */
    predicate Valid() {
      && gestureDispatch.Valid()
      && drawingQueue !in gestureDispatch.Footprint()
    }

    /** Creates the drawing's queue and the gesture dispatcher; gestures start unarmed. */
    constructor(keyboard: KeyboardInputProcessor.KeyboardInputProcessor, mouse: MouseInputProcessor.MouseInputProcessor)
      ensures Valid()
      ensures !trackedState && !stopGestureRecognition && !stopVisualThreads
      ensures inbox.items == [] && drawingQueue.items == [] && dispatched == []
      ensures gestureDispatch.keyboardProcessor == keyboard && gestureDispatch.mouseProcessor == mouse
    {
      inbox := new RequestQueue();
      drawingQueue := new RequestQueue();
      gestureDispatch := new GestureDispatcher.GestureDispatcher(keyboard, mouse);
      trackedState := false;
      stopGestureRecognition := false;
      stopVisualThreads := false;
      dispatched := [];
    }

    /** Post a frame (None for a null object) to the worker; returns the semaphore's
        count before the signal. */
    method AddToQueue(skeletalData: Option<SkeletonFrame>) returns (previousCount: int)
      modifies inbox
      ensures inbox.items == old(inbox.items) + [skeletalData]
      ensures inbox.pending == old(inbox.pending) + 1 && previousCount == old(inbox.pending)
      ensures inbox.threadExit == old(inbox.threadExit)
    {
      previousCount := inbox.AddToQueue(skeletalData);
    }

    /** Whether some tracked skeleton has both hands above the head. */
    method StopGestureRecognition(frame: SkeletonFrame) returns (stopResult: bool)
      ensures stopResult == StopRequested(frame)
    {
      stopResult := false;
      var i := 0;
      while i < |frame|
        invariant 0 <= i <= |frame|
        invariant forall k | 0 <= k < i :: !(IsTracked(frame[k]) && HandsAboveHead(frame[k]))
      {
        var data := frame[i];
        if IsTracked(data) && HandsAboveHead(data) {
          stopResult := true;
          break;
        }
        i := i + 1;
      }
    }

    /** The start check, with the stop flag of the previous frame. */
    method CheckIntialCondition(frame: SkeletonFrame) returns (conditionCheck: int)
      ensures conditionCheck == InitialCondition(frame, stopGestureRecognition)
    {
      conditionCheck := -1;
      var i := 0;
      while i < |frame|
        invariant 0 <= i <= |frame|
        invariant InitialCondition(frame[i..], stopGestureRecognition) == InitialCondition(frame, stopGestureRecognition)
      {
        assert frame[i..][1..] == frame[i + 1..];
        var data := frame[i];
        if IsTracked(data) {
          if stopGestureRecognition {
            conditionCheck := ResultCodes.GestureDetectionFailed;
            return;
          }
          if HandsAboveHead(data) {
            conditionCheck := ResultCodes.GestureDetectionFailed;
            return;
          }
          if StartPose(data) {
            conditionCheck := ResultCodes.GestureDetected;
            return;
          }
        }
        i := i + 1;
      }
    }

    /** The gate's step on a frame: arm on the start pose (checked only while
        unarmed), record whether the frame holds the stop pose, and disarm on it.
        Returns whether the frame goes to the gestures. */
    method UpdateGate(frame: SkeletonFrame) returns (dispatch: bool)
      modifies this
      ensures (Gate(trackedState, stopGestureRecognition), dispatch)
        == GateStep(Gate(old(trackedState), old(stopGestureRecognition)), frame)
      ensures stopVisualThreads == old(stopVisualThreads) && dispatched == old(dispatched)
    {
      if !trackedState {
        var condition := CheckIntialCondition(frame);
        if condition == ResultCodes.GestureDetected {
          trackedState := true;
        }
      }
      stopGestureRecognition := StopGestureRecognition(frame);
      dispatch := false;
      if trackedState {
        if !stopGestureRecognition {
          dispatch := true;
        } else {
          trackedState := false;
        }
      }
    }

    /** The part of a frame's processing before the hand-over: draw the frame
        unless drawing is stopped, then take the gate's step. */
    method DrawAndUpdateGate(frame: SkeletonFrame) returns (dispatch: bool)
      modifies this, drawingQueue
      ensures (Gate(trackedState, stopGestureRecognition), dispatch)
        == GateStep(Gate(old(trackedState), old(stopGestureRecognition)), frame)
      ensures stopVisualThreads == old(stopVisualThreads) && dispatched == old(dispatched)
      ensures drawingQueue.items == old(drawingQueue.items) + (if stopVisualThreads then [] else [frame])
    {
      if !stopVisualThreads {
        var _ := drawingQueue.AddToQueue(frame);
      }
      dispatch := UpdateGate(frame);
    }

    /** Pass the drawing flag on to the dispatcher and hand it the frame. */
    method HandOver(frame: SkeletonFrame, now: int)
      requires gestureDispatch.Valid()
      modifies this, gestureDispatch, gestureDispatch.Footprint()
      ensures trackedState == old(trackedState) && stopGestureRecognition == old(stopGestureRecognition)
      ensures stopVisualThreads == old(stopVisualThreads)
      ensures dispatched == old(dispatched) + [(frame, now)]
      ensures gestureDispatch.stopVisualThreads == stopVisualThreads
    {
      gestureDispatch.stopVisualThreads := stopVisualThreads;
      var _ := gestureDispatch.ProcessNewGestureData(frame, now);
      dispatched := dispatched + [(frame, now)];
    }

    /** One frame: a null object is refused with OutOfMemory and changes nothing.
        Otherwise the frame is drawn unless drawing is stopped, the gate takes its
        step, and a dispatched frame is handed to the dispatcher with the drawing
        flag passed on; a frame the gate holds back reaches no gesture queue.
        `now` is the clock reading that stamps it. */
    method ProcessNewSkeletalData(skeletalData: Option<SkeletonFrame>, now: int) returns (processingResult: int)
      requires Valid()
      modifies this, drawingQueue, gestureDispatch, gestureDispatch.Footprint()
      ensures processingResult == (if skeletalData.None? then ResultCodes.OutOfMemory else ResultCodes.Success)
      ensures skeletalData.None? ==>
        unchanged(this, drawingQueue, gestureDispatch) && unchanged(gestureDispatch.Footprint())
      ensures stopVisualThreads == old(stopVisualThreads)
      ensures skeletalData.Some? ==>
        Gate(trackedState, stopGestureRecognition) == GateStep(Gate(old(trackedState), old(stopGestureRecognition)), skeletalData.value).0
      ensures skeletalData.Some? ==>
        drawingQueue.items == old(drawingQueue.items) + (if stopVisualThreads then [] else [skeletalData.value])
      ensures skeletalData.Some? && GateStep(Gate(old(trackedState), old(stopGestureRecognition)), skeletalData.value).1 ==>
        dispatched == old(dispatched) + [(skeletalData.value, now)] && gestureDispatch.stopVisualThreads == stopVisualThreads
      ensures skeletalData.Some? && !GateStep(Gate(old(trackedState), old(stopGestureRecognition)), skeletalData.value).1 ==>
        dispatched == old(dispatched) && unchanged(gestureDispatch) && unchanged(gestureDispatch.Footprint())
    {
      processingResult := ResultCodes.Success;
      if skeletalData.None? {
        processingResult := ResultCodes.OutOfMemory;
        return;
      }
      var frame := skeletalData.value;
      var dispatch := DrawAndUpdateGate(frame);
      if dispatch {
        HandOver(frame, now);
      }
    }

    /** One pass of the worker loop: wait for a signal, then process the head of
        the queue if there is one. */
    method HandleRequest(now: int) returns (next: Option<Option<SkeletonFrame>>)
      requires Valid() && inbox.pending > 0
      modifies this, inbox, drawingQueue, gestureDispatch, gestureDispatch.Footprint()
      ensures |old(inbox.items)| == 0 ==> next == None && inbox.items == old(inbox.items)
      ensures |old(inbox.items)| > 0 ==> next == Some(old(inbox.items)[0]) && inbox.items == old(inbox.items)[1..]
      ensures inbox.pending == old(inbox.pending) - 1 && inbox.threadExit == old(inbox.threadExit)
      ensures stopVisualThreads == old(stopVisualThreads)
      ensures next.None? || next.value.None? ==>
        unchanged(this, drawingQueue, gestureDispatch) && unchanged(gestureDispatch.Footprint())
      ensures next.Some? && next.value.Some? ==>
        Gate(trackedState, stopGestureRecognition)
          == GateStep(Gate(old(trackedState), old(stopGestureRecognition)), next.value.value).0
      ensures next.Some? && next.value.Some? ==>
        drawingQueue.items == old(drawingQueue.items) + (if stopVisualThreads then [] else [next.value.value])
      ensures next.Some? && next.value.Some? && GateStep(Gate(old(trackedState), old(stopGestureRecognition)), next.value.value).1 ==>
        dispatched == old(dispatched) + [(next.value.value, now)] && gestureDispatch.stopVisualThreads == stopVisualThreads
      ensures next.Some? && next.value.Some? && !GateStep(Gate(old(trackedState), old(stopGestureRecognition)), next.value.value).1 ==>
        dispatched == old(dispatched) && unchanged(gestureDispatch) && unchanged(gestureDispatch.Footprint())
    {
      next := inbox.WaitForRequest();
      if next.Some? {
        var _ := ProcessNewSkeletalData(next.value, now);
      }
    }
  }
}
