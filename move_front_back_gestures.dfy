// The forward/backward-step detector. Both ankles moving towards the sensor,
// one of them by 0.35 m within 1200 ms, presses and holds "move up"; both moving
// away presses "move down"; feet level in depth (closer than 0.4 m) while a key
// is held releases both keys. Depth (z) grows away from the sensor.
module MoveFrontBackGestures {
  import opened Wrappers
  import opened Kinect
  import opened GestureBase
  import opened SlidingWindow
  import opened GestureThresholdValues
  import ResultCodes
  import KeyboardAction
  import KeyboardPersistance
  import GestureID

  // The detector's own copies of the left/right table's values.
  const FrontBackGestureTime: int := 1200
  const FrontBackDistance: real := 0.35

  /** One of the ankles did not come closer to the sensor since the previous frame. */
  function UpRejects(oldest: SkeletonData, previous: SkeletonData, latest: SkeletonData): bool {
    latest.joints(AnkleRight).z >= previous.joints(AnkleRight).z ||
    latest.joints(AnkleLeft).z >= previous.joints(AnkleLeft).z
  }

  /** The right ankle, or else the left one, came 0.35 m closer within the time limit. */
  function UpTriggers(oldest: SkeletonData, latest: SkeletonData, elapsed: int): bool {
    (elapsed < FrontBackGestureTime && oldest.joints(AnkleRight).z - latest.joints(AnkleRight).z >= FrontBackDistance) ||
    (elapsed < FrontBackGestureTime && oldest.joints(AnkleLeft).z - latest.joints(AnkleLeft).z >= FrontBackDistance)
  }

  /** One of the ankles did not move away from the sensor since the previous frame. */
  function DownRejects(oldest: SkeletonData, previous: SkeletonData, latest: SkeletonData): bool {
    latest.joints(AnkleLeft).z <= previous.joints(AnkleLeft).z ||
    latest.joints(AnkleRight).z <= previous.joints(AnkleRight).z
  }

  /** The left ankle, or else the right one, moved 0.35 m away within the time limit. */
  function DownTriggers(oldest: SkeletonData, latest: SkeletonData, elapsed: int): bool {
    (elapsed < FrontBackGestureTime && oldest.joints(AnkleLeft).z - latest.joints(AnkleLeft).z <= -FrontBackDistance) ||
    (elapsed < FrontBackGestureTime && oldest.joints(AnkleRight).z - latest.joints(AnkleRight).z <= -FrontBackDistance)
  }

  function DetectUp(buffer: seq<NuiElement>, e: NuiElement): WindowResult {
    Slide(buffer, e, UpRejects, UpTriggers)
  }

  function DetectDown(buffer: seq<NuiElement>, e: NuiElement): WindowResult {
    Slide(buffer, e, DownRejects, DownTriggers)
  }

  /** On the same pair of frames at most one of the two guards lets the motion
      through: the ankles cannot both approach and both recede. */
  lemma GuardsAreExclusive(oldest: SkeletonData, previous: SkeletonData, latest: SkeletonData)
    ensures UpRejects(oldest, previous, latest) || DownRejects(oldest, previous, latest)
  {
  }

  /** The feet are level in depth: the cancel pose. */
  predicate FeetLevel(s: SkeletonData) {
    Abs(s.joints(FootLeft).z - s.joints(FootRight).z) < 0.4
  }

  const ReleaseUpByRight := KeyboardEventData(GestureID.RIGHT_LEG_MOVED, KeyboardAction.MOVE_UP, KeyboardPersistance.RELEASE)
  const ReleaseDownByRight := KeyboardEventData(GestureID.RIGHT_LEG_MOVED, KeyboardAction.MOVE_DOWN, KeyboardPersistance.RELEASE)
  const PressUp := KeyboardEventData(GestureID.RIGHT_LEG_MOVED, KeyboardAction.MOVE_UP, KeyboardPersistance.PRESS)
  const ReleaseUpByLeft := KeyboardEventData(GestureID.LEFT_LEG_MOVED, KeyboardAction.MOVE_UP, KeyboardPersistance.RELEASE)
  const PressDown := KeyboardEventData(GestureID.LEFT_LEG_MOVED, KeyboardAction.MOVE_DOWN, KeyboardPersistance.PRESS)

  datatype FrontBackState = FrontBackState(isMoveGestureDetected: bool, upFrameBuffer: seq<NuiElement>, downFrameBuffer: seq<NuiElement>)

  const InitialFrontBackState := FrontBackState(false, [], [])

  datatype FrontBackOutput = FrontBackOutput(state: FrontBackState, events: seq<KeyboardEventData>, result: int)

  /** ProcessNewGestureData: cancel while latched, else the up detector, else the
      down detector. */
  function FrontBackStep(s: FrontBackState, e: NuiElement): (r: FrontBackOutput)
    requires s.isMoveGestureDetected ==> TrackedSkeleton(e).Some?
    ensures r.events in {[], [ReleaseUpByRight, ReleaseDownByRight], [ReleaseDownByRight, PressUp], [ReleaseUpByLeft, PressDown]}
    ensures r.result == ResultCodes.Success <==> r.events != []
    ensures r.result == ResultCodes.Success || r.result == -1
  {
    if s.isMoveGestureDetected && FeetLevel(TrackedSkeleton(e).value) then
      FrontBackOutput(s.(isMoveGestureDetected := false), [ReleaseUpByRight, ReleaseDownByRight], ResultCodes.Success)
    else
      var up := DetectUp(s.upFrameBuffer, e);
      if up.code == ResultCodes.GestureDetected then
        FrontBackOutput(FrontBackState(true, up.buffer, s.downFrameBuffer), [ReleaseDownByRight, PressUp], ResultCodes.Success)
      else
        var down := DetectDown(s.downFrameBuffer, e);
        if down.code == ResultCodes.GestureDetected then
          FrontBackOutput(FrontBackState(true, up.buffer, down.buffer), [ReleaseUpByLeft, PressDown], ResultCodes.Success)
        else
          FrontBackOutput(FrontBackState(s.isMoveGestureDetected, up.buffer, down.buffer), [], -1)
  }

  /** While a key is held, level feet release both keys and touch no buffer. */
  lemma CancelReleasesBothKeys(s: FrontBackState, e: NuiElement)
    requires s.isMoveGestureDetected && TrackedSkeleton(e).Some?
    requires FeetLevel(TrackedSkeleton(e).value)
    ensures FrontBackStep(s, e) == FrontBackOutput(FrontBackState(false, s.upFrameBuffer, s.downFrameBuffer),
                                                   [ReleaseUpByRight, ReleaseDownByRight], ResultCodes.Success)
  {
  }

  /** When the up detector fires the down buffer is left as it was: the down
      detector does not see that frame. */
  lemma UpTakesPrecedence(s: FrontBackState, e: NuiElement)
    requires s.isMoveGestureDetected ==> TrackedSkeleton(e).Some? && !FeetLevel(TrackedSkeleton(e).value)
    requires DetectUp(s.upFrameBuffer, e).code == ResultCodes.GestureDetected
    ensures var r := FrontBackStep(s, e);
      && r.events == [ReleaseDownByRight, PressUp]
      && r.state == FrontBackState(true, [], s.downFrameBuffer)
  {
  }

  /** One frame keeps the latch equal to "the last event pressed a key". */
  lemma StepTracksHeldKey(s: FrontBackState, e: NuiElement, log: seq<KeyboardEventData>)
    requires s.isMoveGestureDetected ==> TrackedSkeleton(e).Some?
    requires s.isMoveGestureDetected == KeyHeld(log)
    ensures FrontBackStep(s, e).state.isMoveGestureDetected == KeyHeld(log + FrontBackStep(s, e).events)
  {
    var r := FrontBackStep(s, e);
    if r.events == [] {
      assert log + r.events == log;
    } else {
      assert (log + r.events)[|log + r.events| - 1] == r.events[1];
    }
  }

  /** Runs the detector over a sequence of frames: the final state and every event raised. */
  function FrontBackRun(s: FrontBackState, frames: seq<NuiElement>): (FrontBackState, seq<KeyboardEventData>)
    requires AllTracked(frames)
    decreases |frames|
  {
    if |frames| == 0 then (s, [])
    else
      var r := FrontBackStep(s, frames[0]);
      var rest := FrontBackRun(r.state, frames[1..]);
      (rest.0, r.events + rest.1)
  }

  lemma FrontBackRunUnfold(s: FrontBackState, frames: seq<NuiElement>)
    requires |frames| > 0 && AllTracked(frames)
    ensures AllTracked(frames[1..]) && TrackedSkeleton(frames[0]).Some?
    ensures var r := FrontBackStep(s, frames[0]);
      var rest := FrontBackRun(r.state, frames[1..]);
      FrontBackRun(s, frames) == (rest.0, r.events + rest.1)
  {
    AllTrackedTail(frames);
  }

  /** The inductive step of LatchTracksHeldKey: the first frame's step keeps the
      latch in line with the log, and the rest of the run does so by hypothesis. */
  lemma LatchTracksHeldKeyStep(s: FrontBackState, frames: seq<NuiElement>, log: seq<KeyboardEventData>)
    requires |frames| > 0 && AllTracked(frames)
    requires s.isMoveGestureDetected == KeyHeld(log)
    requires TrackedSkeleton(frames[0]).Some? && AllTracked(frames[1..])
    requires var r := FrontBackStep(s, frames[0]);
      var rest := FrontBackRun(r.state, frames[1..]);
      r.state.isMoveGestureDetected == KeyHeld(log + r.events) ==>
      rest.0.isMoveGestureDetected == KeyHeld((log + r.events) + rest.1)
    ensures FrontBackRun(s, frames).0.isMoveGestureDetected == KeyHeld(log + FrontBackRun(s, frames).1)
  {
    FrontBackRunUnfold(s, frames);
    var r := FrontBackStep(s, frames[0]);
    var rest := FrontBackRun(r.state, frames[1..]);
    StepTracksHeldKey(s, frames[0], log);
    KeyHeldRegroup(log, r.events, rest.1);
  }

  /** The latch is set exactly while a movement key is held down in the game,
      over any run of tracked frames. */
  lemma {:induction false} LatchTracksHeldKey(s: FrontBackState, frames: seq<NuiElement>, log: seq<KeyboardEventData>)
    requires AllTracked(frames)
    requires s.isMoveGestureDetected == KeyHeld(log)
    ensures FrontBackRun(s, frames).0.isMoveGestureDetected == KeyHeld(log + FrontBackRun(s, frames).1)
    decreases |frames|
  {
    if |frames| == 0 {
      assert log + FrontBackRun(s, frames).1 == log;
    } else {
      AllTrackedTail(frames);
      var r := FrontBackStep(s, frames[0]);
      if r.state.isMoveGestureDetected == KeyHeld(log + r.events) {
        LatchTracksHeldKey(r.state, frames[1..], log + r.events);
      }
      LatchTracksHeldKeyStep(s, frames, log);
    }
  }

  class MoveFrontBackGestures {
    const inbox: RequestQueue<NuiElement>
    const keyboardGestureAction: EventSubscription<KeyboardEventData>
    var upFrameBuffer: seq<NuiElement>
    var downFrameBuffer: seq<NuiElement>
    var isMoveGestureDetected: bool

    function State(): FrontBackState
      reads this
    {
      FrontBackState(isMoveGestureDetected, upFrameBuffer, downFrameBuffer)
    }

    constructor()
      ensures State() == InitialFrontBackState
      ensures fresh(inbox) && fresh(keyboardGestureAction)
      ensures inbox.items == [] && inbox.pending == 0 && !inbox.threadExit
      ensures !keyboardGestureAction.subscribed && keyboardGestureAction.delivered == []
    {
      inbox := new RequestQueue();
      keyboardGestureAction := new EventSubscription(false);
      upFrameBuffer := [];
      downFrameBuffer := [];
      isMoveGestureDetected := false;
    }

    method ProcessNewGestureData(e: NuiElement) returns (detectResult: int)
      requires isMoveGestureDetected ==> TrackedSkeleton(e).Some?
      modifies this, keyboardGestureAction
      ensures var r := FrontBackStep(old(State()), e);
        && detectResult == r.result
        && State() == r.state
        && keyboardGestureAction.delivered == Delivered(keyboardGestureAction.subscribed, old(keyboardGestureAction.delivered), r.events)
      ensures keyboardGestureAction.subscribed == old(keyboardGestureAction.subscribed)
    {
      detectResult := -1;
      if isMoveGestureDetected {
        var cancel := CancelFrontBackMoveGesture(e);
        if cancel {
          isMoveGestureDetected := false;
          ghost var before := keyboardGestureAction.delivered;
          RaiseGestureEvent(GestureID.RIGHT_LEG_MOVED, KeyboardAction.MOVE_UP, KeyboardPersistance.RELEASE);
          RaiseGestureEvent(GestureID.RIGHT_LEG_MOVED, KeyboardAction.MOVE_DOWN, KeyboardPersistance.RELEASE);
          DeliveredTwice(keyboardGestureAction.subscribed, before, ReleaseUpByRight, ReleaseDownByRight);
          return ResultCodes.Success;
        }
      }
      var up := DetectUpMoveGesture(e);
      if up == ResultCodes.GestureDetected {
        isMoveGestureDetected := true;
        ghost var before := keyboardGestureAction.delivered;
        RaiseGestureEvent(GestureID.RIGHT_LEG_MOVED, KeyboardAction.MOVE_DOWN, KeyboardPersistance.RELEASE);
        RaiseGestureEvent(GestureID.RIGHT_LEG_MOVED, KeyboardAction.MOVE_UP, KeyboardPersistance.PRESS);
        DeliveredTwice(keyboardGestureAction.subscribed, before, ReleaseDownByRight, PressUp);
        return ResultCodes.Success;
      }
      var down := DetectDownMoveGesture(e);
      if down == ResultCodes.GestureDetected {
        isMoveGestureDetected := true;
        ghost var before := keyboardGestureAction.delivered;
        RaiseGestureEvent(GestureID.LEFT_LEG_MOVED, KeyboardAction.MOVE_UP, KeyboardPersistance.RELEASE);
        RaiseGestureEvent(GestureID.LEFT_LEG_MOVED, KeyboardAction.MOVE_DOWN, KeyboardPersistance.PRESS);
        DeliveredTwice(keyboardGestureAction.subscribed, before, ReleaseUpByLeft, PressDown);
        return ResultCodes.Success;
      }
    }

    method DetectUpMoveGesture(e: NuiElement) returns (conditionResult: int)
      modifies this
      ensures conditionResult == DetectUp(old(upFrameBuffer), e).code
      ensures upFrameBuffer == DetectUp(old(upFrameBuffer), e).buffer
      ensures downFrameBuffer == old(downFrameBuffer) && isMoveGestureDetected == old(isMoveGestureDetected)
    {
      upFrameBuffer := upFrameBuffer + [e];
      if |upFrameBuffer| <= 1 {
        return ResultCodes.GestureDetectionFailed;
      }
      var oldestElement := upFrameBuffer[0];
      var previousElement := upFrameBuffer[|upFrameBuffer| - 2];
      var latestElement := upFrameBuffer[|upFrameBuffer| - 1];
      var latestSkeleton := FirstTracked(latestElement.frame);
      var previousSkeleton := FirstTracked(previousElement.frame);
      var oldestSkeleton := FirstTracked(oldestElement.frame);
      if latestSkeleton.None? || previousSkeleton.None? || oldestSkeleton.None? {
        return ResultCodes.NullTrackedSkeleton;
      }
      var latest, previous, oldest := latestSkeleton.value, previousSkeleton.value, oldestSkeleton.value;
      assert Endpoints(upFrameBuffer) == Some((oldest, previous, latest));
      if latest.joints(AnkleRight).z >= previous.joints(AnkleRight).z ||
         latest.joints(AnkleLeft).z >= previous.joints(AnkleLeft).z
      {
        upFrameBuffer := [];
        return ResultCodes.GestureDetectionFailed;
      }
      var elapsed := latestElement.timeStamp - oldestElement.timeStamp;
      if elapsed < FrontBackGestureTime && oldest.joints(AnkleRight).z - latest.joints(AnkleRight).z >= FrontBackDistance {
        upFrameBuffer := [];
        return ResultCodes.GestureDetected;
      }
      if elapsed < FrontBackGestureTime && oldest.joints(AnkleLeft).z - latest.joints(AnkleLeft).z >= FrontBackDistance {
        upFrameBuffer := [];
        return ResultCodes.GestureDetected;
      }
      conditionResult := ResultCodes.GestureDetectionFailed;
    }

    method DetectDownMoveGesture(e: NuiElement) returns (conditionResult: int)
      modifies this
      ensures conditionResult == DetectDown(old(downFrameBuffer), e).code
      ensures downFrameBuffer == DetectDown(old(downFrameBuffer), e).buffer
      ensures upFrameBuffer == old(upFrameBuffer) && isMoveGestureDetected == old(isMoveGestureDetected)
    {
      downFrameBuffer := downFrameBuffer + [e];
      if |downFrameBuffer| <= 1 {
        return ResultCodes.GestureDetectionFailed;
      }
      var oldestElement := downFrameBuffer[0];
      var previousElement := downFrameBuffer[|downFrameBuffer| - 2];
      var latestElement := downFrameBuffer[|downFrameBuffer| - 1];
      var latestSkeleton := FirstTracked(latestElement.frame);
      var previousSkeleton := FirstTracked(previousElement.frame);
      var oldestSkeleton := FirstTracked(oldestElement.frame);
      if latestSkeleton.None? || previousSkeleton.None? || oldestSkeleton.None? {
        return ResultCodes.NullTrackedSkeleton;
      }
      var latest, previous, oldest := latestSkeleton.value, previousSkeleton.value, oldestSkeleton.value;
      assert Endpoints(downFrameBuffer) == Some((oldest, previous, latest));
      if latest.joints(AnkleLeft).z <= previous.joints(AnkleLeft).z ||
         latest.joints(AnkleRight).z <= previous.joints(AnkleRight).z
      {
        downFrameBuffer := [];
        return ResultCodes.GestureDetectionFailed;
      }
      var elapsed := latestElement.timeStamp - oldestElement.timeStamp;
      if elapsed < FrontBackGestureTime && oldest.joints(AnkleLeft).z - latest.joints(AnkleLeft).z <= -FrontBackDistance {
        downFrameBuffer := [];
        return ResultCodes.GestureDetected;
      }
      if elapsed < FrontBackGestureTime && oldest.joints(AnkleRight).z - latest.joints(AnkleRight).z <= -FrontBackDistance {
        downFrameBuffer := [];
        return ResultCodes.GestureDetected;
      }
      conditionResult := ResultCodes.GestureDetectionFailed;
    }

    /** Named CancelLeftRightMoveGesture in the source; it compares depths. */
    method CancelFrontBackMoveGesture(e: NuiElement) returns (conditionResult: bool)
      requires TrackedSkeleton(e).Some?
      ensures conditionResult <==> FeetLevel(TrackedSkeleton(e).value)
    {
      var latestSkeleton := FirstTracked(e.frame).value;
      var threshold := Abs(latestSkeleton.joints(FootLeft).z - latestSkeleton.joints(FootRight).z);
      conditionResult := threshold < 0.4;
    }

    method RaiseGestureEvent(gestureId: int, keyAction: int, persistance: int)
      modifies keyboardGestureAction
      ensures keyboardGestureAction.subscribed == old(keyboardGestureAction.subscribed)
      ensures keyboardGestureAction.delivered == Delivered(keyboardGestureAction.subscribed,
        old(keyboardGestureAction.delivered), [KeyboardEventData(gestureId, keyAction, persistance)])
    {
      keyboardGestureAction.Raise(KeyboardEventData(gestureId, keyAction, persistance));
    }

    /** One pass of the worker loop. */
    method GestureAnalyzerStep()
      requires inbox.pending > 0 && AllTracked(inbox.items)
      modifies this, inbox, keyboardGestureAction
      ensures inbox.pending == old(inbox.pending) - 1 && AllTracked(inbox.items)
      ensures inbox.threadExit == old(inbox.threadExit) && keyboardGestureAction.subscribed == old(keyboardGestureAction.subscribed)
      ensures |old(inbox.items)| == 0 ==>
        && inbox.items == old(inbox.items)
        && State() == old(State())
        && keyboardGestureAction.delivered == old(keyboardGestureAction.delivered)
      ensures |old(inbox.items)| > 0 ==>
        var r := FrontBackStep(old(State()), old(inbox.items)[0]);
        && inbox.items == old(inbox.items)[1..]
        && State() == r.state
        && keyboardGestureAction.delivered == Delivered(keyboardGestureAction.subscribed, old(keyboardGestureAction.delivered), r.events)
    {
      var next := inbox.WaitForRequest();
      if next.Some? {
        assert TrackedSkeleton(old(inbox.items)[0]).Some?;
        var _ := ProcessNewGestureData(next.value);
      }
    }
  }
}
