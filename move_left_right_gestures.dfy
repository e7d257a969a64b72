// The sideways-step detector. A right ankle moving right by 0.35 m within
// 1200 ms presses and holds the "move right" key; a left ankle moving left
// presses "move left"; bringing the feet together (closer than 0.4 m) while a
// key is held releases both keys.
module MoveLeftRightGestures {
  import opened Wrappers
  import opened Kinect
  import opened GestureBase
  import opened SlidingWindow
  import opened GestureThresholdValues
  import ResultCodes
  import KeyboardAction
  import KeyboardPersistance
  import GestureID

  /** The right ankle did not move right since the previous frame. */
  function RightRejects(oldest: SkeletonData, previous: SkeletonData, latest: SkeletonData): bool {
    latest.joints(AnkleRight).x <= previous.joints(AnkleRight).x
  }

  /** The right ankle moved right by the threshold distance within the threshold time. */
  function RightTriggers(oldest: SkeletonData, latest: SkeletonData, elapsed: int): bool {
    elapsed < MoveLeftRightGestureTime && latest.joints(AnkleRight).x - oldest.joints(AnkleRight).x >= MoveLeftRightDistance
  }

  /** The left ankle did not move left since the previous frame. */
  function LeftRejects(oldest: SkeletonData, previous: SkeletonData, latest: SkeletonData): bool {
    latest.joints(AnkleLeft).x >= previous.joints(AnkleLeft).x
  }

  /** The left ankle moved left by the threshold distance within the threshold time. */
  function LeftTriggers(oldest: SkeletonData, latest: SkeletonData, elapsed: int): bool {
    elapsed < MoveLeftRightGestureTime && latest.joints(AnkleLeft).x - oldest.joints(AnkleLeft).x <= -MoveLeftRightDistance
  }

  function DetectRight(buffer: seq<NuiElement>, e: NuiElement): WindowResult {
    Slide(buffer, e, RightRejects, RightTriggers)
  }

  function DetectLeft(buffer: seq<NuiElement>, e: NuiElement): WindowResult {
    Slide(buffer, e, LeftRejects, LeftTriggers)
  }

  /** The feet are close together sideways: the cancel pose. */
  predicate FeetTogether(s: SkeletonData) {
    Abs(s.joints(FootLeft).x - s.joints(FootRight).x) < 0.4
  }

  const ReleaseLeftByRight := KeyboardEventData(GestureID.RIGHT_LEG_MOVED, KeyboardAction.MOVE_LEFT, KeyboardPersistance.RELEASE)
  const ReleaseRightByRight := KeyboardEventData(GestureID.RIGHT_LEG_MOVED, KeyboardAction.MOVE_RIGHT, KeyboardPersistance.RELEASE)
  const PressRight := KeyboardEventData(GestureID.RIGHT_LEG_MOVED, KeyboardAction.MOVE_RIGHT, KeyboardPersistance.PRESS)
  const ReleaseRightByLeft := KeyboardEventData(GestureID.LEFT_LEG_MOVED, KeyboardAction.MOVE_RIGHT, KeyboardPersistance.RELEASE)
  const PressLeft := KeyboardEventData(GestureID.LEFT_LEG_MOVED, KeyboardAction.MOVE_LEFT, KeyboardPersistance.PRESS)

  datatype LegsState = LegsState(isMoveGestureDetected: bool, rightFrameBuffer: seq<NuiElement>, leftFrameBuffer: seq<NuiElement>)

  const InitialLegsState := LegsState(false, [], [])

  datatype LegsOutput = LegsOutput(state: LegsState, events: seq<KeyboardEventData>, result: int)

  /** ProcessNewGestureData. While a key is held, the cancel pose releases both
      keys and nothing else runs. Otherwise the right detector runs, and the left
      one only when the right one did not fire; each detection re-presses its key,
      whether or not a key is already held. */
  function LegsStep(s: LegsState, e: NuiElement): (r: LegsOutput)
    requires s.isMoveGestureDetected ==> TrackedSkeleton(e).Some?
    ensures r.events in {[], [ReleaseLeftByRight, ReleaseRightByRight], [ReleaseLeftByRight, PressRight], [ReleaseRightByLeft, PressLeft]}
    ensures r.result == ResultCodes.Success <==> r.events != []
    ensures r.result == ResultCodes.Success || r.result == -1
  {
    if s.isMoveGestureDetected && FeetTogether(TrackedSkeleton(e).value) then
      LegsOutput(s.(isMoveGestureDetected := false), [ReleaseLeftByRight, ReleaseRightByRight], ResultCodes.Success)
    else
      var right := DetectRight(s.rightFrameBuffer, e);
      if right.code == ResultCodes.GestureDetected then
        LegsOutput(LegsState(true, right.buffer, s.leftFrameBuffer), [ReleaseLeftByRight, PressRight], ResultCodes.Success)
      else
        var left := DetectLeft(s.leftFrameBuffer, e);
        if left.code == ResultCodes.GestureDetected then
          LegsOutput(LegsState(true, right.buffer, left.buffer), [ReleaseRightByLeft, PressLeft], ResultCodes.Success)
        else
          LegsOutput(LegsState(s.isMoveGestureDetected, right.buffer, left.buffer), [], -1)
  }

  /** While a key is held, the cancel pose releases both keys, clears the latch and
      leaves both buffers untouched. */
  lemma CancelReleasesBothKeys(s: LegsState, e: NuiElement)
    requires s.isMoveGestureDetected && TrackedSkeleton(e).Some?
    requires FeetTogether(TrackedSkeleton(e).value)
    ensures LegsStep(s, e) == LegsOutput(LegsState(false, s.rightFrameBuffer, s.leftFrameBuffer),
                                         [ReleaseLeftByRight, ReleaseRightByRight], ResultCodes.Success)
  {
  }

  /** A right step presses "move right" and sets the latch; the left buffer is not
      touched in that frame, since the left detector does not run. */
  lemma RightStepPressesRight(s: LegsState, e: NuiElement)
    requires s.isMoveGestureDetected ==> TrackedSkeleton(e).Some? && !FeetTogether(TrackedSkeleton(e).value)
    requires DetectRight(s.rightFrameBuffer, e).code == ResultCodes.GestureDetected
    ensures var r := LegsStep(s, e);
      && r.events == [ReleaseLeftByRight, PressRight]
      && r.state == LegsState(true, [], s.leftFrameBuffer)
  {
  }

  /** A left step (with no right step in the same frame) presses "move left". */
  lemma LeftStepPressesLeft(s: LegsState, e: NuiElement)
    requires s.isMoveGestureDetected ==> TrackedSkeleton(e).Some? && !FeetTogether(TrackedSkeleton(e).value)
    requires DetectRight(s.rightFrameBuffer, e).code != ResultCodes.GestureDetected
    requires DetectLeft(s.leftFrameBuffer, e).code == ResultCodes.GestureDetected
    ensures var r := LegsStep(s, e);
      && r.events == [ReleaseRightByLeft, PressLeft]
      && r.state == LegsState(true, DetectRight(s.rightFrameBuffer, e).buffer, [])
  {
  }

  /** One frame keeps the latch equal to "the last event pressed a key". */
  lemma StepTracksHeldKey(s: LegsState, e: NuiElement, log: seq<KeyboardEventData>)
    requires s.isMoveGestureDetected ==> TrackedSkeleton(e).Some?
    requires s.isMoveGestureDetected == KeyHeld(log)
    ensures LegsStep(s, e).state.isMoveGestureDetected == KeyHeld(log + LegsStep(s, e).events)
  {
    var r := LegsStep(s, e);
    if r.events == [] {
      assert log + r.events == log;
    } else {
      assert (log + r.events)[|log + r.events| - 1] == r.events[1];
    }
  }

  /** Runs the detector over a sequence of frames: the final state and every event raised. */
  function LegsRun(s: LegsState, frames: seq<NuiElement>): (LegsState, seq<KeyboardEventData>)
    requires AllTracked(frames)
    decreases |frames|
  {
    if |frames| == 0 then (s, [])
    else
      var r := LegsStep(s, frames[0]);
      var rest := LegsRun(r.state, frames[1..]);
      (rest.0, r.events + rest.1)
  }

  /** LegsRun on a non-empty run: the first frame's step, then the rest. */
  lemma LegsRunUnfold(s: LegsState, frames: seq<NuiElement>)
    requires |frames| > 0 && AllTracked(frames)
    ensures AllTracked(frames[1..]) && TrackedSkeleton(frames[0]).Some?
    ensures var r := LegsStep(s, frames[0]);
      var rest := LegsRun(r.state, frames[1..]);
      LegsRun(s, frames) == (rest.0, r.events + rest.1)
  {
    AllTrackedTail(frames);
  }

  /** The inductive step of LatchTracksHeldKey: the first frame's step keeps the
      latch in line with the log, and the rest of the run does so by hypothesis. */
  lemma LatchTracksHeldKeyStep(s: LegsState, frames: seq<NuiElement>, log: seq<KeyboardEventData>)
    requires |frames| > 0 && AllTracked(frames)
    requires s.isMoveGestureDetected == KeyHeld(log)
    requires TrackedSkeleton(frames[0]).Some? && AllTracked(frames[1..])
    requires var r := LegsStep(s, frames[0]);
      var rest := LegsRun(r.state, frames[1..]);
      r.state.isMoveGestureDetected == KeyHeld(log + r.events) ==>
      rest.0.isMoveGestureDetected == KeyHeld((log + r.events) + rest.1)
    ensures LegsRun(s, frames).0.isMoveGestureDetected == KeyHeld(log + LegsRun(s, frames).1)
  {
    LegsRunUnfold(s, frames);
    var r := LegsStep(s, frames[0]);
    var rest := LegsRun(r.state, frames[1..]);
    StepTracksHeldKey(s, frames[0], log);
    KeyHeldRegroup(log, r.events, rest.1);
  }

  /** The latch always says whether the detector's last event pressed a key: it is
      set exactly while a movement key is held down in the game, over any run of
      tracked frames, starting from the initial state with no events. */
  lemma {:induction false} LatchTracksHeldKey(s: LegsState, frames: seq<NuiElement>, log: seq<KeyboardEventData>)
    requires AllTracked(frames)
    requires s.isMoveGestureDetected == KeyHeld(log)
    ensures LegsRun(s, frames).0.isMoveGestureDetected == KeyHeld(log + LegsRun(s, frames).1)
    decreases |frames|
  {
    if |frames| == 0 {
      assert log + LegsRun(s, frames).1 == log;
    } else {
      AllTrackedTail(frames);
      var r := LegsStep(s, frames[0]);
      if r.state.isMoveGestureDetected == KeyHeld(log + r.events) {
        LatchTracksHeldKey(r.state, frames[1..], log + r.events);
      }
      LatchTracksHeldKeyStep(s, frames, log);
    }
  }

  class MoveLeftRightGestures {
    const inbox: RequestQueue<NuiElement>
    const keyboardGestureAction: EventSubscription<KeyboardEventData>
    var rightFrameBuffer: seq<NuiElement>
    var leftFrameBuffer: seq<NuiElement>
    var isMoveGestureDetected: bool

    function State(): LegsState
      reads this
    {
      LegsState(isMoveGestureDetected, rightFrameBuffer, leftFrameBuffer)
    }

    constructor()
      ensures State() == InitialLegsState
      ensures fresh(inbox) && fresh(keyboardGestureAction)
      ensures inbox.items == [] && inbox.pending == 0 && !inbox.threadExit
      ensures !keyboardGestureAction.subscribed && keyboardGestureAction.delivered == []
    {
      inbox := new RequestQueue();
      keyboardGestureAction := new EventSubscription(false);
      rightFrameBuffer := [];
      leftFrameBuffer := [];
      isMoveGestureDetected := false;
    }

    method ProcessNewGestureData(e: NuiElement) returns (detectResult: int)
      requires isMoveGestureDetected ==> TrackedSkeleton(e).Some?
      modifies this, keyboardGestureAction
      ensures var r := LegsStep(old(State()), e);
        && detectResult == r.result
        && State() == r.state
        && keyboardGestureAction.delivered == Delivered(keyboardGestureAction.subscribed, old(keyboardGestureAction.delivered), r.events)
      ensures keyboardGestureAction.subscribed == old(keyboardGestureAction.subscribed)
    {
      detectResult := -1;
      if isMoveGestureDetected {
        var cancel := CancelLeftRightMoveGesture(e);
        if cancel {
          isMoveGestureDetected := false;
          ghost var before := keyboardGestureAction.delivered;
          RaiseGestureEvent(GestureID.RIGHT_LEG_MOVED, KeyboardAction.MOVE_LEFT, KeyboardPersistance.RELEASE);
          RaiseGestureEvent(GestureID.RIGHT_LEG_MOVED, KeyboardAction.MOVE_RIGHT, KeyboardPersistance.RELEASE);
          DeliveredTwice(keyboardGestureAction.subscribed, before, ReleaseLeftByRight, ReleaseRightByRight);
          return ResultCodes.Success;
        }
      }
      var right := DetectRightMoveGesture(e);
      if right == ResultCodes.GestureDetected {
        isMoveGestureDetected := true;
        ghost var before := keyboardGestureAction.delivered;
        RaiseGestureEvent(GestureID.RIGHT_LEG_MOVED, KeyboardAction.MOVE_LEFT, KeyboardPersistance.RELEASE);
        RaiseGestureEvent(GestureID.RIGHT_LEG_MOVED, KeyboardAction.MOVE_RIGHT, KeyboardPersistance.PRESS);
        DeliveredTwice(keyboardGestureAction.subscribed, before, ReleaseLeftByRight, PressRight);
        return ResultCodes.Success;
      }
      var left := DetectLeftMoveGesture(e);
      if left == ResultCodes.GestureDetected {
        isMoveGestureDetected := true;
        ghost var before := keyboardGestureAction.delivered;
        RaiseGestureEvent(GestureID.LEFT_LEG_MOVED, KeyboardAction.MOVE_RIGHT, KeyboardPersistance.RELEASE);
        RaiseGestureEvent(GestureID.LEFT_LEG_MOVED, KeyboardAction.MOVE_LEFT, KeyboardPersistance.PRESS);
        DeliveredTwice(keyboardGestureAction.subscribed, before, ReleaseRightByLeft, PressLeft);
        return ResultCodes.Success;
      }
    }

    method DetectRightMoveGesture(e: NuiElement) returns (conditionResult: int)
      modifies this
      ensures conditionResult == DetectRight(old(rightFrameBuffer), e).code
      ensures rightFrameBuffer == DetectRight(old(rightFrameBuffer), e).buffer
      ensures leftFrameBuffer == old(leftFrameBuffer) && isMoveGestureDetected == old(isMoveGestureDetected)
    {
      rightFrameBuffer := rightFrameBuffer + [e];
      if |rightFrameBuffer| <= 1 {
        return ResultCodes.GestureDetectionFailed;
      }
      var oldestElement := rightFrameBuffer[0];
      var previousElement := rightFrameBuffer[|rightFrameBuffer| - 2];
      var latestElement := rightFrameBuffer[|rightFrameBuffer| - 1];
      var latestSkeleton := FirstTracked(latestElement.frame);
      var previousSkeleton := FirstTracked(previousElement.frame);
      var oldestSkeleton := FirstTracked(oldestElement.frame);
      if latestSkeleton.None? || previousSkeleton.None? || oldestSkeleton.None? {
        return ResultCodes.NullTrackedSkeleton;
      }
      assert Endpoints(rightFrameBuffer) == Some((oldestSkeleton.value, previousSkeleton.value, latestSkeleton.value));
      if latestSkeleton.value.joints(AnkleRight).x <= previousSkeleton.value.joints(AnkleRight).x {
        rightFrameBuffer := [];
        return ResultCodes.GestureDetectionFailed;
      }
      if latestElement.timeStamp - oldestElement.timeStamp < MoveLeftRightGestureTime &&
         latestSkeleton.value.joints(AnkleRight).x - oldestSkeleton.value.joints(AnkleRight).x >= MoveLeftRightDistance
      {
        rightFrameBuffer := [];
        return ResultCodes.GestureDetected;
      }
      conditionResult := ResultCodes.GestureDetectionFailed;
    }

    method DetectLeftMoveGesture(e: NuiElement) returns (conditionResult: int)
      modifies this
      ensures conditionResult == DetectLeft(old(leftFrameBuffer), e).code
      ensures leftFrameBuffer == DetectLeft(old(leftFrameBuffer), e).buffer
      ensures rightFrameBuffer == old(rightFrameBuffer) && isMoveGestureDetected == old(isMoveGestureDetected)
    {
      leftFrameBuffer := leftFrameBuffer + [e];
      if |leftFrameBuffer| <= 1 {
        return ResultCodes.GestureDetectionFailed;
      }
      var oldestElement := leftFrameBuffer[0];
      var previousElement := leftFrameBuffer[|leftFrameBuffer| - 2];
      var latestElement := leftFrameBuffer[|leftFrameBuffer| - 1];
      var latestSkeleton := FirstTracked(latestElement.frame);
      var previousSkeleton := FirstTracked(previousElement.frame);
      var oldestSkeleton := FirstTracked(oldestElement.frame);
      if latestSkeleton.None? || previousSkeleton.None? || oldestSkeleton.None? {
        return ResultCodes.NullTrackedSkeleton;
      }
      assert Endpoints(leftFrameBuffer) == Some((oldestSkeleton.value, previousSkeleton.value, latestSkeleton.value));
      if latestSkeleton.value.joints(AnkleLeft).x >= previousSkeleton.value.joints(AnkleLeft).x {
        leftFrameBuffer := [];
        return ResultCodes.GestureDetectionFailed;
      }
      if latestElement.timeStamp - oldestElement.timeStamp < MoveLeftRightGestureTime &&
         latestSkeleton.value.joints(AnkleLeft).x - oldestSkeleton.value.joints(AnkleLeft).x <= -MoveLeftRightDistance
      {
        leftFrameBuffer := [];
        return ResultCodes.GestureDetected;
      }
      conditionResult := ResultCodes.GestureDetectionFailed;
    }

    /** The cancel test dereferences the frame's tracked skeleton without a check. */
    method CancelLeftRightMoveGesture(e: NuiElement) returns (conditionResult: bool)
      requires TrackedSkeleton(e).Some?
      ensures conditionResult <==> FeetTogether(TrackedSkeleton(e).value)
    {
      var latestSkeleton := FirstTracked(e.frame).value;
      var threshold := Abs(latestSkeleton.joints(FootLeft).x - latestSkeleton.joints(FootRight).x);
      conditionResult := threshold < 0.4;
    }

    method RaiseGestureEvent(gestureId: int, keyAction: int, persistance: int)
      modifies keyboardGestureAction
      ensures keyboardGestureAction.subscribed == old(keyboardGestureAction.subscribed)
      ensures keyboardGestureAction.delivered == Delivered(keyboardGestureAction.subscribed,
        old(keyboardGestureAction.delivered), [KeyboardEventData(gestureId, keyAction, persistance)])
    {
      keyboardGestureAction.Raise(KeyboardEventData(gestureId, keyAction, persistance));
    }

    /** One pass of the worker loop. */
    method GestureAnalyzerStep()
      requires inbox.pending > 0 && AllTracked(inbox.items)
      modifies this, inbox, keyboardGestureAction
      ensures inbox.pending == old(inbox.pending) - 1 && AllTracked(inbox.items)
      ensures inbox.threadExit == old(inbox.threadExit) && keyboardGestureAction.subscribed == old(keyboardGestureAction.subscribed)
      ensures |old(inbox.items)| == 0 ==>
        && inbox.items == old(inbox.items)
        && State() == old(State())
        && keyboardGestureAction.delivered == old(keyboardGestureAction.delivered)
      ensures |old(inbox.items)| > 0 ==>
        var r := LegsStep(old(State()), old(inbox.items)[0]);
        && inbox.items == old(inbox.items)[1..]
        && State() == r.state
        && keyboardGestureAction.delivered == Delivered(keyboardGestureAction.subscribed, old(keyboardGestureAction.delivered), r.events)
    {
      var next := inbox.WaitForRequest();
      if next.Some? {
        assert TrackedSkeleton(old(inbox.items)[0]).Some?;
        var _ := ProcessNewGestureData(next.value);
      }
    }
  }
}
