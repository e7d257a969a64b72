// The jump detector: the hip centre rising by at least 0.3 m, frame after frame,
// within 800 ms, becomes a press-and-release of the jump key.
module JumpGesture {
  import opened Wrappers
  import opened Kinect
  import opened GestureBase
  import opened SlidingWindow
  import opened GestureThresholdValues
  import ResultCodes
  import KeyboardAction
  import KeyboardPersistance
  import GestureID

  function HipHeight(s: SkeletonData): real {
    s.joints(HipCenter).y
  }

  /** The hip did not rise since the previous frame. */
  function JumpRejects(oldest: SkeletonData, previous: SkeletonData, latest: SkeletonData): bool {
    HipHeight(latest) <= HipHeight(previous)
  }

  /** The hip rose by the jump distance within the jump time. */
  function JumpTriggers(oldest: SkeletonData, latest: SkeletonData, elapsed: int): bool {
    elapsed < JumpGestureTime && HipHeight(latest) - HipHeight(oldest) >= JumpDistance
  }

  /** DetectJumpGesture on the jump buffer. */
  function DetectJump(buffer: seq<NuiElement>, e: NuiElement): WindowResult {
    Slide(buffer, e, JumpRejects, JumpTriggers)
  }

  /** The single event a detected jump raises. */
  const JumpEvent := KeyboardEventData(GestureID.RIGHT_LEG_MOVED, KeyboardAction.JUMP, KeyboardPersistance.PRESS_AND_RELEASE)

  datatype JumpOutput = JumpOutput(buffer: seq<NuiElement>, events: seq<KeyboardEventData>, result: int)

  /** ProcessNewGestureData: detect, and raise the jump event on detection. */
  function JumpStep(buffer: seq<NuiElement>, e: NuiElement): (r: JumpOutput)
    ensures r.events == [] || r.events == [JumpEvent]
    ensures r.result == ResultCodes.Success <==> r.events == [JumpEvent]
    ensures r.result == ResultCodes.Success || r.result == -1
    ensures r.events == [JumpEvent] ==> r.buffer == []
  {
    var d := DetectJump(buffer, e);
    if d.code == ResultCodes.GestureDetected then JumpOutput(d.buffer, [JumpEvent], ResultCodes.Success)
    else JumpOutput(d.buffer, [], -1)
  }

  /** A jump is reported exactly when the buffer held a frame, the oldest,
      previous and latest frames are tracked, the hip rose since the previous
      frame, and it rose at least 0.3 m since the oldest frame in under 800 ms. */
  lemma JumpReportedIff(buffer: seq<NuiElement>, e: NuiElement)
    ensures JumpStep(buffer, e).events == [JumpEvent] <==>
      (|buffer| >= 1 &&
       var buf := buffer + [e];
       Endpoints(buf).Some? &&
       var (o, p, l) := Endpoints(buf).value;
       HipHeight(l) > HipHeight(p) &&
       e.timeStamp - buffer[0].timeStamp < 800 &&
       HipHeight(l) - HipHeight(o) >= 0.3)
  {
    DetectedIff(buffer, e, JumpRejects, JumpTriggers);
  }

  /** A frame whose hip is not higher than the previous frame's empties the buffer
      and reports nothing: a jump must rise on every frame. */
  lemma PlateauRestartsWindow(buffer: seq<NuiElement>, e: NuiElement)
    requires |buffer| >= 1
    requires Endpoints(buffer + [e]).Some?
    requires var (o, p, l) := Endpoints(buffer + [e]).value; HipHeight(l) <= HipHeight(p)
    ensures JumpStep(buffer, e) == JumpOutput([], [], -1)
  {
  }

  class JumpGesture {
    const inbox: RequestQueue<NuiElement>
    const keyboardGestureAction: EventSubscription<KeyboardEventData>
    var jumpFrameBuffer: seq<NuiElement>
    /** Allocated by the constructor and never used. */
    var leftFrameBuffer: seq<NuiElement>

    constructor()
      ensures jumpFrameBuffer == [] && leftFrameBuffer == []
      ensures fresh(inbox) && fresh(keyboardGestureAction)
      ensures inbox.items == [] && inbox.pending == 0 && !inbox.threadExit
      ensures !keyboardGestureAction.subscribed && keyboardGestureAction.delivered == []
    {
      inbox := new RequestQueue();
      keyboardGestureAction := new EventSubscription(false);
      jumpFrameBuffer := [];
      leftFrameBuffer := [];
    }

    method DetectJumpGesture(e: NuiElement) returns (conditionResult: int)
      modifies this
      ensures conditionResult == DetectJump(old(jumpFrameBuffer), e).code
      ensures jumpFrameBuffer == DetectJump(old(jumpFrameBuffer), e).buffer
      ensures leftFrameBuffer == old(leftFrameBuffer)
    {
      jumpFrameBuffer := jumpFrameBuffer + [e];
      if |jumpFrameBuffer| <= 1 {
        return ResultCodes.GestureDetectionFailed;
      }
      var oldestElement := jumpFrameBuffer[0];
      var previousElement := jumpFrameBuffer[|jumpFrameBuffer| - 2];
      var latestElement := jumpFrameBuffer[|jumpFrameBuffer| - 1];
      var latestSkeleton := FirstTracked(latestElement.frame);
      var previousSkeleton := FirstTracked(previousElement.frame);
      var oldestSkeleton := FirstTracked(oldestElement.frame);
      if latestSkeleton.None? || previousSkeleton.None? || oldestSkeleton.None? {
        return ResultCodes.NullTrackedSkeleton;
      }
      assert Endpoints(jumpFrameBuffer) == Some((oldestSkeleton.value, previousSkeleton.value, latestSkeleton.value));
      if latestSkeleton.value.joints(HipCenter).y <= previousSkeleton.value.joints(HipCenter).y {
        jumpFrameBuffer := [];
        return ResultCodes.GestureDetectionFailed;
      }
      if latestElement.timeStamp - oldestElement.timeStamp < JumpGestureTime &&
         latestSkeleton.value.joints(HipCenter).y - oldestSkeleton.value.joints(HipCenter).y >= JumpDistance
      {
        jumpFrameBuffer := [];
        return ResultCodes.GestureDetected;
      }
      conditionResult := ResultCodes.GestureDetectionFailed;
    }

    method ProcessNewGestureData(e: NuiElement) returns (detectResult: int)
      modifies this, keyboardGestureAction
      ensures var r := JumpStep(old(jumpFrameBuffer), e);
        && detectResult == r.result
        && jumpFrameBuffer == r.buffer
        && keyboardGestureAction.delivered == Delivered(keyboardGestureAction.subscribed, old(keyboardGestureAction.delivered), r.events)
      ensures keyboardGestureAction.subscribed == old(keyboardGestureAction.subscribed)
      ensures leftFrameBuffer == old(leftFrameBuffer)
    {
      detectResult := -1;
      var code := DetectJumpGesture(e);
      if code == ResultCodes.GestureDetected {
        keyboardGestureAction.Raise(KeyboardEventData(GestureID.RIGHT_LEG_MOVED, KeyboardAction.JUMP, KeyboardPersistance.PRESS_AND_RELEASE));
        detectResult := ResultCodes.Success;
      }
    }

    /** One pass of the worker loop: wait for a signal, then process the head of the queue. */
    method GestureAnalyzerStep()
      requires inbox.pending > 0
      modifies this, inbox, keyboardGestureAction
      ensures inbox.pending == old(inbox.pending) - 1
      ensures inbox.threadExit == old(inbox.threadExit) && keyboardGestureAction.subscribed == old(keyboardGestureAction.subscribed)
      ensures leftFrameBuffer == old(leftFrameBuffer)
      ensures |old(inbox.items)| == 0 ==>
        && inbox.items == old(inbox.items)
        && jumpFrameBuffer == old(jumpFrameBuffer)
        && keyboardGestureAction.delivered == old(keyboardGestureAction.delivered)
      ensures |old(inbox.items)| > 0 ==>
        var r := JumpStep(old(jumpFrameBuffer), old(inbox.items)[0]);
        && inbox.items == old(inbox.items)[1..]
        && jumpFrameBuffer == r.buffer
        && keyboardGestureAction.delivered == Delivered(keyboardGestureAction.subscribed, old(keyboardGestureAction.delivered), r.events)
    {
      var next := inbox.WaitForRequest();
      if next.Some? {
        var _ := ProcessNewGestureData(next.value);
      }
    }
  }
}
