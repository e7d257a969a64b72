// The mouse-pointer detector: while the left hand is held out in front of the
// chest and above the hips, the left wrist's motion moves the pointer, relative
// to its position on the previous frame (800 pixels per metre across, 600 per
// metre up, screen y growing downwards). The first two frames inside the box
// only record the wrist's position.
module MousePointerGesture {
  import opened Wrappers
  import opened Kinect
  import opened GestureBase
  import ResultCodes
  import MouseButton

  const ScaleX: real := 800.0
  const ScaleY: real := 600.0

  /** The C# cast of a float to int: truncation toward zero. */
  function Trunc(r: real): (n: int)
    ensures r - 1.0 < n as real < r + 1.0
    ensures 0.0 <= r ==> 0 <= n && n as real <= r
    ensures r <= 0.0 ==> n <= 0 && r <= n as real
  {
    if r >= 0.0 then r.Floor else -((-r).Floor)
  }

  function Wrist(s: SkeletonData): Vector {
    s.joints(WristLeft)
  }

  /** IsInsideBox: the left hand at least three quarters of the head-to-spine
      height in front of the spine, and the left wrist above both hips. */
  predicate InsideBox(s: SkeletonData) {
    var boundDistance := (3.0 / 4.0) * (s.joints(Head).y - s.joints(Spine).y);
    var currentHandChestDifference := s.joints(Spine).z - s.joints(HandLeft).z;
    !(currentHandChestDifference < boundDistance) &&
    !(Wrist(s).y < s.joints(HipLeft).y || Wrist(s).y < s.joints(HipRight).y)
  }

  /** A pointer move by the given offsets, as the detector raises it. */
  function PointerMove(dx: int, dy: int): MouseEventData {
    NewMouseEventData.(mouseAction := MouseButton.MOUSE_MOVE, xCoordinate := dx, yCoordinate := dy)
  }

  datatype PointerState = PointerState(frameNumber: int, prevDepthX: real, prevDepthY: real)

  const InitialPointerState := PointerState(0, 0.0, 0.0)

  /** The frame counter only takes the values 0, 1 and 2. */
  predicate PointerInvariant(s: PointerState) {
    0 <= s.frameNumber <= 2
  }

  datatype PointerOutput = PointerOutput(state: PointerState, events: seq<MouseEventData>, result: int)

  /** ProcessNewGestureData. */
  function PointerStep(s: PointerState, e: NuiElement): (r: PointerOutput)
    ensures r.result == ResultCodes.OutOfMemory <==> TrackedSkeleton(e).None?
    ensures r.result == ResultCodes.Success || r.result == ResultCodes.OutOfMemory
    ensures |r.events| <= 1
    ensures r.events != [] <==> TrackedSkeleton(e).Some? && InsideBox(TrackedSkeleton(e).value) && s.frameNumber > 1
  {
    var latest := TrackedSkeleton(e);
    if latest.None? then PointerOutput(s, [], ResultCodes.OutOfMemory)
    else if !InsideBox(latest.value) then PointerOutput(s.(frameNumber := 0), [], ResultCodes.Success)
    else
      var w := Wrist(latest.value);
      if s.frameNumber <= 1 then
        PointerOutput(PointerState(s.frameNumber + 1, w.x, w.y), [], ResultCodes.Success)
      else
        var dx := w.x - s.prevDepthX;
        var dy := w.y - s.prevDepthY;
        PointerOutput(PointerState(s.frameNumber, w.x, w.y), [PointerMove(Trunc(dx * ScaleX), Trunc(-1.0 * dy * ScaleY))], ResultCodes.Success)
  }

  /** Every frame keeps the counter in 0..2. */
  lemma StepPreservesInvariant(s: PointerState, e: NuiElement)
    requires PointerInvariant(s)
    ensures PointerInvariant(PointerStep(s, e).state)
  {
  }

  /** A move goes in the wrist's direction, is within one pixel of the scaled
      motion, and the recorded position becomes the wrist's. */
  lemma MoveFollowsWrist(s: PointerState, e: NuiElement)
    requires PointerStep(s, e).events != []
    ensures var r := PointerStep(s, e);
      var w := Wrist(TrackedSkeleton(e).value);
      && r.events[0].mouseAction == MouseButton.MOUSE_MOVE
      && r.state.prevDepthX == w.x && r.state.prevDepthY == w.y
      && (w.x - s.prevDepthX) * ScaleX - 1.0 < r.events[0].xCoordinate as real < (w.x - s.prevDepthX) * ScaleX + 1.0
      && (s.prevDepthY - w.y) * ScaleY - 1.0 < r.events[0].yCoordinate as real < (s.prevDepthY - w.y) * ScaleY + 1.0
      && (w.x >= s.prevDepthX ==> r.events[0].xCoordinate >= 0)
      && (w.y >= s.prevDepthY ==> r.events[0].yCoordinate <= 0)
  {
  }

  /** Leaving the box restarts the count: the next two frames inside are silent. */
  lemma ReentryIsSilent(s: PointerState, out: NuiElement, in1: NuiElement, in2: NuiElement)
    requires TrackedSkeleton(out).Some? && !InsideBox(TrackedSkeleton(out).value)
    ensures var s1 := PointerStep(s, out).state;
      var s2 := PointerStep(s1, in1).state;
      && PointerStep(s, out).events == []
      && PointerStep(s1, in1).events == []
      && PointerStep(s2, in2).events == []
  {
  }

  /** The horizontal pixel offsets of a sequence of mouse events, summed. */
  function SumX(events: seq<MouseEventData>): int
    decreases |events|
  {
    if |events| == 0 then 0 else events[0].xCoordinate + SumX(events[1..])
  }

  /** Runs the detector over a sequence of frames: the final state and every event raised. */
  function PointerRun(s: PointerState, frames: seq<NuiElement>): (PointerState, seq<MouseEventData>)
    decreases |frames|
  {
    if |frames| == 0 then (s, [])
    else
      var r := PointerStep(s, frames[0]);
      var rest := PointerRun(r.state, frames[1..]);
      (rest.0, r.events + rest.1)
  }

  /** Every frame of the sequence has a tracked skeleton with the hand in the box. */
  predicate AllInside(frames: seq<NuiElement>) {
    forall i | 0 <= i < |frames| :: TrackedSkeleton(frames[i]).Some? && InsideBox(TrackedSkeleton(frames[i]).value)
  }

  lemma {:induction false} SumXConcat(a: seq<MouseEventData>, b: seq<MouseEventData>)
    ensures SumX(a + b) == SumX(a) + SumX(b)
    decreases |a|
  {
    if |a| == 0 {
      assert a + b == b;
    } else {
      assert (a + b)[1..] == a[1..] + b;
      SumXConcat(a[1..], b);
    }
  }

  /** While the hand stays in the box the pointer follows the wrist without
      drifting: the horizontal moves of a run add up to the wrist's whole scaled
      displacement, give or take one pixel per frame lost to truncation. */
  lemma {:induction false} PointerDoesNotDrift(s: PointerState, frames: seq<NuiElement>)
    requires s.frameNumber == 2 && |frames| > 0 && AllInside(frames)
    ensures var r := PointerRun(s, frames);
      var last := Wrist(TrackedSkeleton(frames[|frames| - 1]).value);
      && r.0.frameNumber == 2 && r.0.prevDepthX == last.x
      && (last.x - s.prevDepthX) * ScaleX - |frames| as real < SumX(r.1) as real < (last.x - s.prevDepthX) * ScaleX + |frames| as real
    decreases |frames|
  {
    var r := PointerStep(s, frames[0]);
    var w := Wrist(TrackedSkeleton(frames[0]).value);
    MoveFollowsWrist(s, frames[0]);
    assert SumX(r.events) == r.events[0].xCoordinate;
    if |frames| == 1 {
      assert PointerRun(s, frames) == (r.state, r.events + []);
      assert r.events + [] == r.events;
    } else {
      var tail := frames[1..];
      assert AllInside(tail) by {
        forall i | 0 <= i < |tail| ensures TrackedSkeleton(tail[i]).Some? && InsideBox(TrackedSkeleton(tail[i]).value) {
          assert tail[i] == frames[i + 1];
        }
      }
      PointerDoesNotDrift(r.state, tail);
      var rest := PointerRun(r.state, tail);
      SumXConcat(r.events, rest.1);
      assert tail[|tail| - 1] == frames[|frames| - 1];
    }
  }

  class MousePointerGesture {
    const inbox: RequestQueue<NuiElement>
    const mouseGestureAction: EventSubscription<MouseEventData>
    var frameNumber: int
    var prevDepthX: real
    var prevDepthY: real

    function State(): PointerState
      reads this
    {
      PointerState(frameNumber, prevDepthX, prevDepthY)
    }

    constructor()
      ensures State() == InitialPointerState
      ensures fresh(inbox) && fresh(mouseGestureAction)
      ensures inbox.items == [] && inbox.pending == 0 && !inbox.threadExit
      ensures !mouseGestureAction.subscribed && mouseGestureAction.delivered == []
    {
      inbox := new RequestQueue();
      mouseGestureAction := new EventSubscription(false);
      frameNumber := 0;
      prevDepthX := 0.0;
      prevDepthY := 0.0;
    }

    method ProcessNewGestureData(e: NuiElement) returns (result: int)
      modifies this, mouseGestureAction
      ensures var r := PointerStep(old(State()), e);
        && result == r.result
        && State() == r.state
        && mouseGestureAction.delivered == Delivered(mouseGestureAction.subscribed, old(mouseGestureAction.delivered), r.events)
      ensures mouseGestureAction.subscribed == old(mouseGestureAction.subscribed)
    {
      var latestSkeleton := FirstTracked(e.frame);
      if latestSkeleton.None? {
        return ResultCodes.OutOfMemory;
      }
      var isInside := IsInsideBox(latestSkeleton);
      if isInside {
        var depthX := latestSkeleton.value.joints(WristLeft).x;
        var depthY := latestSkeleton.value.joints(WristLeft).y;
        if frameNumber <= 1 {
          prevDepthX := depthX;
          prevDepthY := depthY;
          frameNumber := frameNumber + 1;
        } else {
          var tmpX := depthX;
          var tmpY := depthY;
          depthX := depthX - prevDepthX;
          depthY := depthY - prevDepthY;
          prevDepthX := tmpX;
          prevDepthY := tmpY;
          var scaledDepthX := depthX * 800.0;
          var scaledDepthY := -1.0 * depthY * 600.0;
          var mouseData := NewMouseEventData;
          mouseData := mouseData.(mouseAction := MouseButton.MOUSE_MOVE);
          mouseData := mouseData.(xCoordinate := Trunc(scaledDepthX));
          mouseData := mouseData.(yCoordinate := Trunc(scaledDepthY));
          mouseGestureAction.Raise(mouseData);
        }
      } else {
        frameNumber := 0;
      }
      result := 0;
    }

    method IsInsideBox(trackedSkeleton: Option<SkeletonData>) returns (isInside: bool)
      ensures isInside <==> trackedSkeleton.Some? && InsideBox(trackedSkeleton.value)
    {
      if trackedSkeleton.None? {
        return false;
      }
      var s := trackedSkeleton.value;
      var boundDistance := (3.0 / 4.0) * (s.joints(Head).y - s.joints(Spine).y);
      var currentHandChestDifference := s.joints(Spine).z - s.joints(HandLeft).z;
      if currentHandChestDifference < boundDistance {
        return false;
      }
      if s.joints(WristLeft).y < s.joints(HipLeft).y || s.joints(WristLeft).y < s.joints(HipRight).y {
        return false;
      }
      isInside := true;
    }

    /** One pass of the worker loop. */
    method GestureAnalyzerStep()
      requires inbox.pending > 0
      modifies this, inbox, mouseGestureAction
      ensures inbox.pending == old(inbox.pending) - 1
      ensures inbox.threadExit == old(inbox.threadExit) && mouseGestureAction.subscribed == old(mouseGestureAction.subscribed)
      ensures |old(inbox.items)| == 0 ==>
        && inbox.items == old(inbox.items)
        && State() == old(State())
        && mouseGestureAction.delivered == old(mouseGestureAction.delivered)
      ensures |old(inbox.items)| > 0 ==>
        var r := PointerStep(old(State()), old(inbox.items)[0]);
        && inbox.items == old(inbox.items)[1..]
        && State() == r.state
        && mouseGestureAction.delivered == Delivered(mouseGestureAction.subscribed, old(mouseGestureAction.delivered), r.events)
    {
      var next := inbox.WaitForRequest();
      if next.Some? {
        var _ := ProcessNewGestureData(next.value);
      }
    }
  }
}
