// The gesture dispatcher: hands every frame with a tracked skeleton to each
// gesture detector's queue (and to the transformed-skeleton drawing), and
// forwards the gestures the detectors raise to the keyboard and mouse workers.
module GestureDispatcher {
  import opened Wrappers
  import opened Kinect
  import opened GestureBase
  import ResultCodes
  import JumpGesture
  import MoveLeftRightGestures
  import MoveFrontBackGestures
  import MousePointerGesture
  import ShootingGesture
  import KeyboardInputProcessor
  import MouseInputProcessor

  /** What a frame adds to each queue: the timestamped frame when it has a tracked
      skeleton, nothing otherwise. */
  function FanOut(frame: SkeletonFrame, now: int): (r: seq<NuiElement>)
    ensures |r| <= 1
    ensures r != [] <==> FirstTracked(frame).Some?
    ensures AllTracked(r)
    ensures forall e | e in r :: e.frame == frame && e.timeStamp == now
  {
    if FirstTracked(frame).None? then [] else [NuiElement(frame, now)]
  }

  /** A detector's queue keeps the guarantee the detectors rely on: every queued
      element has a tracked skeleton. */
  lemma FanOutKeepsQueuesTracked(queued: seq<NuiElement>, frame: SkeletonFrame, now: int)
    requires AllTracked(queued)
    ensures AllTracked(queued + FanOut(frame, now))
  {
    var r := queued + FanOut(frame, now);
    forall i | 0 <= i < |r| ensures TrackedSkeleton(r[i]).Some? {
      if i >= |queued| {
        assert r[i] == FanOut(frame, now)[i - |queued|];
      }
    }
  }

  /** The mouse worker's result as the dispatcher reports it. */
  function MouseCommandResult(previousCount: int): int {
    if previousCount <= 0 then ResultCodes.KeyPressFailed else previousCount
  }

  class GestureDispatcher {
    const legsGesture: MoveLeftRightGestures.MoveLeftRightGestures?
    const mouseGesture: MousePointerGesture.MousePointerGesture?
    const frontbackGesture: MoveFrontBackGestures.MoveFrontBackGestures?
    const jumpGesture: JumpGesture.JumpGesture?
    const shootGesture: ShootingGesture.ShootingGesture?
    /** The queue of the transformed-skeleton drawing. */
    const drawSkeleton: RequestQueue<SkeletonFrame>
    const keyboardProcessor: KeyboardInputProcessor.KeyboardInputProcessor
    const mouseProcessor: MouseInputProcessor.MouseInputProcessor
    var stopVisualThreads: bool

    /** Each detector that exists has its own queue. */
    predicate Valid() {
      && (legsGesture != null && mouseGesture != null ==> legsGesture.inbox != mouseGesture.inbox)
      && (legsGesture != null && frontbackGesture != null ==> legsGesture.inbox != frontbackGesture.inbox)
      && (legsGesture != null && jumpGesture != null ==> legsGesture.inbox != jumpGesture.inbox)
      && (legsGesture != null && shootGesture != null ==> legsGesture.inbox != shootGesture.inbox)
      && (mouseGesture != null && frontbackGesture != null ==> mouseGesture.inbox != frontbackGesture.inbox)
      && (mouseGesture != null && jumpGesture != null ==> mouseGesture.inbox != jumpGesture.inbox)
      && (mouseGesture != null && shootGesture != null ==> mouseGesture.inbox != shootGesture.inbox)
      && (frontbackGesture != null && jumpGesture != null ==> frontbackGesture.inbox != jumpGesture.inbox)
      && (frontbackGesture != null && shootGesture != null ==> frontbackGesture.inbox != shootGesture.inbox)
      && (jumpGesture != null && shootGesture != null ==> jumpGesture.inbox != shootGesture.inbox)
    }

    /** The queues of the detectors that exist. */
    function DetectorInboxes(): set<RequestQueue<NuiElement>> {
      (if legsGesture != null then {legsGesture.inbox} else {})
      + (if mouseGesture != null then {mouseGesture.inbox} else {})
      + (if frontbackGesture != null then {frontbackGesture.inbox} else {})
      + (if jumpGesture != null then {jumpGesture.inbox} else {})
      + (if shootGesture != null then {shootGesture.inbox} else {})
    }

    /** The objects a frame changes: the detectors' queues and the drawing's queue. */
    function Footprint(): set<object> {
      DetectorInboxes() + {drawSkeleton}
    }

    /** What handing a frame over does: the queue of every detector that exists
        gains the frame's element (none for a frame without a tracked skeleton),
        and the drawing's queue gains the frame when it has a tracked skeleton and
        `drawing` is set. */
    twostate predicate HandedOver(frame: SkeletonFrame, now: int, drawing: bool)
      reads Footprint()
    {
      && (legsGesture != null ==>
            && legsGesture.inbox.items == old(legsGesture.inbox.items) + FanOut(frame, now)
            && legsGesture.inbox.pending == old(legsGesture.inbox.pending) + |FanOut(frame, now)|)
      && (mouseGesture != null ==>
            && mouseGesture.inbox.items == old(mouseGesture.inbox.items) + FanOut(frame, now)
            && mouseGesture.inbox.pending == old(mouseGesture.inbox.pending) + |FanOut(frame, now)|)
      && (frontbackGesture != null ==>
            && frontbackGesture.inbox.items == old(frontbackGesture.inbox.items) + FanOut(frame, now)
            && frontbackGesture.inbox.pending == old(frontbackGesture.inbox.pending) + |FanOut(frame, now)|)
      && (jumpGesture != null ==>
            && jumpGesture.inbox.items == old(jumpGesture.inbox.items) + FanOut(frame, now)
            && jumpGesture.inbox.pending == old(jumpGesture.inbox.pending) + |FanOut(frame, now)|)
      && (shootGesture != null ==>
            && shootGesture.inbox.items == old(shootGesture.inbox.items) + FanOut(frame, now)
            && shootGesture.inbox.pending == old(shootGesture.inbox.pending) + |FanOut(frame, now)|)
      && drawSkeleton.items == old(drawSkeleton.items)
           + (if FirstTracked(frame).Some? && drawing then [frame] else [])
    }

    /** Builds every detector and attaches the dispatcher's handler to its event. */
    constructor(keyboard: KeyboardInputProcessor.KeyboardInputProcessor, mouse: MouseInputProcessor.MouseInputProcessor)
      ensures Valid()
      ensures keyboardProcessor == keyboard && mouseProcessor == mouse
      ensures !stopVisualThreads && fresh(drawSkeleton) && drawSkeleton.items == []
      ensures legsGesture != null && fresh(legsGesture.inbox) && legsGesture.keyboardGestureAction.subscribed
      ensures mouseGesture != null && fresh(mouseGesture.inbox) && mouseGesture.mouseGestureAction.subscribed
      ensures frontbackGesture != null && fresh(frontbackGesture.inbox) && frontbackGesture.keyboardGestureAction.subscribed
      ensures jumpGesture != null && fresh(jumpGesture.inbox) && jumpGesture.keyboardGestureAction.subscribed
      ensures shootGesture != null && fresh(shootGesture.inbox) && shootGesture.mouseGestureAction.subscribed
    {
      keyboardProcessor := keyboard;
      mouseProcessor := mouse;
      drawSkeleton := new RequestQueue();
      stopVisualThreads := false;
      // GestureProcessorModule: create the detectors and subscribe to their events.
      var legs := NewLegsGesture();
      var pointer := NewMouseGesture();
      var shoot := NewShootGesture();
      var frontback := NewFrontBackGesture();
      var jump := NewJumpGesture();
      legsGesture, mouseGesture, shootGesture := legs, pointer, shoot;
      frontbackGesture, jumpGesture := frontback, jump;
    }

    static method NewLegsGesture() returns (g: MoveLeftRightGestures.MoveLeftRightGestures)
      ensures fresh(g) && fresh(g.inbox) && g.keyboardGestureAction.subscribed
    {
      g := new MoveLeftRightGestures.MoveLeftRightGestures();
      g.keyboardGestureAction.Subscribe();
    }

    static method NewMouseGesture() returns (g: MousePointerGesture.MousePointerGesture)
      ensures fresh(g) && fresh(g.inbox) && g.mouseGestureAction.subscribed
    {
      g := new MousePointerGesture.MousePointerGesture();
      g.mouseGestureAction.Subscribe();
    }

    static method NewShootGesture() returns (g: ShootingGesture.ShootingGesture)
      ensures fresh(g) && fresh(g.inbox) && g.mouseGestureAction.subscribed
    {
      g := new ShootingGesture.ShootingGesture();
      g.mouseGestureAction.Subscribe();
    }

    static method NewFrontBackGesture() returns (g: MoveFrontBackGestures.MoveFrontBackGestures)
      ensures fresh(g) && fresh(g.inbox) && g.keyboardGestureAction.subscribed
    {
      g := new MoveFrontBackGestures.MoveFrontBackGestures();
      g.keyboardGestureAction.Subscribe();
    }

    static method NewJumpGesture() returns (g: JumpGesture.JumpGesture)
      ensures fresh(g) && fresh(g.inbox) && g.keyboardGestureAction.subscribed
    {
      g := new JumpGesture.JumpGesture();
      g.keyboardGestureAction.Subscribe();
    }

    /** Hand a frame to every detector that exists and, unless drawing is stopped,
        to the transformed-skeleton drawing. `now` is the clock reading that
        stamps it. */
    method ProcessNewGestureData(frame: SkeletonFrame, now: int) returns (result: int)
      requires Valid()
      modifies Footprint()
      ensures result == (if FirstTracked(frame).None? then ResultCodes.NullTrackedSkeleton else ResultCodes.Success)
      ensures HandedOver(frame, now, !stopVisualThreads)
    {
      result := ResultCodes.Success;
      var trackedSkeleton := FirstTracked(frame);
      if trackedSkeleton.None? {
        result := ResultCodes.NullTrackedSkeleton;
        return;
      }
      var nuiElement := NuiElement(frame, now);
      assert FanOut(frame, now) == [nuiElement];
      if legsGesture != null {
        var _ := legsGesture.inbox.AddToQueue(nuiElement);
      }
      if mouseGesture != null {
        var _ := mouseGesture.inbox.AddToQueue(nuiElement);
      }
      if frontbackGesture != null {
        var _ := frontbackGesture.inbox.AddToQueue(nuiElement);
      }
      if jumpGesture != null {
        var _ := jumpGesture.inbox.AddToQueue(nuiElement);
      }
      if shootGesture != null {
        var _ := shootGesture.inbox.AddToQueue(nuiElement);
      }
      if !stopVisualThreads {
        var _ := drawSkeleton.AddToQueue(frame);
      }
    }

    /** The handler attached to the jump, left/right and front/back detectors:
        forward the command unchanged to the keyboard worker, and return the
        worker's count of outstanding signals before it. */
    method SendGameCommand(actionID: int, persistance: int) returns (sendResult: int)
      modifies keyboardProcessor.inbox
      ensures keyboardProcessor.inbox.items
        == old(keyboardProcessor.inbox.items) + [KeyboardInputProcessor.KeyboardData(actionID, persistance)]
      ensures keyboardProcessor.inbox.pending == old(keyboardProcessor.inbox.pending) + 1
      ensures sendResult == old(keyboardProcessor.inbox.pending)
    {
      sendResult := keyboardProcessor.AddToQueue(KeyboardInputProcessor.KeyboardData(actionID, persistance));
    }

    /** The handler attached to the mouse-pointer and shooting detectors: forward
        the command unchanged to the mouse worker. The result is KeyPressFailed
        whenever the worker had no outstanding signal, although the command was
        queued all the same. */
    method SendMouseCommand(keyAction: int, persistance: int, xCoordinate: int, yCoordinate: int) returns (sendResult: int)
      modifies mouseProcessor.inbox
      ensures mouseProcessor.inbox.items
        == old(mouseProcessor.inbox.items) + [MouseInputProcessor.MouseData(keyAction, persistance, xCoordinate, yCoordinate)]
      ensures mouseProcessor.inbox.pending == old(mouseProcessor.inbox.pending) + 1
      ensures sendResult == MouseCommandResult(old(mouseProcessor.inbox.pending))
      ensures old(mouseProcessor.inbox.pending) == 0 ==> sendResult == ResultCodes.KeyPressFailed
    {
      sendResult := ResultCodes.KeyPressFailed;
      sendResult := mouseProcessor.AddToQueue(MouseInputProcessor.MouseData(keyAction, persistance, xCoordinate, yCoordinate));
      if sendResult <= 0 {
        sendResult := ResultCodes.KeyPressFailed;
      }
    }

    /** The keyboard handlers: the event record's action and persistence. */
    method OnKeyboardGesture(eventData: KeyboardEventData)
      modifies keyboardProcessor.inbox
      ensures keyboardProcessor.inbox.items == old(keyboardProcessor.inbox.items)
        + [KeyboardInputProcessor.KeyboardData(eventData.keyboardAction, eventData.keyboardPersistance)]
      ensures keyboardProcessor.inbox.pending == old(keyboardProcessor.inbox.pending) + 1
    {
      var _ := SendGameCommand(eventData.keyboardAction, eventData.keyboardPersistance);
    }

    /** The mouse handlers: the event record's action, persistence and offset. */
    method OnMouseGesture(eventData: MouseEventData)
      modifies mouseProcessor.inbox
      ensures mouseProcessor.inbox.items == old(mouseProcessor.inbox.items)
        + [MouseInputProcessor.MouseData(eventData.mouseAction, eventData.keyPersistance, eventData.xCoordinate, eventData.yCoordinate)]
      ensures mouseProcessor.inbox.pending == old(mouseProcessor.inbox.pending) + 1
    {
      var _ := SendMouseCommand(eventData.mouseAction, eventData.keyPersistance, eventData.xCoordinate, eventData.yCoordinate);
    }
  }
}
