// The aiming and shooting detector, driven by the right hand.
//  - Aim: the right hand held at shoulder height toggles the game's aim mode
//    with a right click; dropping the hand well below the shoulder toggles it
//    back.
//  - Shoot: the right hand pulled back towards the body (away from the sensor)
//    by a calibrated distance, held steady, within 200..1200 ms, holds the left
//    button down (continuous fire); the hand pushed forward again, dropped below
//    the hip or stretched far from the body releases it.
// All distances come from the shooting threshold table, calibrated from the
// player's shoulder width on the first tracked frame.
module ShootingGesture {
  import opened Wrappers
  import opened Kinect
  import opened GestureBase
  import opened SlidingWindow
  import opened GestureThresholdValues
  import ResultCodes
  import MouseButton
  import MousePresistance

  const FrameBufferSize: int := 60
  const ThresholdGestureTime: int := 1200
  const MinThresholdGestureTime: int := 200

  function Hand(s: SkeletonData): Vector {
    s.joints(HandRight)
  }

  /** The hand drifted more than `xy` from where it was at the start of the window. */
  predicate Drifted(t: ShootingThresholds, oldest: SkeletonData, latest: SkeletonData) {
    Hand(latest).y > Hand(oldest).y + t.shootThresholdXY || Hand(latest).y < Hand(oldest).y - t.shootThresholdXY ||
    Hand(latest).x > Hand(oldest).x + t.shootThresholdXY || Hand(latest).x < Hand(oldest).x - t.shootThresholdXY
  }

  /** Guards of the shoot window: the hand moved forward since the previous frame,
      drifted sideways or vertically, fell below the hip, or rose above the head. */
  predicate ShootRejects(t: ShootingThresholds, oldest: SkeletonData, previous: SkeletonData, latest: SkeletonData) {
    Hand(latest).z < Hand(previous).z ||
    Drifted(t, oldest, latest) ||
    Hand(latest).y < latest.joints(HipCenter).y - t.shootThresholdXY ||
    Hand(latest).y > latest.joints(Head).y + t.shootThresholdXY
  }

  /** The hand came back by more than the shooting distance in 200..1200 ms. */
  predicate ShootTriggers(t: ShootingThresholds, oldest: SkeletonData, latest: SkeletonData, elapsed: int) {
    elapsed > MinThresholdGestureTime && elapsed < ThresholdGestureTime &&
    Hand(latest).z - Hand(oldest).z > t.shootThresholdDistance
  }

  /** Guards of the cancel window: the hand moved back since the previous frame,
      or drifted sideways or vertically. */
  predicate CancelRejects(t: ShootingThresholds, oldest: SkeletonData, previous: SkeletonData, latest: SkeletonData) {
    Hand(latest).z > Hand(previous).z || Drifted(t, oldest, latest)
  }

  /** Shooting ends when the hand drops below the hip, reaches 2.5 shooting
      distances in front of the hip, or is pushed forward by more than the
      shooting distance in 200..1200 ms. */
  predicate CancelTriggers(t: ShootingThresholds, oldest: SkeletonData, latest: SkeletonData, elapsed: int) {
    Hand(latest).y < latest.joints(HipCenter).y - t.shootThresholdXY ||
    Hand(latest).z < latest.joints(HipCenter).z - 2.5 * t.shootThresholdDistance ||
    (elapsed > MinThresholdGestureTime && elapsed < ThresholdGestureTime &&
     Hand(oldest).z - Hand(latest).z > t.shootThresholdDistance)
  }

  /** IsShootTrue on the shoot buffer. */
  function DetectShoot(t: ShootingThresholds, buffer: seq<NuiElement>, e: NuiElement): WindowResult {
    Slide(buffer, e, (o, p, l) => ShootRejects(t, o, p, l), (o, l, dt) => ShootTriggers(t, o, l, dt))
  }

  /** IsShootcancel on the cancel buffer. */
  function DetectCancel(t: ShootingThresholds, buffer: seq<NuiElement>, e: NuiElement): WindowResult {
    Slide(buffer, e, (o, p, l) => CancelRejects(t, o, p, l), (o, l, dt) => CancelTriggers(t, o, l, dt))
  }

  /** IsAimTrue: the hand within half the aim threshold of the shoulder's height. */
  predicate AimPose(t: ShootingThresholds, s: SkeletonData) {
    !(Hand(s).y < s.joints(ShoulderRight).y - t.aimThresholdY * 0.5 ||
      Hand(s).y > s.joints(ShoulderRight).y + t.aimThresholdY * 0.5)
  }

  /** JackInManojsBox: the hand not lower than 0.7 shoulder widths below the
      shoulder, measured on the current skeleton rather than the table. */
  predicate InsideAimBox(s: SkeletonData) {
    !(Hand(s).y < s.joints(ShoulderRight).y - ShoulderWidth(s) * 0.7)
  }

  /** IsInSideShootBox's test: the hand stays within the box thresholds of where
      it was when the shot was detected (only a forward move counts in depth). */
  predicate InsideShootBox(t: ShootingThresholds, anchor: SkeletonData, current: SkeletonData) {
    !(Hand(current).x > Hand(anchor).x + t.insideBoxThresholdX ||
      Hand(current).x < Hand(anchor).x - t.insideBoxThresholdX ||
      Hand(current).y > Hand(anchor).y + t.insideBoxThresholdY ||
      Hand(current).y < Hand(anchor).y - t.insideBoxThresholdY ||
      Hand(current).z < Hand(anchor).z - t.insideBoxThresholdZ)
  }

  /** With the table calibrated from a skeleton, that skeleton's aim pose is
      inside its own aim box: entering aim mode never leaves it on the same frame. */
  lemma AimPoseIsInsideAimBox(s: SkeletonData)
    ensures AimPose(Calibrate(s), s) ==> InsideAimBox(s)
  {
    CalibrationFractions(s);
  }

  const AimToggle := MouseEventData(MouseButton.RIGHT_MOUSE_BUTTON, MousePresistance.PRESS_AND_RELEASE, -1, -1)
  const ShootPress := MouseEventData(MouseButton.LEFT_MOUSE_BUTTON, MousePresistance.DOUBLE_CLICK_HOLD, -1, -1)
  const ShootRelease := MouseEventData(MouseButton.LEFT_MOUSE_BUTTON, MousePresistance.RELEASE, -1, -1)

  /** The detector's state, its threshold table included. `trueConditionSkeleton`
      is the skeleton of the frame on which the shot was detected. */
  datatype ShootState = ShootState(
    aimDetected: bool,
    shootDetected: bool,
    shootFrameBuffer: seq<NuiElement>,
    cancelShootFrameBuffer: seq<NuiElement>,
    trueConditionSkeleton: Option<SkeletonData>,
    thresholds: ShootingThresholds,
    isThresholdSet: bool)

  const InitialShootState := ShootState(false, false, [], [], None, Uncalibrated, false)

  /** What the detector keeps true between frames: while firing the shoot window
      is idle, while not firing the cancel window is idle, and a shot's anchor
      exists only while firing. */
  predicate ShootInvariant(s: ShootState) {
    && (s.shootDetected ==> s.shootFrameBuffer == [])
    && (!s.shootDetected ==> s.cancelShootFrameBuffer == [])
    && (s.trueConditionSkeleton.Some? ==> s.shootDetected)
  }

  /** The table is calibrated from the first frame with a tracked skeleton and
      never again. */
  function Calibrated(s: ShootState, latest: Option<SkeletonData>): (r: ShootState)
    ensures s.isThresholdSet ==> r == s
    ensures !s.isThresholdSet && latest.Some? ==> r == s.(thresholds := Calibrate(latest.value), isThresholdSet := true)
    ensures latest.None? ==> r == s
  {
    if !s.isThresholdSet && latest.Some? then s.(thresholds := Calibrate(latest.value), isThresholdSet := true)
    else s
  }

  datatype AimOutput = AimOutput(aimDetected: bool, events: seq<MouseEventData>, result: int)

  /** CheckAimConditions: OutOfMemory without a tracked skeleton, else toggle into
      aim mode on an aim pose, or out of it when the hand leaves the aim box. */
  function AimPhase(aimDetected: bool, t: ShootingThresholds, latest: Option<SkeletonData>): (r: AimOutput)
    ensures r.events == [] || r.events == [AimToggle]
    ensures r.events == [AimToggle] <==> r.aimDetected != aimDetected
    ensures r.result == ResultCodes.OutOfMemory <==> latest.None?
    ensures r.result == ResultCodes.Success || r.result == ResultCodes.OutOfMemory
    ensures latest.None? ==> r.events == []
  {
    if latest.None? then AimOutput(aimDetected, [], ResultCodes.OutOfMemory)
    else if !aimDetected && AimPose(t, latest.value) then AimOutput(true, [AimToggle], ResultCodes.Success)
    else if aimDetected && !InsideAimBox(latest.value) then AimOutput(false, [AimToggle], ResultCodes.Success)
    else AimOutput(aimDetected, [], ResultCodes.Success)
  }

  /** The anchor after IsInSideShootBox: dropped when the hand leaves the box. */
  function BoxCheck(t: ShootingThresholds, anchor: Option<SkeletonData>, e: NuiElement): (r: Option<SkeletonData>)
    requires anchor.Some? ==> TrackedSkeleton(e).Some?
    ensures r.Some? ==> r == anchor
    ensures anchor.Some? ==> (r.Some? <==> InsideShootBox(t, anchor.value, TrackedSkeleton(e).value))
  {
    if anchor.None? then None
    else if InsideShootBox(t, anchor.value, TrackedSkeleton(e).value) then anchor
    else None
  }

  datatype PhaseOutput = PhaseOutput(state: ShootState, events: seq<MouseEventData>)

  /** CheckShootConditions: while not firing run the shoot window, and on a shot
      press the left button and stop for this frame; otherwise check the box and,
      while firing, run the cancel window and release the button on a cancel. */
  function ShootPhase(s: ShootState, e: NuiElement): (r: PhaseOutput)
    requires s.trueConditionSkeleton.Some? ==> TrackedSkeleton(e).Some?
    ensures r.events == [] || r.events == [ShootPress] || r.events == [ShootRelease]
    ensures r.events == [ShootPress] <==> !s.shootDetected && r.state.shootDetected
    ensures r.events == [ShootRelease] <==> s.shootDetected && !r.state.shootDetected
    ensures r.state.aimDetected == s.aimDetected
    ensures r.state.thresholds == s.thresholds && r.state.isThresholdSet == s.isThresholdSet
  {
    var t := s.thresholds;
    var shoot := if !s.shootDetected then DetectShoot(t, s.shootFrameBuffer, e) else WindowResult(ResultCodes.GestureDetectionFailed, s.shootFrameBuffer);
    if !s.shootDetected && shoot.code == ResultCodes.GestureDetected then
      PhaseOutput(s.(shootDetected := true, shootFrameBuffer := shoot.buffer, trueConditionSkeleton := TrackedSkeleton(e)), [ShootPress])
    else
      var anchor := BoxCheck(t, s.trueConditionSkeleton, e);
      if s.shootDetected then
        var cancel := DetectCancel(t, s.cancelShootFrameBuffer, e);
        if cancel.code == ResultCodes.GestureDetected then
          PhaseOutput(s.(shootDetected := false, cancelShootFrameBuffer := cancel.buffer, trueConditionSkeleton := None), [ShootRelease])
        else
          PhaseOutput(s.(cancelShootFrameBuffer := cancel.buffer, trueConditionSkeleton := anchor), [])
      else
        PhaseOutput(s.(shootFrameBuffer := shoot.buffer, trueConditionSkeleton := anchor), [])
  }

  datatype ShootOutput = ShootOutput(state: ShootState, events: seq<MouseEventData>, result: int)

  /** ProcessNewGestureData: calibrate if needed, then the aim check, then the
      shoot check; the result is the shoot check's, which is always Success. */
  function ShootStep(s: ShootState, e: NuiElement): (r: ShootOutput)
    requires s.trueConditionSkeleton.Some? ==> TrackedSkeleton(e).Some?
    ensures r.result == ResultCodes.Success
  {
    var latest := TrackedSkeleton(e);
    var s1 := Calibrated(s, latest);
    var aim := AimPhase(s1.aimDetected, s1.thresholds, latest);
    var shoot := ShootPhase(s1.(aimDetected := aim.aimDetected), e);
    ShootOutput(shoot.state, aim.events + shoot.events, ResultCodes.Success)
  }

  /** Every frame keeps the invariant. */
  lemma StepPreservesInvariant(s: ShootState, e: NuiElement)
    requires ShootInvariant(s)
    requires s.trueConditionSkeleton.Some? ==> TrackedSkeleton(e).Some?
    ensures ShootInvariant(ShootStep(s, e).state)
  {
    var s1 := Calibrated(s, TrackedSkeleton(e));
    var aim := AimPhase(s1.aimDetected, s1.thresholds, TrackedSkeleton(e));
    var s2 := s1.(aimDetected := aim.aimDetected);
    assert ShootInvariant(s2);
    var t := s2.thresholds;
    if !s2.shootDetected {
      var shoot := DetectShoot(t, s2.shootFrameBuffer, e);
      if shoot.code == ResultCodes.GestureDetected {
        DetectedIff(s2.shootFrameBuffer, e, (o, p, l) => ShootRejects(t, o, p, l), (o, l, dt) => ShootTriggers(t, o, l, dt));
      }
    }
  }

  /** While the left button is held no second press is sent, and it is never
      released unless it was pressed: presses and releases alternate. */
  lemma PressAndReleaseAlternate(s: ShootState, e: NuiElement)
    requires s.trueConditionSkeleton.Some? ==> TrackedSkeleton(e).Some?
    ensures var r := ShootStep(s, e);
      && (ShootPress in r.events ==> !s.shootDetected && r.state.shootDetected)
      && (ShootRelease in r.events ==> s.shootDetected && !r.state.shootDetected)
      && (ShootPress !in r.events && ShootRelease !in r.events ==> r.state.shootDetected == s.shootDetected)
  {
    var s1 := Calibrated(s, TrackedSkeleton(e));
    var aim := AimPhase(s1.aimDetected, s1.thresholds, TrackedSkeleton(e));
    var shoot := ShootPhase(s1.(aimDetected := aim.aimDetected), e);
    assert ShootStep(s, e).events == aim.events + shoot.events;
    assert AimToggle != ShootPress && AimToggle != ShootRelease;
  }

  /** The anchor's box check decides nothing that can be observed: the events,
      both flags, both buffers and the table do not depend on the anchor. */
  lemma AnchorHasNoEffect(s: ShootState, e: NuiElement, anchor: Option<SkeletonData>)
    requires TrackedSkeleton(e).Some?
    ensures var r1 := ShootStep(s, e);
      var r2 := ShootStep(s.(trueConditionSkeleton := anchor), e);
      && r1.events == r2.events
      && r1.state.(trueConditionSkeleton := None) == r2.state.(trueConditionSkeleton := None)
  {
  }

  /** The number of aim toggles in a sequence of mouse events. */
  function AimToggles(log: seq<MouseEventData>): (n: nat)
    ensures n <= |log|
    decreases |log|
  {
    if |log| == 0 then 0
    else AimToggles(log[..|log| - 1]) + (if log[|log| - 1] == AimToggle then 1 else 0)
  }

  /** The game is in aim mode after an odd number of right clicks. */
  predicate AimOn(log: seq<MouseEventData>) {
    AimToggles(log) % 2 == 1
  }

  /** The last left-button event of a sequence of mouse events. */
  function LastLeft(log: seq<MouseEventData>): (r: Option<MouseEventData>)
    ensures r.Some? ==> r.value in log && r.value.mouseAction == MouseButton.LEFT_MOUSE_BUTTON
    decreases |log|
  {
    if |log| == 0 then None
    else if log[|log| - 1].mouseAction == MouseButton.LEFT_MOUSE_BUTTON then Some(log[|log| - 1])
    else LastLeft(log[..|log| - 1])
  }

  /** The left button is held down: its last event was the press. */
  predicate FireHeld(log: seq<MouseEventData>) {
    LastLeft(log) == Some(ShootPress)
  }

  lemma AppendOne(log: seq<MouseEventData>, x: MouseEventData)
    ensures AimToggles(log + [x]) == AimToggles(log) + (if x == AimToggle then 1 else 0)
    ensures LastLeft(log + [x]) == if x.mouseAction == MouseButton.LEFT_MOUSE_BUTTON then Some(x) else LastLeft(log)
  {
    assert (log + [x])[..|log|] == log;
  }

  lemma EventsRegroup(a: seq<MouseEventData>, b: seq<MouseEventData>, c: seq<MouseEventData>)
    ensures AimOn((a + b) + c) == AimOn(a + (b + c)) && FireHeld((a + b) + c) == FireHeld(a + (b + c))
  {
    assert (a + b) + c == a + (b + c);
  }

  /** The aim phase then the shoot phase keep both flags equal to what the
      events sent so far mean, whatever the phases computed. */
  lemma PhasesTrackButtons(log: seq<MouseEventData>, aim0: bool, aim1: bool, aimEvents: seq<MouseEventData>,
                           shoot0: bool, shoot1: bool, shootEvents: seq<MouseEventData>)
    requires aim0 == AimOn(log) && shoot0 == FireHeld(log)
    requires aimEvents == [] || aimEvents == [AimToggle]
    requires aimEvents == [AimToggle] <==> aim1 != aim0
    requires shootEvents == [] || shootEvents == [ShootPress] || shootEvents == [ShootRelease]
    requires shootEvents == [ShootPress] <==> !shoot0 && shoot1
    requires shootEvents == [ShootRelease] <==> shoot0 && !shoot1
    ensures aim1 == AimOn(log + (aimEvents + shootEvents)) && shoot1 == FireHeld(log + (aimEvents + shootEvents))
  {
    var log1 := log + aimEvents;
    if aimEvents == [] {
      assert log1 == log;
    } else {
      AppendOne(log, AimToggle);
    }
    var log2 := log1 + shootEvents;
    if shootEvents == [] {
      assert log2 == log1;
    } else {
      AppendOne(log1, shootEvents[0]);
    }
    assert log2 == log + (aimEvents + shootEvents);
  }

  /** One frame keeps both flags equal to what the events sent so far mean. */
  lemma StepTracksButtons(s: ShootState, e: NuiElement, log: seq<MouseEventData>)
    requires s.trueConditionSkeleton.Some? ==> TrackedSkeleton(e).Some?
    requires s.aimDetected == AimOn(log) && s.shootDetected == FireHeld(log)
    ensures var r := ShootStep(s, e);
      r.state.aimDetected == AimOn(log + r.events) && r.state.shootDetected == FireHeld(log + r.events)
  {
    var s1 := Calibrated(s, TrackedSkeleton(e));
    var aim := AimPhase(s1.aimDetected, s1.thresholds, TrackedSkeleton(e));
    var shoot := ShootPhase(s1.(aimDetected := aim.aimDetected), e);
    PhasesTrackButtons(log, s.aimDetected, aim.aimDetected, aim.events, s.shootDetected, shoot.state.shootDetected, shoot.events);
  }

  /** Runs the detector over a sequence of frames: the final state and every event raised. */
  function ShootRun(s: ShootState, frames: seq<NuiElement>): (ShootState, seq<MouseEventData>)
    requires AllTracked(frames)
    decreases |frames|
  {
    if |frames| == 0 then (s, [])
    else
      var r := ShootStep(s, frames[0]);
      var rest := ShootRun(r.state, frames[1..]);
      (rest.0, r.events + rest.1)
  }

  lemma ShootRunUnfold(s: ShootState, frames: seq<NuiElement>)
    requires |frames| > 0 && AllTracked(frames)
    ensures AllTracked(frames[1..]) && TrackedSkeleton(frames[0]).Some?
    ensures var r := ShootStep(s, frames[0]);
      var rest := ShootRun(r.state, frames[1..]);
      ShootRun(s, frames) == (rest.0, r.events + rest.1)
  {
    AllTrackedTail(frames);
  }

  lemma ButtonsTrackFlagsStep(s: ShootState, frames: seq<NuiElement>, log: seq<MouseEventData>)
    requires |frames| > 0 && AllTracked(frames)
    requires s.aimDetected == AimOn(log) && s.shootDetected == FireHeld(log)
    requires TrackedSkeleton(frames[0]).Some? && AllTracked(frames[1..])
    requires var r := ShootStep(s, frames[0]);
      var rest := ShootRun(r.state, frames[1..]);
      r.state.aimDetected == AimOn(log + r.events) && r.state.shootDetected == FireHeld(log + r.events) ==>
      rest.0.aimDetected == AimOn((log + r.events) + rest.1) && rest.0.shootDetected == FireHeld((log + r.events) + rest.1)
    ensures ShootRun(s, frames).0.aimDetected == AimOn(log + ShootRun(s, frames).1)
    ensures ShootRun(s, frames).0.shootDetected == FireHeld(log + ShootRun(s, frames).1)
  {
    ShootRunUnfold(s, frames);
    var r := ShootStep(s, frames[0]);
    var rest := ShootRun(r.state, frames[1..]);
    StepTracksButtons(s, frames[0], log);
    EventsRegroup(log, r.events, rest.1);
  }

  /** Over any run of tracked frames the aim flag is set exactly when the game
      has received an odd number of right clicks, and the shoot flag exactly when
      the left button is held down. */
  lemma {:induction false} ButtonsTrackFlags(s: ShootState, frames: seq<NuiElement>, log: seq<MouseEventData>)
    requires AllTracked(frames)
    requires s.aimDetected == AimOn(log) && s.shootDetected == FireHeld(log)
    ensures ShootRun(s, frames).0.aimDetected == AimOn(log + ShootRun(s, frames).1)
    ensures ShootRun(s, frames).0.shootDetected == FireHeld(log + ShootRun(s, frames).1)
    decreases |frames|
  {
    if |frames| == 0 {
      assert log + ShootRun(s, frames).1 == log;
    } else {
      AllTrackedTail(frames);
      var r := ShootStep(s, frames[0]);
      if r.state.aimDetected == AimOn(log + r.events) && r.state.shootDetected == FireHeld(log + r.events) {
        ButtonsTrackFlags(r.state, frames[1..], log + r.events);
      }
      ButtonsTrackFlagsStep(s, frames, log);
    }
  }

  /** Over any run of tracked frames, a calibrated table never changes again, and
      an uncalibrated one is calibrated from the run's first frame. */
  lemma {:induction false} CalibrationLatches(s: ShootState, frames: seq<NuiElement>)
    requires AllTracked(frames)
    ensures s.isThresholdSet ==> ShootRun(s, frames).0.thresholds == s.thresholds && ShootRun(s, frames).0.isThresholdSet
    ensures !s.isThresholdSet && |frames| > 0 ==>
      ShootRun(s, frames).0.thresholds == Calibrate(TrackedSkeleton(frames[0]).value) && ShootRun(s, frames).0.isThresholdSet
    decreases |frames|
  {
    if |frames| > 0 {
      ShootRunUnfold(s, frames);
      var r := ShootStep(s, frames[0]);
      assert r.state.isThresholdSet;
      assert s.isThresholdSet ==> r.state.thresholds == s.thresholds;
      CalibrationLatches(r.state, frames[1..]);
    }
  }

  class ShootingGesture {
    const inbox: RequestQueue<NuiElement>
    const mouseGestureAction: EventSubscription<MouseEventData>
    const thresholds: ShootingGestures
    var aimDetected: bool
    var shootDetected: bool
    var shootFrameBuffer: seq<NuiElement>
    var cancelShootFrameBuffer: seq<NuiElement>
    var trueCondtionSkeleton: Option<SkeletonData>

    function State(): ShootState
      reads this, thresholds
    {
      ShootState(aimDetected, shootDetected, shootFrameBuffer, cancelShootFrameBuffer, trueCondtionSkeleton,
        thresholds.Values(), thresholds.isThresholdSet)
    }

    constructor()
      ensures State() == InitialShootState
      ensures fresh(inbox) && fresh(mouseGestureAction) && fresh(thresholds)
      ensures inbox.items == [] && inbox.pending == 0 && !inbox.threadExit
      ensures !mouseGestureAction.subscribed && mouseGestureAction.delivered == []
    {
      inbox := new RequestQueue();
      mouseGestureAction := new EventSubscription(false);
      thresholds := new ShootingGestures();
      aimDetected := false;
      shootDetected := false;
      shootFrameBuffer := [];
      cancelShootFrameBuffer := [];
      trueCondtionSkeleton := None;
    }

    method ProcessNewGestureData(e: NuiElement) returns (gestureResult: int)
      requires trueCondtionSkeleton.Some? ==> TrackedSkeleton(e).Some?
      modifies this, thresholds, mouseGestureAction
      ensures var r := ShootStep(old(State()), e);
        && gestureResult == r.result
        && State() == r.state
        && mouseGestureAction.delivered == Delivered(mouseGestureAction.subscribed, old(mouseGestureAction.delivered), r.events)
      ensures mouseGestureAction.subscribed == old(mouseGestureAction.subscribed)
    {
      var latestSkeleton := FirstTracked(e.frame);
      if !thresholds.isThresholdSet {
        thresholds.SetThresholdValues(latestSkeleton);
      }
      ghost var before := mouseGestureAction.delivered;
      ghost var s1 := State();
      assert s1 == Calibrated(old(State()), latestSkeleton);
      ghost var aim := AimPhase(s1.aimDetected, s1.thresholds, latestSkeleton);
      gestureResult := CheckAimConditions(latestSkeleton);
      assert State() == s1.(aimDetected := aim.aimDetected);
      ghost var shoot := ShootPhase(s1.(aimDetected := aim.aimDetected), e);
      gestureResult := CheckShootConditions(latestSkeleton, e);
      assert State() == shoot.state;
      DeliveredConcat(mouseGestureAction.subscribed, before, aim.events, shoot.events);
    }

    method CheckAimConditions(latestSkeleton: Option<SkeletonData>) returns (gestureResult: int)
      modifies this, mouseGestureAction
      ensures var r := AimPhase(old(aimDetected), thresholds.Values(), latestSkeleton);
        && gestureResult == r.result
        && aimDetected == r.aimDetected
        && mouseGestureAction.delivered == Delivered(mouseGestureAction.subscribed, old(mouseGestureAction.delivered), r.events)
      ensures mouseGestureAction.subscribed == old(mouseGestureAction.subscribed)
      ensures shootDetected == old(shootDetected) && shootFrameBuffer == old(shootFrameBuffer)
      ensures cancelShootFrameBuffer == old(cancelShootFrameBuffer) && trueCondtionSkeleton == old(trueCondtionSkeleton)
    {
      gestureResult := ResultCodes.Success;
      if latestSkeleton.None? {
        return ResultCodes.OutOfMemory;
      }
      var aim := false;
      if !aimDetected {
        aim := IsAimTrue(latestSkeleton.value);
      }
      if aim && !aimDetected {
        RaiseMouseEvent(AimToggle);
        aimDetected := true;
        return;
      }
      var isInsideAim := JackInManojsBox(latestSkeleton.value);
      if !isInsideAim && aimDetected {
        RaiseMouseEvent(AimToggle);
        aimDetected := false;
      }
    }

    method CheckShootConditions(latestSkeleton: Option<SkeletonData>, e: NuiElement) returns (gestureResult: int)
      requires trueCondtionSkeleton.Some? ==> TrackedSkeleton(e).Some?
      modifies this, mouseGestureAction
      ensures var r := ShootPhase(old(State()), e);
        && gestureResult == ResultCodes.Success
        && State() == r.state
        && mouseGestureAction.delivered == Delivered(mouseGestureAction.subscribed, old(mouseGestureAction.delivered), r.events)
      ensures mouseGestureAction.subscribed == old(mouseGestureAction.subscribed)
    {
      gestureResult := ResultCodes.Success;
      var shoot := false;
      if !shootDetected {
        shoot := IsShootTrue(e);
      }
      if shoot && !shootDetected {
        RaiseMouseEvent(ShootPress);
        shootDetected := true;
        return;
      }
      var isInsideBox := IsInSideShootBox(e);
      if shootDetected {
        var cancel := IsShootcancel(e);
        if cancel {
          RaiseMouseEvent(ShootRelease);
          shootDetected := false;
          trueCondtionSkeleton := None;
        }
      }
    }

    /** Named JackInManojsBox in the source. */
    method JackInManojsBox(trackedSkeleton: SkeletonData) returns (aimResult: bool)
      ensures aimResult <==> InsideAimBox(trackedSkeleton)
    {
      var rightHand := trackedSkeleton.joints(HandRight);
      var rightShoulder := trackedSkeleton.joints(ShoulderRight);
      var thresholdY := Abs(rightShoulder.x - trackedSkeleton.joints(ShoulderLeft).x);
      thresholdY := thresholdY * 0.7;
      if rightHand.y < rightShoulder.y - thresholdY {
        return false;
      }
      aimResult := true;
    }

    method IsAimTrue(trackedSkeleton: SkeletonData) returns (aimResult: bool)
      ensures aimResult <==> AimPose(thresholds.Values(), trackedSkeleton)
    {
      var rightHand := trackedSkeleton.joints(HandRight);
      var rightShoulder := trackedSkeleton.joints(ShoulderRight);
      var thresholdY := thresholds.aimThresholdY;
      thresholdY := thresholdY * 0.5;
      if rightHand.y < rightShoulder.y - thresholdY || rightHand.y > rightShoulder.y + thresholdY {
        return false;
      }
      aimResult := true;
    }

    method IsShootTrue(e: NuiElement) returns (shootResult: bool)
      modifies this
      ensures var d := DetectShoot(thresholds.Values(), old(shootFrameBuffer), e);
        && (shootResult <==> d.code == ResultCodes.GestureDetected)
        && shootFrameBuffer == d.buffer
        && (shootResult ==> trueCondtionSkeleton == TrackedSkeleton(e))
        && (!shootResult ==> trueCondtionSkeleton == old(trueCondtionSkeleton))
      ensures aimDetected == old(aimDetected) && shootDetected == old(shootDetected)
      ensures cancelShootFrameBuffer == old(cancelShootFrameBuffer)
    {
      ghost var t := thresholds.Values();
      shootFrameBuffer := shootFrameBuffer + [e];
      if |shootFrameBuffer| <= 1 {
        return false;
      }
      var oldestElement := shootFrameBuffer[0];
      var previousElement := shootFrameBuffer[|shootFrameBuffer| - 2];
      var latestElement := shootFrameBuffer[|shootFrameBuffer| - 1];
      var latestSkeleton := FirstTracked(latestElement.frame);
      var previousSkeleton := FirstTracked(previousElement.frame);
      var oldestSkeleton := FirstTracked(oldestElement.frame);
      if latestSkeleton.None? || previousSkeleton.None? || oldestSkeleton.None? {
        return false;
      }
      var latest, previous, oldest := latestSkeleton.value, previousSkeleton.value, oldestSkeleton.value;
      assert Endpoints(shootFrameBuffer) == Some((oldest, previous, latest));
      var thresholdDistance := thresholds.shootThresholdDistance;
      var thresholdXY := thresholds.shootThresholdXY;
      if Hand(latest).z < Hand(previous).z {
        shootFrameBuffer := [];
        return false;
      }
      if Hand(latest).y > Hand(oldest).y + thresholdXY || Hand(latest).y < Hand(oldest).y - thresholdXY {
        shootFrameBuffer := [];
        return false;
      }
      if Hand(latest).x > Hand(oldest).x + thresholdXY || Hand(latest).x < Hand(oldest).x - thresholdXY {
        shootFrameBuffer := [];
        return false;
      }
      if Hand(latest).y < latest.joints(HipCenter).y - thresholdXY {
        shootFrameBuffer := [];
        return false;
      }
      if Hand(latest).y > latest.joints(Head).y + thresholdXY {
        shootFrameBuffer := [];
        return false;
      }
      var elapsed := latestElement.timeStamp - oldestElement.timeStamp;
      if elapsed > MinThresholdGestureTime && elapsed < ThresholdGestureTime &&
         Hand(latest).z - Hand(oldest).z > thresholdDistance
      {
        trueCondtionSkeleton := latestSkeleton;
        shootFrameBuffer := [];
        return true;
      }
      shootResult := false;
    }

    method IsShootcancel(e: NuiElement) returns (cancelShootResult: bool)
      modifies this
      ensures var d := DetectCancel(thresholds.Values(), old(cancelShootFrameBuffer), e);
        && (cancelShootResult <==> d.code == ResultCodes.GestureDetected)
        && cancelShootFrameBuffer == d.buffer
      ensures !cancelShootResult ==> trueCondtionSkeleton == old(trueCondtionSkeleton)
      ensures aimDetected == old(aimDetected) && shootDetected == old(shootDetected)
      ensures shootFrameBuffer == old(shootFrameBuffer)
    {
      cancelShootFrameBuffer := cancelShootFrameBuffer + [e];
      if |cancelShootFrameBuffer| <= 1 {
        return false;
      }
      var oldestElement := cancelShootFrameBuffer[0];
      var previousElement := cancelShootFrameBuffer[|cancelShootFrameBuffer| - 2];
      var latestElement := cancelShootFrameBuffer[|cancelShootFrameBuffer| - 1];
      var latestSkeleton := FirstTracked(latestElement.frame);
      var previousSkeleton := FirstTracked(previousElement.frame);
      var oldestSkeleton := FirstTracked(oldestElement.frame);
      if latestSkeleton.None? || previousSkeleton.None? || oldestSkeleton.None? {
        return false;
      }
      var latest, previous, oldest := latestSkeleton.value, previousSkeleton.value, oldestSkeleton.value;
      assert Endpoints(cancelShootFrameBuffer) == Some((oldest, previous, latest));
      var thresholdDistance := thresholds.shootThresholdDistance;
      var thresholdXY := thresholds.shootThresholdXY;
      if Hand(latest).z > Hand(previous).z {
        cancelShootFrameBuffer := [];
        return false;
      }
      if Hand(latest).y > Hand(oldest).y + thresholdXY || Hand(latest).y < Hand(oldest).y - thresholdXY {
        cancelShootFrameBuffer := [];
        return false;
      }
      if Hand(latest).x > Hand(oldest).x + thresholdXY || Hand(latest).x < Hand(oldest).x - thresholdXY {
        cancelShootFrameBuffer := [];
        return false;
      }
      if Hand(latest).y < latest.joints(HipCenter).y - thresholdXY {
        cancelShootFrameBuffer := [];
        return true;
      }
      if Hand(latest).z < latest.joints(HipCenter).z - 2.5 * thresholdDistance {
        cancelShootFrameBuffer := [];
        return true;
      }
      var elapsed := latestElement.timeStamp - oldestElement.timeStamp;
      if elapsed > 200 && elapsed < ThresholdGestureTime &&
         Hand(oldest).z - Hand(latest).z > thresholdDistance
      {
        trueCondtionSkeleton := latestSkeleton;
        cancelShootFrameBuffer := [];
        return true;
      }
      cancelShootResult := false;
    }

    method IsInSideShootBox(e: NuiElement) returns (boxResult: bool)
      requires trueCondtionSkeleton.Some? ==> TrackedSkeleton(e).Some?
      modifies this
      ensures trueCondtionSkeleton == BoxCheck(thresholds.Values(), old(trueCondtionSkeleton), e)
      ensures boxResult <==> trueCondtionSkeleton.Some?
      ensures aimDetected == old(aimDetected) && shootDetected == old(shootDetected)
      ensures shootFrameBuffer == old(shootFrameBuffer) && cancelShootFrameBuffer == old(cancelShootFrameBuffer)
    {
      boxResult := false;
      if trueCondtionSkeleton.Some? {
        var currentSkeleton := FirstTracked(e.frame).value;
        var current := Hand(currentSkeleton);
        var anchor := Hand(trueCondtionSkeleton.value);
        if current.x > anchor.x + thresholds.insideBoxThresholdX {
          trueCondtionSkeleton := None;
        } else if current.x < anchor.x - thresholds.insideBoxThresholdX {
          trueCondtionSkeleton := None;
        } else if current.y > anchor.y + thresholds.insideBoxThresholdY {
          trueCondtionSkeleton := None;
        } else if current.y < anchor.y - thresholds.insideBoxThresholdY {
          trueCondtionSkeleton := None;
        } else if current.z < anchor.z - thresholds.insideBoxThresholdZ {
          trueCondtionSkeleton := None;
        } else {
          boxResult := true;
        }
      }
      if trueCondtionSkeleton.None? {
        boxResult := false;
      }
    }

    method RaiseMouseEvent(data: MouseEventData)
      modifies mouseGestureAction
      ensures mouseGestureAction.subscribed == old(mouseGestureAction.subscribed)
      ensures mouseGestureAction.delivered == Delivered(mouseGestureAction.subscribed, old(mouseGestureAction.delivered), [data])
    {
      mouseGestureAction.Raise(data);
    }

    /** One pass of the worker loop. */
    method GestureAnalyzerStep()
      requires inbox.pending > 0 && AllTracked(inbox.items)
      modifies this, inbox, thresholds, mouseGestureAction
      ensures inbox.pending == old(inbox.pending) - 1 && AllTracked(inbox.items)
      ensures inbox.threadExit == old(inbox.threadExit) && mouseGestureAction.subscribed == old(mouseGestureAction.subscribed)
      ensures |old(inbox.items)| == 0 ==>
        && inbox.items == old(inbox.items)
        && State() == old(State())
        && mouseGestureAction.delivered == old(mouseGestureAction.delivered)
      ensures |old(inbox.items)| > 0 ==>
        var r := ShootStep(old(State()), old(inbox.items)[0]);
        && inbox.items == old(inbox.items)[1..]
        && State() == r.state
        && mouseGestureAction.delivered == Delivered(mouseGestureAction.subscribed, old(mouseGestureAction.delivered), r.events)
    {
      var next := inbox.WaitForRequest();
      if next.Some? {
        assert TrackedSkeleton(old(inbox.items)[0]).Some?;
        var _ := ProcessNewGestureData(next.value);
      }
    }
  }
}
