# KIK Kinect-to-game bridge: a Dafny model of its decision logic

KIK turns a Kinect sensor's skeleton, depth and speech streams into keyboard and mouse
input for a PC game. Each stream has a worker with a request queue. Per frame, the
workers feed a set of small state machines:

- The skeletal processor has an arm/disarm gate: the right hand raised starts gesture
  recognition, and both hands raised stops it. While armed, it hands each frame to the
  gesture dispatcher.
- The dispatcher fans each frame out to five gesture detectors:
  - legs left/right;
  - mouse pointer;
  - legs front/back;
  - jump;
  - aim and shoot.
- The detectors keep sliding windows of frames and latches. They raise keyboard or mouse
  events, which the dispatcher forwards to the keyboard and mouse workers.
- The keyboard and mouse workers track which keys and buttons are held, and inject
  scan codes and clicks.
- The sound worker maps recognised words to key presses.
- The depth worker decodes per-player depth maxima.
- The main window's buttons toggle the visual and audio workers.

## How the model is built

- One Dafny module per source file.
- An enumeration of the source becomes a module of integer constants. Result codes,
  actions, persistences, buttons and gesture ids keep their numeric values, because the
  source compares and forwards them as numbers.
- A detector or worker is a `class`. Its fields are the fields the source updates in
  place: frame buffers as `seq`, latches as `bool`, queues as `RequestQueue`.
- Each state-changing method is proved against a pure step function of the old state
  and the input. The properties the source relies on are lemmas about those step
  functions: invariants, exact event sequences, precedence, and run-long latches.
- A thread's worker loop is modelled as one step: wait for a signal, then process the
  head of the queue.
- Events raised to a subscriber are recorded in an `EventSubscription` log.
- Injected keyboard and mouse input is recorded in an `injected` log. The operating
  system's answer to an injection is a function parameter `send`.
- Clock readings are parameters, in milliseconds.
- Joint coordinates are mathematical reals.

## Model

| member | source | states |
|---|---|---|
| Kinect.FirstTracked | KIKSoftwareProject/Gestures/GestureDispatcher.cs:183-191 | None exactly when no skeleton of the frame is tracked; otherwise the first tracked skeleton of the frame |
| ResultCodes.ToString | KIKSoftwareProject/ResultCodes/ResultCodes.cs:114-136 | Only NuiIntializationFailed and OutOfMemory have a message (the sensor message and "Error: System is out of memory"); every other code gives the empty string |
| ResultCodes.CodesAreConsecutive | KIKSoftwareProject/ResultCodes/ResultCodes.cs:10-28 | The sixteen result codes are numbered 0..15 in declaration order, so every failure code is greater than Success |
| KeyBoardScanCodes.UnknownIsInsert | KIKSoftwareProject/Keyboard/KeyboardScanCodes.cs:127-135 | The implicit DIK_UNKNOWN is PgDn + 1 = 0xD2, the same value as DIK_INSERT |
| KeyBoardScanCodes.AliasesAgree | KIKSoftwareProject/Keyboard/KeyboardScanCodes.cs:120-134 | Each alias equals its base code (UPARROW = UP = 0xC8, PGUP = 0xC9, LEFTARROW = 0xCB, RIGHTARROW = 0xCD, DOWNARROW = 0xD0, PGDN = 0xD1), and the four arrows are distinct |
| KeyBoardScanCodes.FlagsAreSingleBits | KIKSoftwareProject/Keyboard/KeyboardScanCodes.cs:11-14 | The four key-event flags share no bit pairwise |
| GestureBase.Delivered | KIKSoftwareProject/Gestures/GestureBase.cs:63-71 | Raising events appends them to the subscriber's log when there is a subscriber, and does nothing when there is none |
| GestureBase.EventSubscription.constructor | KIKSoftwareProject/Gestures/GestureDispatcher.cs:150-175 | A new event channel has the given subscription state and an empty log |
| GestureBase.EventSubscription.Subscribe | KIKSoftwareProject/Gestures/GestureDispatcher.cs:150-175 | Subscribing sets the channel subscribed and keeps its log |
| GestureBase.EventSubscription.Raise | KIKSoftwareProject/Gestures/GestureBase.cs:63-71 | A raised event is delivered exactly when someone subscribed; the subscription itself is unchanged |
| GestureBase.RequestQueue.constructor | KIKSoftwareProject/Gestures/GestureBase.cs:100-113 | A new queue is empty, with no pending signal and no exit request |
| GestureBase.RequestQueue.AddToQueue | KIKSoftwareProject/Gestures/GestureBase.cs:126-140 | Appends the item at the tail, signals once, and returns the signal count before the call |
| GestureBase.RequestQueue.RemoveFromQueue | KIKSoftwareProject/Gestures/GestureBase.cs:142-155 | On a non-empty queue, returns the head and leaves the rest in order |
| GestureBase.RequestQueue.GetQueueCount | KIKSoftwareProject/Gestures/GestureBase.cs:157-167 | The count is the number of queued items |
| GestureBase.RequestQueue.ExitThread | KIKSoftwareProject/Gestures/GestureBase.cs:120-124 | Sets the exit request and signals the worker once, leaving the items alone |
| GestureBase.RequestQueue.WaitForRequest | KIKSoftwareProject/Gestures/ShootingGesture.cs:35-57 | Consumes one signal; returns the head when there is one and nothing when the queue is empty |
| GestureBase.Added | KIKSoftwareProject/Gestures/GestureBase.cs:126-140 | The items added by a run of queue operations are at most as many as the operations |
| GestureBase.ReplayIsFifo | KIKSoftwareProject/Gestures/GestureBase.cs:126-155 | Over any run of adds and removes, the items taken followed by the items left are exactly the items added, in order: the queue is first-in first-out |
| GestureThresholdValues.ShoulderWidth | KIKSoftwareProject/Gestures/GestureThresholdValues.cs:138-140 | The shoulder width is non-negative and zero exactly when both shoulders share their x coordinate |
| GestureThresholdValues.Calibrate | KIKSoftwareProject/Gestures/GestureThresholdValues.cs:138-150 | The calibrated thresholds are non-negative and ordered: shootXY <= shootDistance = boxZ <= boxX = boxY <= aimY <= jackY = shoulder width |
| GestureThresholdValues.CalibrationFractions | KIKSoftwareProject/Gestures/GestureThresholdValues.cs:138-150 | aimY = 0.8w, shootDistance = 0.2w, shootXY = 0.15w, boxX = boxY = 0.35w, boxZ = 0.2w for the shoulder width w |
| GestureThresholdValues.ShootingGestures.constructor | KIKSoftwareProject/Gestures/GestureThresholdValues.cs:64-73 | Before calibration every threshold is 0 and the latch is clear |
| GestureThresholdValues.ShootingGestures.SetThresholdValues | KIKSoftwareProject/Gestures/GestureThresholdValues.cs:128-153 | No skeleton changes nothing, so calibration is retried; a skeleton sets every threshold from its shoulder width and latches |
| SlidingWindow.Slide | KIKSoftwareProject/Gestures/MoveLeftRightGestures.cs:122-199 | The window either grows by exactly the new frame or is emptied; it is empty after every detection; a missing skeleton keeps the grown window |
| SlidingWindow.DetectedIff | KIKSoftwareProject/Gestures/MoveLeftRightGestures.cs:122-199 | Detection happens exactly when at least one frame was buffered, the oldest, previous and latest skeletons are tracked, the guard passes and the trigger holds on the elapsed time |
| SlidingWindow.FirstFrameIsKept | KIKSoftwareProject/Gestures/JumpGesture.cs:97-105 | A frame arriving at an empty window is kept and gives no detection |
| JumpGesture.JumpStep | KIKSoftwareProject/Gestures/JumpGesture.cs:60-82 | A frame raises nothing or exactly one JUMP press-and-release event; it reports Success exactly when it raises one, and then the window is empty |
| JumpGesture.JumpReportedIff | KIKSoftwareProject/Gestures/JumpGesture.cs:84-166 | A jump is raised exactly when the hip rose since the previous frame, within 800 ms of the oldest frame, by at least 0.3 over the oldest frame |
| JumpGesture.PlateauRestartsWindow | KIKSoftwareProject/Gestures/JumpGesture.cs:142-147 | A latest hip height not above the previous one (a plateau included) empties the window and raises nothing |
| JumpGesture.JumpGesture.constructor | KIKSoftwareProject/Gestures/JumpGesture.cs:24-37 | Both buffers empty, a fresh empty inbox, and an unsubscribed event channel |
| JumpGesture.JumpGesture.DetectJumpGesture | KIKSoftwareProject/Gestures/JumpGesture.cs:84-166 | Updates the jump window as the sliding-window rule says and never touches the unused second buffer |
| JumpGesture.JumpGesture.ProcessNewGestureData | KIKSoftwareProject/Gestures/JumpGesture.cs:60-82 | Result, window and delivered events are those of JumpStep |
| JumpGesture.JumpGesture.GestureAnalyzerStep | KIKSoftwareProject/Gestures/JumpGesture.cs:43-58 | One worker pass: consumes a signal, leaves the exit request, the subscription and the unused left window alone, and processes the queue head, if any, as JumpStep says |
| MoveLeftRightGestures.LegsStep | KIKSoftwareProject/Gestures/MoveLeftRightGestures.cs:59-120 | A frame raises nothing, the two releases of a cancel, release-left then press-right, or release-right then press-left; Success exactly when it raises something |
| MoveLeftRightGestures.CancelReleasesBothKeys | KIKSoftwareProject/Gestures/MoveLeftRightGestures.cs:71-84 | Latched with the feet together: release MOVE_LEFT then MOVE_RIGHT, clear the latch, leave both windows alone |
| MoveLeftRightGestures.RightStepPressesRight | KIKSoftwareProject/Gestures/MoveLeftRightGestures.cs:88-102 | A right detection, latched or not, raises exactly release-left then press-right, sets the latch, empties the right window and does not touch the left one |
| MoveLeftRightGestures.LeftStepPressesLeft | KIKSoftwareProject/Gestures/MoveLeftRightGestures.cs:102-116 | Without a right detection, a left detection raises exactly release-right then press-left, sets the latch, clears the left window and keeps the right window as its detector left it |
| MoveLeftRightGestures.StepTracksHeldKey | KIKSoftwareProject/Gestures/MoveLeftRightGestures.cs:59-120 | One frame keeps the latch equal to "the last event raised was a press" |
| MoveLeftRightGestures.LegsRunUnfold | KIKSoftwareProject/Gestures/MoveLeftRightGestures.cs:59-120 | A run over tracked frames is the first step followed by the run over the rest |
| MoveLeftRightGestures.LatchTracksHeldKeyStep | KIKSoftwareProject/Gestures/MoveLeftRightGestures.cs:59-120 | The induction step of LatchTracksHeldKey |
| MoveLeftRightGestures.LatchTracksHeldKey | KIKSoftwareProject/Gestures/MoveLeftRightGestures.cs:59-120 | Over any run of tracked frames, the latch is set exactly when the last raised event is a press |
| MoveLeftRightGestures.MoveLeftRightGestures.constructor | KIKSoftwareProject/Gestures/MoveLeftRightGestures.cs:22-32 | Latch clear, empty windows, a fresh empty inbox, an unsubscribed channel |
| MoveLeftRightGestures.MoveLeftRightGestures.ProcessNewGestureData | KIKSoftwareProject/Gestures/MoveLeftRightGestures.cs:59-120 | Result, latch, windows and delivered events are those of LegsStep |
| MoveLeftRightGestures.MoveLeftRightGestures.DetectRightMoveGesture | KIKSoftwareProject/Gestures/MoveLeftRightGestures.cs:122-199 | Updates the right window by the right-ankle rule and leaves the left window and the latch alone |
| MoveLeftRightGestures.MoveLeftRightGestures.DetectLeftMoveGesture | KIKSoftwareProject/Gestures/MoveLeftRightGestures.cs:201-279 | Updates the left window by the left-ankle rule and leaves the right window and the latch alone |
| MoveLeftRightGestures.MoveLeftRightGestures.CancelLeftRightMoveGesture | KIKSoftwareProject/Gestures/MoveLeftRightGestures.cs:281-313 | True exactly when the feet are less than 0.4 apart in x |
| MoveLeftRightGestures.MoveLeftRightGestures.RaiseGestureEvent | KIKSoftwareProject/Gestures/MoveLeftRightGestures.cs:315-325 | Delivers one keyboard event carrying the given gesture, action and persistence |
| MoveLeftRightGestures.MoveLeftRightGestures.GestureAnalyzerStep | KIKSoftwareProject/Gestures/MoveLeftRightGestures.cs:39-57 | One worker pass: consumes a signal, leaves the exit request and the subscription alone, and processes the queue head, if any, as LegsStep says |
| MoveFrontBackGestures.GuardsAreExclusive | KIKSoftwareProject/Gestures/MoveFrontBackGestures.cs:174-181 | No frame passes both the up guard (both ankles strictly closer) and the down guard (both strictly farther) |
| MoveFrontBackGestures.FrontBackStep | KIKSoftwareProject/Gestures/MoveFrontBackGestures.cs:51-112 | A frame raises nothing, the two releases of a cancel, release-down then press-up, or release-up then press-down; Success exactly when it raises something |
| MoveFrontBackGestures.CancelReleasesBothKeys | KIKSoftwareProject/Gestures/MoveFrontBackGestures.cs:65-76 | Latched with the feet level in z: release MOVE_UP then MOVE_DOWN, clear the latch, skip detection |
| MoveFrontBackGestures.UpTakesPrecedence | KIKSoftwareProject/Gestures/MoveFrontBackGestures.cs:80-92 | An up detection raises exactly release-down then press-up, sets the latch, and the down window is not evaluated |
| MoveFrontBackGestures.StepTracksHeldKey | KIKSoftwareProject/Gestures/MoveFrontBackGestures.cs:51-112 | One frame keeps the latch equal to "the last event raised was a press" |
| MoveFrontBackGestures.FrontBackRunUnfold | KIKSoftwareProject/Gestures/MoveFrontBackGestures.cs:51-112 | A run over tracked frames is the first step followed by the run over the rest |
| MoveFrontBackGestures.LatchTracksHeldKeyStep | KIKSoftwareProject/Gestures/MoveFrontBackGestures.cs:51-112 | The induction step of LatchTracksHeldKey |
| MoveFrontBackGestures.LatchTracksHeldKey | KIKSoftwareProject/Gestures/MoveFrontBackGestures.cs:51-112 | Over any run of tracked frames, the latch is set exactly when the last raised event is a press |
| MoveFrontBackGestures.MoveFrontBackGestures.constructor | KIKSoftwareProject/Gestures/MoveFrontBackGestures.cs:21-26 | Latch clear, empty windows, a fresh empty inbox, an unsubscribed channel |
| MoveFrontBackGestures.MoveFrontBackGestures.ProcessNewGestureData | KIKSoftwareProject/Gestures/MoveFrontBackGestures.cs:51-112 | Result, latch, windows and delivered events are those of FrontBackStep |
| MoveFrontBackGestures.MoveFrontBackGestures.DetectUpMoveGesture | KIKSoftwareProject/Gestures/MoveFrontBackGestures.cs:114-204 | Updates the up window by the up rule and leaves the down window and the latch alone |
| MoveFrontBackGestures.MoveFrontBackGestures.DetectDownMoveGesture | KIKSoftwareProject/Gestures/MoveFrontBackGestures.cs:206-297 | Updates the down window by the down rule and leaves the up window and the latch alone |
| MoveFrontBackGestures.MoveFrontBackGestures.CancelFrontBackMoveGesture | KIKSoftwareProject/Gestures/MoveFrontBackGestures.cs:299-329 | True exactly when the feet are less than 0.4 apart in z |
| MoveFrontBackGestures.MoveFrontBackGestures.RaiseGestureEvent | KIKSoftwareProject/Gestures/MoveFrontBackGestures.cs:331-340 | Delivers one keyboard event carrying the given gesture, action and persistence |
| MoveFrontBackGestures.MoveFrontBackGestures.GestureAnalyzerStep | KIKSoftwareProject/Gestures/MoveFrontBackGestures.cs:31-49 | One worker pass: consumes a signal, leaves the exit request and the subscription alone, and processes the queue head, if any, as FrontBackStep says |
| MousePointerGesture.Trunc | KIKSoftwareProject/Gestures/MousePointerGesture.cs:103-105 | Truncation toward zero: within 1 of the real value and never farther from zero than it |
| MousePointerGesture.PointerStep | KIKSoftwareProject/Gestures/MousePointerGesture.cs:50-118 | OutOfMemory exactly when no skeleton is tracked, else Success; a move is raised exactly when the skeleton is inside the box and two inside frames came before |
| MousePointerGesture.StepPreservesInvariant | KIKSoftwareProject/Gestures/MousePointerGesture.cs:79-114 | The frame counter stays in 0..2 |
| MousePointerGesture.MoveFollowsWrist | KIKSoftwareProject/Gestures/MousePointerGesture.cs:85-108 | A move is MOUSE_MOVE by trunc(800 dx), trunc(-600 dy) of the wrist since the stored position, and the wrist becomes the stored position |
| MousePointerGesture.ReentryIsSilent | KIKSoftwareProject/Gestures/MousePointerGesture.cs:79-114 | An outside frame and the next two inside frames raise nothing: two frames, not one, are skipped |
| MousePointerGesture.PointerDoesNotDrift | KIKSoftwareProject/Gestures/MousePointerGesture.cs:85-108 | Over a run of inside frames, the horizontal moves add up to the total wrist travel times 800, within one pixel per frame |
| MousePointerGesture.MousePointerGesture.constructor | KIKSoftwareProject/Gestures/MousePointerGesture.cs:20-26 | Counter and stored position zero, a fresh empty inbox, an unsubscribed channel |
| MousePointerGesture.MousePointerGesture.ProcessNewGestureData | KIKSoftwareProject/Gestures/MousePointerGesture.cs:50-118 | Result, counter, stored position and delivered events are those of PointerStep |
| MousePointerGesture.MousePointerGesture.IsInsideBox | KIKSoftwareProject/Gestures/MousePointerGesture.cs:136-170 | True exactly when a skeleton is tracked, the left hand is at least 0.75 (head - spine) in front of the spine, and the left wrist is above neither hip |
| MousePointerGesture.MousePointerGesture.GestureAnalyzerStep | KIKSoftwareProject/Gestures/MousePointerGesture.cs:32-48 | One worker pass: consumes a signal, leaves the exit request and the subscription alone, and processes the queue head, if any, as PointerStep says |
| ShootingGesture.AimPoseIsInsideAimBox | KIKSoftwareProject/Gestures/ShootingGesture.cs:205-265 | With calibrated thresholds, the aim pose lies inside the aim box |
| ShootingGesture.Calibrated | KIKSoftwareProject/Gestures/ShootingGesture.cs:64-70 | Calibration runs once: latched thresholds are kept, otherwise the first tracked skeleton sets and latches them, and no skeleton changes nothing |
| ShootingGesture.AimPhase | KIKSoftwareProject/Gestures/ShootingGesture.cs:149-203 | A right-button press-and-release is raised exactly when the aim flag flips; no skeleton gives OutOfMemory and raises nothing |
| ShootingGesture.BoxCheck | KIKSoftwareProject/Gestures/ShootingGesture.cs:558-622 | With an anchor, the anchor is kept exactly when the hand is still in its shoot box, else it is dropped; without one nothing is kept |
| ShootingGesture.ShootPhase | KIKSoftwareProject/Gestures/ShootingGesture.cs:81-147 | The shoot phase raises a press exactly when the shoot flag rises and a release exactly when it falls; aim flag and thresholds are unchanged |
| ShootingGesture.ShootStep | KIKSoftwareProject/Gestures/ShootingGesture.cs:59-79 | A frame always reports Success |
| ShootingGesture.StepPreservesInvariant | KIKSoftwareProject/Gestures/ShootingGesture.cs:90-139 | While shooting the shoot window is empty, otherwise the cancel window is empty, and an anchor exists only while shooting |
| ShootingGesture.PressAndReleaseAlternate | KIKSoftwareProject/Gestures/ShootingGesture.cs:99-139 | A left press only starts a shot, a left release only ends one, and otherwise the shoot flag is unchanged |
| ShootingGesture.AnchorHasNoEffect | KIKSoftwareProject/Gestures/ShootingGesture.cs:113-121 | The anchor never changes the events or the rest of the state, because the box check's result is discarded |
| ShootingGesture.AimToggles | KIKSoftwareProject/Gestures/ShootingGesture.cs:164-198 | The number of aim toggles in a log is at most its length |
| ShootingGesture.LastLeft | KIKSoftwareProject/Gestures/ShootingGesture.cs:99-139 | The last left-button event of a log, if any, is in the log |
| ShootingGesture.EventsRegroup | KIKSoftwareProject/Gestures/ShootingGesture.cs:59-79 | The aim and fire readings of a log do not depend on how it is grouped |
| ShootingGesture.PhasesTrackButtons | KIKSoftwareProject/Gestures/ShootingGesture.cs:59-79 | Flag changes announced by their events keep the flags equal to the readings of the log |
| ShootingGesture.StepTracksButtons | KIKSoftwareProject/Gestures/ShootingGesture.cs:59-79 | One frame keeps aim = "odd number of right clicks" and shoot = "left button held" |
| ShootingGesture.ShootRunUnfold | KIKSoftwareProject/Gestures/ShootingGesture.cs:59-79 | A run over tracked frames is the first step followed by the run over the rest |
| ShootingGesture.ButtonsTrackFlagsStep | KIKSoftwareProject/Gestures/ShootingGesture.cs:59-79 | The induction step of ButtonsTrackFlags |
| ShootingGesture.ButtonsTrackFlags | KIKSoftwareProject/Gestures/ShootingGesture.cs:59-79 | Over any run, the aim flag is on exactly after an odd number of right clicks and the shoot flag exactly while the left button is held |
| ShootingGesture.CalibrationLatches | KIKSoftwareProject/Gestures/ShootingGesture.cs:64-70 | Once set, the thresholds never change over a run; unset, the first frame of a run sets them |
| ShootingGesture.ShootingGesture.constructor | KIKSoftwareProject/Gestures/ShootingGesture.cs:25-30 | Flags clear, windows empty, no anchor, uncalibrated thresholds, a fresh empty inbox, an unsubscribed channel |
| ShootingGesture.ShootingGesture.ProcessNewGestureData | KIKSoftwareProject/Gestures/ShootingGesture.cs:59-79 | Result, state and delivered events are those of ShootStep |
| ShootingGesture.ShootingGesture.CheckAimConditions | KIKSoftwareProject/Gestures/ShootingGesture.cs:149-203 | Result, aim flag and events are those of AimPhase; shoot state unchanged |
| ShootingGesture.ShootingGesture.CheckShootConditions | KIKSoftwareProject/Gestures/ShootingGesture.cs:81-147 | State and events are those of ShootPhase, and the result is Success |
| ShootingGesture.ShootingGesture.JackInManojsBox | KIKSoftwareProject/Gestures/ShootingGesture.cs:205-234 | True exactly when the right hand is inside the aim box |
| ShootingGesture.ShootingGesture.IsAimTrue | KIKSoftwareProject/Gestures/ShootingGesture.cs:236-265 | True exactly when the right hand's y is within half the aim threshold of the right shoulder's |
| ShootingGesture.ShootingGesture.IsShootTrue | KIKSoftwareProject/Gestures/ShootingGesture.cs:267-414 | True exactly when the shoot window detects; on detection the anchor becomes the latest skeleton, otherwise it is kept |
| ShootingGesture.ShootingGesture.IsShootcancel | KIKSoftwareProject/Gestures/ShootingGesture.cs:416-556 | True exactly when the cancel window detects; the anchor is kept when it does not |
| ShootingGesture.ShootingGesture.IsInSideShootBox | KIKSoftwareProject/Gestures/ShootingGesture.cs:558-622 | Updates the anchor as BoxCheck says and returns whether it survived |
| ShootingGesture.ShootingGesture.RaiseMouseEvent | KIKSoftwareProject/Gestures/GestureBase.cs:68-71 | Delivers the given mouse event |
| ShootingGesture.ShootingGesture.GestureAnalyzerStep | KIKSoftwareProject/Gestures/ShootingGesture.cs:35-57 | One worker pass: consumes a signal, leaves the exit request and the subscription alone, and processes the queue head, if any, as ShootStep says |
| GestureDispatcher.FanOut | KIKSoftwareProject/Gestures/GestureDispatcher.cs:183-204 | A frame produces at most one element, and exactly one when some skeleton is tracked; it carries the frame and the time |
| GestureDispatcher.FanOutKeepsQueuesTracked | KIKSoftwareProject/Gestures/GestureDispatcher.cs:193-204 | Fanning out keeps every queued element's skeleton tracked |
| GestureDispatcher.GestureDispatcher.constructor | KIKSoftwareProject/Gestures/GestureDispatcher.cs:65-83 | Creates five detectors with distinct fresh inboxes and subscribes the dispatcher to each one's events; drawing enabled, drawing queue empty |
| GestureDispatcher.GestureDispatcher.ProcessNewGestureData | KIKSoftwareProject/Gestures/GestureDispatcher.cs:177-217 | NullTrackedSkeleton and nothing enqueued when no skeleton is tracked; else Success, one element in each detector's inbox, and the frame on the drawing queue exactly when drawing is on |
| GestureDispatcher.GestureDispatcher.SendGameCommand | KIKSoftwareProject/Gestures/GestureDispatcher.cs:275-295 | Forwards action and persistence unchanged to the keyboard queue and returns its previous count |
| GestureDispatcher.GestureDispatcher.SendMouseCommand | KIKSoftwareProject/Gestures/GestureDispatcher.cs:297-326 | Forwards action, persistence and coordinates unchanged to the mouse queue; KeyPressFailed when the queue's previous count is not positive |
| GestureDispatcher.GestureDispatcher.OnKeyboardGesture | KIKSoftwareProject/Gestures/GestureDispatcher.cs:247-273 | A keyboard gesture event becomes exactly one keyboard command with the same action and persistence |
| GestureDispatcher.GestureDispatcher.OnMouseGesture | KIKSoftwareProject/Gestures/GestureDispatcher.cs:247-273 | A mouse gesture event becomes exactly one mouse command with the same fields |
| SkeletalDataProcessor.InitialCondition | KIKSoftwareProject/Skeletal/SkeletalDataProcessor.cs:299-335 | The start check answers "no skeleton", failed or detected |
| SkeletalDataProcessor.InitialConditionDetects | KIKSoftwareProject/Skeletal/SkeletalDataProcessor.cs:299-335 | Detected exactly when stop is off and some tracked skeleton has the right hand above the head and the left below it, with no earlier tracked skeleton holding both hands up |
| SkeletalDataProcessor.StopFlagBlocksStart | KIKSoftwareProject/Skeletal/SkeletalDataProcessor.cs:312-330 | With the stop flag set, the check fails at the first tracked skeleton, and finds nothing without one |
| SkeletalDataProcessor.GateArmedIffDispatched | KIKSoftwareProject/Skeletal/SkeletalDataProcessor.cs:230-254 | After a frame, the gate stays armed exactly when the frame was dispatched, and the stop flag records this frame's stop request |
| SkeletalDataProcessor.Dispatching | KIKSoftwareProject/Skeletal/SkeletalDataProcessor.cs:230-254 | A frame is dispatched exactly when the gate was armed or the start pose is detected, and no stop is requested |
| SkeletalDataProcessor.Arming | KIKSoftwareProject/Skeletal/SkeletalDataProcessor.cs:230-254 | A disarmed gate arms exactly when the previous stop flag is off, the start pose appears before any both-hands-up skeleton, and no stop is requested |
| SkeletalDataProcessor.Disarming | KIKSoftwareProject/Skeletal/SkeletalDataProcessor.cs:236-254 | An armed gate that sees a stop request disarms and does not dispatch |
| SkeletalDataProcessor.GateRun | KIKSoftwareProject/Skeletal/SkeletalDataProcessor.cs:211-261 | A run of the gate records one dispatch decision per frame |
| SkeletalDataProcessor.ArmedUntilStopped | KIKSoftwareProject/Skeletal/SkeletalDataProcessor.cs:236-254 | An armed gate stays armed and dispatches every frame until a stop is requested |
| SkeletalDataProcessor.SkeletalDataProcessor.constructor | KIKSoftwareProject/Skeletal/SkeletalDataProcessor.cs:92-113 | Disarmed, stop flag clear, drawing on, empty queues, and a dispatcher wired to the given keyboard and mouse workers |
| SkeletalDataProcessor.SkeletalDataProcessor.AddToQueue | KIKSoftwareProject/Skeletal/SkeletalDataProcessor.cs:127-143 | Appends the skeletal data and returns the previous signal count |
| SkeletalDataProcessor.SkeletalDataProcessor.StopGestureRecognition | KIKSoftwareProject/Skeletal/SkeletalDataProcessor.cs:268-292 | True exactly when some tracked skeleton has both hands strictly above its head |
| SkeletalDataProcessor.SkeletalDataProcessor.CheckIntialCondition | KIKSoftwareProject/Skeletal/SkeletalDataProcessor.cs:299-335 | Returns InitialCondition of the frame under the current stop flag |
| SkeletalDataProcessor.SkeletalDataProcessor.UpdateGate | KIKSoftwareProject/Skeletal/SkeletalDataProcessor.cs:230-254 | The gate's new state and dispatch decision are those of GateStep |
| SkeletalDataProcessor.SkeletalDataProcessor.ProcessNewSkeletalData | KIKSoftwareProject/Skeletal/SkeletalDataProcessor.cs:211-261 | No data: OutOfMemory and nothing changes. Otherwise the gate moves as GateStep says, the frame is drawn exactly when drawing is on, and it reaches the dispatcher exactly when GateStep dispatches |
| SkeletalDataProcessor.SkeletalDataProcessor.HandleRequest | KIKSoftwareProject/Skeletal/SkeletalDataProcessor.cs:182-204 | One worker pass: consumes one signal and leaves the exit request alone; on an empty queue or a null frame nothing else changes; otherwise it pops the head, moves the gate as GateStep says, queues the frame for drawing unless the visual threads are stopped, and records the frame for the gesture dispatcher exactly when GateStep passes it on |
| IntList.Remove | KIKSoftwareProject/Keyboard/KeyboardInputProcessor.cs:372-376 | Removing an element takes exactly one occurrence away, and nothing when it is absent |
| IntList.RemoveForgets | KIKSoftwareProject/Keyboard/KeyboardInputProcessor.cs:372-376 | On a duplicate-free list, the removed element is gone and the list stays duplicate-free |
| KeyboardInputProcessor.GetKeyScanCode | KIKSoftwareProject/Keyboard/KeyboardInputProcessor.cs:394-457 | DIK_UNKNOWN exactly for the unmapped actions (STOP included); every code fits in a byte |
| KeyboardInputProcessor.OnlyLongJumpAndShootShareAKey | KIKSoftwareProject/Keyboard/KeyboardInputProcessor.cs:394-457 | Two different mapped actions share a scan code only for LONG_JUMP and SHOOT (both Z) |
| KeyboardInputProcessor.KeyboardStep | KIKSoftwareProject/Keyboard/KeyboardInputProcessor.cs:246-292 | STOP empties the held keys; a held key's repeat is dropped with Success unless it is a release; an unmapped action gives KeyboardCommandInvalid and changes nothing |
| KeyboardInputProcessor.StepPreservesKeysInvariant | KIKSoftwareProject/Keyboard/KeyboardInputProcessor.cs:266-376 | The held keys stay mapped and free of duplicates |
| KeyboardInputProcessor.CommandEffects | KIKSoftwareProject/Keyboard/KeyboardInputProcessor.cs:347-387 | PRESS adds the key whatever the send result, PRESS_AND_RELEASE keeps the list, RELEASE removes it, each injecting its one command; another persistence gives KeyPressFailed |
| KeyboardInputProcessor.FailuresAreReported | KIKSoftwareProject/Keyboard/KeyboardInputProcessor.cs:347-387 | A non-STOP command never reports a negative result, and a rejected press is reported as KeyPressFailed |
| KeyboardInputProcessor.Releases | KIKSoftwareProject/Keyboard/KeyboardInputProcessor.cs:303-332 | The releases for a list of keys are one release per key, in order |
| KeyboardInputProcessor.StopReleasesUntilFirstFailure | KIKSoftwareProject/Keyboard/KeyboardInputProcessor.cs:298-337 | STOP releases the held keys in order and reports Success, or stops after the first rejected release with KeyReleaseFailed |
| KeyboardInputProcessor.KeyboardInputProcessor.constructor | KIKSoftwareProject/Keyboard/KeyboardInputProcessor.cs:66-83 | No keys held, nothing injected, a fresh empty inbox |
| KeyboardInputProcessor.KeyboardInputProcessor.GetKeysPressed | KIKSoftwareProject/Keyboard/KeyboardInputProcessor.cs:89-92 | Returns the held keys |
| KeyboardInputProcessor.KeyboardInputProcessor.AddToQueue | KIKSoftwareProject/Keyboard/KeyboardInputProcessor.cs:133-147 | Appends the command and returns the previous signal count |
| KeyboardInputProcessor.KeyboardInputProcessor.ProcessKeyboardInput | KIKSoftwareProject/Keyboard/KeyboardInputProcessor.cs:246-292 | Held keys, injections and result are those of KeyboardStep |
| KeyboardInputProcessor.KeyboardInputProcessor.HandleStopCommand | KIKSoftwareProject/Keyboard/KeyboardInputProcessor.cs:298-337 | Releases the held keys as ReleaseAll says and then forgets all of them |
| KeyboardInputProcessor.KeyboardInputProcessor.SendKeyboardCommand | KIKSoftwareProject/Keyboard/KeyboardInputProcessor.cs:347-387 | Held keys, injections and result are those of the send rule |
| KeyboardInputProcessor.KeyboardInputProcessor.HandleKeyBoardInputStep | KIKSoftwareProject/Keyboard/KeyboardInputProcessor.cs:187-239 | One worker pass: consumes a signal and processes the queue head, if any, as KeyboardStep says |
| MouseInputProcessor.MouseStep | KIKSoftwareProject/Keyboard/MouseInputProcessor.cs:237-284 | MOUSE_MOVE injects the move and keeps the held buttons; wheel actions do nothing with Success; a button command has no effect exactly when it repeats a held button without releasing, has an unknown persistence, or double-clicks the right button |
| MouseInputProcessor.StepPreservesClicksInvariant | KIKSoftwareProject/Keyboard/MouseInputProcessor.cs:256-371 | The held buttons stay buttons and free of duplicates |
| MouseInputProcessor.ButtonEffects | KIKSoftwareProject/Keyboard/MouseInputProcessor.cs:294-383 | Press-and-release keeps the list, press-and-hold adds the button, release removes it, a left double click adds it after a click; a right double click gives InvalidPersistance |
| MouseInputProcessor.HeldUntilReleased | KIKSoftwareProject/Keyboard/MouseInputProcessor.cs:256-371 | A held button stays held under every command except its own release |
| MouseInputProcessor.MouseInputProcessor.constructor | KIKSoftwareProject/Keyboard/MouseInputProcessor.cs:65-80 | No buttons held, nothing injected, a fresh empty inbox |
| MouseInputProcessor.MouseInputProcessor.AddToQueue | KIKSoftwareProject/Keyboard/MouseInputProcessor.cs:137-150 | Appends the command and returns the previous signal count |
| MouseInputProcessor.MouseInputProcessor.ProcessMouseInput | KIKSoftwareProject/Keyboard/MouseInputProcessor.cs:237-284 | Held buttons, injections and result are those of MouseStep |
| MouseInputProcessor.MouseInputProcessor.SendMouseCommand | KIKSoftwareProject/Keyboard/MouseInputProcessor.cs:294-383 | Held buttons, injections and result are those of the send rule |
| MouseInputProcessor.MouseInputProcessor.HandleMouseInputStep | KIKSoftwareProject/Keyboard/MouseInputProcessor.cs:191-235 | One worker pass: consumes a signal and processes the queue head, if any, as MouseStep says |
| SoundDataProcessor.SpokenAction | KIKSoftwareProject/Audio/SoundDataProcessor.cs:240-354 | Every grammar word but "aim" asks for a mapped game command; other words ask for none |
| SoundDataProcessor.SpokenCommands | KIKSoftwareProject/Audio/SoundDataProcessor.cs:240-354 | A word queues at most one command, always press-and-release, and none exactly for "aim" or a word outside the grammar |
| SoundDataProcessor.SpokenCommandsHaveKeys | KIKSoftwareProject/Audio/SoundDataProcessor.cs:240-354 | Every spoken command has a known scan code |
| SoundDataProcessor.Synonyms | KIKSoftwareProject/Audio/SoundDataProcessor.cs:288-306 | "menu" and "pause" both give ESC; "select", "okay" and "enter" all give ENTER |
| SoundDataProcessor.SoundDataProcessor.constructor | KIKSoftwareProject/Audio/SoundDataProcessor.cs:76-140 | Wired to the given keyboard worker, with a fresh empty inbox |
| SoundDataProcessor.SoundDataProcessor.AddToQueue | KIKSoftwareProject/Audio/SoundDataProcessor.cs:170-185 | Appends the heard word and returns the previous signal count |
| SoundDataProcessor.SoundDataProcessor.ExitThread | KIKSoftwareProject/Audio/SoundDataProcessor.cs:162-167 | Sets the exit request, signals the worker once and leaves the queued words alone |
| SoundDataProcessor.SoundDataProcessor.ProcessNewSoundData | KIKSoftwareProject/Audio/SoundDataProcessor.cs:240-354 | Queues exactly the word's spoken commands and returns Success |
| SoundDataProcessor.SoundDataProcessor.PressMultiple | KIKSoftwareProject/Audio/SoundDataProcessor.cs:357-364 | Queues the same command exactly n times after the existing ones, none when n is not positive |
| SoundDataProcessor.SoundDataProcessor.HandleRequest | KIKSoftwareProject/Audio/SoundDataProcessor.cs:216-238 | One worker pass: consumes one signal and leaves the exit request alone; takes the head word, if any, queues its commands on the keyboard worker and signals that worker once per command |
| DepthDataProcessor.Player | KIKSoftwareProject/Depth/DepthDataProcessor.cs:145-148 | The player index is the first byte mod 8, in 0..7 |
| DepthDataProcessor.RealDepthDecodes | KIKSoftwareProject/Depth/DepthDataProcessor.cs:151 | The depth is 32 times the second byte plus the first byte divided by 8, in 0..8191 |
| DepthDataProcessor.MaxDepthIsMaximum | KIKSoftwareProject/Depth/DepthDataProcessor.cs:154-208 | A player's maximum is -1 exactly when the player has no pixel; otherwise it bounds every pixel of the player and is the depth of one of them |
| DepthDataProcessor.MaxDepthGrows | KIKSoftwareProject/Depth/DepthDataProcessor.cs:154-208 | A player's maximum never decreases as pixels are read |
| DepthDataProcessor.CheckPlayerDepth | KIKSoftwareProject/Depth/DepthDataProcessor.cs:134-223 | Returns Success; slot 0 ends at -1 and each slot 1..7 ends at its player's maximum depth |
| DepthDataProcessor.ProcessNewDepthData | KIKSoftwareProject/Depth/DepthDataProcessor.cs:124-132 | Decodes the frame and always returns Success |
| MainWindow.KinectNuiInterface.constructor | KIKSoftwareProject/KinectNuiInterface.cs:65-77 | Both stop flags start clear |
| MainWindow.ClickFlips | KIKSoftwareProject/MainWindow.xaml.cs:33-53 | From 0 or 1, a click flips the count and stops exactly when the count was 0 |
| MainWindow.ClicksAlternate | KIKSoftwareProject/MainWindow.xaml.cs:33-53 | After n clicks the count is n mod 2, and the n-th click writes true exactly when n is odd |
| MainWindow.MainWindow.constructor | KIKSoftwareProject/MainWindow.xaml.cs:11-13 | No interface yet and both counts 0 |
| MainWindow.MainWindow.WindowLoaded | KIKSoftwareProject/MainWindow.xaml.cs:20-25 | Creates the interface with both flags clear; the counts are unchanged |
| MainWindow.MainWindow.Button1Click | KIKSoftwareProject/MainWindow.xaml.cs:33-53 | The display count stays 0 or 1 and advances by Click; when the interface exists the visual flag gets Click's value, otherwise only the count moves |
| MainWindow.MainWindow.Button1Click1 | KIKSoftwareProject/MainWindow.xaml.cs:55-75 | The same machine on the audio count and the audio flag |

## Left out

- Concurrency: threads, locks, the semaphores' blocking, `volatile`, and the worker loops. Each worker loop is one step, as described above.
- The capacity semaphore (at most 10000 outstanding requests) is not modelled: `AddToQueue` never blocks.
- WPF rendering is not part of this model: SkeletalDrawing.cs, TransformedSkeletonDrawing.cs, VideoDataProcessor.cs, and the drawing worker that drains the drawing queue.
- SkeletonTransformation.cs is display-only trigonometry and is not modelled.
- `GestureDispatcher.AreHandsClose` is never called and uses a square root; it is not modelled.
- `MousePointerGesture.IsFistRolled` is never called; it is not modelled.
- Logging (log4net) is not modelled.
- Floating point: joint coordinates and thresholds are reals, so rounding is not modelled.
- MousePointerGesture.Trunc: the cast of the scaled delta to a 32-bit int is a truncation of the real value; overflow outside the int range is not modelled.
- `DateTime.Now` is a parameter `now`, in milliseconds. Non-decreasing timestamps are not assumed anywhere.
- The sensor, the speech engine, the SoundDataProcessor constructor's grammar set-up and `GetSreInstance` are not modelled; the grammar words are a constant list.
- SoundDataProcessor: the `previousCommand` recorder and `iterations` fields are never read and are not modelled.
- KinectNuiInterface.cs is modelled only by its two stop flags.
- GameDataProcessor.cs (Win32 game search and focus) is not part of this model.
- The SendInput wrapper is not part of this model; its answer is the parameter `send`.
- MouseScanCodes.cs is used only by the SendInput wrapper and is not modelled.
- Null `KeyboardData`, `MouseData` and sound objects are not modelled: the model's commands are values. The null skeletal frame in the skeletal worker and the untracked skeleton in the detectors' helpers are modelled.
- The detectors' own checks for a missing skeleton frame or a missing skeleton array (`GetSkeletonFrame() == null` or `Skeletons == null`, answered with `GestureDetectionFailed`, as in KIKSoftwareProject/Gestures/JumpGesture.cs:111-121 and KIKSoftwareProject/Gestures/ShootingGesture.cs:296-306 and 447-457) are not modelled: the gesture dispatcher builds a gesture element only from a frame that holds a tracked skeleton, so these branches cannot be taken.
- Exceptions are not modelled: an untracked frame reaching the two cancel checks or the shoot-box check would throw in the source, and the model makes it a precondition.
- String comparison: `CompareTo(...) == 0` on the heard word is modelled as string equality.
- `NuiElement`, `KeyboardEventData` and `MouseEventData` are immutable values: the source builds them once and never mutates them after sending, so their setters and getters are not separate members.
- The dispatcher's own request queue and worker (GestureDispatcher.cs:107-148) are not modelled: the skeletal processor calls `ProcessNewGestureData` directly, so that queue is never drained.
- SkeletalDataProcessor.SkeletalDataProcessor.ProcessNewSkeletalData: the hand-over to the dispatcher is recorded in a ghost log `dispatched` of (frame, time) pairs. The dispatcher's effect on its queues is stated by `GestureDispatcher.ProcessNewGestureData` rather than repeated here.
- DepthDataProcessor.CheckPlayerDepth returns its per-player array instead of discarding it, so that its contents can be stated. The per-pixel trace output is not modelled.
- DepthDataProcessor.CheckPlayerDepth requires an even-length frame: the source reads the byte after each even index and would fail on an odd length.

Behaviours that look unintended are modelled as written and stated as properties, not corrected:

- `IsInSideShootBox`'s result is discarded (ShootingGesture.AnchorHasNoEffect).
- The move detectors run while latched (MoveLeftRightGestures.RightStepPressesRight).
- The aim exit uses 0.7 times the raw shoulder width rather than a calibrated threshold.
- The mouse pointer skips two frames on re-entry (MousePointerGesture.ReentryIsSilent).
- DIK_UNKNOWN equals DIK_INSERT (KeyBoardScanCodes.UnknownIsInsert).
- The dispatcher's `SendMouseCommand` reports KeyPressFailed when the mouse queue was idle (previous count 0).
- STOP forgets keys whose release was never sent (KeyboardInputProcessor.StopReleasesUntilFirstFailure).
