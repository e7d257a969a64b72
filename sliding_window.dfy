// The frame-buffer discipline every sliding-window detector of the application
// follows (jump, move right/left/up/down, shoot, cancel-shoot). Each detector
// keeps its own list of recent frames and, for every new frame:
//   1. appends it; with one frame only, nothing can be compared yet;
//   2. takes the first tracked skeleton of the oldest, the previous and the
//      latest frame; if one is missing the buffer is kept and the result is
//      NullTrackedSkeleton;
//   3. if a guard rejects the motion (wrong direction, body drifted, ...) the
//      buffer is cleared and detection fails;
//   4. if the detection condition holds over (oldest, latest, elapsed time) the
//      buffer is cleared and the gesture is detected;
//   5. otherwise the buffer keeps growing.
// The detectors differ only in the guard and the detection condition.
module SlidingWindow {
  import opened Wrappers
  import opened Kinect
  import opened GestureBase
  import ResultCodes

  /** Guard over (oldest, previous, latest) skeletons: true clears the buffer. */
  type Guard = (SkeletonData, SkeletonData, SkeletonData) -> bool
  /** Detection condition over (oldest, latest, milliseconds from oldest to latest). */
  type Trigger = (SkeletonData, SkeletonData, int) -> bool

  datatype WindowResult = WindowResult(code: int, buffer: seq<NuiElement>)

  /** The skeletons the window compares: (oldest, previous, latest), when all three are tracked. */
  function Endpoints(buf: seq<NuiElement>): Option<(SkeletonData, SkeletonData, SkeletonData)>
    requires |buf| >= 2
  {
    var oldest := TrackedSkeleton(buf[0]);
    var previous := TrackedSkeleton(buf[|buf| - 2]);
    var latest := TrackedSkeleton(buf[|buf| - 1]);
    if oldest.None? || previous.None? || latest.None? then None
    else Some((oldest.value, previous.value, latest.value))
  }

  /** One step of a sliding-window detector on the new element `e`. The buffer
      either grows by exactly `e` or is emptied, and it is emptied on every
      detection; the result is one of three codes. */
  function Slide(buffer: seq<NuiElement>, e: NuiElement, rejects: Guard, detects: Trigger): (r: WindowResult)
    ensures r.buffer == buffer + [e] || r.buffer == []
    ensures r.code == ResultCodes.GestureDetected ==> r.buffer == []
    ensures r.code in {ResultCodes.GestureDetected, ResultCodes.GestureDetectionFailed, ResultCodes.NullTrackedSkeleton}
    ensures r.code == ResultCodes.NullTrackedSkeleton ==> r.buffer == buffer + [e]
  {
    var buf := buffer + [e];
    if |buf| <= 1 then WindowResult(ResultCodes.GestureDetectionFailed, buf)
    else
      match Endpoints(buf)
      case None => WindowResult(ResultCodes.NullTrackedSkeleton, buf)
      case Some((oldest, previous, latest)) =>
        if rejects(oldest, previous, latest) then WindowResult(ResultCodes.GestureDetectionFailed, [])
        else if detects(oldest, latest, buf[|buf| - 1].timeStamp - buf[0].timeStamp) then
          WindowResult(ResultCodes.GestureDetected, [])
        else WindowResult(ResultCodes.GestureDetectionFailed, buf)
  }

  /** Detection happens exactly when the buffer already held a frame, all three
      compared frames have a tracked skeleton, the guard passes and the trigger
      holds; the latest skeleton is then the new frame's. */
  lemma DetectedIff(buffer: seq<NuiElement>, e: NuiElement, rejects: Guard, detects: Trigger)
    ensures Slide(buffer, e, rejects, detects).code == ResultCodes.GestureDetected <==>
      (|buffer| >= 1 &&
       var buf := buffer + [e];
       Endpoints(buf).Some? &&
       var (o, p, l) := Endpoints(buf).value;
       !rejects(o, p, l) && detects(o, l, e.timeStamp - buffer[0].timeStamp))
    ensures Slide(buffer, e, rejects, detects).code == ResultCodes.GestureDetected ==>
      TrackedSkeleton(e).Some?
  {
    var buf := buffer + [e];
    if |buffer| >= 1 {
      assert buf[0] == buffer[0] && buf[|buf| - 1] == e;
    }
  }

  /** The first frame of an empty buffer never detects anything: it is kept. */
  lemma FirstFrameIsKept(e: NuiElement, rejects: Guard, detects: Trigger)
    ensures Slide([], e, rejects, detects) == WindowResult(ResultCodes.GestureDetectionFailed, [e])
  {
  }
}
