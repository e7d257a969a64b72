// The part of the Kinect sensor's skeleton stream the gesture code reads: a frame
// holds several skeletons, each with a tracking state and one position per joint.
module Kinect {
  import opened Wrappers

  /** A joint position in metres, in the sensor's coordinate space. */
  datatype Vector = Vector(x: real, y: real, z: real)

  /** The twenty joints of a Kinect skeleton. */
  datatype JointId =
    | HipCenter | Spine | ShoulderCenter | Head
    | ShoulderLeft | ElbowLeft | WristLeft | HandLeft
    | ShoulderRight | ElbowRight | WristRight | HandRight
    | HipLeft | KneeLeft | AnkleLeft | FootLeft
    | HipRight | KneeRight | AnkleRight | FootRight

  datatype SkeletonTrackingState = NotTracked | PositionOnly | Tracked

  /** One skeleton of a frame; every joint has a position. */
  datatype SkeletonData = SkeletonData(trackingState: SkeletonTrackingState, joints: JointId -> Vector)

  /** The skeletons of one sensor frame, in the order the sensor reports them. */
  type SkeletonFrame = seq<SkeletonData>

  predicate IsTracked(s: SkeletonData) {
    s.trackingState == Tracked
  }

  /** The first fully tracked skeleton of a frame, or None when there is none:
      the query `where TrackingState == Tracked select ... FirstOrDefault()`
      that every gesture runs on every frame. */
  function FirstTracked(frame: SkeletonFrame): (r: Option<SkeletonData>)
    ensures r.None? <==> forall i | 0 <= i < |frame| :: !IsTracked(frame[i])
    ensures r.Some? ==> IsTracked(r.value)
    ensures r.Some? ==> exists k | 0 <= k < |frame| ::
      frame[k] == r.value && forall j | 0 <= j < k :: !IsTracked(frame[j])
  {
    if |frame| == 0 then None
    else if IsTracked(frame[0]) then Some(frame[0])
    else
      var r := FirstTracked(frame[1..]);
      assert forall i | 1 <= i < |frame| :: frame[i] == frame[1..][i - 1];
      r
  }
}
