// Threshold tables of the gesture detectors. The left/right and jump tables are
// constant; the shooting table is calibrated once from the player's shoulder width.
module GestureThresholdValues {
  import opened Wrappers
  import opened Kinect

  // MoveLeftRightThresholds
  const MoveLeftRightFrameBufferSize: int := 60
  const MoveLeftRightGestureTime: int := 1200
  const MoveLeftRightDistance: real := 0.35

  // JumpGesture
  const JumpFrameBufferSize: int := 60
  const JumpGestureTime: int := 800
  const JumpDistance: real := 0.3

  // ShootingGestures: the constant part
  const ShootingFrameBufferSize: int := 60
  const ShootingGestureTime: int := 1200

  /** The calibrated part of the shooting table (all distances in metres). */
  datatype ShootingThresholds = ShootingThresholds(
    aimThresholdY: real,
    shootThresholdDistance: real,
    shootThresholdXY: real,
    insideBoxThresholdX: real,
    insideBoxThresholdY: real,
    insideBoxThresholdZ: real,
    jackThresholdY: real)

  /** The table before calibration. */
  const Uncalibrated := ShootingThresholds(0.0, 0.0, 0.0, 0.0, 0.0, 0.0, 0.0)

  function Abs(r: real): real {
    if r < 0.0 then -r else r
  }

  /** Horizontal distance between the two shoulders: the player's body scale. */
  function ShoulderWidth(s: SkeletonData): (w: real)
    ensures w >= 0.0
    ensures w == 0.0 <==> s.joints(ShoulderRight).x == s.joints(ShoulderLeft).x
  {
    Abs(s.joints(ShoulderRight).x - s.joints(ShoulderLeft).x)
  }

  /** The table computed from one tracked skeleton. Every threshold is a fixed
      fraction of the shoulder width, so the thresholds keep their order whatever
      the player's size: the shooting stillness tolerance is the tightest, the jack
      (aim-exit) height the widest. */
  function Calibrate(s: SkeletonData): (t: ShootingThresholds)
    ensures 0.0 <= t.shootThresholdXY <= t.shootThresholdDistance
    ensures t.shootThresholdDistance == t.insideBoxThresholdZ <= t.insideBoxThresholdX
    ensures t.insideBoxThresholdX == t.insideBoxThresholdY <= t.aimThresholdY <= t.jackThresholdY
    ensures t.jackThresholdY == ShoulderWidth(s)
  {
    var w := ShoulderWidth(s);
    ShootingThresholds(w * 0.8, w * 0.20, w * 0.15, w * 0.35, w * 0.35, w * 0.2, w)
  }

  /** The fractions of the shoulder width each threshold takes. */
  lemma CalibrationFractions(s: SkeletonData)
    ensures var t := Calibrate(s);
      && t.aimThresholdY == 0.8 * t.jackThresholdY
      && t.shootThresholdDistance == 0.2 * t.jackThresholdY
      && t.shootThresholdXY == 0.15 * t.jackThresholdY
      && t.insideBoxThresholdX == 0.35 * t.jackThresholdY
      && t.insideBoxThresholdZ == 0.2 * t.jackThresholdY
  {
  }

  /** The shooting table object owned by the shooting detector. */
  class ShootingGestures {
    var aimThresholdY: real
    var shootThresholdDistance: real
    var shootThresholdXY: real
    var insideBoxThresholdX: real
    var insideBoxThresholdY: real
    var insideBoxThresholdZ: real
    var jackThresholdY: real
    var isThresholdSet: bool

    /** The table's current values. */
    function Values(): ShootingThresholds
      reads this
    {
      ShootingThresholds(aimThresholdY, shootThresholdDistance, shootThresholdXY,
        insideBoxThresholdX, insideBoxThresholdY, insideBoxThresholdZ, jackThresholdY)
    }

    constructor()
      ensures Values() == Uncalibrated && !isThresholdSet
    {
      aimThresholdY := 0.0;
      shootThresholdDistance := 0.0;
      shootThresholdXY := 0.0;
      insideBoxThresholdX := 0.0;
      insideBoxThresholdY := 0.0;
      insideBoxThresholdZ := 0.0;
      jackThresholdY := 0.0;
      isThresholdSet := false;
    }

    /** Calibrate from a tracked skeleton; a missing skeleton changes nothing. */
    method SetThresholdValues(trackedSkeleton: Option<SkeletonData>)
      modifies this
      ensures trackedSkeleton.None? ==> Values() == old(Values()) && isThresholdSet == old(isThresholdSet)
      ensures trackedSkeleton.Some? ==> Values() == Calibrate(trackedSkeleton.value) && isThresholdSet
    {
      if trackedSkeleton.None? {
        return;
      }
      var s := trackedSkeleton.value;
      aimThresholdY := Abs(s.joints(ShoulderRight).x - s.joints(ShoulderLeft).x) * 0.8;
      shootThresholdDistance := Abs(s.joints(ShoulderRight).x - s.joints(ShoulderLeft).x) * 0.20;
      shootThresholdXY := Abs(s.joints(ShoulderRight).x - s.joints(ShoulderLeft).x) * 0.15;
      insideBoxThresholdX := Abs(s.joints(ShoulderRight).x - s.joints(ShoulderLeft).x) * 0.35;
      insideBoxThresholdY := insideBoxThresholdX;
      insideBoxThresholdZ := Abs(s.joints(ShoulderRight).x - s.joints(ShoulderLeft).x) * 0.2;
      jackThresholdY := Abs(s.joints(ShoulderRight).x - s.joints(ShoulderLeft).x);
      isThresholdSet := true;
    }
  }
}
