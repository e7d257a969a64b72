// The integer enumerations shared by every processor of the application.
// The C# code casts each of them to `int` and passes plain integers between
// components, so each enumeration is a module of integer constants here.

/** Result values returned by every processing routine. */
module ResultCodes {

  const Success: int := 0
  const NuiIntializationFailed: int := 1
  const OutOfMemory: int := 2
  const UnableToWakeUpThread: int := 3
  const VideoProcessorFailed: int := 4
  const KeyPressFailed: int := 5
  const KeyReleaseFailed: int := 6
  const GameNotFound: int := 7
  const GameSetFocusFail: int := 8
  const KeyboardCommandInvalid: int := 9
  const SoundProcessorFailed: int := 10
  const GestureDetected: int := 11
  const GestureDetectionFailed: int := 12
  const MouseInputFailed: int := 13
  const NullTrackedSkeleton: int := 14
  const InvalidPersistance: int := 15

  /** The codes in declaration order: enumeration value i is at index i. */
  const AllCodes: seq<int> := [Success, NuiIntializationFailed, OutOfMemory, UnableToWakeUpThread,
    VideoProcessorFailed, KeyPressFailed, KeyReleaseFailed, GameNotFound, GameSetFocusFail,
    KeyboardCommandInvalid, SoundProcessorFailed, GestureDetected, GestureDetectionFailed,
    MouseInputFailed, NullTrackedSkeleton, InvalidPersistance]

  /** Largest number of outstanding requests a worker queue admits. */
  const MAX_CONCURRENT_REQUESTS: int := 10000

  const NuiIntializationFailedMessage: string :=
    "Error - Unable to initialize the Kinect sensors. " + "Make sure Kinect is connected to the computer"
  const OutOfMemoryMessage: string := "Error: System is out of memory"

  /** Human-readable text of a result code; only two codes have a message. */
  function ToString(code: int): (s: string)
    ensures s != [] <==> code == NuiIntializationFailed || code == OutOfMemory
    ensures code == OutOfMemory ==> s == OutOfMemoryMessage
    ensures code == NuiIntializationFailed ==> s == NuiIntializationFailedMessage
  {
    if code == NuiIntializationFailed then NuiIntializationFailedMessage
    else if code == OutOfMemory then OutOfMemoryMessage
    else ""
  }

  /** The enumeration numbers its members 0, 1, 2, ... without gaps, so every
      failure code is positive: "result <= 0" never confuses a code with a failure. */
  lemma CodesAreConsecutive()
    ensures |AllCodes| == 16
    ensures forall i | 0 <= i < |AllCodes| :: AllCodes[i] == i
    ensures forall i | 1 <= i < |AllCodes| :: AllCodes[i] > Success
  {
  }
}

/** How long a keyboard key is held. */
module KeyboardPersistance {
  const PRESS: int := 0
  const PRESS_AND_RELEASE: int := 1
  const RELEASE: int := 2
  const UNKNOWN: int := 3
}

/** Game commands a gesture or a spoken word can ask for. */
module KeyboardAction {
  const MOVE_RIGHT: int := 0
  const MOVE_LEFT: int := 1
  const MOVE_UP: int := 2
  const MOVE_DOWN: int := 3
  const JUMP: int := 4
  const LONG_JUMP: int := 5
  const SHOOT: int := 6
  const STOP: int := 7
  const ESC: int := 8
  const UP_ARROW: int := 9
  const DOWN_ARROW: int := 10
  const LEFT_ARROW: int := 11
  const RIGHT_ARROW: int := 12
  const RELOAD: int := 13
  const ENTER: int := 14
  const KNIFE: int := 15
  const GRENADE: int := 16
}

module MouseScalingFactor {
  const SCALE_FACTOR: int := 65535
}

/** Mouse buttons, the wheel, and pointer motion. */
module MouseButton {
  const RIGHT_MOUSE_BUTTON: int := 0
  const LEFT_MOUSE_BUTTON: int := 1
  const WHEEL_MOVE_UP: int := 2
  const WHEEL_MOVE_DOWN: int := 3
  const MOUSE_MOVE: int := 4
}

/** How long a mouse button is held. */
module MousePresistance {
  const RELEASE: int := 0
  const PRESS_AND_HOLD: int := 1
  const PRESS_AND_RELEASE: int := 2
  const DOUBLE_CLICK_HOLD: int := 3
}

module SkeletalDistance {
  const MOVE_FORWARD: int := 13000
  const MOVE_BACKWARD: int := 19000
}

/** Which leg produced a keyboard gesture. */
module GestureID {
  const LEFT_LEG_MOVED: int := 0
  const RIGHT_LEG_MOVED: int := 1
}
