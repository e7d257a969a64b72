// The keyboard worker: turns game commands into key strokes injected into the
// game window, and remembers which keys it is holding down so that a held key
// is not pressed twice and a STOP command can let go of all of them.
module KeyboardInputProcessor {
  import opened GestureBase
  import opened IntList
  import opened KeyBoardScanCodes
  import ResultCodes
  import KeyboardPersistance
  import KeyboardAction

  /** A command for the keyboard worker; a fresh record holds -1 in both fields. */
  datatype KeyboardData = KeyboardData(keyboardAction: int, keyPersistance: int)

  const NewKeyboardData := KeyboardData(-1, -1)

  /** One call into the SendInput wrapper, which is not part of this model. */
  datatype KeyInjection = PressKey(scanCode: int) | PressAndReleaseKey(scanCode: int) | ReleaseKey(scanCode: int)

  /** What the SendInput wrapper answers to each call: the number of input events
      it inserted, or a value <= 0 when it failed. */
  type SendInput = KeyInjection -> int

  /** The game commands that have a key: every keyboard action except STOP. */
  predicate Mapped(action: int) {
    KeyboardAction.MOVE_RIGHT <= action <= KeyboardAction.GRENADE && action != KeyboardAction.STOP
  }

  /** The key a game command is played with; DIK_UNKNOWN for STOP and for any
      value that is not a game command. */
  function GetKeyScanCode(keyboardCommand: int): (resultCode: int)
    ensures resultCode == DIK_UNKNOWN <==> !Mapped(keyboardCommand)
    ensures 0 < resultCode <= 0xFF
  {
    if keyboardCommand == KeyboardAction.MOVE_RIGHT then DIK_D
    else if keyboardCommand == KeyboardAction.MOVE_LEFT then DIK_A
    else if keyboardCommand == KeyboardAction.MOVE_UP then DIK_W
    else if keyboardCommand == KeyboardAction.MOVE_DOWN then DIK_S
    else if keyboardCommand == KeyboardAction.JUMP then DIK_SPACE
    else if keyboardCommand == KeyboardAction.RELOAD then DIK_R
    else if keyboardCommand == KeyboardAction.KNIFE then DIK_V
    else if keyboardCommand == KeyboardAction.GRENADE then DIK_G
    else if keyboardCommand == KeyboardAction.ENTER then DIK_RETURN
    else if keyboardCommand == KeyboardAction.LONG_JUMP then DIK_Z
    else if keyboardCommand == KeyboardAction.SHOOT then DIK_Z
    else if keyboardCommand == KeyboardAction.ESC then DIK_ESCAPE
    else if keyboardCommand == KeyboardAction.UP_ARROW then DIK_UPARROW
    else if keyboardCommand == KeyboardAction.DOWN_ARROW then DIK_DOWNARROW
    else if keyboardCommand == KeyboardAction.RIGHT_ARROW then DIK_RIGHTARROW
    else if keyboardCommand == KeyboardAction.LEFT_ARROW then DIK_LEFTARROW
    else DIK_UNKNOWN
  }

  /** Two different game commands share a key only when they are LONG_JUMP and
      SHOOT, which are both played with Z. */
  lemma OnlyLongJumpAndShootShareAKey(a: int, b: int)
    requires Mapped(a) && Mapped(b) && a != b
    ensures GetKeyScanCode(a) == GetKeyScanCode(b) <==> {a, b} == {KeyboardAction.LONG_JUMP, KeyboardAction.SHOOT}
  {
  }

  /** A SendInput answer as the worker reports it: failures become KeyPressFailed. */
  function Reported(sendResult: int): int {
    if sendResult <= 0 then ResultCodes.KeyPressFailed else sendResult
  }

  /** What processing one command does: the keys held afterwards, the calls made
      into SendInput, and the result code. */
  datatype KeyboardOutput = KeyboardOutput(keysPressed: seq<int>, injected: seq<KeyInjection>, result: int)

  /** Sending one key stroke with the given persistence. */
  function Send(keysPressed: seq<int>, keyAction: int, scanCode: int, command: int, send: SendInput): KeyboardOutput {
    if keyAction == KeyboardPersistance.PRESS then
      KeyboardOutput(keysPressed + [command], [PressKey(scanCode)], Reported(send(PressKey(scanCode))))
    else if keyAction == KeyboardPersistance.PRESS_AND_RELEASE then
      KeyboardOutput(keysPressed, [PressAndReleaseKey(scanCode)], Reported(send(PressAndReleaseKey(scanCode))))
    else if keyAction == KeyboardPersistance.RELEASE then
      KeyboardOutput(Remove(keysPressed, command), [ReleaseKey(scanCode)], Reported(send(ReleaseKey(scanCode))))
    else
      KeyboardOutput(keysPressed, [], ResultCodes.KeyPressFailed)
  }

  /** Letting go of the held keys in order, stopping at the first key without a
      scan code or whose release fails: the releases sent, and the result. */
  function ReleaseAll(keys: seq<int>, send: SendInput): (seq<KeyInjection>, int) {
    if |keys| == 0 then ([], ResultCodes.Success)
    else
      var scanCode := GetKeyScanCode(keys[0]);
      if scanCode == DIK_UNKNOWN then ([], ResultCodes.KeyboardCommandInvalid)
      else if send(ReleaseKey(scanCode)) <= 0 then ([ReleaseKey(scanCode)], ResultCodes.KeyReleaseFailed)
      else
        var rest := ReleaseAll(keys[1..], send);
        ([ReleaseKey(scanCode)] + rest.0, rest.1)
  }

  /** Processing one command taken from the queue. */
  function KeyboardStep(keysPressed: seq<int>, inputData: KeyboardData, send: SendInput): (r: KeyboardOutput)
    ensures inputData.keyboardAction == KeyboardAction.STOP ==> r.keysPressed == []
    ensures inputData.keyboardAction != KeyboardAction.STOP && inputData.keyboardAction in keysPressed
            && inputData.keyPersistance != KeyboardPersistance.RELEASE
            ==> r == KeyboardOutput(keysPressed, [], ResultCodes.Success)
    ensures inputData.keyboardAction != KeyboardAction.STOP && !Mapped(inputData.keyboardAction)
            && (inputData.keyboardAction !in keysPressed || inputData.keyPersistance == KeyboardPersistance.RELEASE)
            ==> r == KeyboardOutput(keysPressed, [], ResultCodes.KeyboardCommandInvalid)
  {
    var action := inputData.keyboardAction;
    if action == KeyboardAction.STOP then
      var released := ReleaseAll(keysPressed, send);
      KeyboardOutput([], released.0, released.1)
    else if action !in keysPressed || inputData.keyPersistance == KeyboardPersistance.RELEASE then
      var scanCode := GetKeyScanCode(action);
      if scanCode == DIK_UNKNOWN then KeyboardOutput(keysPressed, [], ResultCodes.KeyboardCommandInvalid)
      else Send(keysPressed, inputData.keyPersistance, scanCode, action, send)
    else
      KeyboardOutput(keysPressed, [], ResultCodes.Success)
  }

  /** The keys the worker believes it holds: each at most once, each a game command. */
  predicate KeysInvariant(keysPressed: seq<int>) {
    NoDuplicates(keysPressed) && forall k | k in keysPressed :: Mapped(k)
  }

  /** Every command keeps the held-key list free of duplicates: a PRESS is sent
      only for a key that is not held. */
  lemma StepPreservesKeysInvariant(keysPressed: seq<int>, inputData: KeyboardData, send: SendInput)
    requires KeysInvariant(keysPressed)
    ensures KeysInvariant(KeyboardStep(keysPressed, inputData, send).keysPressed)
  {
    var action := inputData.keyboardAction;
    if action != KeyboardAction.STOP && (action !in keysPressed || inputData.keyPersistance == KeyboardPersistance.RELEASE)
       && Mapped(action) {
      if inputData.keyPersistance == KeyboardPersistance.PRESS {
        AppendAbsent(keysPressed, action);
      } else if inputData.keyPersistance == KeyboardPersistance.RELEASE {
        RemoveForgets(keysPressed, action);
      }
    }
  }

  /** The effect of a game command that is sent to the game: PRESS holds the key
      whatever SendInput answers, PRESS_AND_RELEASE leaves the held keys alone,
      RELEASE lets go of it, and any other persistence sends nothing and fails. */
  lemma CommandEffects(keysPressed: seq<int>, inputData: KeyboardData, send: SendInput)
    requires KeysInvariant(keysPressed)
    requires Mapped(inputData.keyboardAction)
    requires inputData.keyboardAction !in keysPressed || inputData.keyPersistance == KeyboardPersistance.RELEASE
    ensures var r := KeyboardStep(keysPressed, inputData, send);
      var action := inputData.keyboardAction;
      var scanCode := GetKeyScanCode(action);
      && (inputData.keyPersistance == KeyboardPersistance.PRESS ==>
            r.keysPressed == keysPressed + [action] && r.injected == [PressKey(scanCode)])
      && (inputData.keyPersistance == KeyboardPersistance.PRESS_AND_RELEASE ==>
            r.keysPressed == keysPressed && r.injected == [PressAndReleaseKey(scanCode)])
      && (inputData.keyPersistance == KeyboardPersistance.RELEASE ==>
            action !in r.keysPressed && multiset(r.keysPressed) == multiset(keysPressed) - multiset{action}
            && r.injected == [ReleaseKey(scanCode)])
      && (inputData.keyPersistance !in {KeyboardPersistance.PRESS, KeyboardPersistance.PRESS_AND_RELEASE, KeyboardPersistance.RELEASE} ==>
            r == KeyboardOutput(keysPressed, [], ResultCodes.KeyPressFailed))
  {
    if inputData.keyPersistance == KeyboardPersistance.RELEASE {
      RemoveForgets(keysPressed, inputData.keyboardAction);
    }
  }

  /** A command other than STOP never reports a SendInput failure as anything but
      KeyPressFailed: the result is Success, a positive event count or a positive
      error code. */
  lemma FailuresAreReported(keysPressed: seq<int>, inputData: KeyboardData, send: SendInput)
    requires inputData.keyboardAction != KeyboardAction.STOP
    ensures KeyboardStep(keysPressed, inputData, send).result >= 0
    ensures var r := KeyboardStep(keysPressed, inputData, send);
      var scanCode := GetKeyScanCode(inputData.keyboardAction);
      r.injected == [PressKey(scanCode)] && send(PressKey(scanCode)) <= 0 ==> r.result == ResultCodes.KeyPressFailed
  {
  }

  /** The releases of the given keys, in order. */
  function Releases(keys: seq<int>): (r: seq<KeyInjection>)
    ensures |r| == |keys|
    ensures forall i | 0 <= i < |keys| :: r[i] == ReleaseKey(GetKeyScanCode(keys[i]))
  {
    if |keys| == 0 then [] else [ReleaseKey(GetKeyScanCode(keys[0]))] + Releases(keys[1..])
  }

  /** STOP lets go of the held keys in order. If every release succeeds, all of
      them are released and the result is Success; if the release of key n is the
      first to fail, keys 0..n are released, the ones after it are never released,
      and the result is KeyReleaseFailed. Either way the list ends up empty. */
  lemma {:induction false} StopReleasesUntilFirstFailure(keys: seq<int>, send: SendInput, n: nat)
    requires forall k | k in keys :: Mapped(k)
    requires n <= |keys|
    requires forall i | 0 <= i < n :: send(ReleaseKey(GetKeyScanCode(keys[i]))) > 0
    ensures n == |keys| ==> ReleaseAll(keys, send) == (Releases(keys), ResultCodes.Success)
    ensures n < |keys| && send(ReleaseKey(GetKeyScanCode(keys[n]))) <= 0
            ==> ReleaseAll(keys, send) == (Releases(keys[..n + 1]), ResultCodes.KeyReleaseFailed)
    decreases n
  {
    if |keys| > 0 && n > 0 {
      var tail := keys[1..];
      assert forall i | 0 <= i < n - 1 :: tail[i] == keys[i + 1];
      StopReleasesUntilFirstFailure(tail, send, n - 1);
      assert Releases(keys) == [ReleaseKey(GetKeyScanCode(keys[0]))] + Releases(tail);
      if n < |keys| {
        assert keys[..n + 1] == [keys[0]] + tail[..n];
        assert Releases(keys[..n + 1]) == [ReleaseKey(GetKeyScanCode(keys[0]))] + Releases(tail[..n]);
      }
    } else if |keys| > 0 {
      assert Releases(keys[..1]) == [ReleaseKey(GetKeyScanCode(keys[0]))];
    }
  }

  class KeyboardInputProcessor {
    /** The command queue and the semaphore that wakes the worker. */
    const inbox: RequestQueue<KeyboardData>
    var keysPressed: seq<int>
    /** The calls made into SendInput so far, oldest first. */
    var injected: seq<KeyInjection>

    constructor()
      ensures fresh(inbox) && inbox.items == [] && inbox.pending == 0 && !inbox.threadExit
      ensures keysPressed == [] && injected == []
    {
      inbox := new RequestQueue();
      keysPressed := [];
      injected := [];
    }

    method GetKeysPressed() returns (keys: seq<int>)
      ensures keys == keysPressed
    {
      keys := keysPressed;
    }

    /** Add the command to the worker's queue; returns the worker's count of
        outstanding signals before this one. */
    method AddToQueue(keyboardData: KeyboardData) returns (previousCount: int)
      modifies inbox
      ensures inbox.items == old(inbox.items) + [keyboardData]
      ensures inbox.pending == old(inbox.pending) + 1 && previousCount == old(inbox.pending)
      ensures inbox.threadExit == old(inbox.threadExit)
    {
      previousCount := inbox.AddToQueue(keyboardData);
    }

    method ProcessKeyboardInput(inputData: KeyboardData, send: SendInput) returns (keyboardResult: int)
      modifies this
      ensures var r := KeyboardStep(old(keysPressed), inputData, send);
        && keysPressed == r.keysPressed
        && injected == old(injected) + r.injected
        && keyboardResult == r.result
    {
      if inputData.keyboardAction == KeyboardAction.STOP {
        keyboardResult := HandleStopCommand(send);
        return;
      }
      if inputData.keyboardAction !in keysPressed || inputData.keyPersistance == KeyboardPersistance.RELEASE {
        var scanCode := GetKeyScanCode(inputData.keyboardAction);
        if scanCode == DIK_UNKNOWN {
          keyboardResult := ResultCodes.KeyboardCommandInvalid;
          return;
        }
        keyboardResult := SendKeyboardCommand(inputData.keyPersistance, scanCode, inputData.keyboardAction, send);
      } else {
        keyboardResult := ResultCodes.Success;
      }
    }

    /** Let go of every held key, stopping at the first failure, then forget them all. */
    method HandleStopCommand(send: SendInput) returns (stopResult: int)
      modifies this
      ensures keysPressed == []
      ensures injected == old(injected) + ReleaseAll(old(keysPressed), send).0
      ensures stopResult == ReleaseAll(old(keysPressed), send).1
    {
      stopResult := ResultCodes.Success;
      if |keysPressed| == 0 {
        return;
      }
      var keys := keysPressed;
      ghost var released: seq<KeyInjection> := [];
      var i := 0;
      var failed := false;
      assert keys[0..] == keys;
      assert released + ReleaseAll(keys, send).0 == ReleaseAll(keys, send).0;
      while i < |keys| && !failed
        invariant 0 <= i <= |keys|
        invariant injected == old(injected) + released
        invariant !failed ==>
          && stopResult == ResultCodes.Success
          && ReleaseAll(keys, send).0 == released + ReleaseAll(keys[i..], send).0
          && ReleaseAll(keys, send).1 == ReleaseAll(keys[i..], send).1
        invariant failed ==> ReleaseAll(keys, send).0 == released && ReleaseAll(keys, send).1 == stopResult
        decreases |keys| - i
      {
        assert keys[i..][1..] == keys[i + 1..];
        var scanCode := GetKeyScanCode(keys[i]);
        if scanCode == DIK_UNKNOWN {
          stopResult := ResultCodes.KeyboardCommandInvalid;
          failed := true;
        } else {
          var sendInputResult := send(ReleaseKey(scanCode));
          injected := injected + [ReleaseKey(scanCode)];
          released := released + [ReleaseKey(scanCode)];
          if sendInputResult <= 0 {
            stopResult := ResultCodes.KeyReleaseFailed;
            failed := true;
          }
        }
        i := i + 1;
      }
      keysPressed := [];
    }

    method SendKeyboardCommand(keyAction: int, scanCode: int, currKeyboardCommand: int, send: SendInput) returns (sendResult: int)
      modifies this
      ensures var r := Send(old(keysPressed), keyAction, scanCode, currKeyboardCommand, send);
        && keysPressed == r.keysPressed
        && injected == old(injected) + r.injected
        && sendResult == r.result
    {
      sendResult := ResultCodes.KeyPressFailed;
      if keyAction == KeyboardPersistance.PRESS {
        sendResult := send(PressKey(scanCode));
        injected := injected + [PressKey(scanCode)];
        keysPressed := keysPressed + [currKeyboardCommand];
      } else if keyAction == KeyboardPersistance.PRESS_AND_RELEASE {
        sendResult := send(PressAndReleaseKey(scanCode));
        injected := injected + [PressAndReleaseKey(scanCode)];
      } else if keyAction == KeyboardPersistance.RELEASE {
        sendResult := send(ReleaseKey(scanCode));
        injected := injected + [ReleaseKey(scanCode)];
        keysPressed := Remove(keysPressed, currKeyboardCommand);
      }
      if sendResult <= 0 {
        sendResult := ResultCodes.KeyPressFailed;
      }
    }

    /** One pass of the worker loop: wait for a signal, then process the head of
        the queue if there is one. */
    method HandleKeyBoardInputStep(send: SendInput)
      requires inbox.pending > 0
      modifies this, inbox
      ensures inbox.pending == old(inbox.pending) - 1 && inbox.threadExit == old(inbox.threadExit)
      ensures |old(inbox.items)| == 0 ==>
        inbox.items == old(inbox.items) && keysPressed == old(keysPressed) && injected == old(injected)
      ensures |old(inbox.items)| > 0 ==>
        var r := KeyboardStep(old(keysPressed), old(inbox.items)[0], send);
        && inbox.items == old(inbox.items)[1..]
        && keysPressed == r.keysPressed
        && injected == old(injected) + r.injected
    {
      var next := inbox.WaitForRequest();
      if next.Some? {
        var _ := ProcessKeyboardInput(next.value, send);
      }
    }
  }
}
