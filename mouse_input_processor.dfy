// The mouse worker: turns mouse commands into pointer motion and button clicks
// injected into the game window, and remembers which buttons it is holding down.
module MouseInputProcessor {
  import opened GestureBase
  import opened IntList
  import ResultCodes
  import MouseButton
  import MousePresistance

  /** A command for the mouse worker; a fresh record holds -1 for the action and
      the persistence and 0 for the coordinates. */
  datatype MouseData = MouseData(mouseAction: int, keyPersistance: int, xCoordinate: int, yCoordinate: int)

  const NewMouseData := MouseData(-1, -1, 0, 0)

  /** One call into the SendInput wrapper, which is not part of this model. */
  datatype MouseInjection =
    | MoveMouse(x: int, y: int)
    | MouseClickAndRelease(button: int)
    | MouseClick(button: int, persistance: int)

  /** What the SendInput wrapper answers to each call: the number of input events
      it inserted, or a value <= 0 when it failed. */
  type SendInput = MouseInjection -> int

  /** The two buttons the worker can hold. */
  predicate IsButton(action: int) {
    action == MouseButton.LEFT_MOUSE_BUTTON || action == MouseButton.RIGHT_MOUSE_BUTTON
  }

  /** What processing one command does: the buttons held afterwards, the calls made
      into SendInput, and the result code. */
  datatype MouseOutput = MouseOutput(pressedClicks: seq<int>, injected: seq<MouseInjection>, result: int)

  /** A SendInput answer as the worker reports it: failures become KeyPressFailed. */
  function Reported(sendResult: int): int {
    if sendResult <= 0 then ResultCodes.KeyPressFailed else sendResult
  }

  /** Sending one mouse command. A double click and hold makes two calls and
      reports the answer to the second. */
  function Send(pressedClicks: seq<int>, mouseButton: int, x: int, y: int, presistance: int, send: SendInput): MouseOutput {
    if mouseButton == MouseButton.MOUSE_MOVE then
      MouseOutput(pressedClicks, [MoveMouse(x, y)], Reported(send(MoveMouse(x, y))))
    else if mouseButton == MouseButton.LEFT_MOUSE_BUTTON then
      if presistance == MousePresistance.PRESS_AND_RELEASE then
        MouseOutput(pressedClicks, [MouseClickAndRelease(mouseButton)], Reported(send(MouseClickAndRelease(mouseButton))))
      else if presistance == MousePresistance.DOUBLE_CLICK_HOLD then
        var hold := MouseClick(mouseButton, MousePresistance.PRESS_AND_HOLD);
        MouseOutput(pressedClicks + [mouseButton], [MouseClickAndRelease(mouseButton), hold], Reported(send(hold)))
      else if presistance == MousePresistance.RELEASE then
        var release := MouseClick(mouseButton, MousePresistance.RELEASE);
        MouseOutput(Remove(pressedClicks, mouseButton), [release], Reported(send(release)))
      else if presistance == MousePresistance.PRESS_AND_HOLD then
        var hold := MouseClick(mouseButton, presistance);
        MouseOutput(pressedClicks + [mouseButton], [hold], Reported(send(hold)))
      else
        MouseOutput(pressedClicks, [], ResultCodes.InvalidPersistance)
    else if mouseButton == MouseButton.RIGHT_MOUSE_BUTTON then
      if presistance == MousePresistance.PRESS_AND_RELEASE then
        MouseOutput(pressedClicks, [MouseClickAndRelease(mouseButton)], Reported(send(MouseClickAndRelease(mouseButton))))
      else if presistance == MousePresistance.RELEASE then
        var release := MouseClick(mouseButton, MousePresistance.RELEASE);
        MouseOutput(Remove(pressedClicks, mouseButton), [release], Reported(send(release)))
      else if presistance == MousePresistance.PRESS_AND_HOLD then
        var hold := MouseClick(mouseButton, presistance);
        MouseOutput(pressedClicks + [mouseButton], [hold], Reported(send(hold)))
      else
        MouseOutput(pressedClicks, [], ResultCodes.InvalidPersistance)
    else
      MouseOutput(pressedClicks, [], ResultCodes.KeyPressFailed)
  }

  /** Processing one command taken from the queue. */
  function MouseStep(pressedClicks: seq<int>, inputData: MouseData, send: SendInput): (r: MouseOutput)
    ensures inputData.mouseAction == MouseButton.MOUSE_MOVE ==>
      && r.pressedClicks == pressedClicks
      && r.injected == [MoveMouse(inputData.xCoordinate, inputData.yCoordinate)]
    ensures !IsButton(inputData.mouseAction) && inputData.mouseAction != MouseButton.MOUSE_MOVE ==>
      r == MouseOutput(pressedClicks, [], ResultCodes.Success)
    ensures IsButton(inputData.mouseAction) ==>
      (r.injected == [] && r.pressedClicks == pressedClicks
       <==> (inputData.mouseAction in pressedClicks && inputData.keyPersistance != MousePresistance.RELEASE)
            || inputData.keyPersistance !in {MousePresistance.RELEASE, MousePresistance.PRESS_AND_HOLD,
                                             MousePresistance.PRESS_AND_RELEASE, MousePresistance.DOUBLE_CLICK_HOLD}
            || (inputData.mouseAction == MouseButton.RIGHT_MOUSE_BUTTON && inputData.keyPersistance == MousePresistance.DOUBLE_CLICK_HOLD))
  {
    var action := inputData.mouseAction;
    if action == MouseButton.MOUSE_MOVE then
      Send(pressedClicks, action, inputData.xCoordinate, inputData.yCoordinate, inputData.keyPersistance, send)
    else if action == MouseButton.LEFT_MOUSE_BUTTON && action !in pressedClicks then
      Send(pressedClicks, action, -1, -1, inputData.keyPersistance, send)
    else if action == MouseButton.RIGHT_MOUSE_BUTTON && action !in pressedClicks then
      Send(pressedClicks, action, -1, -1, inputData.keyPersistance, send)
    else if action == MouseButton.LEFT_MOUSE_BUTTON && inputData.keyPersistance == MousePresistance.RELEASE then
      Send(pressedClicks, action, -1, -1, inputData.keyPersistance, send)
    else if action == MouseButton.RIGHT_MOUSE_BUTTON && inputData.keyPersistance == MousePresistance.RELEASE then
      Send(pressedClicks, action, -1, -1, inputData.keyPersistance, send)
    else
      MouseOutput(pressedClicks, [], ResultCodes.Success)
  }

  /** The buttons the worker believes it holds: each at most once, each a button. */
  predicate ClicksInvariant(pressedClicks: seq<int>) {
    NoDuplicates(pressedClicks) && forall b | b in pressedClicks :: IsButton(b)
  }

  /** Every command keeps the held-button list free of duplicates: a button is
      added only when it is not held. */
  lemma StepPreservesClicksInvariant(pressedClicks: seq<int>, inputData: MouseData, send: SendInput)
    requires ClicksInvariant(pressedClicks)
    ensures ClicksInvariant(MouseStep(pressedClicks, inputData, send).pressedClicks)
  {
    var action := inputData.mouseAction;
    var p := inputData.keyPersistance;
    if IsButton(action) && (action !in pressedClicks || p == MousePresistance.RELEASE) {
      var r := Send(pressedClicks, action, -1, -1, p, send);
      assert MouseStep(pressedClicks, inputData, send) == r;
      if p == MousePresistance.RELEASE {
        RemoveForgets(pressedClicks, action);
      } else if r.pressedClicks != pressedClicks {
        assert r.pressedClicks == pressedClicks + [action];
        AppendAbsent(pressedClicks, action);
      }
    }
  }

  /** The effect of a button command the worker acts on, per button and
      persistence: what it sends to the game and how the held buttons change. */
  lemma ButtonEffects(pressedClicks: seq<int>, inputData: MouseData, send: SendInput)
    requires ClicksInvariant(pressedClicks)
    requires IsButton(inputData.mouseAction)
    requires inputData.mouseAction !in pressedClicks || inputData.keyPersistance == MousePresistance.RELEASE
    ensures var r := MouseStep(pressedClicks, inputData, send);
      var b := inputData.mouseAction;
      var p := inputData.keyPersistance;
      && (p == MousePresistance.PRESS_AND_RELEASE ==>
            r.pressedClicks == pressedClicks && r.injected == [MouseClickAndRelease(b)])
      && (p == MousePresistance.PRESS_AND_HOLD ==>
            r.pressedClicks == pressedClicks + [b] && r.injected == [MouseClick(b, MousePresistance.PRESS_AND_HOLD)])
      && (p == MousePresistance.RELEASE ==>
            b !in r.pressedClicks && multiset(r.pressedClicks) == multiset(pressedClicks) - multiset{b}
            && r.injected == [MouseClick(b, MousePresistance.RELEASE)])
      && (p == MousePresistance.DOUBLE_CLICK_HOLD && b == MouseButton.LEFT_MOUSE_BUTTON ==>
            r.pressedClicks == pressedClicks + [b]
            && r.injected == [MouseClickAndRelease(b), MouseClick(b, MousePresistance.PRESS_AND_HOLD)])
      && (p == MousePresistance.DOUBLE_CLICK_HOLD && b == MouseButton.RIGHT_MOUSE_BUTTON ==>
            r == MouseOutput(pressedClicks, [], ResultCodes.InvalidPersistance))
  {
    if inputData.keyPersistance == MousePresistance.RELEASE {
      RemoveForgets(pressedClicks, inputData.mouseAction);
    }
  }

  /** A held button stays held through any command but its own RELEASE; a
      released one can be held again only by a new press. */
  lemma HeldUntilReleased(pressedClicks: seq<int>, inputData: MouseData, send: SendInput, b: int)
    requires ClicksInvariant(pressedClicks) && b in pressedClicks
    requires !(inputData.mouseAction == b && inputData.keyPersistance == MousePresistance.RELEASE)
    ensures b in MouseStep(pressedClicks, inputData, send).pressedClicks
  {
    var action := inputData.mouseAction;
    if IsButton(action) && action != b && inputData.keyPersistance == MousePresistance.RELEASE {
      var r := Remove(pressedClicks, action);
      assert b in multiset(pressedClicks);
      assert b in multiset(r);
    }
  }

  class MouseInputProcessor {
    /** The command queue and the semaphore that wakes the worker. */
    const inbox: RequestQueue<MouseData>
    var pressedClicks: seq<int>
    /** The calls made into SendInput so far, oldest first. */
    var injected: seq<MouseInjection>

    constructor()
      ensures fresh(inbox) && inbox.items == [] && inbox.pending == 0 && !inbox.threadExit
      ensures pressedClicks == [] && injected == []
    {
      inbox := new RequestQueue();
      pressedClicks := [];
      injected := [];
    }

    /** Add the command to the worker's queue; returns the worker's count of
        outstanding signals before this one. */
    method AddToQueue(mouseData: MouseData) returns (previousCount: int)
      modifies inbox
      ensures inbox.items == old(inbox.items) + [mouseData]
      ensures inbox.pending == old(inbox.pending) + 1 && previousCount == old(inbox.pending)
      ensures inbox.threadExit == old(inbox.threadExit)
    {
      previousCount := inbox.AddToQueue(mouseData);
    }

    method ProcessMouseInput(inputData: MouseData, send: SendInput) returns (mouseResult: int)
      modifies this
      ensures var r := MouseStep(old(pressedClicks), inputData, send);
        && pressedClicks == r.pressedClicks
        && injected == old(injected) + r.injected
        && mouseResult == r.result
    {
      mouseResult := ResultCodes.Success;
      var action := inputData.mouseAction;
      if action == MouseButton.MOUSE_MOVE {
        mouseResult := SendMouseCommand(action, inputData.xCoordinate, inputData.yCoordinate, inputData.keyPersistance, send);
        return;
      }
      if action == MouseButton.LEFT_MOUSE_BUTTON && action !in pressedClicks {
        mouseResult := SendMouseCommand(action, -1, -1, inputData.keyPersistance, send);
        return;
      }
      if action == MouseButton.RIGHT_MOUSE_BUTTON && action !in pressedClicks {
        mouseResult := SendMouseCommand(action, -1, -1, inputData.keyPersistance, send);
        return;
      }
      if action == MouseButton.LEFT_MOUSE_BUTTON && inputData.keyPersistance == MousePresistance.RELEASE {
        mouseResult := SendMouseCommand(action, -1, -1, inputData.keyPersistance, send);
        return;
      }
      if action == MouseButton.RIGHT_MOUSE_BUTTON && inputData.keyPersistance == MousePresistance.RELEASE {
        mouseResult := SendMouseCommand(action, -1, -1, inputData.keyPersistance, send);
        return;
      }
    }

    method SendMouseCommand(mouseButton: int, xCoordinate: int, yCoordinate: int, presistance: int, send: SendInput)
      returns (sendResult: int)
      modifies this
      ensures var r := Send(old(pressedClicks), mouseButton, xCoordinate, yCoordinate, presistance, send);
        && pressedClicks == r.pressedClicks
        && injected == old(injected) + r.injected
        && sendResult == r.result
    {
      sendResult := ResultCodes.KeyPressFailed;
      if mouseButton == MouseButton.MOUSE_MOVE {
        sendResult := send(MoveMouse(xCoordinate, yCoordinate));
        injected := injected + [MoveMouse(xCoordinate, yCoordinate)];
      } else if mouseButton == MouseButton.LEFT_MOUSE_BUTTON {
        if presistance == MousePresistance.PRESS_AND_RELEASE {
          sendResult := send(MouseClickAndRelease(mouseButton));
          injected := injected + [MouseClickAndRelease(mouseButton)];
        } else if presistance == MousePresistance.DOUBLE_CLICK_HOLD {
          sendResult := send(MouseClickAndRelease(mouseButton));
          sendResult := send(MouseClick(mouseButton, MousePresistance.PRESS_AND_HOLD));
          injected := injected + [MouseClickAndRelease(mouseButton), MouseClick(mouseButton, MousePresistance.PRESS_AND_HOLD)];
          pressedClicks := pressedClicks + [mouseButton];
        } else if presistance == MousePresistance.RELEASE {
          sendResult := send(MouseClick(mouseButton, MousePresistance.RELEASE));
          injected := injected + [MouseClick(mouseButton, MousePresistance.RELEASE)];
          pressedClicks := Remove(pressedClicks, mouseButton);
        } else if presistance == MousePresistance.PRESS_AND_HOLD {
          sendResult := send(MouseClick(mouseButton, presistance));
          injected := injected + [MouseClick(mouseButton, presistance)];
          pressedClicks := pressedClicks + [mouseButton];
        } else {
          sendResult := ResultCodes.InvalidPersistance;
        }
      } else if mouseButton == MouseButton.RIGHT_MOUSE_BUTTON {
        if presistance == MousePresistance.PRESS_AND_RELEASE {
          sendResult := send(MouseClickAndRelease(mouseButton));
          injected := injected + [MouseClickAndRelease(mouseButton)];
        } else if presistance == MousePresistance.RELEASE {
          sendResult := send(MouseClick(mouseButton, MousePresistance.RELEASE));
          injected := injected + [MouseClick(mouseButton, MousePresistance.RELEASE)];
          pressedClicks := Remove(pressedClicks, mouseButton);
        } else if presistance == MousePresistance.PRESS_AND_HOLD {
          sendResult := send(MouseClick(mouseButton, presistance));
          injected := injected + [MouseClick(mouseButton, presistance)];
          pressedClicks := pressedClicks + [mouseButton];
        } else {
          sendResult := ResultCodes.InvalidPersistance;
        }
      }
      if sendResult <= 0 {
        sendResult := ResultCodes.KeyPressFailed;
      }
    }

    /** One pass of the worker loop: wait for a signal, then process the head of
        the queue if there is one. */
    method HandleMouseInputStep(send: SendInput)
      requires inbox.pending > 0
      modifies this, inbox
      ensures inbox.pending == old(inbox.pending) - 1 && inbox.threadExit == old(inbox.threadExit)
      ensures |old(inbox.items)| == 0 ==>
        inbox.items == old(inbox.items) && pressedClicks == old(pressedClicks) && injected == old(injected)
      ensures |old(inbox.items)| > 0 ==>
        var r := MouseStep(old(pressedClicks), old(inbox.items)[0], send);
        && inbox.items == old(inbox.items)[1..]
        && pressedClicks == r.pressedClicks
        && injected == old(injected) + r.injected
    {
      var next := inbox.WaitForRequest();
      if next.Some? {
        var _ := ProcessMouseInput(next.value, send);
      }
    }
  }
}
