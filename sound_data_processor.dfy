// The sound data processor: the worker that receives the words the speech
// recogniser heard and turns each command word into a key press-and-release on
// the keyboard worker's queue.
module SoundDataProcessor {
  import opened Wrappers
  import opened GestureBase
  import ResultCodes
  import KeyboardAction
  import KeyboardPersistance
  import KeyboardInputProcessor
  import KeyBoardScanCodes

  /** The words of the recognition grammar, in the order they are added to it. */
  const Grammar: seq<string> := [
    "jump", "reload", "aim", "knife", "grenade",
    "menu", "pause", "select", "okay", "enter",
    "up", "down", "left", "right"
  ]

  /** The game command a heard word asks for. Every grammar word but "aim" asks
      for one; a word outside the grammar asks for none. */
  function SpokenAction(word: string): (r: Option<int>)
    ensures r.None? <==> word !in Grammar || word == "aim"
    ensures r.Some? ==> KeyboardInputProcessor.Mapped(r.value)
  {
    if word == "jump" then Some(KeyboardAction.JUMP)
    else if word == "reload" then Some(KeyboardAction.RELOAD)
    else if word == "knife" then Some(KeyboardAction.KNIFE)
    else if word == "grenade" then Some(KeyboardAction.GRENADE)
    else if word == "menu" || word == "pause" then Some(KeyboardAction.ESC)
    else if word == "select" || word == "okay" || word == "enter" then Some(KeyboardAction.ENTER)
    else if word == "up" then Some(KeyboardAction.UP_ARROW)
    else if word == "down" then Some(KeyboardAction.DOWN_ARROW)
    else if word == "right" then Some(KeyboardAction.RIGHT_ARROW)
    else if word == "left" then Some(KeyboardAction.LEFT_ARROW)
    else None
  }

  /** What a heard word puts on the keyboard queue: at most one command, always
      pressed and released, and none for "aim" or a word outside the grammar. */
  function SpokenCommands(word: string): (r: seq<KeyboardInputProcessor.KeyboardData>)
    ensures |r| <= 1
    ensures r == [] <==> word !in Grammar || word == "aim"
    ensures forall d | d in r :: d.keyPersistance == KeyboardPersistance.PRESS_AND_RELEASE
    ensures forall d | d in r :: Some(d.keyboardAction) == SpokenAction(word)
  {
    match SpokenAction(word)
    case None => []
    case Some(action) => [KeyboardInputProcessor.KeyboardData(action, KeyboardPersistance.PRESS_AND_RELEASE)]
  }

  /** Every spoken command has a key: the keyboard worker never rejects it as an
      invalid command. */
  lemma SpokenCommandsHaveKeys(word: string, d: KeyboardInputProcessor.KeyboardData)
    requires d in SpokenCommands(word)
    ensures KeyboardInputProcessor.GetKeyScanCode(d.keyboardAction) != KeyBoardScanCodes.DIK_UNKNOWN
  {
  }

  /** The synonyms: "menu" and "pause" both open the menu, and "select", "okay"
      and "enter" all confirm. */
  lemma Synonyms()
    ensures SpokenAction("menu") == SpokenAction("pause") == Some(KeyboardAction.ESC)
    ensures SpokenAction("select") == SpokenAction("okay") == SpokenAction("enter") == Some(KeyboardAction.ENTER)
  {
  }

  class SoundDataProcessor {
    /** The heard words waiting for the worker. */
    const inbox: RequestQueue<string>
    const keyboardProcessor: KeyboardInputProcessor.KeyboardInputProcessor

    /** The speech engine and its grammar are not part of this model; the queue
        starts empty. */
    constructor(keyboard: KeyboardInputProcessor.KeyboardInputProcessor)
      ensures keyboardProcessor == keyboard
      ensures fresh(inbox) && inbox.items == [] && inbox.pending == 0 && !inbox.threadExit
    {
      keyboardProcessor := keyboard;
      inbox := new RequestQueue();
    }

    /** Post a heard word to the worker; returns the semaphore's count before the signal. */
    method AddToQueue(soundCommand: string) returns (previousCount: int)
      modifies inbox
      ensures inbox.items == old(inbox.items) + [soundCommand]
      ensures inbox.pending == old(inbox.pending) + 1 && previousCount == old(inbox.pending)
      ensures inbox.threadExit == old(inbox.threadExit)
    {
      previousCount := inbox.AddToQueue(soundCommand);
    }

    /** Ask the worker to stop. */
    method ExitThread()
      modifies inbox
      ensures inbox.threadExit && inbox.items == old(inbox.items)
      ensures inbox.pending == old(inbox.pending) + 1
    {
      inbox.ExitThread();
    }

    /** Queue the command the word asks for, if any; the result is always Success. */
    method ProcessNewSoundData(soundCommand: string) returns (result: int)
      modifies keyboardProcessor.inbox
      ensures result == ResultCodes.Success
      ensures keyboardProcessor.inbox.items == old(keyboardProcessor.inbox.items) + SpokenCommands(soundCommand)
      ensures keyboardProcessor.inbox.pending == old(keyboardProcessor.inbox.pending) + |SpokenCommands(soundCommand)|
    {
      var pressAndRelease := KeyboardPersistance.PRESS_AND_RELEASE;
      if soundCommand == "jump" {
        var _ := keyboardProcessor.AddToQueue(KeyboardInputProcessor.KeyboardData(KeyboardAction.JUMP, pressAndRelease));
      }
      if soundCommand == "reload" {
        var _ := keyboardProcessor.AddToQueue(KeyboardInputProcessor.KeyboardData(KeyboardAction.RELOAD, pressAndRelease));
      }
      if soundCommand == "knife" {
        var _ := keyboardProcessor.AddToQueue(KeyboardInputProcessor.KeyboardData(KeyboardAction.KNIFE, pressAndRelease));
      }
      if soundCommand == "grenade" {
        var _ := keyboardProcessor.AddToQueue(KeyboardInputProcessor.KeyboardData(KeyboardAction.GRENADE, pressAndRelease));
      }
      if soundCommand == "menu" || soundCommand == "pause" {
        var _ := keyboardProcessor.AddToQueue(KeyboardInputProcessor.KeyboardData(KeyboardAction.ESC, pressAndRelease));
      }
      if soundCommand == "select" || soundCommand == "okay" || soundCommand == "enter" {
        var _ := keyboardProcessor.AddToQueue(KeyboardInputProcessor.KeyboardData(KeyboardAction.ENTER, pressAndRelease));
      }
      if soundCommand == "up" {
        var _ := keyboardProcessor.AddToQueue(KeyboardInputProcessor.KeyboardData(KeyboardAction.UP_ARROW, pressAndRelease));
      }
      if soundCommand == "down" {
        var _ := keyboardProcessor.AddToQueue(KeyboardInputProcessor.KeyboardData(KeyboardAction.DOWN_ARROW, pressAndRelease));
      }
      if soundCommand == "right" {
        var _ := keyboardProcessor.AddToQueue(KeyboardInputProcessor.KeyboardData(KeyboardAction.RIGHT_ARROW, pressAndRelease));
      }
      if soundCommand == "left" {
        var _ := keyboardProcessor.AddToQueue(KeyboardInputProcessor.KeyboardData(KeyboardAction.LEFT_ARROW, pressAndRelease));
      }
      result := ResultCodes.Success;
    }

    /** Queue the same command `iterations` times (not at all when it is not positive). */
    method PressMultiple(iterations: int, newKeyboardData: KeyboardInputProcessor.KeyboardData)
      modifies keyboardProcessor.inbox
      ensures var added := if iterations <= 0 then 0 else iterations;
        && |keyboardProcessor.inbox.items| == |old(keyboardProcessor.inbox.items)| + added
        && keyboardProcessor.inbox.pending == old(keyboardProcessor.inbox.pending) + added
      ensures keyboardProcessor.inbox.items[..|old(keyboardProcessor.inbox.items)|] == old(keyboardProcessor.inbox.items)
      ensures forall k | |old(keyboardProcessor.inbox.items)| <= k < |keyboardProcessor.inbox.items| ::
        keyboardProcessor.inbox.items[k] == newKeyboardData
    {
      var i := 0;
      while i < iterations
        invariant iterations <= 0 ==> i == 0
        invariant iterations > 0 ==> 0 <= i <= iterations
        invariant |keyboardProcessor.inbox.items| == |old(keyboardProcessor.inbox.items)| + i
        invariant keyboardProcessor.inbox.pending == old(keyboardProcessor.inbox.pending) + i
        invariant keyboardProcessor.inbox.items[..|old(keyboardProcessor.inbox.items)|] == old(keyboardProcessor.inbox.items)
        invariant forall k | |old(keyboardProcessor.inbox.items)| <= k < |keyboardProcessor.inbox.items| ::
          keyboardProcessor.inbox.items[k] == newKeyboardData
      {
        var _ := keyboardProcessor.AddToQueue(newKeyboardData);
        i := i + 1;
      }
    }

    /** One pass of the worker loop: wait for a signal, then process the head of
        the queue if there is one. */
    method HandleRequest() returns (next: Option<string>)
      requires inbox.pending > 0
      modifies inbox, keyboardProcessor.inbox
      ensures |old(inbox.items)| == 0 ==> next == None && inbox.items == old(inbox.items)
      ensures |old(inbox.items)| > 0 ==> next == Some(old(inbox.items)[0]) && inbox.items == old(inbox.items)[1..]
      ensures inbox.pending == old(inbox.pending) - 1 && inbox.threadExit == old(inbox.threadExit)
      ensures keyboardProcessor.inbox.items == old(keyboardProcessor.inbox.items)
        + (if next.Some? then SpokenCommands(next.value) else [])
      ensures keyboardProcessor.inbox.pending == old(keyboardProcessor.inbox.pending)
        + (if next.Some? then |SpokenCommands(next.value)| else 0)
    {
      next := inbox.WaitForRequest();
      if next.Some? {
        var _ := ProcessNewSoundData(next.value);
      }
    }
  }
}
