// The main window's two stop/resume buttons. Each keeps a click count and, on
// every click, writes a stop flag of the Kinect interface: odd clicks stop,
// even clicks resume.
module MainWindow {

  /** The two flags of the Kinect interface the buttons write; the sensor set-up
      and the workers behind them are not part of this model. */
  class KinectNuiInterface {
    var stopVisualThread: bool
    var stopAudioThread: bool

    constructor()
      ensures !stopVisualThread && !stopAudioThread
    {
      stopVisualThread := false;
      stopAudioThread := false;
    }
  }

  /** One click of a button whose count is `count`: the count after the click and
      the value the click writes to the flag. */
  function Click(count: int): (r: (int, bool)) {
    var incremented := count + 1;
    (if incremented >= 2 then 0 else incremented, incremented % 2 != 0)
  }

  /** From a count of 0 or 1 a click flips the count, and it stops exactly when
      the count was 0. */
  lemma ClickFlips(count: int)
    requires count == 0 || count == 1
    ensures Click(count).0 == 1 - count
    ensures Click(count).1 <==> count == 0
  {
  }

  /** The count after `n` clicks from the start. */
  function CountAfter(n: nat): int {
    if n == 0 then 0 else Click(CountAfter(n - 1)).0
  }

  /** After `n` clicks the count is n mod 2, and the n-th click writes true exactly
      when n is odd: the flag alternates true, false, true, ... */
  lemma {:induction false} ClicksAlternate(n: nat)
    ensures CountAfter(n) == n % 2
    ensures n > 0 ==> (Click(CountAfter(n - 1)).1 <==> n % 2 == 1)
  {
    if n > 0 {
      ClicksAlternate(n - 1);
    }
  }

  class MainWindow {
    var kinectNui: KinectNuiInterface?
    var displayStopCount: int
    var audioStopCount: int

    /** Both counts stay 0 or 1. */
    predicate Valid()
      reads this
    {
      (displayStopCount == 0 || displayStopCount == 1) && (audioStopCount == 0 || audioStopCount == 1)
    }

    constructor()
      ensures Valid() && kinectNui == null && displayStopCount == 0 && audioStopCount == 0
    {
      kinectNui := null;
      displayStopCount := 0;
      audioStopCount := 0;
    }

    /** The window has loaded: create the Kinect interface. */
    method WindowLoaded()
      modifies this
      ensures fresh(kinectNui) && !kinectNui.stopVisualThread && !kinectNui.stopAudioThread
      ensures displayStopCount == old(displayStopCount) && audioStopCount == old(audioStopCount)
    {
      kinectNui := new KinectNuiInterface();
    }

    /** The display button: count the click and, when the interface exists, stop
        the visual workers on an odd count and resume them on an even one. */
    method Button1Click()
      requires Valid()
      modifies this, kinectNui
      ensures Valid()
      ensures displayStopCount == Click(old(displayStopCount)).0
      ensures audioStopCount == old(audioStopCount) && kinectNui == old(kinectNui)
      ensures kinectNui != null ==>
        kinectNui.stopVisualThread == Click(old(displayStopCount)).1
        && kinectNui.stopAudioThread == old(kinectNui.stopAudioThread)
    {
      displayStopCount := displayStopCount + 1;
      if kinectNui != null {
        if displayStopCount % 2 != 0 {
          kinectNui.stopVisualThread := true;
        } else {
          kinectNui.stopVisualThread := false;
        }
      }
      if displayStopCount >= 2 {
        displayStopCount := 0;
      }
    }

    /** The audio button: the same machine on the audio count and flag. */
    method Button1Click1()
      requires Valid()
      modifies this, kinectNui
      ensures Valid()
      ensures audioStopCount == Click(old(audioStopCount)).0
      ensures displayStopCount == old(displayStopCount) && kinectNui == old(kinectNui)
      ensures kinectNui != null ==>
        kinectNui.stopAudioThread == Click(old(audioStopCount)).1
        && kinectNui.stopVisualThread == old(kinectNui.stopVisualThread)
    {
      audioStopCount := audioStopCount + 1;
      if kinectNui != null {
        if audioStopCount % 2 != 0 {
          kinectNui.stopAudioThread := true;
        } else {
          kinectNui.stopAudioThread := false;
        }
      }
      if audioStopCount >= 2 {
        audioStopCount := 0;
      }
    }
  }
}
