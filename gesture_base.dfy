// What every gesture detector shares: the timestamped frame it queues, the
// records it raises towards the dispatcher, the worker queue that feeds its
// thread, and the event through which it reports a gesture.
module GestureBase {
  import opened Wrappers
  import opened Kinect
  import KeyboardPersistance

  /** A skeleton frame with the time (in milliseconds) the dispatcher received it. */
  datatype NuiElement = NuiElement(frame: SkeletonFrame, timeStamp: int)

  /** The first tracked skeleton of an element's frame. */
  function TrackedSkeleton(e: NuiElement): Option<SkeletonData> {
    FirstTracked(e.frame)
  }

  /** Every element has a tracked skeleton: what the dispatcher guarantees of the
      frames it queues for the detectors. */
  predicate AllTracked(elements: seq<NuiElement>) {
    forall i | 0 <= i < |elements| :: TrackedSkeleton(elements[i]).Some?
  }

  lemma AllTrackedTail(elements: seq<NuiElement>)
    requires |elements| > 0 && AllTracked(elements)
    ensures TrackedSkeleton(elements[0]).Some? && AllTracked(elements[1..])
  {
    var tail := elements[1..];
    forall i | 0 <= i < |tail| ensures TrackedSkeleton(tail[i]).Some? {
      assert tail[i] == elements[i + 1];
    }
  }

  /** A keyboard gesture: which leg, which game action, how long to hold it. */
  datatype KeyboardEventData = KeyboardEventData(gestureID: int, keyboardAction: int, keyboardPersistance: int)

  /** A freshly constructed record: every field is -1 until set. */
  const NewKeyboardEventData := KeyboardEventData(-1, -1, -1)

  /** The last event a subscriber received pressed a key (rather than released one). */
  predicate KeyHeld(delivered: seq<KeyboardEventData>) {
    |delivered| > 0 && delivered[|delivered| - 1].keyboardPersistance == KeyboardPersistance.PRESS
  }

  lemma KeyHeldRegroup(a: seq<KeyboardEventData>, b: seq<KeyboardEventData>, c: seq<KeyboardEventData>)
    ensures KeyHeld((a + b) + c) == KeyHeld(a + (b + c))
  {
    assert (a + b) + c == a + (b + c);
  }

  /** A mouse gesture: button (or pointer motion), persistence, and a pointer offset. */
  datatype MouseEventData = MouseEventData(mouseAction: int, keyPersistance: int, xCoordinate: int, yCoordinate: int)

  /** A freshly constructed record: action and persistence -1, coordinates 0. */
  const NewMouseEventData := MouseEventData(-1, -1, 0, 0)

  /** The events a subscriber receives when `raised` is raised: nothing without a subscriber. */
  function Delivered<E>(subscribed: bool, delivered: seq<E>, raised: seq<E>): (r: seq<E>)
    ensures subscribed ==> r == delivered + raised
    ensures !subscribed ==> r == delivered
  {
    if subscribed then delivered + raised else delivered
  }

  /** Raising two events one after the other delivers both, in order. */
  lemma DeliveredTwice<E>(subscribed: bool, delivered: seq<E>, x: E, y: E)
    ensures Delivered(subscribed, Delivered(subscribed, delivered, [x]), [y]) == Delivered(subscribed, delivered, [x, y])
  {
    if subscribed {
      assert (delivered + [x]) + [y] == delivered + [x, y];
    }
  }

  /** Raising one batch of events after another delivers both batches, in order. */
  lemma DeliveredConcat<E>(subscribed: bool, delivered: seq<E>, first: seq<E>, second: seq<E>)
    ensures Delivered(subscribed, Delivered(subscribed, delivered, first), second) == Delivered(subscribed, delivered, first + second)
  {
    if subscribed {
      assert (delivered + first) + second == delivered + (first + second);
    }
  }

  /** A C# event field: at most one handler (the dispatcher's) is attached;
      `delivered` lists the event records the handler has received, oldest first. */
  class EventSubscription<E> {
    var subscribed: bool
    var delivered: seq<E>

    constructor(subscribed: bool)
      ensures this.subscribed == subscribed && delivered == []
    {
      this.subscribed := subscribed;
      delivered := [];
    }

    /** `+=` of the dispatcher's handler. */
    method Subscribe()
      modifies this
      ensures subscribed && delivered == old(delivered)
    {
      subscribed := true;
    }

    /** RaiseKeyboardEvent / RaiseMouseEvent: hand the record to the handler, if any. */
    method Raise(e: E)
      modifies this
      ensures subscribed == old(subscribed)
      ensures delivered == Delivered(subscribed, old(delivered), [e])
    {
      if subscribed {
        delivered := delivered + [e];
      }
    }
  }

  /** The queue that feeds a worker thread, the counting semaphore that wakes it
      (its count is `pending`), and the flag that ends its loop. */
  class RequestQueue<T> {
    var items: seq<T>
    var pending: nat
    var threadExit: bool

    constructor()
      ensures items == [] && pending == 0 && !threadExit
    {
      items := [];
      pending := 0;
      threadExit := false;
    }

    /** Enqueue at the tail and signal the worker; returns the semaphore's count
        before the signal. */
    method AddToQueue(x: T) returns (previousCount: int)
      modifies this
      ensures items == old(items) + [x]
      ensures pending == old(pending) + 1 && previousCount == old(pending)
      ensures threadExit == old(threadExit)
    {
      items := items + [x];
      previousCount := pending;
      pending := pending + 1;
    }

    /** Dequeue the head; callers check the count first. */
    method RemoveFromQueue() returns (x: T)
      requires |items| > 0
      modifies this
      ensures [x] + items == old(items)
      ensures pending == old(pending) && threadExit == old(threadExit)
    {
      x := items[0];
      items := items[1..];
    }

    method GetQueueCount() returns (count: int)
      ensures count == |items|
    {
      count := |items|;
    }

    /** Ask the worker to stop, and wake it so that it sees the flag. */
    method ExitThread()
      modifies this
      ensures threadExit && pending == old(pending) + 1 && items == old(items)
    {
      threadExit := true;
      pending := pending + 1;
    }

    /** The start of one pass of a worker loop: consume one signal (the wait
        returns only when the count is positive), then take the head if there is one. */
    method WaitForRequest() returns (next: Option<T>)
      requires pending > 0
      modifies this
      ensures pending == old(pending) - 1 && threadExit == old(threadExit)
      ensures |old(items)| == 0 ==> next == None && items == old(items)
      ensures |old(items)| > 0 ==> next == Some(old(items)[0]) && items == old(items)[1..]
    {
      pending := pending - 1;
      var count := GetQueueCount();
      if count > 0 {
        var x := RemoveFromQueue();
        next := Some(x);
      } else {
        next := None;
      }
    }
  }

  // ---------------------------------------------------------------------------
  // First-in, first-out order of a worker queue, stated over any interleaving
  // of enqueues and guarded dequeues.

  datatype QueueOp<T> = Add(item: T) | Take

  /** Replays the operations from an empty queue: the final contents and the
      items handed to the worker, in order. A Take on an empty queue does nothing
      (the worker checks the count before dequeuing). */
  function Replay<T>(ops: seq<QueueOp<T>>): (r: (seq<T>, seq<T>))
    decreases |ops|
  {
    if |ops| == 0 then ([], [])
    else
      var (q, out) := Replay(ops[..|ops| - 1]);
      match ops[|ops| - 1]
      case Add(x) => (q + [x], out)
      case Take => if |q| == 0 then (q, out) else (q[1..], out + [q[0]])
  }

  /** The items enqueued by a sequence of operations, in order. */
  function Added<T>(ops: seq<QueueOp<T>>): (r: seq<T>)
    ensures |r| <= |ops|
    decreases |ops|
  {
    if |ops| == 0 then []
    else
      match ops[|ops| - 1]
      case Add(x) => Added(ops[..|ops| - 1]) + [x]
      case Take => Added(ops[..|ops| - 1])
  }

  /** The queue is first-in, first-out: what the worker has taken, followed by what
      is still queued, is exactly what was added, in the same order. */
  lemma {:induction false} ReplayIsFifo<T>(ops: seq<QueueOp<T>>)
    ensures Replay(ops).1 + Replay(ops).0 == Added(ops)
    decreases |ops|
  {
    if |ops| > 0 {
      var init := ops[..|ops| - 1];
      ReplayIsFifo(init);
      var (q, out) := Replay(init);
      match ops[|ops| - 1]
      case Add(x) =>
        assert out + (q + [x]) == (out + q) + [x];
      case Take =>
        if |q| > 0 {
          assert (out + [q[0]]) + q[1..] == out + q;
        }
    }
  }
}
