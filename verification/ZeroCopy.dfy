/** The zero-copy channel: sender and receiver work on slots of a shared buffer that the channel
    lends them. */
module ZeroCopy {
  import opened Wrappers
  import opened Wakers
  import opened Rings
  import opened Sequences

  class State {
    const len: nat
    var front: nat
    var back: nat
    var full: bool
    const sendWaker: WakerRegistration      // woken by a send: the receiver's
    const receiveWaker: WakerRegistration   // woken by a receive: the sender's

    ghost predicate Valid()
      reads this
    {
      0 < len && front < len && back < len && (full ==> front == back) && sendWaker != receiveWaker
    }

    ghost function Model(): Ring
      reads this, sendWaker, receiveWaker
    {
      Ring(len, front, back, full, receiveWaker.waker, sendWaker.waker)
    }

    constructor (len: nat)
      requires len != 0   // asserted by the program
      ensures Valid() && Model() == Ring(len, 0, 0, false, None, None)
      ensures fresh(sendWaker) && fresh(receiveWaker)
    {
      this.len := len;
      front, back, full := 0, 0, false;
      sendWaker := new WakerRegistration();
      receiveWaker := new WakerRegistration();
    }

    method Increment(i: nat) returns (r: nat)
      requires i < len
      ensures r == Next(len, i)
    {
      r := if i + 1 == len then 0 else i + 1;
    }

    /** A slot to write to, or None after registering the sender. */
    method PollSend(cx: Option<Task>) returns (r: Option<nat>, senders: set<Task>)
      requires Valid()
      modifies receiveWaker
      ensures Valid() && PushIndex(old(Model()), cx) == (Model(), r, senders)
      ensures r == if full then None else Some(back)
      ensures r.None? && cx.Some? ==> receiveWaker.waker == cx
      ensures r.Some? || cx.None? ==> receiveWaker.waker == old(receiveWaker.waker) && senders == {}
    {
      senders := {};
      if full {
        r := None;
        if cx.Some? {
          senders := receiveWaker.Register(cx.value);
        }
      } else {
        r := Some(back);
      }
    }

    method PushDone() returns (receivers: set<Task>)
      requires Valid() && !full   // asserted by the program
      modifies this, sendWaker
      ensures Valid() && Pushed(old(Model())) == (Model(), receivers)
      ensures Model().Count() == old(Model().Count()) + 1 && front == old(front)
      ensures sendWaker.waker == None
      ensures receivers == if old(sendWaker.waker).Some? then {old(sendWaker.waker).value} else {}
    {
      back := Increment(back);
      if back == front {
        full := true;
      }
      receivers := sendWaker.Wake();
    }

    /** A slot to read from, or None after registering the receiver. */
    method PollReceive(cx: Option<Task>) returns (r: Option<nat>, receivers: set<Task>)
      requires Valid()
      modifies sendWaker
      ensures Valid() && PopIndex(old(Model()), cx) == (Model(), r, receivers)
      ensures r == if front == back && !full then None else Some(front)
      ensures r.None? && cx.Some? ==> sendWaker.waker == cx
      ensures r.Some? || cx.None? ==> sendWaker.waker == old(sendWaker.waker) && receivers == {}
    {
      receivers := {};
      if front == back && !full {
        r := None;
        if cx.Some? {
          receivers := sendWaker.Register(cx.value);
        }
      } else {
        r := Some(front);
      }
    }

    method PopDone() returns (senders: set<Task>)
      requires Valid() && !(front == back && !full)   // asserted by the program
      modifies this, receiveWaker
      ensures Valid() && Popped(old(Model())) == (Model(), senders)
      ensures Model().Count() == old(Model().Count()) - 1 && back == old(back)
      ensures receiveWaker.waker == None
      ensures senders == if old(receiveWaker.waker).Some? then {old(receiveWaker.waker).value} else {}
    {
      front := Increment(front);
      full := false;
      senders := receiveWaker.Wake();
    }
  }

  // ----- the same on values

  /** `senderWaker` is the program's `receive_waker`, `receiverWaker` its `send_waker`. */
  datatype Ring = Ring(len: nat, front: nat, back: nat, full: bool, senderWaker: Option<Task>, receiverWaker: Option<Task>) {
    predicate Ok() {
      0 < len && front < len && back < len && (full ==> front == back)
    }

    predicate Empty() { front == back && !full }

    /** How many slots hold an item. */
    function Count(): (n: nat)
      requires Ok()
      ensures n <= len && back == Wrap(len, front + n) && (n == len <==> full) && (n == 0 <==> Empty())
    {
      if front == back then (if full then len else 0) else if front < back then back - front else len + back - front
    }
  }

  function Next(len: nat, i: nat): nat { if i + 1 == len then 0 else i + 1 }

  function PushIndex(r: Ring, cx: Option<Task>): (Ring, Option<nat>, set<Task>) {
    if !r.full then (r, Some(r.back), {})
    else if cx.None? then (r, None, {})
    else
      var (slot, woken) := RegisterOne(r.senderWaker, cx.value);
      (r.(senderWaker := slot), None, woken)
  }

  function Pushed(r: Ring): (Ring, set<Task>) {
    var back := Next(r.len, r.back);
    (r.(back := back, full := back == r.front || r.full, receiverWaker := None), Slot(r.receiverWaker))
  }

  function PopIndex(r: Ring, cx: Option<Task>): (Ring, Option<nat>, set<Task>) {
    if !r.Empty() then (r, Some(r.front), {})
    else if cx.None? then (r, None, {})
    else
      var (slot, woken) := RegisterOne(r.receiverWaker, cx.value);
      (r.(receiverWaker := slot), None, woken)
  }

  function Popped(r: Ring): (Ring, set<Task>) {
    (r.(front := Next(r.len, r.front), full := false, senderWaker := None), Slot(r.senderWaker))
  }

  // ----- all interleavings of one sender and one receiver

  datatype World<+T> = World(
    ring: Ring,
    buf: seq<T>,
    sending: Option<nat>,      // the slot lent to the sender
    receiving: Option<nat>,    // the slot lent to the receiver
    seen: Option<T>,           // the front item as the receiver found it when it was first lent it
    sent: seq<T>,              // items as they were when their send was finished
    received: seq<T>,          // items taken out, as the receiver found them
    sendersAsleep: set<Task>,
    receiversAsleep: set<Task>)

  datatype Step<+T> =
    | StartSend(cx: Option<Task>)
    | Write(value: T)          // the sender writes to the slot it was lent
    | FinishSend
    | StartReceive(cx: Option<Task>)
    | Overwrite(value: T)      // the receiver writes to the slot it was lent
    | FinishReceive

  /** A slot may be lent again after an abandoned borrow, and `receive_done` called without one. */
  predicate Enabled<T>(w: World<T>, step: Step<T>) {
    match step
    case StartSend(_) => true
    case Write(_) => w.sending.Some? && w.sending.value < |w.buf|
    case FinishSend => !w.ring.full && w.ring.back < |w.buf|
    case StartReceive(_) => w.ring.Empty() || w.ring.front < |w.buf|
    case Overwrite(_) => w.receiving.Some? && w.receiving.value < |w.buf|
    case FinishReceive => !w.ring.Empty() && w.ring.front < |w.buf|
  }

  function Asleep(asleep: set<Task>, woken: set<Task>, lent: Option<nat>, cx: Option<Task>): set<Task> {
    asleep - woken + if lent.None? && cx.Some? then {cx.value} else {}
  }

  /** The front item, as the receiver found it or is going to find it. */
  function Front<T>(w: World<T>): T
    requires w.ring.front < |w.buf|
  {
    if w.seen.Some? then w.seen.value else w.buf[w.ring.front]
  }

  function Do<T>(w: World<T>, step: Step<T>): World<T>
    requires Enabled(w, step)
  {
    match step
    case StartSend(cx) =>
      var (ring, lent, woken) := PushIndex(w.ring, cx);
      w.(ring := ring, sending := lent, sendersAsleep := Asleep(w.sendersAsleep, woken, lent, cx))
    case Write(v) => w.(buf := w.buf[w.sending.value := v])
    case FinishSend =>
      var (ring, woken) := Pushed(w.ring);
      w.(ring := ring, sending := None, sent := w.sent + [w.buf[w.ring.back]],
         receiversAsleep := w.receiversAsleep - woken)
    case StartReceive(cx) =>
      var (ring, lent, woken) := PopIndex(w.ring, cx);
      w.(ring := ring, receiving := lent, receiversAsleep := Asleep(w.receiversAsleep, woken, lent, cx),
         seen := if lent.None? then w.seen else Some(Front(w)))
    case Overwrite(v) => w.(buf := w.buf[w.receiving.value := v])
    case FinishReceive =>
      var (ring, woken) := Popped(w.ring);
      w.(ring := ring, receiving := None, seen := None, received := w.received + [Front(w)],
         sendersAsleep := w.sendersAsleep - woken)
  }

  /** The items that wait, the front one as the receiver found it. */
  function Waiting<T>(w: World<T>): seq<T>
    requires w.ring.Ok() && |w.buf| == w.ring.len
  {
    var q := Unwrap(w.buf, w.ring.front, w.ring.Count());
    if q == [] then [] else q[0 := Front(w)]
  }

  ghost predicate Inv<T>(w: World<T>) {
    && w.ring.Ok() && |w.buf| == w.ring.len
    && (w.sending.Some? ==> w.sending.value == w.ring.back && !w.ring.full)
    && (w.receiving.Some? ==> w.receiving.value == w.ring.front && w.seen.Some?)
    && (w.seen.Some? ==> !w.ring.Empty())
    && w.sent == w.received + Waiting(w)
    && (forall t :: t in w.sendersAsleep ==> w.ring.full && w.ring.senderWaker == Some(t))
    && (forall t :: t in w.receiversAsleep ==> w.ring.Empty() && w.ring.receiverWaker == Some(t))
  }

  function Start<T>(buf: seq<T>): World<T> {
    World(Ring(|buf|, 0, 0, false, None, None), buf, None, None, None, [], [], {}, {})
  }

  lemma PushedCount(r: Ring)
    requires r.Ok() && !r.full
    ensures Pushed(r).0.Ok() && Pushed(r).0.Count() == r.Count() + 1
  {
  }

  lemma PoppedCount(r: Ring)
    requires r.Ok() && !r.Empty()
    ensures Popped(r).0.Ok() && Popped(r).0.Count() == r.Count() - 1
    ensures Popped(r).0.front == Wrap(r.len, r.front + 1)
  {
  }

  /** A finished send appends the slot that was written. */
  lemma SendAppends<T>(buf: seq<T>, start: nat, n: nat)
    requires start < |buf| && n < |buf|
    ensures Unwrap(buf, start, n + 1) == Unwrap(buf, start, n) + [buf[Wrap(|buf|, start + n)]]
  {
    var e := Wrap(|buf|, start + n);
    assert Written(buf, buf, e, [buf[e]]);
    UnwrapAppend(buf, buf, start, n, [buf[e]]);
  }

  /** The sender writes outside the queued slots. */
  lemma WriteIsPrivate<T>(buf: seq<T>, start: nat, n: nat, v: T)
    requires start < |buf| && n < |buf|
    ensures Unwrap(buf[Wrap(|buf|, start + n) := v], start, n) == Unwrap(buf, start, n)
  {
    var e := Wrap(|buf|, start + n);
    var r, q := Unwrap(buf[e := v], start, n), Unwrap(buf, start, n);
    forall i | 0 <= i < n
      ensures r[i] == q[i]
    {
      UnwrapAt(buf[e := v], start, n, i);
      UnwrapAt(buf, start, n, i);
      NotOverwritten(|buf|, start, n, 1, i);
    }
  }

  lemma WriteKeeps<T>(w: World<T>, v: T)
    requires Inv(w) && Enabled(w, Write(v))
    ensures Inv(Do(w, Write(v)))
  {
    var w' := Do(w, Write(v));
    var n := w.ring.Count();
    WriteIsPrivate(w.buf, w.ring.front, n, v);
    if n > 0 {
      UnwrapAt(w.buf, w.ring.front, n, 0);
      UnwrapAt(w'.buf, w.ring.front, n, 0);
      assert Front(w') == Front(w);
    }
    assert Waiting(w') == Waiting(w);
  }

  lemma FinishSendKeeps<T>(w: World<T>)
    requires Inv(w) && Enabled(w, FinishSend)
    ensures Inv(Do(w, FinishSend))
  {
    var w' := Do(w, FinishSend);
    PushedCount(w.ring);
    SendAppends(w.buf, w.ring.front, w.ring.Count());
    assert Waiting(w') == Waiting(w) + [w.buf[w.ring.back]];
  }

  /** The receiver writes outside all queued slots but its own. */
  lemma OverwriteIsPrivate<T>(buf: seq<T>, start: nat, n: nat, v: T)
    requires start < |buf| && 0 < n <= |buf|
    ensures Unwrap(buf[start := v], start, n) == Unwrap(buf, start, n)[0 := v]
  {
    var r, q := Unwrap(buf[start := v], start, n), Unwrap(buf, start, n);
    forall i | 0 <= i < n
      ensures r[i] == q[0 := v][i]
    {
      UnwrapAt(buf[start := v], start, n, i);
      UnwrapAt(buf, start, n, i);
    }
  }

  lemma OverwriteKeeps<T>(w: World<T>, v: T)
    requires Inv(w) && Enabled(w, Overwrite(v))
    ensures Inv(Do(w, Overwrite(v)))
  {
    OverwriteIsPrivate(w.buf, w.ring.front, w.ring.Count(), v);
    assert Waiting(Do(w, Overwrite(v))) == Waiting(w);
  }

  lemma StartReceiveKeeps<T>(w: World<T>, cx: Option<Task>)
    requires Inv(w) && Enabled(w, StartReceive(cx))
    ensures Inv(Do(w, StartReceive(cx)))
  {
    assert Waiting(Do(w, StartReceive(cx))) == Waiting(w);
  }

  /** A finished receive takes the oldest item. */
  lemma ReceiveTakes<T>(buf: seq<T>, start: nat, n: nat)
    requires start < |buf| && 0 < n <= |buf|
    ensures Unwrap(buf, start, n) == [buf[start]] + Unwrap(buf, Wrap(|buf|, start + 1), n - 1)
  {
    UnwrapDrop(buf, start, n, 1);
    var q := Unwrap(buf, start, n);
    UnwrapAt(buf, start, n, 0);
    HeadAndTail(q);
  }

  lemma NextUnseen<T>(w: World<T>)
    requires w.ring.Ok() && |w.buf| == w.ring.len && w.seen.None?
    ensures Waiting(w) == Unwrap(w.buf, w.ring.front, w.ring.Count())
  {
    if !w.ring.Empty() {
      UnwrapAt(w.buf, w.ring.front, w.ring.Count(), 0);
    }
  }

  lemma WaitingShrinks<T>(w: World<T>, w': World<T>)
    requires w.ring.Ok() && !w.ring.Empty() && |w.buf| == w.ring.len
    requires w'.ring == Popped(w.ring).0 && w'.buf == w.buf && w'.seen.None?
    ensures w'.ring.Ok() && Waiting(w) == [Front(w)] + Waiting(w')
  {
    PoppedCount(w.ring);
    NextUnseen(w');
    ReceiveTakes(w.buf, w.ring.front, w.ring.Count());
  }

  /** After a finished receive nobody sleeps: there was an item, and there is room. */
  lemma ReceiveWakesAll<T>(w: World<T>)
    requires Inv(w) && Enabled(w, FinishReceive)
    ensures var w' := Do(w, FinishReceive); w'.sendersAsleep == {} && w'.receiversAsleep == {}
  {
    assert forall t :: t in w.sendersAsleep ==> t in Slot(w.ring.senderWaker);
  }

  lemma FinishReceiveKeeps<T>(w: World<T>)
    requires Inv(w) && Enabled(w, FinishReceive)
    ensures Inv(Do(w, FinishReceive))
  {
    var w' := Do(w, FinishReceive);
    PoppedCount(w.ring);
    WaitingShrinks(w, w');
    Associative(w.received, [Front(w)], Waiting(w'));
    ReceiveWakesAll(w);
    assert w'.sent == w'.received + Waiting(w');
  }

  lemma StepKeeps<T>(w: World<T>, step: Step<T>)
    requires Inv(w) && Enabled(w, step)
    ensures Inv(Do(w, step))
  {
    match step
    case Write(v) => WriteKeeps(w, v);
    case StartReceive(cx) => StartReceiveKeeps(w, cx);
    case Overwrite(v) => OverwriteKeeps(w, v);
    case FinishSend => FinishSendKeeps(w);
    case FinishReceive => FinishReceiveKeeps(w);
    case _ =>
  }

  predicate Runs<T(==)>(w: World<T>, steps: seq<Step<T>>, w': World<T>)
    decreases |steps|
  {
    if steps == [] then w' == w
    else Enabled(w, steps[0]) && Runs(Do(w, steps[0]), steps[1..], w')
  }

  lemma {:induction false} RunKeeps<T>(w: World<T>, steps: seq<Step<T>>, w': World<T>)
    requires Inv(w) && Runs(w, steps, w')
    ensures Inv(w')
    decreases |steps|
  {
    if steps != [] {
      StepKeeps(w, steps[0]);
      RunKeeps(Do(w, steps[0]), steps[1..], w');
    }
  }

  /** Where the i-th waiting item is. */
  function QueuedSlot(r: Ring, i: nat): nat {
    Wrap(r.len, r.front + i)
  }

  /** Whatever the interleaving, the slot the sender holds is neither the one the receiver holds
      nor one that waits to be received. */
  lemma LentSlotsAreDisjoint<T>(buf: seq<T>, steps: seq<Step<T>>, w: World<T>)
    requires buf != [] && Runs(Start(buf), steps, w)
    ensures w.sending.Some? && w.receiving.Some? ==> w.sending != w.receiving
    ensures w.sending.Some? && w.ring.Ok() ==>
              forall i :: 0 <= i < w.ring.Count() ==> QueuedSlot(w.ring, i) != w.sending.value
    ensures w.ring.Ok() && w.ring.Count() <= |buf|
  {
    RunKeeps(Start(buf), steps, w);
    SameBuffer(Start(buf), steps, w);
    forall i | w.sending.Some? && 0 <= i < w.ring.Count()
      ensures QueuedSlot(w.ring, i) != w.sending.value
    {
      NotOverwritten(w.ring.len, w.ring.front, w.ring.Count(), 1, i);
    }
  }

  lemma {:induction false} SameBuffer<T>(w: World<T>, steps: seq<Step<T>>, w': World<T>)
    requires Runs(w, steps, w')
    ensures |w'.buf| == |w.buf| && w'.ring.len == w.ring.len
    decreases |steps|
  {
    if steps != [] {
      SameBuffer(Do(w, steps[0]), steps[1..], w');
    }
  }

  /** Items are received in the order they were sent, and the receiver finds each as it was when
      the send was finished, whatever it wrote to the slots it was lent before. */
  lemma ReceivedInOrder<T>(buf: seq<T>, steps: seq<Step<T>>, w: World<T>)
    requires buf != [] && Runs(Start(buf), steps, w)
    ensures w.received <= w.sent && |w.sent| - |w.received| <= |buf|
    ensures w.ring.front < |w.buf| && (!w.ring.Empty() ==> |w.received| < |w.sent| && Front(w) == w.sent[|w.received|])
    ensures forall t :: t in w.sendersAsleep ==> |w.sent| - |w.received| == |buf|
    ensures forall t :: t in w.receiversAsleep ==> w.received == w.sent
  {
    RunKeeps(Start(buf), steps, w);
    SameBuffer(Start(buf), steps, w);
  }
}
