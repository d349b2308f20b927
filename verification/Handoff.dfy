/** A bounded buffer between tasks that sleep while it is full or empty, with one waker slot on
    each side: the protocol shared by the pipe and the channel. */
module Handoff {
  import opened Wrappers
  import opened Wakers

  datatype Buf<+T> = Buf(data: seq<T>, readWaker: Option<Task>, writeWaker: Option<Task>)

  /** The buffer afterwards, whether the call got its way, and the tasks woken on either side. */
  datatype Outcome<+T> = Outcome(b: Buf<T>, done: bool, readers: set<Task>, writers: set<Task>)

  function WaitToRead<T>(b: Buf<T>, cx: Option<Task>, writers: set<Task>): Outcome<T> {
    if cx.None? then Outcome(b, false, {}, writers)
    else
      var (slot, woken) := RegisterOne(b.readWaker, cx.value);
      Outcome(b.(readWaker := slot), false, woken, writers)
  }

  function WaitToWrite<T>(b: Buf<T>, cx: Option<Task>, readers: set<Task>): Outcome<T> {
    if cx.None? then Outcome(b, false, readers, {})
    else
      var (slot, woken) := RegisterOne(b.writeWaker, cx.value);
      Outcome(b.(writeWaker := slot), false, readers, woken)
  }

  /** Take k items off the front; a writer is woken first when the buffer was full. */
  function Take<T>(b: Buf<T>, full: bool, k: nat, cx: Option<Task>): Outcome<T>
    requires k <= |b.data|
  {
    var b1 := if full then b.(writeWaker := None) else b;
    var woken := if full then Slot(b.writeWaker) else {};
    if b.data == [] then WaitToRead(b1, cx, woken)
    else Outcome(b1.(data := b.data[k..]), true, {}, woken)
  }

  /** Taking nothing from a buffer that has something only wakes. */
  lemma PeekLeavesData<T>(b: Buf<T>, full: bool, cx: Option<Task>)
    requires b.data != []
    ensures Take(b, full, 0, cx)
         == Outcome(if full then b.(writeWaker := None) else b, true, {}, if full then Slot(b.writeWaker) else {})
  {
    assert b.data[0..] == b.data;
  }

  /** The pipe's write: a reader is woken first when the buffer was empty. */
  function Put<T>(b: Buf<T>, cap: nat, items: seq<T>, cx: Option<Task>): Outcome<T> {
    var b1 := if b.data == [] then b.(readWaker := None) else b;
    var woken := if b.data == [] then Slot(b.readWaker) else {};
    if |b.data| >= cap then WaitToWrite(b1, cx, woken)
    else Outcome(b1.(data := b.data + items), true, woken, {})
  }

  /** The channel's send: a reader is woken after every success. */
  function Send<T>(b: Buf<T>, cap: nat, item: T, cx: Option<Task>): Outcome<T> {
    if |b.data| >= cap then WaitToWrite(b, cx, {})
    else Outcome(b.(data := b.data + [item], readWaker := None), true, Slot(b.readWaker), {})
  }

  function ReadyToRead<T>(b: Buf<T>, t: Task): Outcome<T> {
    WaitToRead(b, Some(t), {}).(done := b.data != [])
  }

  function ReadyToWrite<T>(b: Buf<T>, cap: nat, t: Task): Outcome<T> {
    WaitToWrite(b, Some(t), {}).(done := |b.data| < cap)
  }

  /** Clearing wakes a writer. */
  function Clear<T>(b: Buf<T>): Outcome<T> {
    Outcome(b.(data := [], writeWaker := None), true, {}, Slot(b.writeWaker))
  }

  /** A context changes nothing about whether a call succeeds, nor about the data or who is woken on
      the other side: its only effect is to register the task of a call that did not succeed. */
  ghost predicate OnlyRegisters<T>(bare: Outcome<T>, o: Outcome<T>, cx: Option<Task>, reading: bool) {
    var slot := if reading then bare.b.readWaker else bare.b.writeWaker;
    var woken := if slot.Some? && cx != slot then {slot.value} else {};
    && o.done == bare.done && o.b.data == bare.b.data
    && (o.done || cx.None? ==> o == bare)
    && (!o.done && cx.Some? ==>
          if reading then o.b == bare.b.(readWaker := cx) && o.readers == woken && o.writers == bare.writers
          else o.b == bare.b.(writeWaker := cx) && o.writers == woken && o.readers == bare.readers)
  }

  lemma ContextOnlyRegisters<T>(b: Buf<T>, cap: nat, full: bool, k: nat, items: seq<T>, item: T, cx: Option<Task>)
    requires k <= |b.data|
    ensures OnlyRegisters(Take(b, full, k, None), Take(b, full, k, cx), cx, true)
    ensures OnlyRegisters(Put(b, cap, items, None), Put(b, cap, items, cx), cx, false)
    ensures OnlyRegisters(Send(b, cap, item, None), Send(b, cap, item, cx), cx, false)
  {
  }

  /** Reading fails only on an empty buffer, writing only on a full one; whoever waits on the other
      side is woken when that is what it waits for, and nobody else is. */
  lemma SucceedsIff<T>(b: Buf<T>, cap: nat, full: bool, k: nat, items: seq<T>, item: T, cx: Option<Task>)
    requires k <= |b.data|
    ensures var o := Take(b, full, k, cx);
            && (o.done <==> b.data != []) && o.b.data == (if o.done then b.data[k..] else b.data)
            && o.writers == (if full && b.writeWaker.Some? then {b.writeWaker.value} else {})
    ensures var o := Put(b, cap, items, cx);
            && (o.done <==> |b.data| < cap) && o.b.data == (if o.done then b.data + items else b.data)
            && o.readers == (if b.data == [] && b.readWaker.Some? then {b.readWaker.value} else {})
    ensures var o := Send(b, cap, item, cx);
            && (o.done <==> |b.data| < cap) && o.b.data == (if o.done then b.data + [item] else b.data)
            && o.readers == (if o.done && b.readWaker.Some? then {b.readWaker.value} else {})
  {
  }

  // ----- all runs

  datatype World<+T> = World(
    b: Buf<T>,
    put: seq<T>,               // everything ever put in
    taken: seq<T>,             // everything ever taken out by a reader
    cleared: bool,
    readersAsleep: set<Task>,  // Pending, and not woken since
    writersAsleep: set<Task>)

  datatype Step<+T> =
    | DoTake(k: nat, reader: Option<Task>)
    | DoPut(items: seq<T>, writer: Option<Task>)
    | DoSend(item: T, writer: Option<Task>)
    | DoReadyToRead(task: Task)
    | DoReadyToWrite(task: Task)
    | DoClear
    | DoPeek(reader: Option<Task>)   // fill_buf: a read of nothing
    | DoConsume(k: nat)              // what fill_buf returned is used up, nobody is woken

  function Start<T>(): World<T> {
    World(Buf([], None, None), [], [], false, {}, {})
  }

  predicate Enabled<T>(w: World<T>, cap: nat, step: Step<T>) {
    match step
    case DoTake(k, _) => k <= |w.b.data|
    case DoPut(items, _) => |w.b.data| < cap ==> |w.b.data| + |items| <= cap
    case DoConsume(k) => k <= |w.b.data|
    case _ => true
  }

  function Sleeping(asleep: set<Task>, woken: set<Task>, done: bool, cx: Option<Task>): set<Task> {
    asleep - woken + if !done && cx.Some? then {cx.value} else {}
  }

  function After<T>(w: World<T>, o: Outcome<T>, reader: Option<Task>, writer: Option<Task>): World<T> {
    w.(b := o.b,
       readersAsleep := Sleeping(w.readersAsleep, o.readers, o.done, reader),
       writersAsleep := Sleeping(w.writersAsleep, o.writers, o.done, writer))
  }

  /** Whether the buffer calls itself full; with no capacity at all the pipe does not. */
  predicate IsFull<T>(b: Buf<T>, cap: nat, emptyFull: bool) {
    |b.data| == cap && (cap > 0 || emptyFull)
  }

  function Do<T>(w: World<T>, cap: nat, emptyFull: bool, step: Step<T>): World<T>
    requires Enabled(w, cap, step)
  {
    match step
    case DoTake(k, reader) =>
      var o := Take(w.b, IsFull(w.b, cap, emptyFull), k, reader);
      After(w, o, reader, None).(taken := if o.done then w.taken + w.b.data[..k] else w.taken)
    case DoPut(items, writer) =>
      var o := Put(w.b, cap, items, writer);
      After(w, o, None, writer).(put := if o.done then w.put + items else w.put)
    case DoSend(item, writer) =>
      var o := Send(w.b, cap, item, writer);
      After(w, o, None, writer).(put := if o.done then w.put + [item] else w.put)
    case DoReadyToRead(t) => After(w, ReadyToRead(w.b, t), Some(t), None)
    case DoReadyToWrite(t) => After(w, ReadyToWrite(w.b, cap, t), None, Some(t))
    case DoClear => After(w, Clear(w.b), None, None).(cleared := true)
    case DoPeek(reader) => After(w, Take(w.b, IsFull(w.b, cap, emptyFull), 0, reader), reader, None)
    case DoConsume(k) => w.(b := w.b.(data := w.b.data[k..]), taken := w.taken + w.b.data[..k])
  }

  /** Nobody sleeps that could go on, and whoever sleeps is the one registered. */
  ghost predicate Sound<T>(w: World<T>, cap: nat) {
    && (forall t :: t in w.readersAsleep ==> w.b.data == [] && w.b.readWaker == Some(t))
    && (forall t :: t in w.writersAsleep ==> |w.b.data| == cap && w.b.writeWaker == Some(t))
  }

  /** What was put in is what was taken out, followed by what is there. */
  ghost predicate Fifo<T>(w: World<T>, cap: nat) {
    |w.b.data| <= cap && (!w.cleared ==> w.put == w.taken + w.b.data)
  }

  ghost predicate Runs<T>(w: World<T>, cap: nat, emptyFull: bool, steps: seq<Step<T>>, w': World<T>)
    decreases |steps|
  {
    if steps == [] then w' == w
    else Enabled(w, cap, steps[0]) && Runs(Do(w, cap, emptyFull, steps[0]), cap, emptyFull, steps[1..], w')
  }

  lemma TakeKeepsFifo<T>(w: World<T>, cap: nat, emptyFull: bool, k: nat, reader: Option<Task>)
    requires Fifo(w, cap) && k <= |w.b.data|
    ensures Fifo(Do(w, cap, emptyFull, DoTake(k, reader)), cap)
    ensures Fifo(Do(w, cap, emptyFull, DoPeek(reader)), cap)
    ensures Fifo(Do(w, cap, emptyFull, DoConsume(k)), cap)
  {
    assert w.b.data[..k] + w.b.data[k..] == w.b.data;
    assert w.b.data[0..] == w.b.data;
  }

  lemma FifoKept<T>(w: World<T>, cap: nat, emptyFull: bool, step: Step<T>)
    requires Fifo(w, cap) && Enabled(w, cap, step)
    ensures Fifo(Do(w, cap, emptyFull, step), cap)
  {
    match step
    case DoTake(k, reader) => TakeKeepsFifo(w, cap, emptyFull, k, reader);
    case DoConsume(k) => TakeKeepsFifo(w, cap, emptyFull, k, None);
    case DoPeek(reader) => TakeKeepsFifo(w, cap, emptyFull, 0, reader);
    case _ =>
  }

  lemma SoundKept<T>(w: World<T>, cap: nat, emptyFull: bool, step: Step<T>)
    requires Fifo(w, cap) && Sound(w, cap) && Enabled(w, cap, step) && !step.DoConsume?
    ensures Sound(Do(w, cap, emptyFull, step), cap)
  {
  }

  /** Over every run of pipe or channel operations (`consume` aside), however many tasks compete
      for the two slots. */
  lemma {:induction false} RunIsSound<T>(w: World<T>, cap: nat, emptyFull: bool, steps: seq<Step<T>>, w': World<T>)
    requires Fifo(w, cap) && Sound(w, cap) && Runs(w, cap, emptyFull, steps, w')
    requires forall s :: s in steps ==> !s.DoConsume?
    ensures Fifo(w', cap) && Sound(w', cap)
    decreases |steps|
  {
    if steps != [] {
      FifoKept(w, cap, emptyFull, steps[0]);
      SoundKept(w, cap, emptyFull, steps[0]);
      RunIsSound(Do(w, cap, emptyFull, steps[0]), cap, emptyFull, steps[1..], w');
    }
  }

  lemma {:induction false} RunIsFifo<T>(w: World<T>, cap: nat, emptyFull: bool, steps: seq<Step<T>>, w': World<T>)
    requires Fifo(w, cap) && Runs(w, cap, emptyFull, steps, w')
    ensures Fifo(w', cap)
    ensures w.cleared ==> w'.cleared
    ensures DoClear !in steps && !w.cleared ==> !w'.cleared && w'.put == w'.taken + w'.b.data
    decreases |steps|
  {
    if steps != [] {
      FifoKept(w, cap, emptyFull, steps[0]);
      RunIsFifo(Do(w, cap, emptyFull, steps[0]), cap, emptyFull, steps[1..], w');
    }
  }

  // ----- consume

  /** `consume` breaks the protocol if and only if it frees something while a writer sleeps. */
  lemma ConsumeSoundIff<T>(w: World<T>, cap: nat, emptyFull: bool, k: nat)
    requires Fifo(w, cap) && Sound(w, cap) && k <= |w.b.data|
    ensures Sound(Do(w, cap, emptyFull, DoConsume(k)), cap) <==> k == 0 || w.writersAsleep == {}
  {
    if k == 0 {
      assert w.b.data[0..] == w.b.data;
    } else if w.writersAsleep != {} {
      var t :| t in w.writersAsleep;
      assert t in Do(w, cap, emptyFull, DoConsume(k)).writersAsleep;
    }
  }

  /** Whoever may be asleep, `consume` on this buffer keeps the protocol, if and only if it frees
      nothing, or there was room already, or no writer is registered. */
  lemma ConsumeSafeIff<T(!new)>(b: Buf<T>, cap: nat, emptyFull: bool, k: nat)
    requires k <= |b.data| <= cap
    ensures (forall w: World<T> :: w.b == b && Fifo(w, cap) && Sound(w, cap) ==>
               Sound(Do(w, cap, emptyFull, DoConsume(k)), cap))
       <==> k == 0 || |b.data| < cap || b.writeWaker.None?
  {
    if k == 0 || |b.data| < cap || b.writeWaker.None? {
      forall w: World<T> | w.b == b && Fifo(w, cap) && Sound(w, cap)
        ensures Sound(Do(w, cap, emptyFull, DoConsume(k)), cap)
      {
        assert k > 0 ==> w.writersAsleep == {};
        ConsumeSoundIff(w, cap, emptyFull, k);
      }
    } else {
      var w := World(b, b.data, [], false, {}, {b.writeWaker.value});
      assert [] + b.data == b.data;
      assert w.b == b && Fifo(w, cap) && Sound(w, cap);
      ConsumeSoundIff(w, cap, emptyFull, k);
    }
  }

  predicate ByReader<T>(step: Step<T>) {
    step.DoTake? || step.DoPeek? || step.DoConsume? || step.DoReadyToRead?
  }

  /** A writer forgotten in this way is never woken by a reader: no read finds the buffer full. */
  lemma {:induction false} ForgottenByReaders<T>(w: World<T>, cap: nat, emptyFull: bool, steps: seq<Step<T>>, w': World<T>, t: Task)
    requires |w.b.data| < cap && t in w.writersAsleep && Runs(w, cap, emptyFull, steps, w')
    requires forall s :: s in steps ==> ByReader(s)
    ensures |w'.b.data| < cap && t in w'.writersAsleep
    decreases |steps|
  {
    if steps != [] {
      assert ByReader(steps[0]);
      ForgottenByReaders(Do(w, cap, emptyFull, steps[0]), cap, emptyFull, steps[1..], w', t);
    }
  }

  lemma RunOne<T>(w: World<T>, cap: nat, emptyFull: bool, step: Step<T>, rest: seq<Step<T>>, w': World<T>)
    requires Enabled(w, cap, step) && Runs(Do(w, cap, emptyFull, step), cap, emptyFull, rest, w')
    ensures Runs(w, cap, emptyFull, [step] + rest, w')
  {
    assert ([step] + rest)[1..] == rest;
  }

  function OneByte<T>(x: T, asleep: set<Task>, slot: Option<Task>): World<T> {
    World(Buf([x], None, slot), [x], [], false, {}, asleep)
  }

  function Forgotten<T>(x: T): World<T> {
    World(Buf([], None, Some(7)), [x], [x], false, {}, {7})
  }

  /** A pipe of one byte: written, looked at, a second write has to wait, the byte is consumed.
      The pipe is empty and the writer still asleep. */
  lemma ConsumeForgetsWriter<T>(x: T)
    ensures Runs(Start<T>(), 1, false,
                 [DoPut([x], None)] + ([DoPeek(None)] + ([DoPut([x], Some(7))] + ([DoConsume(1)] + []))), Forgotten(x))
    ensures !Sound(Forgotten(x), 1)
  {
    var w1, w3 := OneByte(x, {}, None), OneByte(x, {7}, Some(7));
    assert [x][0..] == [x] && [x][1..] == [] && [x][..1] == [x] && [] + [x] == [x];
    assert Do(Start<T>(), 1, false, DoPut([x], None)) == w1;
    assert Do(w1, 1, false, DoPeek(None)) == w1;
    assert Do(w1, 1, false, DoPut([x], Some(7))) == w3;
    assert Do(w3, 1, false, DoConsume(1)) == Forgotten(x);
    RunOne(w3, 1, false, DoConsume(1), [], Forgotten(x));
    RunOne(w1, 1, false, DoPut([x], Some(7)), [DoConsume(1)] + [], Forgotten(x));
    RunOne(w1, 1, false, DoPeek(None), [DoPut([x], Some(7))] + ([DoConsume(1)] + []), Forgotten(x));
    RunOne(Start<T>(), 1, false, DoPut([x], None),
           [DoPeek(None)] + ([DoPut([x], Some(7))] + ([DoConsume(1)] + [])), Forgotten(x));
    assert 7 in Forgotten(x).writersAsleep;
  }

  // ----- write_all

  /** One writer in `write_all(input)`, the rest of the world reading: each poll of the writer
      puts a non-empty part of what remains, or waits. */
  datatype Turn<+T> = Poll(n: nat) | Other(step: Step<T>)

  predicate TurnEnabled<T>(w: World<T>, cap: nat, rest: seq<T>, turn: Turn<T>) {
    match turn
    case Poll(n) => rest != [] && 0 < n <= |rest| && (|w.b.data| < cap ==> |w.b.data| + n <= cap)
    case Other(step) => (ByReader(step) || step.DoClear?) && Enabled(w, cap, step)
  }

  /** What the writer still has to put after this turn. */
  function RestAfter<T>(w: World<T>, cap: nat, rest: seq<T>, turn: Turn<T>): seq<T>
    requires TurnEnabled(w, cap, rest, turn)
  {
    if turn.Poll? && |w.b.data| < cap then rest[turn.n..] else rest
  }

  function WorldAfter<T>(w: World<T>, cap: nat, rest: seq<T>, turn: Turn<T>, writer: Task): World<T>
    requires TurnEnabled(w, cap, rest, turn)
  {
    match turn
    case Poll(n) => Do(w, cap, false, DoPut(rest[..n], Some(writer)))
    case Other(step) => Do(w, cap, false, step)
  }

  ghost predicate Writes<T>(w: World<T>, cap: nat, rest: seq<T>, turns: seq<Turn<T>>, writer: Task, w': World<T>, rest': seq<T>)
    decreases |turns|
  {
    if turns == [] then w' == w && rest' == rest
    else
      && TurnEnabled(w, cap, rest, turns[0])
      && Writes(WorldAfter(w, cap, rest, turns[0], writer), cap, RestAfter(w, cap, rest, turns[0]), turns[1..], writer, w', rest')
  }

  lemma TurnKeepsInput<T>(w: World<T>, cap: nat, rest: seq<T>, turn: Turn<T>, writer: Task)
    requires TurnEnabled(w, cap, rest, turn)
    ensures WorldAfter(w, cap, rest, turn, writer).put + RestAfter(w, cap, rest, turn) == w.put + rest
    ensures turn.Poll? && |w.b.data| < cap ==> |RestAfter(w, cap, rest, turn)| < |rest|
    ensures |RestAfter(w, cap, rest, turn)| <= |rest|
  {
    if turn.Poll? {
      assert rest[..turn.n] + rest[turn.n..] == rest;
      assert (w.put + rest[..turn.n]) + rest[turn.n..] == w.put + rest;
    }
  }

  /** At any time the writer has put exactly the part of its input that does not remain; once
      nothing remains it has put the whole input. */
  lemma {:induction false} WriteAllAppendsInput<T>(
      w: World<T>, cap: nat, rest: seq<T>, turns: seq<Turn<T>>, writer: Task, w': World<T>, rest': seq<T>)
    requires Writes(w, cap, rest, turns, writer, w', rest')
    ensures w'.put + rest' == w.put + rest
    ensures rest' == [] ==> w'.put == w.put + rest
    ensures |rest'| <= |rest|
    decreases |turns|
  {
    if turns != [] {
      var w1 := WorldAfter(w, cap, rest, turns[0], writer);
      var rest1 := RestAfter(w, cap, rest, turns[0]);
      TurnKeepsInput(w, cap, rest, turns[0], writer);
      WriteAllAppendsInput(w1, cap, rest1, turns[1..], writer, w', rest');
    }
  }
}
