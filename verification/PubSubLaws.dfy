/** What the users of a publish/subscribe channel can rely on, over all runs. */
module PubSubLaws {
  import opened Wrappers
  import opened Wakers
  import opened PubSub
  import opened PubSubRuns

  function Run<T>(w: World<T>, caps: Caps, ops: seq<Op<T>>): (r: World<T>)
    requires Inv(w, caps)
    ensures Inv(r, caps)
    decreases |ops|
  {
    if ops == [] then w
    else
      StepKeeps(w, caps, ops[0]);
      Run(Step(w, caps, ops[0]), caps, ops[1..])
  }

  lemma RunOne<T>(w: World<T>, caps: Caps, op: Op<T>, rest: seq<Op<T>>)
    requires Inv(w, caps)
    ensures Inv(Step(w, caps, op), caps)
    ensures Run(w, caps, [op] + rest) == Run(Step(w, caps, op), caps, rest)
  {
    StepKeeps(w, caps, op);
    assert ([op] + rest)[1..] == rest;
  }

  /** The world after a run from the empty channel. */
  function After<T>(caps: Caps, ops: seq<Op<T>>): (r: World<T>)
    requires caps.msgs > 0
    ensures Inv(r, caps)
  {
    InitKeeps<T>(caps);
    Run(Init(), caps, ops)
  }

  ghost predicate NeverImmediate<T>(ops: seq<Op<T>>) {
    forall op :: op in ops ==> !op.PublishImmediate?
  }

  // ----- counters

  /** In every reachable state no counter can underflow: whoever reads or leaves is counted by
      every message it has not read. */
  lemma NoUnderflow<T>(caps: Caps, ops: seq<Op<T>>, s: SubId)
    requires caps.msgs > 0 && s in After(caps, ops).subs
    ensures var w := After(caps, ops); Counted(w.c, w.subs[s].next) && w.c.subCount > 0
  {
    CountedReader(After(caps, ops), caps, s);
  }

  lemma ImmediateFlag<T>(w: World<T>, caps: Caps, op: Op<T>)
    requires Inv(w, caps)
    ensures Step(w, caps, op).immediate == (w.immediate || op.PublishImmediate?)
  {
    if op.Poll? && op.s in w.subs {
      CountedReader(w, caps, op.s);
    } else if op.Leave? && op.s in w.subs {
      CountedReader(w, caps, op.s);
    }
  }

  lemma {:induction false} RunImmediateFlag<T>(w: World<T>, caps: Caps, ops: seq<Op<T>>)
    requires Inv(w, caps) && NeverImmediate(ops) && !w.immediate
    ensures !Run(w, caps, ops).immediate
    decreases |ops|
  {
    if ops != [] {
      ImmediateFlag(w, caps, ops[0]);
      StepKeeps(w, caps, ops[0]);
      RunImmediateFlag(Step(w, caps, ops[0]), caps, ops[1..]);
    }
  }

  // ----- reliable mode

  function Messages<T>(got: seq<(nat, T)>): seq<T> {
    seq(|got|, i requires 0 <= i < |got| => got[i].1)
  }

  function Queued<T>(c: Chan<T>): seq<T> {
    seq(|c.queue|, i requires 0 <= i < |c.queue| => c.queue[i].msg)
  }

  lemma ReceivedSlice<T>(sub: Sub<T>, log: seq<T>)
    requires History(sub, log) && sub.joined + |sub.got| == sub.next
    requires forall i :: 0 <= i < |sub.got| ==> sub.got[i].0 == sub.joined + i
    ensures Messages(sub.got) == log[sub.joined..sub.next]
  {
    forall i | 0 <= i < |sub.got|
      ensures Messages(sub.got)[i] == log[sub.joined..sub.next][i]
    {
      assert sub.got[i].1 == log[sub.got[i].0];
    }
  }

  lemma QueuedSlice<T>(c: Chan<T>, log: seq<T>, next: nat)
    requires |log| == c.nextId && 0 <= c.Start() <= next <= c.nextId
    requires forall i :: 0 <= i < |c.queue| ==> c.queue[i].msg == log[c.Start() + i]
    ensures log[next..] == Queued(c)[next - c.Start()..]
  {
    forall i | 0 <= i < c.nextId - next
      ensures log[next..][i] == Queued(c)[next - c.Start()..][i]
    {
      assert c.queue[next - c.Start() + i].msg == log[c.Start() + (next - c.Start() + i)];
    }
  }

  /** Without publish_immediate: what a subscriber received is exactly the log from its join to
      its next id, and the rest of the log is still in the queue for it. */
  lemma ReliableDelivery<T>(caps: Caps, ops: seq<Op<T>>, s: SubId)
    requires caps.msgs > 0 && NeverImmediate(ops) && s in After(caps, ops).subs
    ensures var w := After(caps, ops);
            var sub := w.subs[s];
            && sub.joined <= sub.next <= |w.log|
            && Messages(sub.got) == w.log[sub.joined..sub.next]
            && 0 <= w.c.Start() <= sub.next
            && w.log[sub.next..] == Queued(w.c)[sub.next - w.c.Start()..]
  {
    InitKeeps<T>(caps);
    RunImmediateFlag(Init<T>(), caps, ops);
    var w := After(caps, ops);
    var sub := w.subs[s];
    assert Reliable(w) && History(sub, w.log);
    ReceivedSlice(sub, w.log);
    QueuedSlice(w.c, w.log, sub.next);
  }

  // ----- lag

  /** In any run: ids received increase strictly, and next id = join id + received + missed. */
  lemma ExactLag<T>(caps: Caps, ops: seq<Op<T>>, s: SubId)
    requires caps.msgs > 0 && s in After(caps, ops).subs
    ensures var w := After(caps, ops);
            var sub := w.subs[s];
            && sub.next == sub.joined + |sub.got| + sub.lagged <= w.c.nextId
            && (forall i, j :: 0 <= i < j < |sub.got| ==> sub.got[i].0 < sub.got[j].0)
            && (forall i :: 0 <= i < |sub.got| ==> sub.joined <= sub.got[i].0 < |w.log| && sub.got[i].1 == w.log[sub.got[i].0])
  {
    var w := After(caps, ops);
    assert History(w.subs[s], w.log);
  }

  /** A lag report puts the subscriber exactly at the oldest queued message, so the next read
      (nothing published in between) delivers that message or finds the queue empty. */
  lemma OneLagThenOldest<T>(w: World<T>, caps: Caps, s: SubId)
    requires Inv(w, caps) && s in w.subs && Readable(w.c, w.subs[s].next)
    requires w.subs[s].next < w.c.Start()
    ensures var w1 := PollStep(w, caps, s, None);
            && w1.c == w.c && s in w1.subs && w1.subs[s].next == w.c.Start()
            && w.c.queue != [] && Readable(w1.c, w1.subs[s].next)
            && GetMessage(w1.c, w1.subs[s].next).1 == Some(Message(w.log[w.c.Start()]))
  {
    var w1 := PollStep(w, caps, s, None);
    LagShape(w, caps, s, None);
    LagTally(w.c.queue, w.c.Start(), w.subs, w.orphans, s, w1.subs[s]);
    CountedReader(w1, caps, s);
    assert w.c.queue[0].msg == w.log[w.c.Start() + 0];
  }

  /** No live subscriber's unread message leaves the queue except by publish_immediate. */
  lemma OnlyImmediateEvicts<T>(w: World<T>, caps: Caps, op: Op<T>, r: SubId)
    requires Inv(w, caps) && !op.PublishImmediate? && r in w.subs && r in Step(w, caps, op).subs
    requires w.c.Start() <= w.subs[r].next
    ensures Step(w, caps, op).c.Start() <= Step(w, caps, op).subs[r].next
  {
    match op
    case Poll(s, waker) =>
      if s in w.subs {
        CountedReader(w, caps, s);
        PollEvicts(w, caps, s, waker, r);
      }
    case Leave(s) =>
      if s in w.subs {
        CountedReader(w, caps, s);
        LeaveEvicts(w, caps, s, r);
      }
    case _ =>
  }

  lemma PollEvicts<T>(w: World<T>, caps: Caps, s: SubId, waker: Option<Task>, r: SubId)
    requires Inv(w, caps) && s in w.subs && r in w.subs && Readable(w.c, w.subs[s].next)
    requires w.c.Start() <= w.subs[r].next
    ensures var w' := PollStep(w, caps, s, waker); r in w'.subs && w'.c.Start() <= w'.subs[r].next
  {
    var w' := PollStep(w, caps, s, waker);
    if Reading(w, s) {
      PollReads(w, caps, s, waker);
      if r != s && w'.c.Start() > w.c.Start() {
        ReadByAll(w, s, r);
      }
    }
  }

  lemma LeaveEvicts<T>(w: World<T>, caps: Caps, s: SubId, r: SubId)
    requires Inv(w, caps) && s in w.subs && Leavable(w.c, w.subs[s].next)
    requires r in w.subs && r != s && w.c.Start() <= w.subs[r].next
    ensures var w' := LeaveStep(w, s); r in w'.subs && w'.c.Start() <= w'.subs[r].next
  {
    if w.subs[s].next < w.c.Start() {
      LeaveLagged(w, s);
    } else {
      var q, k := LeaveDrops(w, s);
      if k > 0 {
        LeaveDropsOnlyRead(w, LeaveStep(w, s), s, q, k, r);
      }
    }
  }

  lemma ImmediateQueue<T>(c: Chan<T>, caps: Caps, m: T)
    requires 0 < caps.msgs && |c.queue| <= caps.msgs
    ensures var (c', ok, _) := TryPublish(MakeSpace(c, caps), caps, m);
            var k := if |c.queue| == caps.msgs then 1 else 0;
            && ok && c'.Start() == c.Start() + k
            && Queued(c') == Queued(c)[k..] + (if c.subCount == 0 then [] else [m])
  {
  }

  /** publish_immediate drops a message if and only if the queue is full, and then exactly the
      oldest one: no live subscriber loses a message it has not read while there is room. */
  lemma ImmediateDropsOldestIff<T>(w: World<T>, caps: Caps, m: T)
    requires Inv(w, caps)
    ensures var w' := Step(w, caps, PublishImmediate(m));
            var k := if |w.c.queue| == caps.msgs then 1 else 0;
            && w'.c.Start() == w.c.Start() + k && w'.subs == w.subs
            && Queued(w'.c) == Queued(w.c)[k..] + (if w.c.subCount == 0 then [] else [m])
  {
    ImmediateQueue(w.c, caps, m);
  }

  /** A subscriber that waits disturbs nobody while there is room for its waker, or it is
      registered already: the others sleep on. */
  lemma WaitingIsQuiet<T>(w: World<T>, caps: Caps, s: SubId, t: Task)
    requires Inv(w, caps) && s in w.subs && w.subs[s].next == w.c.nextId
    requires |w.c.subWakers| < caps.subs || t in w.c.subWakers
    ensures var w' := Step(w, caps, Poll(s, Some(t)));
            && w'.subAsleep == w.subAsleep + {(t, s)} && w'.c == w.c.(subWakers := w'.c.subWakers)
            && w'.subs == w.subs && w'.pubAsleep == w.pubAsleep
  {
    CountedReader(w, caps, s);
  }

  // ----- dead slots

  /** Dropping this subscriber would leave its share of the counters behind. */
  ghost predicate DropsLagged<T>(w: World<T>, op: Op<T>) {
    op.Leave? && op.s in w.subs && w.subs[op.s].next < w.c.Start()
  }

  /** The counter of message i is positive and is the number of live subscribers still to read it. */
  ghost predicate Exact<T>(w: World<T>, i: nat)
    requires i < |w.c.queue|
  {
    w.c.queue[i].count == Unread(w.subs, w.c.Start() + i) > 0
  }

  ghost predicate CountersExact<T>(w: World<T>) {
    forall i :: 0 <= i < |w.c.queue| ==> Exact(w, i)
  }

  lemma CleanIsExact<T>(w: World<T>)
    requires Counters(w)
    ensures Clean(w) <==> CountersExact(w)
  {
    forall i | 0 <= i < |w.c.queue|
      ensures Exact(w, i) <==> w.orphans[i] == 0 && w.c.queue[i].count > 0
    {
      assert w.c.queue[i].count == Unread(w.subs, w.c.Start() + i) + w.orphans[i];
    }
    if CountersExact(w) {
      assert forall i :: 0 <= i < |w.c.queue| ==> Exact(w, i) && w.orphans[i] == 0;
    }
  }

  lemma PublishClean<T>(w: World<T>, caps: Caps, m: T, waker: Option<Task>)
    requires Inv(w, caps) && Clean(w)
    ensures Clean(PublishStep(w, caps, m, waker))
  {
    if Room(w, caps) {
      AppendedCounters(w, caps, m);
    } else if w.c.subCount > 0 && waker.Some? && caps.pubs > 0 {
      WaitToPublish(w, caps, m, waker.value);
    }
  }

  lemma ImmediateClean<T>(w: World<T>, caps: Caps, m: T)
    requires Inv(w, caps) && Clean(w)
    ensures Clean(ImmediateStep(w, caps, m))
  {
    var w1 := Evicted(w, caps);
    EvictCounters(w, caps);
    EvictBasics(w, caps);
    if w.c.subCount == 0 {
      assert ImmediateStep(w, caps, m) == w1;
    } else {
      assert ImmediateStep(w, caps, m) == Appended(w1, caps, m);
      AppendedCounters(w1, caps, m);
    }
  }

  lemma PollClean<T>(w: World<T>, caps: Caps, s: SubId, waker: Option<Task>)
    requires Inv(w, caps) && Clean(w)
    ensures Clean(Step(w, caps, Poll(s, waker)))
  {
    if s in w.subs {
      CountedReader(w, caps, s);
      if w.subs[s].next < w.c.Start() {
        LagKeeps(w, caps, s, waker);
      } else if w.subs[s].next == w.c.nextId {
        SleepKeeps(w, caps, s, waker);
      } else {
        PollReads(w, caps, s, waker);
        ReadCounters(w, PollStep(w, caps, s, waker), s);
      }
    }
  }

  lemma LaggedLeaveUnclean<T>(w: World<T>, caps: Caps, s: SubId)
    requires Shape(w, caps) && AllSeen(w) && Clean(w) && s in w.subs && Leavable(w.c, w.subs[s].next)
    requires w.subs[s].next < w.c.Start()
    ensures !Clean(LeaveStep(w, s))
  {
    LeaveLagged(w, s);
    assert w.c.queue != [];
    assert LeaveStep(w, s).orphans[0] == w.orphans[0] + 1;
  }

  lemma CurrentLeaveClean<T>(w: World<T>, s: SubId)
    requires Counters(w) && Clean(w) && s in w.subs && Leavable(w.c, w.subs[s].next)
    requires w.subs[s].next >= w.c.Start()
    ensures Clean(LeaveStep(w, s))
  {
    var q, k := LeaveDrops(w, s);
    LeaveCounters(w, LeaveStep(w, s), s, q, k);
  }

  lemma LeaveClean<T>(w: World<T>, caps: Caps, s: SubId)
    requires Inv(w, caps) && Clean(w)
    ensures Clean(Step(w, caps, Leave(s))) <==> !DropsLagged(w, Leave(s))
  {
    if s in w.subs {
      CountedReader(w, caps, s);
      if w.subs[s].next < w.c.Start() {
        LaggedLeaveUnclean(w, caps, s);
      } else {
        CurrentLeaveClean(w, s);
      }
    }
  }

  lemma StaysCleanIff<T>(w: World<T>, caps: Caps, op: Op<T>)
    requires Inv(w, caps) && Clean(w)
    ensures Clean(Step(w, caps, op)) <==> !DropsLagged(w, op)
  {
    match op
    case Join(s) => JoinCounters(w, caps, s);
    case AddPublisher =>
    case DropPublisher =>
    case Publish(m, waker) => PublishClean(w, caps, m, waker);
    case PublishImmediate(m) => ImmediateClean(w, caps, m);
    case Poll(s, waker) => PollClean(w, caps, s, waker);
    case Leave(s) => LeaveClean(w, caps, s);
  }

  /** A step keeps the counters exact if and only if it does not drop a subscriber that has lag it
      was not told about. */
  lemma CountersStayExactIff<T>(w: World<T>, caps: Caps, op: Op<T>)
    requires Inv(w, caps) && CountersExact(w)
    ensures CountersExact(Step(w, caps, op)) <==> !DropsLagged(w, op)
  {
    CleanIsExact(w);
    StepKeeps(w, caps, op);
    CleanIsExact(Step(w, caps, op));
    StaysCleanIff(w, caps, op);
  }

  /** With exact counters a full queue always has a live subscriber that holds it up, and with no
      subscriber there is no message. */
  lemma FullQueueHasSlowReader<T>(w: World<T>, caps: Caps)
    requires Inv(w, caps) && CountersExact(w)
    ensures |w.c.queue| == caps.msgs ==> exists s :: s in w.subs && w.subs[s].next <= w.c.Start()
    ensures w.c.subCount == 0 ==> w.c.queue == []
  {
    CleanIsExact(w);
    if w.c.queue != [] {
      SomebodyListens(w, caps);
    }
  }

  /** As long as nobody left with unreported lag, a publisher sleeps only while the queue is full
      and some live subscriber has yet to read its front; and it is registered for waking. */
  lemma SleepingPublisher<T>(caps: Caps, ops: seq<Op<T>>, t: Task)
    requires caps.msgs > 0
    requires var w := After(caps, ops); !w.laggedDrop && t in w.pubAsleep
    ensures var w := After(caps, ops);
            && t in w.c.pubWakers && |w.c.queue| == caps.msgs
            && exists s :: s in w.subs && w.subs[s].next <= w.c.Start()
  {
    CleanIsExact(After(caps, ops));
    FullQueueHasSlowReader(After(caps, ops), caps);
  }

  /** A subscriber sleeps only while there is nothing for it to read, and it is registered. */
  lemma SleepingSubscriber<T>(caps: Caps, ops: seq<Op<T>>, t: Task, s: SubId)
    requires caps.msgs > 0
    requires var w := After(caps, ops); (t, s) in w.subAsleep && s in w.subs
    ensures var w := After(caps, ops); t in w.c.subWakers && w.subs[s].next == w.c.nextId
  {
  }

  // ----- the channel wedged by a lagged drop

  /** The front message waits for a reader that has left. */
  ghost predicate Stuck<T>(w: World<T>, caps: Caps) {
    Inv(w, caps) && w.c.queue != [] && w.orphans[0] > 0
  }

  /** The front of the queue has not moved, and nothing has left the queue. */
  ghost predicate FrontKept<T>(w: World<T>, w': World<T>) {
    w'.c.Start() == w.c.Start() && |w'.c.queue| >= |w.c.queue|
  }

  lemma StuckRead<T>(w: World<T>, caps: Caps, s: SubId, waker: Option<Task>)
    requires Counters(w) && w.c.queue != [] && w.orphans[0] > 0 && Reading(w, s)
    ensures var w' := PollStep(w, caps, s, waker);
            FrontKept(w, w') && w'.c.queue != [] && w'.orphans == w.orphans
  {
    PollReads(w, caps, s, waker);
    assert w.c.queue[0].count == Unread(w.subs, w.c.Start() + 0) + w.orphans[0];
    UnreadByNobody(w.subs, w.c.Start() + 0);
    assert w.subs[s].next == w.c.Start() ==> w.c.queue[0].count > 1;
  }

  lemma StuckPoll<T>(w: World<T>, caps: Caps, s: SubId, waker: Option<Task>)
    requires Stuck(w, caps)
    ensures var w' := Step(w, caps, Poll(s, waker)); Stuck(w', caps) && FrontKept(w, w')
  {
    StepKeeps(w, caps, Poll(s, waker));
    if s in w.subs {
      CountedReader(w, caps, s);
      if w.subs[s].next < w.c.Start() {
      } else if w.subs[s].next == w.c.nextId {
        SleepOnlyRegisters(w, caps, s, waker);
      } else {
        StuckRead(w, caps, s, waker);
      }
    }
  }

  /** An orphaned front message outlives every leaver. */
  lemma FrontStays<T>(w: World<T>, s: SubId)
    requires Counters(w) && s in w.subs && Leavable(w.c, w.subs[s].next) && w.subs[s].next >= w.c.Start()
    requires w.c.queue != [] && w.orphans[0] > 0
    ensures var w' := LeaveStep(w, s);
            |w'.c.queue| == |w.c.queue| && w'.c.nextId == w.c.nextId && w'.orphans == w.orphans
  {
    var q, k := LeaveDrops(w, s);
    LeaveTally(w.c.queue, q, w.c.Start(), w.subs, w.orphans, s);
    assert q[0].count == Unread(w.subs - {s}, w.c.Start() + 0) + w.orphans[0];
  }

  lemma StuckLagged<T>(w: World<T>, s: SubId)
    requires s in w.subs && Leavable(w.c, w.subs[s].next) && w.subs[s].next < w.c.Start()
    requires w.orphans != [] && w.orphans[0] > 0
    ensures var w' := LeaveStep(w, s);
            w'.c.queue == w.c.queue && w'.c.nextId == w.c.nextId && w'.orphans != [] && w'.orphans[0] > 0
  {
    LeaveLagged(w, s);
  }

  lemma StuckLeave<T>(w: World<T>, caps: Caps, s: SubId)
    requires Stuck(w, caps)
    ensures var w' := Step(w, caps, Leave(s)); Stuck(w', caps) && FrontKept(w, w')
  {
    var w' := Step(w, caps, Leave(s));
    StepKeeps(w, caps, Leave(s));
    if s in w.subs {
      CountedReader(w, caps, s);
      assert w' == LeaveStep(w, s);
      if w.subs[s].next < w.c.Start() {
        StuckLagged(w, s);
      } else {
        FrontStays(w, s);
      }
    }
  }

  /** Nothing but publish_immediate ever moves an orphaned front. */
  lemma StuckStep<T>(w: World<T>, caps: Caps, op: Op<T>)
    requires Stuck(w, caps) && !op.PublishImmediate?
    ensures var w' := Step(w, caps, op); Stuck(w', caps) && FrontKept(w, w')
  {
    StepKeeps(w, caps, op);
    match op
    case Poll(s, waker) => StuckPoll(w, caps, s, waker);
    case Leave(s) => StuckLeave(w, caps, s);
    case _ =>
  }

  lemma {:induction false} StuckForever<T>(w: World<T>, caps: Caps, ops: seq<Op<T>>)
    requires Stuck(w, caps) && NeverImmediate(ops)
    ensures var w' := Run(w, caps, ops); Stuck(w', caps) && FrontKept(w, w')
    decreases |ops|
  {
    if ops != [] {
      StuckStep(w, caps, ops[0]);
      StuckForever(Step(w, caps, ops[0]), caps, ops[1..]);
    }
  }

  /** The queue is full and its front message waits for a reader that has left. */
  ghost predicate Wedged<T>(w: World<T>, caps: Caps) {
    Stuck(w, caps) && |w.c.queue| == caps.msgs
  }

  /** Nothing but publish_immediate ever frees a wedged channel: as long as nobody calls it, every
      publisher that has a subscriber to reach is refused, however much is read. */
  lemma WedgedForever<T>(w: World<T>, caps: Caps, ops: seq<Op<T>>, m: T)
    requires Wedged(w, caps) && NeverImmediate(ops)
    ensures Wedged(Run(w, caps, ops), caps)
    ensures var w' := Run(w, caps, ops); w'.c.subCount > 0 ==> !TryPublish(w'.c, caps, m).1
  {
    StuckForever(w, caps, ops);
  }

  /** Dropping a subscriber with unreported lag leaves the front of the queue stuck, however full
      the queue is. */
  lemma LaggedDropSticks<T>(w: World<T>, caps: Caps, s: SubId)
    requires Inv(w, caps) && DropsLagged(w, Leave(s))
    ensures var w' := Step(w, caps, Leave(s));
            && Stuck(w', caps) && w'.c.Start() == w.c.Start() && w'.c.queue == w.c.queue
            && w'.c.subCount == w.c.subCount - 1 && w'.subs == w.subs - {s}
  {
    StepKeeps(w, caps, Leave(s));
    CountedReader(w, caps, s);
    LeaveLagged(w, s);
  }

  /** After such a drop, and as long as nobody calls publish_immediate, the front never moves again.
      Only the room left at the time of the drop can still be filled; then the channel is wedged. */
  lemma LaggedDropWedges<T>(w: World<T>, caps: Caps, s: SubId, ops: seq<Op<T>>)
    requires Inv(w, caps) && DropsLagged(w, Leave(s)) && NeverImmediate(ops)
    ensures var w' := Run(w, caps, [Leave(s)] + ops);
            && w'.c.Start() == w.c.Start() && w'.c.nextId - w.c.nextId <= caps.msgs - |w.c.queue|
            && (Wedged(w', caps) <==> w'.c.nextId - w.c.nextId == caps.msgs - |w.c.queue|)
  {
    LaggedDropSticks(w, caps, s);
    RunOne(w, caps, Leave(s), ops);
    StuckForever(Step(w, caps, Leave(s)), caps, ops);
  }

  /** The next subscriber finds a channel on which nothing can be published. */
  lemma NewcomerFindsItWedged<T>(w: World<T>, caps: Caps, s: SubId, m: T)
    requires Wedged(w, caps) && w.c.subCount < caps.subs && s !in w.subs
    ensures var w' := Step(w, caps, Join(s));
            Wedged(w', caps) && s in w'.subs && !TryPublish(w'.c, caps, m).1
  {
    StuckStep(w, caps, Join(s));
  }

  // Four calls on a channel of capacity one that get there, and the subscriber that comes next.

  const ONE_SLOT := Caps(1, 1, 1)
  const AFTER_JOIN: World<int> := World(Chan([], 0, [], [], 1, 0), map[0 := Sub(0, 0, [], 0)], [], [], {}, {}, false, false)
  const AFTER_FIRST: World<int> := World(Chan([Slot(10, 1)], 1, [], [], 1, 0), map[0 := Sub(0, 0, [], 0)], [10], [0], {}, {}, false, false)
  const AFTER_SECOND: World<int> := World(Chan([Slot(11, 1)], 2, [], [], 1, 0), map[0 := Sub(0, 0, [], 0)], [10, 11], [0], {}, {}, true, false)

  lemma LagStep1()
    ensures Inv(Init<int>(), ONE_SLOT) && Step(Init<int>(), ONE_SLOT, Join(0)) == AFTER_JOIN && Inv(AFTER_JOIN, ONE_SLOT)
  {
    InitKeeps<int>(ONE_SLOT);
    JoinKeeps(Init<int>(), ONE_SLOT, 0);
  }

  lemma LagStep2()
    requires Inv(AFTER_JOIN, ONE_SLOT)
    ensures Step(AFTER_JOIN, ONE_SLOT, Publish(10, None)) == AFTER_FIRST && Inv(AFTER_FIRST, ONE_SLOT)
  {
    PublishGives(AFTER_JOIN, 10, AFTER_FIRST);
    StepKeeps(AFTER_JOIN, ONE_SLOT, Publish(10, None));
  }

  lemma PublishGives(w: World<int>, m: int, w': World<int>)
    requires w == AFTER_JOIN && m == 10 && w' == AFTER_FIRST
    ensures PublishStep(w, ONE_SLOT, m, None) == w'
  {
    assert w.c.queue + [Slot(m, 1)] == w'.c.queue && w.log + [m] == w'.log && w.orphans + [0] == w'.orphans;
    assert WakePairs({}, []) == {};
  }

  lemma LagStep3()
    requires Inv(AFTER_FIRST, ONE_SLOT)
    ensures Step(AFTER_FIRST, ONE_SLOT, PublishImmediate(11)) == AFTER_SECOND && Inv(AFTER_SECOND, ONE_SLOT)
  {
    ImmediateGives(AFTER_FIRST, 11, AFTER_SECOND);
    StepKeeps(AFTER_FIRST, ONE_SLOT, PublishImmediate(11));
  }

  lemma ImmediateGives(w: World<int>, m: int, w': World<int>)
    requires w == AFTER_FIRST && m == 11 && w' == AFTER_SECOND
    ensures ImmediateStep(w, ONE_SLOT, m) == w'
  {
    var c1 := MakeSpace(w.c, ONE_SLOT);
    assert c1 == Chan([], 1, [], [], 1, 0);
    assert c1.queue + [Slot(m, 1)] == w'.c.queue && w.log + [m] == w'.log && [] + [0] == w'.orphans;
    assert Evicted(w, ONE_SLOT).orphans == [];
    assert WakePairs({}, []) == {};
  }

  /** The subscriber misses message 10 and leaves without reading its lag report. */
  lemma LagStep4()
    requires Inv(AFTER_SECOND, ONE_SLOT)
    ensures var w := Step(AFTER_SECOND, ONE_SLOT, Leave(0)); Wedged(w, ONE_SLOT) && w.c.subCount == 0 && w.subs == map[]
  {
    LaggedDropSticks(AFTER_SECOND, ONE_SLOT, 0);
  }

  function WedgingCalls(): seq<Op<int>> {
    [Join(0)] + ([Publish(10, None)] + ([PublishImmediate(11)] + ([Leave(0)] + ([Join(1)] + []))))
  }

  /** One more call in front of a run. */
  lemma CallBefore<T>(w: World<T>, caps: Caps, op: Op<T>, w': World<T>, rest: seq<Op<T>>, end: World<T>)
    requires Inv(w, caps) && Step(w, caps, op) == w' && Inv(w', caps) && Run(w', caps, rest) == end
    ensures Run(w, caps, [op] + rest) == end
  {
    RunOne(w, caps, op, rest);
  }

  /** A run of a channel of capacity one after which a subscriber listens and every publish to it
      is refused. */
  lemma WedgedByExample(m: int)
    ensures var w := After(ONE_SLOT, WedgingCalls());
            Wedged(w, ONE_SLOT) && 1 in w.subs && !TryPublish(w.c, ONE_SLOT, m).1
  {
    LagStep1();
    LagStep2();
    LagStep3();
    LagStep4();
    var w4 := Step(AFTER_SECOND, ONE_SLOT, Leave(0));
    var w5 := Step(w4, ONE_SLOT, Join(1));
    NewcomerFindsItWedged(w4, ONE_SLOT, 1, m);
    CallBefore(w4, ONE_SLOT, Join(1), w5, [], w5);
    CallBefore(AFTER_SECOND, ONE_SLOT, Leave(0), w4, [Join(1)] + [], w5);
    CallBefore(AFTER_FIRST, ONE_SLOT, PublishImmediate(11), AFTER_SECOND, [Leave(0)] + ([Join(1)] + []), w5);
    CallBefore(AFTER_JOIN, ONE_SLOT, Publish(10, None), AFTER_FIRST, [PublishImmediate(11)] + ([Leave(0)] + ([Join(1)] + [])), w5);
    CallBefore(Init<int>(), ONE_SLOT, Join(0), AFTER_JOIN,
           [Publish(10, None)] + ([PublishImmediate(11)] + ([Leave(0)] + ([Join(1)] + []))), w5);
  }
}
