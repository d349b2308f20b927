/** All runs of a publish/subscribe channel: subscribers and publishers come and go, publish,
    read and fall asleep in any order. */
module PubSubRuns {
  import opened Wrappers
  import opened Wakers
  import opened PubSub

  /** A live subscriber: `next` is its own field; the rest is its history. */
  datatype Sub<+T> = Sub(joined: nat, next: nat, got: seq<(nat, T)>, lagged: nat)

  datatype World<+T> = World(
    c: Chan<T>,
    subs: map<SubId, Sub<T>>,
    log: seq<T>,                    // every message ever queued, by id
    orphans: seq<nat>,              // per queued message: readers counted that left while lagged
    subAsleep: set<(Task, SubId)>,  // polls that returned Pending, not woken since
    pubAsleep: set<Task>,
    immediate: bool,                // publish_immediate was called
    laggedDrop: bool)               // a subscriber was dropped while lagged

  datatype Op<+T> =
    | Join(s: SubId)
    | AddPublisher
    | DropPublisher
    | Publish(m: T, waker: Option<Task>)
    | PublishImmediate(m: T)
    | Poll(s: SubId, waker: Option<Task>)
    | Leave(s: SubId)

  function Init<T>(): World<T> {
    World(Empty(), map[], [], [], {}, {}, false, false)
  }

  /** Live subscribers that have not read message m. */
  ghost function Readers<T>(subs: map<SubId, Sub<T>>, m: int): set<SubId> {
    set s | s in subs && subs[s].next <= m
  }

  /** How many live subscribers have not read message m. */
  ghost function Unread<T>(subs: map<SubId, Sub<T>>, m: int): nat {
    |Readers(subs, m)|
  }

  // ----- the invariant

  ghost predicate Shape<T>(w: World<T>, caps: Caps) {
    && caps.msgs > 0
    && |w.c.queue| <= caps.msgs && |w.c.queue| <= w.c.nextId == |w.log| && |w.orphans| == |w.c.queue|
    && |w.subs| == w.c.subCount <= caps.subs && w.c.pubCount <= caps.pubs
    && |w.c.subWakers| <= caps.subs && |w.c.pubWakers| <= caps.pubs
    && (forall i :: 0 <= i < |w.c.queue| ==> w.c.queue[i].msg == w.log[w.c.Start() + i])
    && (forall s :: s in w.subs ==> w.subs[s].next <= w.c.nextId)
  }

  /** An empty queue means that everybody has seen everything. */
  ghost predicate AllSeen<T>(w: World<T>) {
    w.c.queue == [] ==> forall s :: s in w.subs ==> w.subs[s].next == w.c.nextId
  }

  /** Each counter is the number of live subscribers still to read the message, plus the orphans. */
  ghost predicate Tallied<T>(q: seq<Slot<T>>, start: int, subs: map<SubId, Sub<T>>, orphans: seq<nat>) {
    && |orphans| == |q|
    && forall i :: 0 <= i < |q| ==> q[i].count == Unread(subs, start + i) + orphans[i]
  }

  ghost predicate Counters<T>(w: World<T>) {
    Tallied(w.c.queue, w.c.Start(), w.subs, w.orphans)
  }

  /** What a subscriber received: messages of the log, ids increasing, every id between the
      join and `next` either received or reported as missed. */
  ghost predicate History<T>(s: Sub<T>, log: seq<T>) {
    && s.next == s.joined + |s.got| + s.lagged
    && s.next <= |log|
    && (forall i :: 0 <= i < |s.got| ==>
          s.joined <= s.got[i].0 < s.next && s.got[i].0 < |log| && s.got[i].1 == log[s.got[i].0])
    && (forall i, j :: 0 <= i < j < |s.got| ==> s.got[i].0 < s.got[j].0)
  }

  ghost predicate Histories<T>(w: World<T>) {
    forall s :: s in w.subs ==> History(w.subs[s], w.log)
  }

  /** Nobody sleeps on a message that is there; sleeping publishers are registered. */
  ghost predicate Sleepers<T>(w: World<T>) {
    && (forall t, s :: (t, s) in w.subAsleep ==>
          t in w.c.subWakers && (s in w.subs ==> w.subs[s].next == w.c.nextId))
    && w.pubAsleep == ToSet(w.c.pubWakers)
  }

  /** No counter has an orphan in it, and every counter is positive. */
  ghost predicate NoDeadSlots<T>(q: seq<Slot<T>>, orphans: seq<nat>) {
    && |orphans| == |q|
    && forall i :: 0 <= i < |q| ==> orphans[i] == 0 && q[i].count > 0
  }

  ghost predicate Clean<T>(w: World<T>) {
    NoDeadSlots(w.c.queue, w.orphans)
  }

  ghost predicate PublishersWaitForSpace<T>(w: World<T>, caps: Caps) {
    w.pubAsleep != {} ==> |w.c.queue| == caps.msgs
  }

  /** Without publish_immediate a subscriber gets everything since it joined, in order. */
  ghost predicate Reliable<T>(w: World<T>) {
    forall s :: s in w.subs ==>
      w.subs[s].lagged == 0 && w.c.Start() <= w.subs[s].next
      && forall i :: 0 <= i < |w.subs[s].got| ==> w.subs[s].got[i].0 == w.subs[s].joined + i
  }

  ghost predicate Inv<T>(w: World<T>, caps: Caps) {
    && Shape(w, caps) && AllSeen(w) && Counters(w) && Histories(w) && Sleepers(w)
    && (!w.laggedDrop ==> Clean(w) && PublishersWaitForSpace(w, caps))
    && (!w.immediate ==> Reliable(w) && !w.laggedDrop)
  }

  // ----- counting readers

  lemma UnreadAdvance<T>(subs: map<SubId, Sub<T>>, s: SubId, sub: Sub<T>, m: int)
    requires s in subs && subs[s].next <= sub.next
    ensures Unread(subs[s := sub], m) == Unread(subs, m) - if subs[s].next <= m < sub.next then 1 else 0
    ensures subs[s].next <= m ==> Unread(subs, m) > 0
  {
    var before, after := Readers(subs, m), Readers(subs[s := sub], m);
    assert after == before - if m < sub.next then {s} else {};
  }

  lemma UnreadLeave<T>(subs: map<SubId, Sub<T>>, s: SubId, m: int)
    requires s in subs
    ensures Unread(subs - {s}, m) == Unread(subs, m) - if subs[s].next <= m then 1 else 0
  {
    assert Readers(subs - {s}, m) == Readers(subs, m) - {s};
  }

  lemma UnreadJoin<T>(subs: map<SubId, Sub<T>>, s: SubId, sub: Sub<T>, m: int)
    requires s !in subs && sub.next > m
    ensures Unread(subs[s := sub], m) == Unread(subs, m)
  {
    assert Readers(subs[s := sub], m) == Readers(subs, m);
  }

  lemma UnreadByAll<T>(subs: map<SubId, Sub<T>>, m: int)
    requires forall s :: s in subs ==> subs[s].next <= m
    ensures Unread(subs, m) == |subs|
  {
    assert Readers(subs, m) == subs.Keys;
  }

  lemma UnreadByNobody<T>(subs: map<SubId, Sub<T>>, m: int)
    ensures Unread(subs, m) == 0 <==> forall s :: s in subs ==> m < subs[s].next
  {
    if Readers(subs, m) == {} {
      forall s | s in subs
        ensures m < subs[s].next
      {
        assert s !in Readers(subs, m);
      }
    } else {
      var s :| s in Readers(subs, m);
      assert s in subs && subs[s].next <= m;
    }
  }

  lemma UnreadMonotone<T>(subs: map<SubId, Sub<T>>, m: int, n: int)
    requires m <= n
    ensures Unread(subs, m) <= Unread(subs, n)
  {
    var r, q := Readers(subs, m), Readers(subs, n);
    assert q == r + (q - r);
  }

  lemma CountedReader<T>(w: World<T>, caps: Caps, s: SubId)
    requires Shape(w, caps) && Counters(w) && s in w.subs
    ensures Readable(w.c, w.subs[s].next) && Leavable(w.c, w.subs[s].next) && Counted(w.c, w.subs[s].next)
  {
    forall i | 0 <= i < |w.c.queue| && w.subs[s].next <= w.c.Start() + i
      ensures w.c.queue[i].count > 0
    {
      UnreadByNobody(w.subs, w.c.Start() + i);
    }
    assert w.subs != map[];
  }

  // ----- one step

  function WakePairs(asleep: set<(Task, SubId)>, woken: seq<Task>): set<(Task, SubId)> {
    set p | p in asleep && p.0 !in woken
  }

  function JoinStep<T>(w: World<T>, caps: Caps, s: SubId): World<T> {
    if s in w.subs || w.c.subCount >= caps.subs then w
    else w.(c := w.c.(subCount := w.c.subCount + 1),
            subs := w.subs[s := Sub(w.c.nextId, w.c.nextId, [], 0)])
  }

  function Published<T>(w: World<T>, c: Chan<T>, m: T, woken: seq<Task>): World<T> {
    if c.nextId == w.c.nextId then w.(c := c)
    else w.(c := c, log := w.log + [m], orphans := w.orphans + [0], subAsleep := WakePairs(w.subAsleep, woken))
  }

  function PublishStep<T>(w: World<T>, caps: Caps, m: T, waker: Option<Task>): World<T> {
    var (c, ok, woken) := TryPublish(w.c, caps, m);
    if ok then Published(w, c, m, woken)
    else if waker.None? || caps.pubs == 0 then w
    else
      var (ws, wokenPubs) := RegisterIn(w.c.pubWakers, caps.pubs, waker.value);
      w.(c := c.(pubWakers := ws), pubAsleep := w.pubAsleep - ToSet(wokenPubs) + {waker.value})
  }

  function Evicted<T>(w: World<T>, caps: Caps): World<T> {
    var c1 := MakeSpace(w.c, caps);
    w.(c := c1, immediate := true, orphans := DropFirst(w.orphans, |w.c.queue| - |c1.queue|))
  }

  function Incremented(s: seq<nat>): (r: seq<nat>)
    ensures |r| == |s| && forall i :: 0 <= i < |s| ==> r[i] == s[i] + 1
  {
    if s == [] then [] else [s[0] + 1] + Incremented(s[1..])
  }

  function DropFirst(s: seq<nat>, k: int): seq<nat> {
    if 0 <= k <= |s| then s[k..] else s
  }

  function ImmediateStep<T>(w: World<T>, caps: Caps, m: T): World<T> {
    var w1 := Evicted(w, caps);
    var (c, _, woken) := TryPublish(w1.c, caps, m);
    Published(w1, c, m, woken)
  }

  function PollStep<T>(w: World<T>, caps: Caps, s: SubId, waker: Option<Task>): World<T>
    requires s in w.subs && Readable(w.c, w.subs[s].next)
  {
    var sub := w.subs[s];
    var (c, r, woken) := GetMessage(w.c, sub.next);
    match r
    case Some(Message(m)) =>
      w.(c := c,
         subs := w.subs[s := sub.(next := sub.next + 1, got := sub.got + [(sub.next, m)])],
         orphans := DropFirst(w.orphans, |w.c.queue| - |c.queue|),
         pubAsleep := w.pubAsleep - ToSet(woken))
    case Some(Lagged(n)) =>
      w.(c := c, subs := w.subs[s := sub.(next := sub.next + n, lagged := sub.lagged + n)])
    case None =>
      if waker.None? || caps.subs == 0 then w
      else
        var (ws, wokenSubs) := RegisterIn(w.c.subWakers, caps.subs, waker.value);
        w.(c := c.(subWakers := ws), subAsleep := WakePairs(w.subAsleep, wokenSubs) + {(waker.value, s)})
  }

  function LeaveStep<T>(w: World<T>, s: SubId): World<T>
    requires s in w.subs && Leavable(w.c, w.subs[s].next)
  {
    var id := w.subs[s].next;
    var (c, woken) := Unregister(w.c, id);
    var lagged := id < w.c.Start();
    w.(c := c,
       subs := w.subs - {s},
       orphans := if lagged then Incremented(w.orphans)
                  else DropFirst(w.orphans, |w.c.queue| - |c.queue|),
       pubAsleep := w.pubAsleep - ToSet(woken),
       laggedDrop := w.laggedDrop || lagged)
  }

  /** Calls that the types of the library rule out (a read by a subscriber that is not there, a
      waiting publish without a publisher) do nothing. */
  function Step<T>(w: World<T>, caps: Caps, op: Op<T>): World<T>
    requires Shape(w, caps) && Counters(w)
  {
    match op
    case Join(s) => JoinStep(w, caps, s)
    case AddPublisher =>
      if w.c.pubCount >= caps.pubs then w else w.(c := w.c.(pubCount := w.c.pubCount + 1))
    case DropPublisher =>
      if w.c.pubCount == 0 then w else w.(c := w.c.(pubCount := w.c.pubCount - 1))
    case Publish(m, waker) => if waker.Some? && w.c.pubCount == 0 then w else PublishStep(w, caps, m, waker)
    case PublishImmediate(m) => ImmediateStep(w, caps, m)
    case Poll(s, waker) =>
      if s !in w.subs then w else CountedReader(w, caps, s); PollStep(w, caps, s, waker)
    case Leave(s) =>
      if s !in w.subs then w else CountedReader(w, caps, s); LeaveStep(w, s)
  }

  // ----- every step keeps the invariant

  lemma InitKeeps<T>(caps: Caps)
    requires caps.msgs > 0
    ensures Inv(Init<T>(), caps)
  {
  }

  // Each step is checked in three parts: counters, histories, and the rest.

  ghost predicate Basics<T>(w: World<T>, caps: Caps) {
    Shape(w, caps) && AllSeen(w) && Sleepers(w)
  }

  ghost predicate CountersKept<T>(w: World<T>, w': World<T>) {
    Counters(w') && (Clean(w) ==> Clean(w'))
  }

  ghost predicate HistoriesKept<T>(w: World<T>, w': World<T>) {
    Histories(w') && (Reliable(w) && !w'.immediate ==> Reliable(w'))
  }

  lemma JoinCounters<T>(w: World<T>, caps: Caps, s: SubId)
    requires Inv(w, caps)
    ensures CountersKept(w, JoinStep(w, caps, s))
  {
    var w' := JoinStep(w, caps, s);
    if w' != w {
      forall i | 0 <= i < |w.c.queue|
        ensures w.c.queue[i].count == Unread(w'.subs, w.c.Start() + i) + w.orphans[i]
      {
        UnreadJoin(w.subs, s, w'.subs[s], w.c.Start() + i);
      }
    }
  }

  lemma JoinHistories<T>(w: World<T>, caps: Caps, s: SubId)
    requires Inv(w, caps)
    ensures HistoriesKept(w, JoinStep(w, caps, s))
  {
  }

  lemma JoinShape<T>(w: World<T>, caps: Caps, s: SubId)
    requires Shape(w, caps) && AllSeen(w)
    ensures Shape(JoinStep(w, caps, s), caps) && AllSeen(JoinStep(w, caps, s))
  {
  }

  lemma JoinSleepers<T>(w: World<T>, caps: Caps, s: SubId)
    requires Sleepers(w)
    ensures Sleepers(JoinStep(w, caps, s))
  {
  }

  lemma JoinKeeps<T>(w: World<T>, caps: Caps, s: SubId)
    requires Inv(w, caps)
    ensures Inv(JoinStep(w, caps, s), caps)
  {
    JoinCounters(w, caps, s);
    JoinHistories(w, caps, s);
    JoinShape(w, caps, s);
    JoinSleepers(w, caps, s);
  }

  // Adding a message to a queue that has room.

  ghost predicate Room<T>(w: World<T>, caps: Caps) {
    Shape(w, caps) && w.c.subCount > 0 && |w.c.queue| < caps.msgs
  }

  function Appended<T>(w: World<T>, caps: Caps, m: T): World<T> {
    var (c, _, woken) := TryPublish(w.c, caps, m);
    Published(w, c, m, woken)
  }

  lemma AppendedCounters<T>(w: World<T>, caps: Caps, m: T)
    requires Room(w, caps) && Counters(w)
    ensures CountersKept(w, Appended(w, caps, m))
  {
    UnreadByAll(w.subs, w.c.nextId);
  }

  lemma AppendedHistories<T>(w: World<T>, caps: Caps, m: T)
    requires Room(w, caps) && Histories(w)
    ensures HistoriesKept(w, Appended(w, caps, m))
  {
  }

  lemma AppendedBasics<T>(w: World<T>, caps: Caps, m: T)
    requires Room(w, caps) && Sleepers(w)
    ensures Basics(Appended(w, caps, m), caps)
  {
  }

  lemma PublishKeeps<T>(w: World<T>, caps: Caps, m: T, waker: Option<Task>)
    requires Inv(w, caps)
    ensures Inv(PublishStep(w, caps, m, waker), caps)
  {
    if w.c.subCount == 0 {
      assert PublishStep(w, caps, m, waker) == w;
    } else if |w.c.queue| < caps.msgs {
      assert PublishStep(w, caps, m, waker) == Appended(w, caps, m);
      AppendedCounters(w, caps, m);
      AppendedHistories(w, caps, m);
      AppendedBasics(w, caps, m);
    } else if waker.Some? && caps.pubs > 0 {
      WaitToPublish(w, caps, m, waker.value);
    }
  }

  lemma WaitBasics<T>(w: World<T>, caps: Caps, m: T, t: Task)
    requires Shape(w, caps) && AllSeen(w) && Sleepers(w)
    requires w.c.subCount > 0 && |w.c.queue| == caps.msgs && caps.pubs > 0
    ensures Basics(PublishStep(w, caps, m, Some(t)), caps)
  {
    RegisterForgetsNobody(w.c.pubWakers, caps.pubs, t);
  }

  lemma WaitToPublish<T>(w: World<T>, caps: Caps, m: T, t: Task)
    requires Inv(w, caps) && w.c.subCount > 0 && |w.c.queue| == caps.msgs && caps.pubs > 0
    ensures Inv(PublishStep(w, caps, m, Some(t)), caps)
    ensures CountersKept(w, PublishStep(w, caps, m, Some(t)))
  {
    WaitBasics(w, caps, m, t);
    var w' := PublishStep(w, caps, m, Some(t));
    assert w'.subs == w.subs && w'.log == w.log && w'.orphans == w.orphans;
  }

  /** A message in a clean queue has somebody to read it. */
  lemma SomebodyListens<T>(w: World<T>, caps: Caps)
    requires Shape(w, caps) && Counters(w) && Clean(w) && w.c.queue != []
    ensures w.c.subCount > 0
    ensures exists s :: s in w.subs && w.subs[s].next <= w.c.Start()
  {
    assert w.c.queue[0].count == Unread(w.subs, w.c.Start() + 0) + w.orphans[0];
    UnreadByNobody(w.subs, w.c.Start() + 0);
  }

  /** Taking messages off the front leaves the tally of the others. */
  lemma PopTally<T>(q: seq<Slot<T>>, start: int, subs: map<SubId, Sub<T>>, orphans: seq<nat>, k: nat)
    requires Tallied(q, start, subs, orphans) && k <= |q|
    ensures Tallied(q[k..], start + k, subs, orphans[k..])
    ensures NoDeadSlots(q, orphans) ==> NoDeadSlots(q[k..], orphans[k..])
  {
    forall i | 0 <= i < |q| - k
      ensures q[k..][i].count == Unread(subs, start + k + i) + orphans[k..][i]
    {
      assert q[k + i].count == Unread(subs, start + (k + i)) + orphans[k + i];
    }
  }

  lemma EvictCounters<T>(w: World<T>, caps: Caps)
    requires Shape(w, caps) && Counters(w)
    ensures CountersKept(w, Evicted(w, caps))
  {
    var full := |w.c.queue| >= caps.msgs && w.c.queue != [];
    PopTally(w.c.queue, w.c.Start(), w.subs, w.orphans, if full then 1 else 0);
  }

  lemma EvictBasics<T>(w: World<T>, caps: Caps)
    requires Shape(w, caps) && Histories(w) && Sleepers(w)
    ensures var w' := Evicted(w, caps);
            Shape(w', caps) && Histories(w') && Sleepers(w') && |w'.c.queue| < caps.msgs
  {
  }

  lemma ImmediateKeeps<T>(w: World<T>, caps: Caps, m: T)
    requires Inv(w, caps)
    ensures Inv(ImmediateStep(w, caps, m), caps)
  {
    var w1 := Evicted(w, caps);
    EvictCounters(w, caps);
    EvictBasics(w, caps);
    if w.c.subCount == 0 {
      assert ImmediateStep(w, caps, m) == w1;
      if !w.laggedDrop && w.c.queue != [] {
        SomebodyListens(w, caps);
      }
    } else {
      assert ImmediateStep(w, caps, m) == Appended(w1, caps, m);
      AppendedCounters(w1, caps, m);
      AppendedHistories(w1, caps, m);
      AppendedBasics(w1, caps, m);
    }
  }

  // Reading: a lag report, a message, or nothing yet.

  lemma LagTally<T>(q: seq<Slot<T>>, start: int, subs: map<SubId, Sub<T>>, orphans: seq<nat>, s: SubId, sub: Sub<T>)
    requires Tallied(q, start, subs, orphans) && s in subs && subs[s].next <= sub.next <= start
    ensures Tallied(q, start, subs[s := sub], orphans)
  {
    forall i | 0 <= i < |q|
      ensures q[i].count == Unread(subs[s := sub], start + i) + orphans[i]
    {
      UnreadAdvance(subs, s, sub, start + i);
    }
  }

  lemma LagShape<T>(w: World<T>, caps: Caps, s: SubId, waker: Option<Task>)
    requires Shape(w, caps) && AllSeen(w) && s in w.subs && Readable(w.c, w.subs[s].next)
    requires w.subs[s].next < w.c.Start()
    ensures Shape(PollStep(w, caps, s, waker), caps) && AllSeen(PollStep(w, caps, s, waker))
  {
    var w' := PollStep(w, caps, s, waker);
    assert w'.c == w.c && w'.subs.Keys == w.subs.Keys && |w'.subs| == |w.subs|;
  }

  lemma LagHistories<T>(w: World<T>, caps: Caps, s: SubId, waker: Option<Task>)
    requires Histories(w) && Sleepers(w) && s in w.subs && Readable(w.c, w.subs[s].next)
    requires w.subs[s].next < w.c.Start() && w.c.nextId == |w.log|
    ensures Histories(PollStep(w, caps, s, waker)) && Sleepers(PollStep(w, caps, s, waker))
  {
  }

  lemma LagKeeps<T>(w: World<T>, caps: Caps, s: SubId, waker: Option<Task>)
    requires Inv(w, caps) && s in w.subs && Readable(w.c, w.subs[s].next)
    requires w.subs[s].next < w.c.Start()
    ensures Inv(PollStep(w, caps, s, waker), caps)
    ensures CountersKept(w, PollStep(w, caps, s, waker))
  {
    LagTally(w.c.queue, w.c.Start(), w.subs, w.orphans, s, PollStep(w, caps, s, waker).subs[s]);
    LagShape(w, caps, s, waker);
    LagHistories(w, caps, s, waker);
  }

  lemma SleepBasics<T>(w: World<T>, caps: Caps, s: SubId, t: Task)
    requires Shape(w, caps) && AllSeen(w) && Sleepers(w) && s in w.subs && Readable(w.c, w.subs[s].next)
    requires w.subs[s].next == w.c.nextId && caps.subs > 0
    ensures Basics(PollStep(w, caps, s, Some(t)), caps)
  {
    RegisterForgetsNobody(w.c.subWakers, caps.subs, t);
  }

  lemma SleepOnlyRegisters<T>(w: World<T>, caps: Caps, s: SubId, waker: Option<Task>)
    requires s in w.subs && Readable(w.c, w.subs[s].next) && w.subs[s].next == w.c.nextId
    ensures var w' := PollStep(w, caps, s, waker);
            && w'.c == w.c.(subWakers := w'.c.subWakers)
            && w' == w.(c := w'.c, subAsleep := w'.subAsleep)
            && (waker.None? || caps.subs == 0 ==> w' == w)
  {
  }

  lemma SleepKeeps<T>(w: World<T>, caps: Caps, s: SubId, waker: Option<Task>)
    requires Inv(w, caps) && s in w.subs && Readable(w.c, w.subs[s].next)
    requires w.subs[s].next == w.c.nextId
    ensures Inv(PollStep(w, caps, s, waker), caps)
    ensures CountersKept(w, PollStep(w, caps, s, waker))
  {
    SleepOnlyRegisters(w, caps, s, waker);
    if waker.Some? && caps.subs > 0 {
      SleepBasics(w, caps, s, waker.value);
    }
  }

  ghost predicate Reading<T>(w: World<T>, s: SubId) {
    && |w.c.queue| <= w.c.nextId && s in w.subs && Readable(w.c, w.subs[s].next)
    && w.c.Start() <= w.subs[s].next < w.c.nextId
  }

  /** One message read: subscriber `s` moves past message start + k. */
  lemma ReadTally<T>(q: seq<Slot<T>>, start: int, subs: map<SubId, Sub<T>>, orphans: seq<nat>, k: nat, s: SubId, sub: Sub<T>)
    requires Tallied(q, start, subs, orphans) && k < |q| && q[k].count > 0
    requires s in subs && subs[s].next == start + k && sub.next == start + k + 1
    ensures Tallied(q[k := Decremented(q[k])], start, subs[s := sub], orphans)
    ensures NoDeadSlots(q, orphans) && (k > 0 || q[k].count > 1) ==> NoDeadSlots(q[k := Decremented(q[k])], orphans)
  {
    var subs', q' := subs[s := sub], q[k := Decremented(q[k])];
    forall i | 0 <= i < |q'|
      ensures q'[i].count == Unread(subs', start + i) + orphans[i]
    {
      UnreadAdvance(subs, s, sub, start + i);
    }
    if k > 0 {
      UnreadMonotone(subs', start + 0, start + k);
      assert q'[0] == q[0] && q'[0].count == Unread(subs', start + 0) + orphans[0];
    }
  }

  /** What changes when `s` reads its next message. */
  ghost predicate ReadTo<T>(w: World<T>, w': World<T>, s: SubId)
    requires Reading(w, s)
  {
    var sub, k := w.subs[s], w.subs[s].next - w.c.Start();
    var slot := w.c.queue[k];
    var last := k == 0 && slot.count == 1;
    && w'.subs == w.subs[s := sub.(next := sub.next + 1, got := sub.got + [(sub.next, slot.msg)])]
    && w'.log == w.log && w'.c.nextId == w.c.nextId
    && w'.c.queue == (if last then w.c.queue[1..] else w.c.queue[k := Decremented(slot)])
    && w'.orphans == (if last then DropFirst(w.orphans, 1) else w.orphans)
    && w'.c.subCount == w.c.subCount && w'.c.pubCount == w.c.pubCount
    && w'.c.subWakers == w.c.subWakers && w'.c.pubWakers == (if last then [] else w.c.pubWakers)
    && w'.subAsleep == w.subAsleep
    && w'.pubAsleep == w.pubAsleep - (if last then ToSet(w.c.pubWakers) else {})
    && w'.immediate == w.immediate && w'.laggedDrop == w.laggedDrop
  }

  lemma PollReads<T>(w: World<T>, caps: Caps, s: SubId, waker: Option<Task>)
    requires |w.orphans| == |w.c.queue| && Reading(w, s)
    ensures ReadTo(w, PollStep(w, caps, s, waker), s)
  {
    var k := w.subs[s].next - w.c.Start();
    assert 0 <= k < |w.c.queue|;
  }

  /** The last reader of the front message takes it out of the queue. */
  lemma TakeTally<T>(q: seq<Slot<T>>, start: int, subs: map<SubId, Sub<T>>, orphans: seq<nat>, s: SubId, sub: Sub<T>)
    requires Tallied(q, start, subs, orphans) && q != []
    requires s in subs && subs[s].next == start && sub.next == start + 1
    ensures Tallied(q[1..], start + 1, subs[s := sub], orphans[1..])
    ensures NoDeadSlots(q, orphans) ==> NoDeadSlots(q[1..], orphans[1..])
  {
    PopTally(q, start, subs, orphans, 1);
    forall i | 0 <= i < |q[1..]|
      ensures q[1..][i].count == Unread(subs[s := sub], start + 1 + i) + orphans[1..][i]
    {
      UnreadAdvance(subs, s, sub, start + 1 + i);
    }
  }

  lemma ReadCounters<T>(w: World<T>, w': World<T>, s: SubId)
    requires Counters(w) && Reading(w, s) && ReadTo(w, w', s)
    ensures CountersKept(w, w')
  {
    var start := w.c.Start();
    if w.subs[s].next == start && w.c.queue[0].count == 1 {
      TakeCounters(w, w', s);
    } else {
      ReadTally(w.c.queue, start, w.subs, w.orphans, w.subs[s].next - start, s, w'.subs[s]);
    }
  }

  lemma TakeCounters<T>(w: World<T>, w': World<T>, s: SubId)
    requires Counters(w) && Reading(w, s) && ReadTo(w, w', s)
    requires w.subs[s].next == w.c.Start() && w.c.queue[0].count == 1
    ensures CountersKept(w, w')
  {
    TakeTally(w.c.queue, w.c.Start(), w.subs, w.orphans, s, w'.subs[s]);
    assert w'.orphans == w.orphans[1..] && w'.c.queue == w.c.queue[1..];
  }

  lemma ReadHistories<T>(w: World<T>, caps: Caps, w': World<T>, s: SubId)
    requires Shape(w, caps) && Histories(w) && Reading(w, s) && ReadTo(w, w', s)
    ensures Histories(w')
  {
    var sub := w.subs[s];
    assert w.c.queue[sub.next - w.c.Start()].msg == w.log[w.c.Start() + (sub.next - w.c.Start())];
    ReadHistory(sub, w.log);
  }

  lemma ReadReliable<T>(w: World<T>, caps: Caps, w': World<T>, s: SubId)
    requires Counters(w) && Histories(w) && Reading(w, s) && ReadTo(w, w', s) && Reliable(w)
    ensures Reliable(w')
  {
    var sub := w.subs[s];
    ReadInOrder(sub, w.log, w'.subs[s].got);
    forall r | r in w'.subs
      ensures w'.c.Start() <= w'.subs[r].next
    {
      if w'.c.Start() > w.c.Start() && r != s {
        ReadByAll(w, s, r);
      }
    }
  }

  /** The front message is dropped only once every live subscriber has read it. */
  lemma ReadByAll<T>(w: World<T>, s: SubId, r: SubId)
    requires Counters(w) && Reading(w, s) && w.subs[s].next == w.c.Start() && w.c.queue[0].count == 1
    requires r in w.subs && r != s
    ensures w.c.Start() < w.subs[r].next
  {
    var start := w.c.Start();
    assert w.c.queue[0].count == Unread(w.subs, start + 0) + w.orphans[0];
    var sub := w.subs[s].(next := start + 1);
    var subs' := w.subs[s := sub];
    UnreadAdvance(w.subs, s, sub, start + 0);
    UnreadByNobody(subs', start + 0);
    assert r in subs' && subs'[r] == w.subs[r];
  }

  lemma ReadInOrder<T>(s: Sub<T>, log: seq<T>, got: seq<(nat, T)>)
    requires History(s, log) && s.lagged == 0
    requires forall i :: 0 <= i < |s.got| ==> s.got[i].0 == s.joined + i
    requires |got| == |s.got| + 1 && got[..|s.got|] == s.got && got[|s.got|].0 == s.next
    ensures forall i :: 0 <= i < |got| ==> got[i].0 == s.joined + i
  {
    assert forall i :: 0 <= i < |s.got| ==> got[i] == s.got[i];
  }

  lemma ReadShape<T>(w: World<T>, caps: Caps, w': World<T>, s: SubId)
    requires Shape(w, caps) && Reading(w, s) && ReadTo(w, w', s)
    ensures Shape(w', caps)
  {
    assert w'.subs.Keys == w.subs.Keys && |w'.subs| == |w.subs|;
  }

  /** When the last message leaves the queue every live subscriber has read it. */
  lemma ReadAllSeen<T>(w: World<T>, caps: Caps, w': World<T>, s: SubId)
    requires Shape(w, caps) && Counters(w) && Reading(w, s) && ReadTo(w, w', s)
    ensures AllSeen(w')
  {
    if w'.c.queue == [] {
      var start := w.c.Start();
      ReadTally(w.c.queue, start, w.subs, w.orphans, 0, s, w'.subs[s]);
      assert w.c.queue[0 := Decremented(w.c.queue[0])][0].count == Unread(w'.subs, start + 0) + w.orphans[0];
      UnreadByNobody(w'.subs, start + 0);
      forall r | r in w'.subs
        ensures w'.subs[r].next == w'.c.nextId
      {
        assert start < w'.subs[r].next;
      }
    }
  }

  lemma ReadSleepers<T>(w: World<T>, w': World<T>, s: SubId)
    requires Sleepers(w) && Reading(w, s) && ReadTo(w, w', s)
    ensures Sleepers(w')
  {
  }

  lemma ReadKeeps<T>(w: World<T>, caps: Caps, s: SubId, waker: Option<Task>)
    requires Inv(w, caps) && Reading(w, s)
    ensures Inv(PollStep(w, caps, s, waker), caps)
  {
    var w' := PollStep(w, caps, s, waker);
    PollReads(w, caps, s, waker);
    ReadCounters(w, w', s);
    ReadHistories(w, caps, w', s);
    if Reliable(w) {
      ReadReliable(w, caps, w', s);
    }
    ReadShape(w, caps, w', s);
    ReadAllSeen(w, caps, w', s);
    ReadSleepers(w, w', s);
  }

  lemma ReadHistory<T>(s: Sub<T>, log: seq<T>)
    requires History(s, log) && s.next < |log|
    ensures History(s.(next := s.next + 1, got := s.got + [(s.next, log[s.next])]), log)
  {
  }

  // Leaving.

  /** From slot k on, `q'` counts one reader less than `q`. */
  ghost predicate OneLess<T>(q: seq<Slot<T>>, q': seq<Slot<T>>, k: int) {
    && |q'| == |q|
    && forall i :: 0 <= i < |q| ==>
         q'[i].msg == q[i].msg && q'[i].count == q[i].count - if i < k then 0 else 1
  }

  lemma LeaveTally<T>(q: seq<Slot<T>>, q': seq<Slot<T>>, start: int, subs: map<SubId, Sub<T>>, orphans: seq<nat>, s: SubId)
    requires Tallied(q, start, subs, orphans) && s in subs && OneLess(q, q', subs[s].next - start)
    ensures Tallied(q', start, subs - {s}, orphans)
  {
    forall i | 0 <= i < |q'|
      ensures q'[i].count == Unread(subs - {s}, start + i) + orphans[i]
    {
      UnreadLeave(subs, s, start + i);
    }
  }

  lemma LaggedLeaveTally<T>(q: seq<Slot<T>>, start: int, subs: map<SubId, Sub<T>>, orphans: seq<nat>, s: SubId)
    requires Tallied(q, start, subs, orphans) && s in subs && subs[s].next < start
    ensures Tallied(q, start, subs - {s}, Incremented(orphans))
  {
    var orphans' := Incremented(orphans);
    forall i | 0 <= i < |q|
      ensures q[i].count == Unread(subs - {s}, start + i) + orphans'[i]
    {
      UnreadLeave(subs, s, start + i);
    }
  }

  /** Once the zeros at the front are gone no slot is dead: later messages have at least as many
      readers left. */
  lemma NoZeroBehindFront<T>(q: seq<Slot<T>>, start: int, subs: map<SubId, Sub<T>>, orphans: seq<nat>)
    requires Tallied(q, start, subs, orphans) && (forall i :: 0 <= i < |q| ==> orphans[i] == 0)
    requires q != [] ==> q[0].count > 0
    ensures NoDeadSlots(q, orphans)
  {
    forall i | 0 <= i < |q|
      ensures q[i].count > 0
    {
      UnreadMonotone(subs, start + 0, start + i);
      assert q[0].count == Unread(subs, start + 0) + orphans[0];
    }
  }

  /** What changes when a lagged subscriber leaves: nothing in the queue. */
  ghost predicate LeftLagged<T>(w: World<T>, w': World<T>, s: SubId) {
    && s in w.subs && w.c.subCount > 0
    && w'.subs == w.subs - {s} && w'.log == w.log
    && w'.c == w.c.(subCount := w.c.subCount - 1)
    && w'.orphans == Incremented(w.orphans)
    && w'.subAsleep == w.subAsleep && w'.pubAsleep == w.pubAsleep
    && w'.immediate == w.immediate && w'.laggedDrop
  }

  /** What changes when `s` leaves otherwise: `q` are the counters without it, and `k` messages
      are dropped from the front. */
  ghost predicate LeftFrom<T>(w: World<T>, w': World<T>, s: SubId, q: seq<Slot<T>>, k: nat) {
    && s in w.subs && w.c.subCount > 0 && w.c.Start() <= w.subs[s].next
    && OneLess(w.c.queue, q, w.subs[s].next - w.c.Start())
    && k <= |q| && (forall i :: 0 <= i < k ==> q[i].count == 0) && (k < |q| ==> q[k].count > 0)
    && w'.subs == w.subs - {s} && w'.log == w.log
    && w'.c == w.c.(queue := q[k..], subCount := w.c.subCount - 1, pubWakers := if k > 0 then [] else w.c.pubWakers)
    && w'.orphans == DropFirst(w.orphans, k)
    && w'.subAsleep == w.subAsleep
    && w'.pubAsleep == w.pubAsleep - (if k > 0 then ToSet(w.c.pubWakers) else {})
    && w'.immediate == w.immediate && w'.laggedDrop == w.laggedDrop
  }

  lemma LeaveLagged<T>(w: World<T>, s: SubId)
    requires s in w.subs && Leavable(w.c, w.subs[s].next) && w.subs[s].next < w.c.Start()
    ensures LeftLagged(w, LeaveStep(w, s), s)
  {
  }

  lemma LeaveDrops<T>(w: World<T>, s: SubId) returns (q: seq<Slot<T>>, k: nat)
    requires s in w.subs && Leavable(w.c, w.subs[s].next) && w.subs[s].next >= w.c.Start()
    ensures LeftFrom(w, LeaveStep(w, s), s, q, k)
  {
    q := DecrementFrom(w.c.queue, w.subs[s].next - w.c.Start());
    k := LeadingZeros(q);
    assert k == 0 ==> q[k..] == q;
    assert |q| - |q[k..]| == k;
  }

  /** The counters once a subscriber that is not lagged has left. */
  lemma LeftTally<T>(q: seq<Slot<T>>, q': seq<Slot<T>>, start: int, subs: map<SubId, Sub<T>>, orphans: seq<nat>,
                     s: SubId, k: nat)
    requires Tallied(q, start, subs, orphans) && s in subs && OneLess(q, q', subs[s].next - start)
    requires k <= |q'| && (k < |q'| ==> q'[k].count > 0)
    ensures Tallied(q'[k..], start + k, subs - {s}, orphans[k..])
    ensures NoDeadSlots(q, orphans) ==> NoDeadSlots(q'[k..], orphans[k..])
  {
    LeaveTally(q, q', start, subs, orphans, s);
    PopTally(q', start, subs - {s}, orphans, k);
    if NoDeadSlots(q, orphans) {
      NoZeroBehindFront(q'[k..], start + k, subs - {s}, orphans[k..]);
    }
  }

  lemma LaggedLeaveCounters<T>(w: World<T>, w': World<T>, s: SubId)
    requires Counters(w) && LeftLagged(w, w', s) && w.subs[s].next < w.c.Start()
    ensures Counters(w')
  {
    LaggedLeaveTally(w.c.queue, w.c.Start(), w.subs, w.orphans, s);
  }

  lemma LeaveCounters<T>(w: World<T>, w': World<T>, s: SubId, q: seq<Slot<T>>, k: nat)
    requires Counters(w) && LeftFrom(w, w', s, q, k)
    ensures CountersKept(w, w')
  {
    LeftTally(w.c.queue, q, w.c.Start(), w.subs, w.orphans, s, k);
  }

  lemma LaggedLeaveRest<T>(w: World<T>, caps: Caps, w': World<T>, s: SubId)
    requires Shape(w, caps) && AllSeen(w) && LeftLagged(w, w', s)
    ensures Shape(w', caps) && AllSeen(w')
  {
    FewerSubs(w.subs, s);
  }

  lemma LaggedLeaveHistories<T>(w: World<T>, w': World<T>, s: SubId)
    requires Histories(w) && Sleepers(w) && LeftLagged(w, w', s)
    ensures Histories(w') && Sleepers(w')
  {
  }

  lemma FewerSubs<T>(subs: map<SubId, Sub<T>>, s: SubId)
    requires s in subs
    ensures |subs - {s}| == |subs| - 1
  {
    assert (subs - {s}).Keys == subs.Keys - {s};
    assert |subs - {s}| == |(subs - {s}).Keys|;
  }

  lemma LeaveShape<T>(w: World<T>, caps: Caps, w': World<T>, s: SubId, q: seq<Slot<T>>, k: nat)
    requires Shape(w, caps) && LeftFrom(w, w', s, q, k)
    ensures Shape(w', caps)
  {
    FewerSubs(w.subs, s);
  }

  lemma LeaveHistories<T>(w: World<T>, w': World<T>, s: SubId, q: seq<Slot<T>>, k: nat)
    requires Histories(w) && Sleepers(w) && LeftFrom(w, w', s, q, k)
    ensures Histories(w') && Sleepers(w')
  {
  }

  /** The messages a leaver takes with it were read by every other live subscriber. */
  lemma LeaveDropsOnlyRead<T>(w: World<T>, w': World<T>, s: SubId, q: seq<Slot<T>>, k: nat, r: SubId)
    requires Counters(w) && LeftFrom(w, w', s, q, k) && r in w'.subs && k > 0
    ensures w.c.Start() + k <= w'.subs[r].next
  {
    var start := w.c.Start();
    LeaveTally(w.c.queue, q, start, w.subs, w.orphans, s);
    assert q[k - 1].count == Unread(w'.subs, start + (k - 1)) + w.orphans[k - 1];
    UnreadByNobody(w'.subs, start + (k - 1));
  }

  lemma LeaveAllSeen<T>(w: World<T>, caps: Caps, w': World<T>, s: SubId, q: seq<Slot<T>>, k: nat)
    requires Shape(w, caps) && AllSeen(w) && Counters(w) && LeftFrom(w, w', s, q, k)
    ensures AllSeen(w')
  {
    if w'.c.queue == [] && k > 0 {
      forall r | r in w'.subs
        ensures w'.subs[r].next == w'.c.nextId
      {
        LeaveDropsOnlyRead(w, w', s, q, k, r);
      }
    }
  }

  lemma LeaveReliable<T>(w: World<T>, w': World<T>, s: SubId, q: seq<Slot<T>>, k: nat)
    requires Counters(w) && LeftFrom(w, w', s, q, k) && Reliable(w)
    ensures Reliable(w')
  {
    forall r | r in w'.subs
      ensures w'.c.Start() <= w'.subs[r].next
    {
      if k > 0 {
        LeaveDropsOnlyRead(w, w', s, q, k, r);
      }
    }
  }

  lemma LeaveKeeps<T>(w: World<T>, caps: Caps, s: SubId)
    requires Inv(w, caps) && s in w.subs && Leavable(w.c, w.subs[s].next) && w.subs[s].next >= w.c.Start()
    ensures Inv(LeaveStep(w, s), caps)
  {
    var w' := LeaveStep(w, s);
    var q, k := LeaveDrops(w, s);
    LeaveCounters(w, w', s, q, k);
    LeaveShape(w, caps, w', s, q, k);
    LeaveHistories(w, w', s, q, k);
    LeaveAllSeen(w, caps, w', s, q, k);
    if Reliable(w) {
      LeaveReliable(w, w', s, q, k);
    }
  }

  lemma LaggedLeaveKeeps<T>(w: World<T>, caps: Caps, s: SubId)
    requires Inv(w, caps) && s in w.subs && Leavable(w.c, w.subs[s].next) && w.subs[s].next < w.c.Start()
    ensures Inv(LeaveStep(w, s), caps)
  {
    var w' := LeaveStep(w, s);
    LeaveLagged(w, s);
    LaggedLeaveCounters(w, w', s);
    LaggedLeaveRest(w, caps, w', s);
    LaggedLeaveHistories(w, w', s);
  }

  lemma PollKeeps<T>(w: World<T>, caps: Caps, s: SubId, waker: Option<Task>)
    requires Inv(w, caps) && s in w.subs && Readable(w.c, w.subs[s].next)
    ensures Inv(PollStep(w, caps, s, waker), caps)
  {
    if w.subs[s].next < w.c.Start() {
      LagKeeps(w, caps, s, waker);
    } else if w.subs[s].next == w.c.nextId {
      SleepKeeps(w, caps, s, waker);
    } else {
      ReadKeeps(w, caps, s, waker);
    }
  }

  lemma PollStepKeeps<T>(w: World<T>, caps: Caps, s: SubId, waker: Option<Task>)
    requires Inv(w, caps)
    ensures Inv(Step(w, caps, Poll(s, waker)), caps)
  {
    if s in w.subs {
      CountedReader(w, caps, s);
      PollKeeps(w, caps, s, waker);
    }
  }

  lemma LeaveStepKeeps<T>(w: World<T>, caps: Caps, s: SubId)
    requires Inv(w, caps)
    ensures Inv(Step(w, caps, Leave(s)), caps)
  {
    if s in w.subs {
      CountedReader(w, caps, s);
      if w.subs[s].next < w.c.Start() {
        LaggedLeaveKeeps(w, caps, s);
      } else {
        LeaveKeeps(w, caps, s);
      }
    }
  }

  lemma PublishStepKeeps<T>(w: World<T>, caps: Caps, m: T, waker: Option<Task>)
    requires Inv(w, caps)
    ensures Inv(Step(w, caps, Publish(m, waker)), caps)
  {
    PublishKeeps(w, caps, m, waker);
  }

  lemma PublisherCountKeeps<T>(w: World<T>, caps: Caps, n: int)
    requires Inv(w, caps)
    ensures 0 <= n <= caps.pubs ==> Inv(w.(c := w.c.(pubCount := n)), caps)
  {
    if 0 <= n <= caps.pubs {
      var w' := w.(c := w.c.(pubCount := n));
      assert Counters(w') && Histories(w') && Sleepers(w') && Shape(w', caps);
    }
  }

  lemma AddPublisherKeeps<T>(w: World<T>, caps: Caps)
    requires Inv(w, caps)
    ensures Inv(Step(w, caps, AddPublisher), caps)
  {
    PublisherCountKeeps(w, caps, w.c.pubCount + 1);
  }

  lemma DropPublisherKeeps<T>(w: World<T>, caps: Caps)
    requires Inv(w, caps)
    ensures Inv(Step(w, caps, DropPublisher), caps)
  {
    PublisherCountKeeps(w, caps, w.c.pubCount - 1);
  }

  lemma StepKeeps<T>(w: World<T>, caps: Caps, op: Op<T>)
    requires Inv(w, caps)
    ensures Inv(Step(w, caps, op), caps)
  {
    match op
    case Join(s) => JoinKeeps(w, caps, s);
    case AddPublisher => AddPublisherKeeps(w, caps);
    case DropPublisher => DropPublisherKeeps(w, caps);
    case Publish(m, waker) => PublishStepKeeps(w, caps, m, waker);
    case PublishImmediate(m) => ImmediateKeeps(w, caps, m);
    case Poll(s, waker) => PollStepKeeps(w, caps, s, waker);
    case Leave(s) => LeaveStepKeeps(w, caps, s);
  }
}
