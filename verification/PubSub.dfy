/** The publish/subscribe channel: what each call does to its state. */
module PubSub {
  import opened Wrappers
  import opened Wakers

  type SubId = nat

  datatype WaitResult<+T> = Lagged(amount: nat) | Message(message: T)

  /** A queued message and how many subscribers are yet to read it. */
  datatype Slot<+T> = Slot(msg: T, count: nat)

  /** Capacities: messages, subscriber slots, publisher slots. */
  datatype Caps = Caps(msgs: nat, subs: nat, pubs: nat)

  datatype Chan<+T> = Chan(
    queue: seq<Slot<T>>,
    nextId: nat,
    subWakers: seq<Task>,
    pubWakers: seq<Task>,
    subCount: nat,
    pubCount: nat)
  {
    /** Id of the message at the front of the queue. */
    function Start(): int { nextId - |queue| }
  }

  function Empty<T>(): Chan<T> { Chan([], 0, [], [], 0, 0) }

  /** The channel afterwards, whether the message was taken, and the tasks woken. */
  function TryPublish<T>(c: Chan<T>, caps: Caps, m: T): (Chan<T>, bool, seq<Task>) {
    if c.subCount == 0 then (c, true, [])
    else if |c.queue| >= caps.msgs then (c, false, [])
    else (c.(queue := c.queue + [Slot(m, c.subCount)], nextId := c.nextId + 1, subWakers := []), true, c.subWakers)
  }

  function MakeSpace<T>(c: Chan<T>, caps: Caps): Chan<T> {
    if |c.queue| >= caps.msgs && c.queue != [] then c.(queue := c.queue[1..]) else c
  }

  function Decremented<T>(s: Slot<T>): Slot<T>
    requires s.count > 0
  {
    s.(count := s.count - 1)
  }

  /** The caller may read: its id is not ahead of the channel, and its message counts it. */
  predicate Readable<T>(c: Chan<T>, id: nat) {
    |c.queue| <= c.nextId && id <= c.nextId && (c.Start() <= id < c.nextId ==> c.queue[id - c.Start()].count > 0)
  }

  /** Every queued message from `id` on counts one more reader. */
  predicate Counted<T>(c: Chan<T>, id: nat) {
    && |c.queue| <= c.nextId && id <= c.nextId
    && forall i :: 0 <= i < |c.queue| && id <= c.Start() + i ==> c.queue[i].count > 0
  }

  /** The channel afterwards, what is delivered, and the tasks woken. */
  function GetMessage<T>(c: Chan<T>, id: nat): (Chan<T>, Option<WaitResult<T>>, seq<Task>)
    requires Readable(c, id)
  {
    if id < c.Start() then (c, Some(Lagged(c.Start() - id)), [])
    else
      var i := id - c.Start();
      if i >= |c.queue| then (c, None, [])
      else
        var slot := Decremented(c.queue[i]);
        if i == 0 && slot.count == 0 then
          (c.(queue := c.queue[1..], pubWakers := []), Some(Message(slot.msg)), c.pubWakers)
        else
          (c.(queue := c.queue[i := slot]), Some(Message(slot.msg)), [])
  }

  /** Every counter from index k on, less one. */
  function DecrementFrom<T>(q: seq<Slot<T>>, k: nat): (r: seq<Slot<T>>)
    requires forall i :: k <= i < |q| ==> q[i].count > 0
    ensures |r| == |q|
    ensures forall i :: 0 <= i < |q| ==> r[i] == if i < k then q[i] else Decremented(q[i])
  {
    if q == [] then []
    else if k > 0 then [q[0]] + DecrementFrom(q[1..], k - 1)
    else [Decremented(q[0])] + DecrementFrom(q[1..], 0)
  }

  /** How many slots at the front nobody is going to read. */
  function LeadingZeros<T>(q: seq<Slot<T>>): (k: nat)
    ensures k <= |q|
    ensures forall i :: 0 <= i < k ==> q[i].count == 0
    ensures k < |q| ==> q[k].count > 0
  {
    if q != [] && q[0].count == 0 then 1 + LeadingZeros(q[1..]) else 0
  }

  predicate Leavable<T>(c: Chan<T>, id: nat) {
    && c.subCount > 0 && |c.queue| <= c.nextId && id <= c.nextId
    && forall i :: 0 <= i < |c.queue| && id <= c.Start() + i && c.Start() <= id ==> c.queue[i].count > 0
  }

  /** The messages left once those that nobody is going to read are gone from the front. */
  function Unneeded<T>(c: Chan<T>, q: seq<Slot<T>>): (Chan<T>, seq<Task>) {
    var k := LeadingZeros(q);
    if k > 0 then (c.(queue := q[k..], pubWakers := []), c.pubWakers) else (c.(queue := q), [])
  }

  /** The channel afterwards and the tasks woken. */
  function Unregister<T>(c: Chan<T>, id: nat): (Chan<T>, seq<Task>)
    requires Leavable(c, id)
  {
    var c1 := c.(subCount := c.subCount - 1);
    if id < c.Start() then (c1, []) else Unneeded(c1, DecrementFrom(c.queue, id - c.Start()))
  }
}
