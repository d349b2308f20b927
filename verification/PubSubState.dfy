/** The publish/subscribe channel as the program keeps it, updated in place. */
module PubSubChannel {
  import opened Wrappers
  import opened Wakers
  import opened PubSub

  datatype Error = MaximumSubscribersReached | MaximumPublishersReached

  class PubSubState<T(==)> {
    const caps: Caps
    var queue: seq<Slot<T>>
    var nextMessageId: nat
    const subscriberWakers: MultiWakerRegistration
    const publisherWakers: MultiWakerRegistration
    var subscriberCount: nat
    var publisherCount: nat

    ghost predicate Valid()
      reads this, subscriberWakers, publisherWakers
    {
      && subscriberWakers != publisherWakers
      && subscriberWakers.Valid() && subscriberWakers.cap == caps.subs
      && publisherWakers.Valid() && publisherWakers.cap == caps.pubs
      && |queue| <= caps.msgs && |queue| <= nextMessageId
    }

    ghost function Model(): Chan<T>
      reads this, subscriberWakers, publisherWakers
    {
      Chan(queue, nextMessageId, subscriberWakers.wakers, publisherWakers.wakers, subscriberCount, publisherCount)
    }

    constructor (caps: Caps)
      ensures Valid() && Model() == Empty() && this.caps == caps
      ensures fresh(subscriberWakers) && fresh(publisherWakers)
    {
      this.caps := caps;
      queue := [];
      nextMessageId := 0;
      subscriberWakers := new MultiWakerRegistration(caps.subs);
      publisherWakers := new MultiWakerRegistration(caps.pubs);
      subscriberCount := 0;
      publisherCount := 0;
    }

    method Subscriber() returns (r: Result<nat, Error>)
      requires Valid()
      modifies this
      ensures Valid()
      ensures if old(subscriberCount) < caps.subs
              then r == Ok(nextMessageId) && Model() == old(Model()).(subCount := old(subscriberCount) + 1)
              else r == Err(MaximumSubscribersReached) && Model() == old(Model())
    {
      if subscriberCount >= caps.subs {
        return Err(MaximumSubscribersReached);
      }
      subscriberCount := subscriberCount + 1;
      return Ok(nextMessageId);
    }

    method TryPublish(message: T) returns (ok: bool, woken: seq<Task>)
      requires Valid()
      modifies this, subscriberWakers
      ensures Valid() && (Model(), ok, woken) == PubSub.TryPublish(old(Model()), caps, message)
      ensures ok <==> subscriberCount == 0 || |old(queue)| < caps.msgs
      ensures !ok || subscriberCount == 0 ==> woken == [] && Model() == old(Model())
      ensures ok && subscriberCount > 0 ==>
                && queue == old(queue) + [Slot(message, subscriberCount)] && nextMessageId == old(nextMessageId) + 1
                && woken == old(subscriberWakers.wakers) && subscriberWakers.wakers == []
      ensures subscriberCount == old(subscriberCount) && publisherCount == old(publisherCount)
    {
      woken := [];
      if subscriberCount == 0 {
        return true, woken;
      }
      if |queue| == caps.msgs {
        return false, woken;
      }
      queue := queue + [Slot(message, subscriberCount)];
      nextMessageId := nextMessageId + 1;
      woken := subscriberWakers.Wake();
      ok := true;
    }

    /** Only a full queue gives up its oldest message. With room for at least one message the
        `unwrap` on the result cannot fail. */
    method PublishImmediate(message: T) returns (woken: seq<Task>)
      requires Valid() && caps.msgs > 0
      modifies this, subscriberWakers
      ensures Valid()
      ensures var (c, ok, w) := PubSub.TryPublish(MakeSpace(old(Model()), caps), caps, message);
              Model() == c && woken == w && ok
      ensures var kept := if |old(queue)| == caps.msgs then old(queue)[1..] else old(queue);
              queue == if subscriberCount == 0 then kept else kept + [Slot(message, subscriberCount)]
      ensures Model().Start() == old(Model().Start()) + if |old(queue)| == caps.msgs then 1 else 0
      ensures woken == if subscriberCount == 0 then [] else old(subscriberWakers.wakers)
      ensures subscriberWakers.wakers == if subscriberCount == 0 then old(subscriberWakers.wakers) else []
      ensures subscriberCount == old(subscriberCount) && publisherCount == old(publisherCount)
    {
      if |queue| == caps.msgs {
        if queue != [] {
          queue := queue[1..];
        }
      }
      var ok;
      ok, woken := TryPublish(message);
    }

    method PublishWithContext(message: T, cx: Option<Task>) returns (ok: bool, woken: seq<Task>)
      requires Valid() && (cx.Some? ==> caps.pubs > 0)
      modifies this, subscriberWakers, publisherWakers
      ensures Valid() && (ok <==> subscriberCount == 0 || |old(queue)| < caps.msgs)
      ensures !ok ==> Model() == old(Model()).(pubWakers := publisherWakers.wakers)
      ensures !ok && cx.Some? ==> cx.value in publisherWakers.wakers
      ensures !ok && (cx.None? || |old(publisherWakers.wakers)| < caps.pubs) ==> woken == []
      ensures var (c, taken, w) := PubSub.TryPublish(old(Model()), caps, message);
              && ok == taken
              && (taken || cx.None? ==> Model() == c && woken == w)
              && (!taken && cx.Some? ==>
                    var (ws, w') := RegisterIn(c.pubWakers, caps.pubs, cx.value);
                    Model() == c.(pubWakers := ws) && woken == w')
    {
      ok, woken := TryPublish(message);
      if !ok && cx.Some? {
        woken := publisherWakers.Register(cx.value);
      }
    }

    method GetMessage(id: nat) returns (r: Option<WaitResult<T>>, woken: seq<Task>)
      requires Valid() && Readable(Model(), id)
      modifies this, publisherWakers
      ensures Valid() && (Model(), r, woken) == PubSub.GetMessage(old(Model()), id)
      ensures subscriberCount == old(subscriberCount) && publisherCount == old(publisherCount)
      ensures nextMessageId == old(nextMessageId)
      ensures var start := nextMessageId - |old(queue)|;
              && (r == None <==> id == nextMessageId)
              && (id < start ==> r == Some(Lagged(start - id)))
              && (id < start || id == nextMessageId ==> Model() == old(Model()) && woken == [])
              && (start <= id < nextMessageId ==>
                    var slot := old(queue)[id - start];
                    var last := id == start && slot.count == 1;
                    && r == Some(Message(slot.msg))
                    && queue == (if last then old(queue)[1..] else old(queue)[id - start := slot.(count := slot.count - 1)])
                    && woken == (if last then old(publisherWakers.wakers) else [])
                    && publisherWakers.wakers == (if last then [] else old(publisherWakers.wakers)))
    {
      woken := [];
      var startId := nextMessageId - |queue|;
      if id < startId {
        return Some(Lagged(startId - id)), woken;
      }
      var index := id - startId;
      if index >= |queue| {
        return None, woken;
      }
      var item := queue[index];
      queue := queue[index := item.(count := item.count - 1)];
      if index == 0 && queue[0].count == 0 {
        r := Some(Message(queue[0].msg));
        assert queue[1..] == old(queue)[1..];
        queue := queue[1..];
        woken := publisherWakers.Wake();
      } else {
        r := Some(Message(item.msg));
      }
    }

    /** The counters from `index` on, less one. */
    method DecrementCounters(index: nat)
      requires forall i :: index <= i < |queue| ==> queue[i].count > 0
      modifies `queue
      ensures queue == DecrementFrom(old(queue), index)
    {
      var i := index;
      while i < |queue|
        invariant index <= i && (i <= |queue| || i == index)
        invariant |queue| == |old(queue)|
        invariant forall j :: 0 <= j < |queue| ==>
                    queue[j] == if index <= j < i then Decremented(old(queue)[j]) else old(queue)[j]
      {
        queue := queue[i := queue[i].(count := queue[i].count - 1)];
        i := i + 1;
      }
      assert queue == DecrementFrom(old(queue), index);
    }

    /** Takes the messages nobody is going to read off the front. */
    method PopUnneeded() returns (wakePublishers: bool)
      modifies `queue
      ensures queue == old(queue)[LeadingZeros(old(queue))..]
      ensures wakePublishers <==> LeadingZeros(old(queue)) > 0
    {
      wakePublishers := false;
      ghost var k := 0;
      while queue != [] && queue[0].count == 0
        invariant 0 <= k <= |old(queue)| && queue == old(queue)[k..]
        invariant LeadingZeros(old(queue)) == k + LeadingZeros(queue)
        invariant wakePublishers <==> k > 0
        decreases |queue|
      {
        queue := queue[1..];
        wakePublishers := true;
        k := k + 1;
      }
    }

    /** Publishers are woken when that made room. */
    method ReleaseUnneeded() returns (woken: seq<Task>)
      requires Valid()
      modifies `queue, publisherWakers
      ensures Valid() && (Model(), woken) == Unneeded(old(Model()), old(queue))
      ensures var k := LeadingZeros(old(queue));
              && queue == old(queue)[k..] && woken == (if k > 0 then old(publisherWakers.wakers) else [])
              && publisherWakers.wakers == (if k > 0 then [] else old(publisherWakers.wakers))
    {
      woken := [];
      ghost var all := queue;
      assert all[0..] == all;
      var wakePublishers := PopUnneeded();
      if wakePublishers {
        woken := publisherWakers.Wake();
      }
    }

    /** One reader less for the messages from `index` on. */
    method LeaveFrom(index: nat) returns (woken: seq<Task>)
      requires Valid() && forall i :: index <= i < |queue| ==> queue[i].count > 0
      modifies `queue, publisherWakers
      ensures Valid() && (Model(), woken) == Unneeded(old(Model()), DecrementFrom(old(queue), index))
      ensures var q := DecrementFrom(old(queue), index);
              var k := LeadingZeros(q);
              && queue == q[k..] && woken == (if k > 0 then old(publisherWakers.wakers) else [])
              && publisherWakers.wakers == (if k > 0 then [] else old(publisherWakers.wakers))
    {
      DecrementCounters(index);
      woken := ReleaseUnneeded();
    }

    method UnregisterSubscriber(id: nat) returns (woken: seq<Task>)
      requires Valid() && Leavable(Model(), id)
      modifies this, publisherWakers
      ensures Valid() && (Model(), woken) == Unregister(old(Model()), id)
      ensures subscriberCount == old(subscriberCount) - 1 && publisherCount == old(publisherCount)
      ensures nextMessageId == old(nextMessageId)
      ensures id < nextMessageId - |old(queue)| ==>
                queue == old(queue) && woken == [] && publisherWakers.wakers == old(publisherWakers.wakers)
      ensures id >= nextMessageId - |old(queue)| ==>
                var q := DecrementFrom(old(queue), id - (nextMessageId - |old(queue)|));
                var k := LeadingZeros(q);
                && queue == q[k..] && woken == (if k > 0 then old(publisherWakers.wakers) else [])
                && publisherWakers.wakers == (if k > 0 then [] else old(publisherWakers.wakers))
    {
      woken := [];
      subscriberCount := subscriberCount - 1;
      var startId := nextMessageId - |queue|;
      if id >= startId {
        woken := LeaveFrom(id - startId);
      }
    }

    method Available(id: nat) returns (n: nat)
      requires Valid() && id <= nextMessageId
      ensures id + n == nextMessageId
    {
      n := nextMessageId - id;
    }

    method Space() returns (n: nat)
      requires Valid()
      ensures n + |queue| == caps.msgs
    {
      n := caps.msgs - |queue|;
    }
  }

  /** Where a subscriber reads next, once it knows about its lag. */
  function Position<T>(c: Chan<T>, id: nat): int {
    if id < c.Start() then c.Start() else id
  }

  class Sub<T(==)> {
    var nextMessageId: nat
    const channel: PubSubState<T>

    constructor (nextMessageId: nat, channel: PubSubState<T>)
      ensures this.nextMessageId == nextMessageId && this.channel == channel
    {
      this.nextMessageId := nextMessageId;
      this.channel := channel;
    }

    method GetMessageWithContext(cx: Option<Task>) returns (r: Option<WaitResult<T>>, woken: seq<Task>)
      requires channel.Valid() && Readable(channel.Model(), nextMessageId)
      requires cx.Some? ==> channel.caps.subs > 0
      modifies this, channel, channel.publisherWakers, channel.subscriberWakers
      ensures channel.Valid() && r == PubSub.GetMessage(old(channel.Model()), old(nextMessageId)).1
      ensures r.None? <==> old(nextMessageId) == old(channel.nextMessageId)
      ensures r.None? && (cx.None? || |old(channel.subscriberWakers.wakers)| < channel.caps.subs) ==> woken == []
      ensures r.None? && cx.Some? ==> cx.value in channel.subscriberWakers.wakers
      ensures var (c, got, w) := PubSub.GetMessage(old(channel.Model()), old(nextMessageId));
              && (got.Some? || cx.None? ==> channel.Model() == c && woken == w)
              && (got.None? && cx.Some? ==>
                    var (ws, w') := RegisterIn(c.subWakers, channel.caps.subs, cx.value);
                    channel.Model() == c.(subWakers := ws) && woken == w')
      ensures match r
              case None => nextMessageId == old(nextMessageId)
              case Some(Message(_)) => nextMessageId == old(nextMessageId) + 1
              case Some(Lagged(n)) => nextMessageId == old(nextMessageId) + n == old(channel.Model().Start())
    {
      r, woken := channel.GetMessage(nextMessageId);
      match r
      case Some(Message(m)) =>
        nextMessageId := nextMessageId + 1;
      case None =>
        if cx.Some? {
          woken := channel.subscriberWakers.Register(cx.value);
        }
      case Some(Lagged(n)) =>
        nextMessageId := nextMessageId + n;
    }

    method TryNextMessage() returns (r: Option<WaitResult<T>>, woken: seq<Task>)
      requires channel.Valid() && Readable(channel.Model(), nextMessageId)
      modifies this, channel, channel.publisherWakers, channel.subscriberWakers
      ensures channel.Valid() && (channel.Model(), r, woken) == PubSub.GetMessage(old(channel.Model()), old(nextMessageId))
      ensures match r
              case None => nextMessageId == old(nextMessageId)
              case Some(Message(_)) => nextMessageId == old(nextMessageId) + 1
              case Some(Lagged(n)) => nextMessageId == old(channel.Model().Start())
    {
      r, woken := GetMessageWithContext(None);
    }

    /** Skips lag reports. There is at most one, and what is returned is the oldest queued
        message that this subscriber has not read. */
    method TryNextMessagePure() returns (r: Option<T>, woken: seq<Task>)
      requires channel.Valid() && Counted(channel.Model(), nextMessageId)
      modifies this, channel, channel.publisherWakers, channel.subscriberWakers
      ensures channel.Valid()
      ensures var c, at := old(channel.Model()), Position(old(channel.Model()), old(nextMessageId));
              && (r.None? <==> at == c.nextId)
              && (r.Some? ==> r.value == c.queue[at - c.Start()].msg)
              && nextMessageId == (if r.Some? then at + 1 else at)
              && channel.Model() == PubSub.GetMessage(c, at).0 && woken == PubSub.GetMessage(c, at).2
    {
      ghost var c, at := channel.Model(), Position(channel.Model(), nextMessageId);
      while true
        invariant channel.Valid() && channel.Model() == c
        invariant nextMessageId == old(nextMessageId) || nextMessageId == at
        decreases at - nextMessageId
      {
        var next;
        next, woken := TryNextMessage();
        match next
        case Some(Lagged(_)) =>
        case Some(Message(m)) => return Some(m), woken;
        case None => return None, woken;
      }
    }
  }

  /** A publish in progress; the message is handed back while it has to wait. */
  class PublisherWaitFuture<T(==)> {
    var message: Option<T>

    constructor (message: T)
      ensures this.message == Some(message)
    {
      this.message := Some(message);
    }

    method Poll(channel: PubSubState<T>, cx: Task) returns (ready: bool, woken: seq<Task>)
      requires message.Some? && channel.Valid() && channel.caps.pubs > 0
      modifies this, channel, channel.subscriberWakers, channel.publisherWakers
      ensures channel.Valid()
      ensures message == if ready then None else old(message)
      ensures var (c, taken, w) := PubSub.TryPublish(old(channel.Model()), channel.caps, old(message).value);
              && ready == taken
              && (taken ==> channel.Model() == c && woken == w)
              && (!taken ==>
                    var (ws, w') := RegisterIn(c.pubWakers, channel.caps.pubs, cx);
                    c == old(channel.Model()) && channel.Model() == c.(pubWakers := ws) && woken == w' && cx in ws)
    {
      var m := message.value;
      message := None;
      ready, woken := channel.PublishWithContext(m, Some(cx));
      if !ready {
        message := Some(m);
      }
    }
  }
}
