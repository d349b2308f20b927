/** The message channel: a bounded queue and a waker on each side. */
module Channels {
  import opened Wrappers
  import opened Wakers
  import opened Handoff

  class ChannelState<T> {
    const n: nat
    var queue: seq<T>
    const receiverWaker: WakerRegistration
    const sendersWaker: WakerRegistration

    ghost predicate Valid()
      reads this
    {
      |queue| <= n && receiverWaker != sendersWaker
    }

    ghost function Model(): Buf<T>
      reads this, receiverWaker, sendersWaker
    {
      Buf(queue, receiverWaker.waker, sendersWaker.waker)
    }

    constructor (n: nat)
      ensures Valid() && this.n == n && Model() == Buf([], None, None)
      ensures fresh(receiverWaker) && fresh(sendersWaker)
    {
      this.n := n;
      queue := [];
      receiverWaker := new WakerRegistration();
      sendersWaker := new WakerRegistration();
    }

    /** One message, or None: the channel is empty. */
    method TryReceiveWithContext(cx: Option<Task>) returns (r: Option<T>, receivers: set<Task>, senders: set<Task>)
      requires Valid()
      modifies this, receiverWaker, sendersWaker
      ensures Valid()
      ensures Take(old(Model()), IsFull(old(Model()), n, true), Min1(old(queue)), cx)
           == Outcome(Model(), r.Some?, receivers, senders)
      ensures r.Some? <==> old(queue) != []
      ensures r.Some? ==> old(queue) == [r.value] + queue && receivers == {}
      ensures r.None? ==> queue == old(queue) && (cx.Some? ==> receiverWaker.waker == cx)
      ensures senders == if |old(queue)| == n && old(sendersWaker.waker).Some? then {old(sendersWaker.waker).value} else {}
    {
      receivers, senders := {}, {};
      if |queue| == n {
        senders := sendersWaker.Wake();
      }
      if queue != [] {
        r := Some(queue[0]);
        queue := queue[1..];
      } else {
        r := None;
        if cx.Some? {
          receivers := receiverWaker.Register(cx.value);
        }
      }
    }

    method PollReadyToReceive(cx: Task) returns (ready: bool, receivers: set<Task>)
      requires Valid()
      modifies receiverWaker
      ensures Valid() && ReadyToRead(old(Model()), cx) == Outcome(Model(), ready, receivers, {})
      ensures (ready <==> queue != []) && receiverWaker.waker == Some(cx)
    {
      receivers := receiverWaker.Register(cx);
      ready := queue != [];
    }

    method TrySendWithContext(message: T, cx: Option<Task>) returns (ok: bool, receivers: set<Task>, senders: set<Task>)
      requires Valid()
      modifies this, receiverWaker, sendersWaker
      ensures Valid() && Send(old(Model()), n, message, cx) == Outcome(Model(), ok, receivers, senders)
      ensures ok <==> |old(queue)| < n
      ensures queue == if ok then old(queue) + [message] else old(queue)
      ensures !ok && cx.Some? ==> sendersWaker.waker == cx
      ensures receivers == if ok && old(receiverWaker.waker).Some? then {old(receiverWaker.waker).value} else {}
    {
      receivers, senders := {}, {};
      if |queue| < n {
        queue := queue + [message];
        receivers := receiverWaker.Wake();
        ok := true;
      } else {
        ok := false;
        if cx.Some? {
          senders := sendersWaker.Register(cx.value);
        }
      }
    }

    method PollReadyToSend(cx: Task) returns (ready: bool, senders: set<Task>)
      requires Valid()
      modifies sendersWaker
      ensures Valid() && ReadyToWrite(old(Model()), n, cx) == Outcome(Model(), ready, {}, senders)
      ensures (ready <==> |queue| < n) && sendersWaker.waker == Some(cx)
    {
      senders := sendersWaker.Register(cx);
      ready := |queue| != n;
    }
  }

  function Min1<T>(q: seq<T>): nat { if q == [] then 0 else 1 }

  /** A send in progress; the message is handed back while it has to wait. */
  class SendFuture<T> {
    const channel: ChannelState<T>
    var message: Option<T>

    constructor (channel: ChannelState<T>, message: T)
      ensures this.channel == channel && this.message == Some(message)
    {
      this.channel := channel;
      this.message := Some(message);
    }

    /** The message is in the future or in the channel, never in both and never in neither. */
    method Poll(cx: Task) returns (ready: bool, receivers: set<Task>, senders: set<Task>)
      requires message.Some? && channel.Valid()
      modifies this, channel, channel.receiverWaker, channel.sendersWaker
      ensures channel.Valid() && (ready <==> |old(channel.queue)| < channel.n)
      ensures ready ==> message == None && channel.queue == old(channel.queue) + [old(message).value]
      ensures !ready ==> message == old(message) && channel.queue == old(channel.queue)
      ensures !ready ==> |channel.queue| == channel.n && channel.sendersWaker.waker == Some(cx)
      ensures Send(old(channel.Model()), channel.n, old(message).value, Some(cx))
           == Outcome(channel.Model(), ready, receivers, senders)
    {
      var m := message.value;
      message := None;
      ready, receivers, senders := channel.TrySendWithContext(m, Some(cx));
      if !ready {
        message := Some(m);
      }
    }
  }
}
