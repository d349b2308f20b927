/** Deadlines: the queue of timers of an executor and the queue of alarms of a core. */
module Timers {
  import opened Wrappers

  /** A timer of task `id`, or an alarm of handle `id`. */
  datatype Item = Item(expiresAt: nat, id: nat)

  ghost predicate Earliest(q: multiset<Item>, x: Item) {
    x in q && forall y :: y in q ==> x.expiresAt <= y.expiresAt
  }

  lemma {:induction false} EarliestExists(q: multiset<Item>) returns (x: Item)
    requires q != multiset{}
    ensures Earliest(q, x)
    decreases |q|
  {
    var y :| y in q;
    var rest := q - multiset{y};
    if rest == multiset{} {
      x := y;
      assert q == multiset{y} + rest;
    } else {
      var z := EarliestExists(rest);
      x := if y.expiresAt <= z.expiresAt then y else z;
      assert q == multiset{y} + rest;
    }
  }

  /** `fired` are exactly the items of `before` that are due at `now`, and `after` the others. */
  ghost predicate Expiry(before: multiset<Item>, now: nat, fired: seq<Item>, after: multiset<Item>) {
    && before == multiset(fired) + after
    && (forall x :: x in fired ==> x.expiresAt <= now)
    && (forall x :: x in after ==> now < x.expiresAt)
  }

  lemma ExpiryRest(before: multiset<Item>, now: nat, fired: seq<Item>, after: multiset<Item>)
    requires Expiry(before, now, fired, after)
    ensures multiset(fired) <= before && before - multiset(fired) == after
  {
  }

  ghost predicate InOrder(fired: seq<Item>) {
    forall i, j :: 0 <= i < j < |fired| ==> fired[i].expiresAt <= fired[j].expiresAt
  }

  ghost predicate NoneDue(q: multiset<Item>, now: nat) {
    forall x :: x in q ==> now < x.expiresAt
  }

  lemma TakenFirst(q: multiset<Item>, x: Item, others: seq<Item>)
    requires x in q && multiset(others) <= q - multiset{x}
    ensures multiset([x] + others) <= q
    ensures q - multiset([x] + others) == q - multiset{x} - multiset(others)
  {
    assert q == multiset{x} + (q - multiset{x});
    assert multiset([x] + others) == multiset{x} + multiset(others);
  }

  /** The earliest item, when it is due, goes before those due among the others. */
  lemma ExpiryFirst(q: multiset<Item>, now: nat, x: Item, others: seq<Item>)
    requires Earliest(q, x) && x.expiresAt <= now && multiset(others) <= q - multiset{x}
    requires Expiry(q - multiset{x}, now, others, q - multiset{x} - multiset(others))
    ensures multiset([x] + others) <= q && Expiry(q, now, [x] + others, q - multiset([x] + others))
  {
    TakenFirst(q, x, others);
    var fired, after := [x] + others, q - multiset([x] + others);
    assert forall y :: y in fired ==> y == x || y in others;
    assert multiset(fired) + after == q;
  }

  lemma EarliestFirst(q: multiset<Item>, x: Item, others: seq<Item>)
    requires Earliest(q, x) && multiset(others) <= q - multiset{x} && InOrder(others)
    ensures InOrder([x] + others)
  {
    forall i | 0 <= i < |others|
      ensures x.expiresAt <= others[i].expiresAt
    {
      assert others[i] in multiset(others) && others[i] in q;
    }
  }

  /** The items due can always be taken out, earliest first. */
  lemma {:induction false} ExpiryExists(q: multiset<Item>, now: nat) returns (fired: seq<Item>)
    ensures multiset(fired) <= q && Expiry(q, now, fired, q - multiset(fired)) && InOrder(fired)
    decreases |q|
  {
    if NoneDue(q, now) {
      fired := [];
      assert q - multiset([]) == q;
    } else {
      var x := EarliestExists(q);
      assert q == multiset{x} + (q - multiset{x});
      var others := ExpiryExists(q - multiset{x}, now);
      ExpiryFirst(q, now, x, others);
      EarliestFirst(q, x, others);
      fired := [x] + others;
    }
  }

  /** Whatever the order they fire in, the same items fire and the same items stay. */
  lemma ExpiryIsUnique(before: multiset<Item>, now: nat, f: seq<Item>, a: multiset<Item>, g: seq<Item>, b: multiset<Item>)
    requires Expiry(before, now, f, a) && Expiry(before, now, g, b)
    ensures multiset(f) == multiset(g) && a == b
  {
    forall x: Item
      ensures a[x] == b[x] && multiset(f)[x] == multiset(g)[x]
    {
      assert before[x] == multiset(f)[x] + a[x] && before[x] == multiset(g)[x] + b[x];
      if x.expiresAt <= now {
        assert x !in a && x !in b;
      } else {
        assert x !in multiset(f) && x !in multiset(g);
      }
    }
  }

  /** `fired` have been taken from `before` so far, earliest first. */
  ghost predicate Taken(before: multiset<Item>, now: nat, fired: seq<Item>, rest: multiset<Item>) {
    && before == multiset(fired) + rest && InOrder(fired)
    && (forall x :: x in fired ==> x.expiresAt <= now)
    && (forall x, y :: x in fired && y in rest ==> x.expiresAt <= y.expiresAt)
  }

  lemma TakeNext(before: multiset<Item>, now: nat, fired: seq<Item>, rest: multiset<Item>, x: Item)
    requires Taken(before, now, fired, rest) && Earliest(rest, x) && x.expiresAt <= now
    ensures Taken(before, now, fired + [x], rest - multiset{x})
  {
    var rest' := rest - multiset{x};
    assert rest == multiset{x} + rest';
    assert multiset(fired + [x]) == multiset(fired) + multiset{x};
    assert forall y :: y in fired + [x] <==> y in fired || y == x;
    InOrderAppend(fired, x);
  }

  lemma InOrderAppend(fired: seq<Item>, x: Item)
    requires InOrder(fired) && forall y :: y in fired ==> y.expiresAt <= x.expiresAt
    ensures InOrder(fired + [x])
  {
    assert forall i :: 0 <= i < |fired| ==> fired[i] in fired;
  }

  /** A bounded min-heap, as far as its users can tell. */
  class BinaryHeap {
    const cap: nat
    var items: multiset<Item>

    constructor (cap: nat)
      ensures items == multiset{} && this.cap == cap
    {
      this.cap := cap;
      items := multiset{};
    }

    method Push(x: Item) returns (ok: bool)
      modifies this
      ensures ok <==> |old(items)| < cap
      ensures items == if ok then old(items) + multiset{x} else old(items)
    {
      ok := |items| < cap;
      if ok {
        items := items + multiset{x};
      }
    }

    method Peek() returns (r: Option<Item>)
      ensures r.None? <==> items == multiset{}
      ensures r.Some? ==> Earliest(items, r.value)
    {
      if items == multiset{} {
        return None;
      }
      ghost var least := EarliestExists(items);
      var x :| x in items && forall y :: y in items ==> x.expiresAt <= y.expiresAt;
      return Some(x);
    }

    method Pop() returns (r: Option<Item>)
      modifies this
      ensures r.None? ==> old(items) == multiset{} && items == multiset{}
      ensures r.Some? ==> Earliest(old(items), r.value) && items == old(items) - multiset{r.value}
    {
      r := Peek();
      if r.Some? {
        items := items - multiset{r.value};
      }
    }
  }

  class TimerQueue {
    const queue: BinaryHeap

    constructor (cap: nat)
      ensures fresh(queue) && queue.items == multiset{} && queue.cap == cap
    {
      queue := new BinaryHeap(cap);
    }

    /** None when the queue is full, which the executor does not look at. */
    method Enqueue(item: Item) returns (ok: bool)
      modifies queue
      ensures ok <==> |old(queue.items)| < queue.cap
      ensures queue.items == if ok then old(queue.items) + multiset{item} else old(queue.items)
    {
      ok := queue.Push(item);
    }

    method DequeueExpired(now: nat) returns (count: nat, fired: seq<Item>)
      modifies queue
      ensures Expiry(old(queue.items), now, fired, queue.items)
      ensures InOrder(fired) && count == |fired|
    {
      count, fired := 0, [];
      while true
        invariant Taken(old(queue.items), now, fired, queue.items) && count == |fired|
        decreases |queue.items|
      {
        var first := queue.Peek();
        if first.None? || first.value.expiresAt > now {
          return;
        }
        ghost var rest := queue.items;
        var item := queue.Pop();
        TakeNext(old(queue.items), now, fired, rest, item.value);
        fired := fired + [item.value];
        count := count + 1;
      }
    }

    method NextExpiration() returns (r: Option<nat>)
      ensures r.None? <==> queue.items == multiset{}
      ensures r.Some? ==> exists x :: Earliest(queue.items, x) && x.expiresAt == r.value
    {
      var first := queue.Peek();
      if first.Some? {
        return Some(first.value.expiresAt);
      }
      return None;
    }

    /** After the expired timers are gone the next deadline lies ahead. */
    method DequeueThenNext(now: nat) returns (r: Option<nat>)
      modifies queue
      ensures r.Some? ==> now < r.value
      ensures r.None? ==> forall x :: x in old(queue.items) ==> x.expiresAt <= now
    {
      var count, fired := DequeueExpired(now);
      r := NextExpiration();
      assert r.None? ==> old(queue.items) == multiset(fired);
    }
  }

  /** The handles of `fired` that have a callback, in order. */
  function Called(fired: seq<Item>, callbacks: seq<Option<nat>>): seq<nat> {
    if fired == [] then []
    else
      var last := fired[|fired| - 1];
      Called(fired[..|fired| - 1], callbacks)
      + if last.id < |callbacks| && callbacks[last.id].Some? then [last.id] else []
  }

  class AlarmQueue {
    const handles: nat
    var callbacks: seq<Option<nat>>   // by handle: the context of its callback, once registered
    const queue: BinaryHeap

    ghost predicate Valid()
      reads this, queue
    {
      |callbacks| <= handles && forall x :: x in queue.items ==> x.id < |callbacks|
    }

    constructor (handles: nat, cap: nat)
      ensures Valid() && fresh(queue) && queue.items == multiset{} && queue.cap == cap && callbacks == []
    {
      this.handles := handles;
      callbacks := [];
      queue := new BinaryHeap(cap);
    }

    method TryAllocateHandle() returns (r: Option<nat>)
      requires Valid()
      modifies this
      ensures Valid()
      ensures if |old(callbacks)| < handles then r == Some(|old(callbacks)|) && callbacks == old(callbacks) + [None]
              else r == None && callbacks == old(callbacks)
    {
      if |callbacks| == handles {
        return None;
      }
      callbacks := callbacks + [None];
      return Some(|callbacks| - 1);
    }

    method RegisterCallback(handle: nat, ctx: nat)
      requires Valid() && handle < |callbacks|
      modifies this
      ensures Valid() && callbacks == old(callbacks)[handle := Some(ctx)]
    {
      callbacks := callbacks[handle := Some(ctx)];
    }

    method SetAlarm(handle: nat, expiresAt: nat) returns (ok: bool)
      requires Valid() && handle < |callbacks|
      modifies queue
      ensures Valid() && (ok <==> |old(queue.items)| < queue.cap)
      ensures queue.items == if ok then old(queue.items) + multiset{Item(expiresAt, handle)} else old(queue.items)
    {
      ok := queue.Push(Item(expiresAt, handle));
    }

    method GetOneExpiredItem(now: nat) returns (r: Option<Item>)
      modifies queue
      ensures r.Some? ==>
                && Earliest(old(queue.items), r.value) && r.value.expiresAt <= now
                && queue.items == old(queue.items) - multiset{r.value}
      ensures r.None? ==> queue.items == old(queue.items) && forall x :: x in queue.items ==> now < x.expiresAt
    {
      var first := queue.Peek();
      if first.Some? && first.value.expiresAt <= now {
        r := queue.Pop();
      } else {
        r := None;
      }
    }

    /** Calls back for every alarm that is due, earliest first. The callbacks add no alarm: each
        pends an executor. */
    method CallAllExpired(now: nat) returns (count: nat, ghost fired: seq<Item>, called: seq<nat>)
      requires Valid()
      modifies queue
      ensures Valid() && Expiry(old(queue.items), now, fired, queue.items)
      ensures InOrder(fired) && count == |fired|
      ensures called == Called(fired, callbacks)
    {
      count, fired, called := 0, [], [];
      while true
        invariant Taken(old(queue.items), now, fired, queue.items) && count == |fired|
        invariant Valid() && called == Called(fired, callbacks)
        decreases |queue.items|
      {
        ghost var rest := queue.items;
        var item := GetOneExpiredItem(now);
        if item.None? {
          return;
        }
        TakeNext(old(queue.items), now, fired, rest, item.value);
        if item.value.expiresAt <= now {
          CalledLast(fired, item.value, callbacks);
          fired := fired + [item.value];
          var callback := callbacks[item.value.id];
          if callback.Some? {
            called := called + [item.value.id];
          }
          count := count + 1;
        } else {
          return;
        }
      }
    }
  }

  lemma CalledLast(fired: seq<Item>, x: Item, callbacks: seq<Option<nat>>)
    ensures Called(fired + [x], callbacks)
         == Called(fired, callbacks) + if x.id < |callbacks| && callbacks[x.id].Some? then [x.id] else []
  {
    assert (fired + [x])[..|fired|] == fired;
  }

  /** Every alarm that fires has its callback run, in the order they fire, once for each alarm. */
  lemma {:induction false} CalledConcat(a: seq<Item>, b: seq<Item>, callbacks: seq<Option<nat>>)
    ensures Called(a + b, callbacks) == Called(a, callbacks) + Called(b, callbacks)
    decreases |b|
  {
    if b == [] {
      assert a + b == a;
    } else {
      var k := |b| - 1;
      assert a + b == (a + b[..k]) + [b[k]] && b == b[..k] + [b[k]];
      CalledConcat(a, b[..k], callbacks);
      CalledLast(a + b[..k], b[k], callbacks);
      CalledLast(b[..k], b[k], callbacks);
    }
  }

  lemma {:induction false} CalledInOrder(fired: seq<Item>, callbacks: seq<Option<nat>>)
    requires forall x :: x in fired ==> x.id < |callbacks| && callbacks[x.id].Some?
    ensures |Called(fired, callbacks)| == |fired|
    ensures forall i :: 0 <= i < |fired| ==> Called(fired, callbacks)[i] == fired[i].id
    decreases |fired|
  {
    if fired != [] {
      var k := |fired| - 1;
      assert fired == fired[..k] + [fired[k]] && fired[k] in fired;
      CalledInOrder(fired[..k], callbacks);
      CalledLast(fired[..k], fired[k], callbacks);
    }
  }
}
