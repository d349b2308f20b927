/** The executor and the kernel it runs on, as the program keeps them. Each method is a critical
    section of the loop, or a few of them without an interrupt in between, and does what the
    step system says. */
module BaseExecutors {
  import opened Wrappers
  import opened Timers
  import E = Executor

  const MAX_TASKS := 32
  const N_TIMERS := 64
  const N_ALARM_HANDLES := 8
  const N_ALARM_ITEMS := 64

  /** The handle of the executor is among those called if and only if one of its alarms fired. */
  lemma CalledIffRings(fired: seq<Item>, callbacks: seq<Option<nat>>, handle: nat)
    requires handle < |callbacks| && callbacks[handle].Some?
    ensures handle in Called(fired, callbacks) <==> E.Rings(fired, handle)
  {
    if fired != [] {
      var k := |fired| - 1;
      var init, last := fired[..k], fired[k];
      CalledIffRings(init, callbacks, handle);
      if E.Rings(init, handle) {
        var i :| 0 <= i < |init| && init[i].id == handle;
        assert fired[i].id == handle;
      }
      if E.Rings(fired, handle) && last.id != handle {
        var i :| 0 <= i < |fired| && fired[i].id == handle;
        assert init[i].id == handle;
      }
    }
  }

  lemma RingsMeans(fired: seq<Item>, handle: nat)
    ensures E.Rings(fired, handle) <==> exists x :: x in fired && x.id == handle
  {
    if i :| 0 <= i < |fired| && fired[i].id == handle {
      assert fired[i] in fired;
    }
  }

  lemma TickDone(s: E.State, cfg: E.Config, fired: seq<Item>, rest: multiset<Item>)
    requires Expiry(s.alarms, s.ticks, fired, rest) && InOrder(fired)
    ensures E.Enabled(s, cfg, E.Tick(fired))
    ensures E.Do(s, cfg, E.Tick(fired))
         == s.(ticks := s.ticks + 1, alarms := rest, flag := s.flag || E.Rings(fired, cfg.handle))
  {
    ExpiryRest(s.alarms, s.ticks, fired, rest);
  }

  class Kernel {
    var event: bool
    var ticks: nat
    const alarms: AlarmQueue

    constructor ()
      ensures event && ticks == 0 && fresh(alarms) && fresh(alarms.queue) && alarms.Valid()
      ensures alarms.queue.items == multiset{} && alarms.queue.cap == N_ALARM_ITEMS
    {
      event := true;
      ticks := 0;
      alarms := new AlarmQueue(N_ALARM_HANDLES, N_ALARM_ITEMS);
    }

    method SignalEventLocal()
      modifies `event
      ensures event
    {
      event := true;
    }

    method EventFetchAndClearLocal() returns (was: bool)
      modifies `event
      ensures was == old(event) && !event
    {
      was := event;
      event := false;
    }

    method Now() returns (now: nat)
      ensures now == ticks
    {
      now := ticks;
    }
  }

  class BaseExecutor {
    const kernel: Kernel
    const handle: nat
    var runQueue: seq<E.Task>
    const timerQueue: TimerQueue
    var expiresAt: map<E.Task, nat>   // the `expires_at` fields of the task headers

    /** Callback registered; the queues have the capacities of the program. */
    ghost predicate Valid()
      reads this, kernel, kernel.alarms, kernel.alarms.queue, timerQueue, timerQueue.queue
    {
      && kernel.alarms.Valid() && kernel.alarms.queue != timerQueue.queue
      && handle < |kernel.alarms.callbacks| && kernel.alarms.callbacks[handle].Some?
      && timerQueue.queue.cap == N_TIMERS && kernel.alarms.queue.cap == N_ALARM_ITEMS
      && |runQueue| <= MAX_TASKS
    }

    function Config(): E.Config {
      E.Config(MAX_TASKS, N_TIMERS, N_ALARM_ITEMS, handle)
    }

    /** The state of the step system; where the executor stands and what wakers are up to is not
        stored anywhere. */
    ghost function Model(pc: E.Pc, pushed: nat, owed: set<E.Task>): E.State
      reads this, kernel, kernel.alarms.queue, timerQueue.queue
    {
      E.State(pc, kernel.event, runQueue, timerQueue.queue.items, kernel.alarms.queue.items, kernel.ticks,
              expiresAt, pushed, owed)
    }

    constructor (kernel: Kernel, handle: nat, spawned: seq<E.Task>)
      requires kernel.alarms.Valid() && handle < |kernel.alarms.callbacks| && |spawned| <= MAX_TASKS
      requires kernel.alarms.queue.cap == N_ALARM_ITEMS && kernel.event && kernel.alarms.queue.items == multiset{}
      modifies kernel.alarms
      ensures Valid() && this.kernel == kernel && this.handle == handle
      ensures Model(E.Check, 0, set t | t in spawned) == E.Start(spawned, kernel.ticks)
    {
      this.kernel := kernel;
      this.handle := handle;
      runQueue := spawned;
      timerQueue := new TimerQueue(N_TIMERS);
      expiresAt := map[];
      new;
      kernel.alarms.RegisterCallback(handle, 0);
    }

    /** Goes to the front of the run queue and pends nobody; panics when the queue is full. */
    method Spawn(task: E.Task, ghost pc: E.Pc, ghost pushed: nat, ghost owed: set<E.Task>)
      requires Valid() && E.NoPanic(Model(pc, pushed, owed), Config(), E.SpawnInTask(task))
      modifies `runQueue
      ensures Valid() && runQueue == [task] + old(runQueue)
      ensures Model(pc, pushed, owed + {task}) == E.Do(old(Model(pc, pushed, owed)), Config(), E.SpawnInTask(task))
    {
      runQueue := [task] + runQueue;
    }

    /** The head of the loop. */
    method FetchEvent(ghost pushed: nat, ghost owed: set<E.Task>) returns (was: bool)
      requires Valid()
      modifies kernel
      ensures Valid() && was == old(kernel.event) && !kernel.event && kernel.ticks == old(kernel.ticks)
      ensures Model(if was then E.ReadClock else E.Check, pushed, owed)
           == E.Do(old(Model(E.Check, pushed, owed)), Config(), E.Fetch)
    {
      was := kernel.EventFetchAndClearLocal();
    }

    /** The clock as `check_timer_queue` reads it. */
    method ReadClock(ghost pushed: nat, ghost owed: set<E.Task>) returns (now: nat)
      requires Valid()
      ensures now == kernel.ticks
      ensures Model(E.Dequeue(now), pushed, owed) == E.Do(Model(E.ReadClock, pushed, owed), Config(), E.Clock)
    {
      now := kernel.Now();
    }

    /** First half of `check_timer_queue`: the expired timers leave the timer queue. With more of
        them than fit the `ready` vector the `unwrap` on a push panics. */
    method DequeueReady(now: nat, ghost pushed: nat, ghost owed: set<E.Task>) returns (ready: seq<Item>)
      requires Valid()
      requires var s := Model(E.Dequeue(now), pushed, owed);
               forall fired :: E.Enabled(s, Config(), E.TakeExpired(fired)) ==> E.NoPanic(s, Config(), E.TakeExpired(fired))
      modifies timerQueue.queue
      ensures Valid() && |ready| <= MAX_TASKS
      ensures Expiry(old(timerQueue.queue.items), now, ready, timerQueue.queue.items) && InOrder(ready)
      ensures E.Enabled(old(Model(E.Dequeue(now), pushed, owed)), Config(), E.TakeExpired(ready))
      ensures Model(E.PushReady(ready), pushed, owed)
           == E.Do(old(Model(E.Dequeue(now), pushed, owed)), Config(), E.TakeExpired(ready))
    {
      var count;
      count, ready := timerQueue.DequeueExpired(now);
      ExpiryRest(old(timerQueue.queue.items), now, ready, timerQueue.queue.items);
      assert E.NoPanic(old(Model(E.Dequeue(now), pushed, owed)), Config(), E.TakeExpired(ready));
    }

    /** Second half: their tasks enter the run queue. Without room for all the `unwrap` on a push
        panics. */
    method PushReady(ready: seq<Item>, ghost pushed: nat, ghost owed: set<E.Task>)
      requires Valid() && E.NoPanic(Model(E.PushReady(ready), pushed, owed), Config(), E.PushExpired)
      modifies `runQueue
      ensures Valid()
      ensures |runQueue| == |old(runQueue)| + |ready| && runQueue[..|old(runQueue)|] == old(runQueue)
      ensures forall i :: 0 <= i < |ready| ==> runQueue[|old(runQueue)| + i] == ready[i].id
      ensures Model(E.Drain, pushed, owed) == E.Do(old(Model(E.PushReady(ready), pushed, owed)), Config(), E.PushExpired)
    {
      var i := 0;
      while i < |ready|
        invariant 0 <= i <= |ready| && runQueue == old(runQueue) + E.Tasks(ready[..i])
        invariant |runQueue| == |old(runQueue)| + i
        invariant forall j :: 0 <= j < i ==> runQueue[|old(runQueue)| + j] == ready[j].id
      {
        TasksNext(ready, i);
        runQueue := runQueue + [ready[i].id];
        i := i + 1;
      }
      assert ready[..i] == ready;
    }

    /** The next runnable task, its expiration cleared. */
    method PopTask(ghost pushed: nat, ghost owed: set<E.Task>) returns (task: Option<E.Task>)
      requires Valid()
      modifies this
      ensures Valid() && (task.None? <==> old(runQueue) == [])
      ensures task.Some? ==> old(runQueue) == [task.value] + runQueue && expiresAt == old(expiresAt) - {task.value}
      ensures task.None? ==> runQueue == [] && expiresAt == old(expiresAt)
      ensures var s := old(Model(E.Drain, pushed, owed));
              Model(if task.None? then E.ReadNext else E.Polling(task.value), pushed,
                    if task.None? then owed else owed - {task.value}) == E.Do(s, Config(), E.Pop)
    {
      if runQueue == [] {
        return None;
      }
      task := Some(runQueue[0]);
      runQueue := runQueue[1..];
      expiresAt := expiresAt - {task.value};
    }

    /** `Timer::poll` inside the poll of a task: ready, or the deadline is left in the header. */
    method PollTimer(task: E.Task, deadline: nat, ghost pushed: nat, ghost owed: set<E.Task>) returns (ready: bool)
      requires Valid()
      modifies `expiresAt
      ensures Valid() && (ready <==> deadline <= kernel.ticks)
      ensures expiresAt == if ready then old(expiresAt) else old(expiresAt)[task := deadline]
      ensures var s := old(Model(E.Polling(task), pushed, owed));
              Model(E.Polling(task), pushed, owed) == if ready then s else E.Do(s, Config(), E.SetTimer(deadline))
    {
      var now := kernel.Now();
      ready := deadline <= now;
      if !ready {
        expiresAt := expiresAt[task := deadline];
      }
    }

    method UpdateTimerQueue(task: E.Task, ghost pushed: nat, ghost owed: set<E.Task>)
      requires Valid()
      modifies timerQueue.queue
      ensures Valid()
      ensures timerQueue.queue.items == old(timerQueue.queue.items)
                + if task in expiresAt && |old(timerQueue.queue.items)| < N_TIMERS
                  then multiset{Item(expiresAt[task], task)} else multiset{}
      ensures Model(E.Drain, pushed, owed) == E.Do(old(Model(E.UpdateTimer(task), pushed, owed)), Config(), E.Update)
    {
      if task in expiresAt {
        var ok := timerQueue.Enqueue(Item(expiresAt[task], task));
      }
    }

    method RenewAlarm(ghost pushed: nat, ghost owed: set<E.Task>) returns (tick: Option<nat>)
      requires Valid()
      modifies kernel.alarms.queue
      ensures Valid()
      ensures tick.None? <==> timerQueue.queue.items == multiset{}
      ensures tick.Some? ==> exists x :: Earliest(timerQueue.queue.items, x) && x.expiresAt == tick.value
      ensures kernel.alarms.queue.items == old(kernel.alarms.queue.items)
                + if tick.Some? && |old(kernel.alarms.queue.items)| < N_ALARM_ITEMS
                  then multiset{Item(tick.value, handle)} else multiset{}
      ensures E.Enabled(old(Model(E.ReadNext, pushed, owed)), Config(), E.Next(tick))
      ensures Model(E.Check, pushed, owed)
           == E.DoAll(old(Model(E.ReadNext, pushed, owed)), Config(), [E.Next(tick)] + if tick.Some? then [E.Renew] else [])
    {
      ghost var s := Model(E.ReadNext, pushed, owed);
      tick := timerQueue.NextExpiration();
      if tick.Some? {
        var ok := kernel.alarms.SetAlarm(handle, tick.value);
        E.DoTwo(s, Config(), E.Next(tick), E.Renew);
        assert [E.Next(tick)] + [E.Renew] == [E.Next(tick), E.Renew];
      } else {
        assert [E.Next(tick)] + [] == [E.Next(tick)] && [E.Next(tick)][1..] == [];
        assert E.DoAll(E.Do(s, Config(), E.Next(tick)), Config(), []) == E.Do(s, Config(), E.Next(tick));
      }
    }

    method EnqueueAndPend(task: E.Task, ghost pc: E.Pc, ghost pushed: nat, ghost owed: set<E.Task>) returns (ok: bool)
      requires Valid()
      modifies this, kernel
      ensures Valid() && (ok <==> |old(runQueue)| < MAX_TASKS) && kernel.event
      ensures runQueue == if ok then old(runQueue) + [task] else old(runQueue)
      ensures kernel.ticks == old(kernel.ticks) && expiresAt == old(expiresAt)
      ensures Model(pc, pushed, owed + {task})
           == E.DoAll(old(Model(pc, pushed, owed)), Config(), [E.WakePush(task), E.WakePend])
    {
      ghost var s := Model(pc, pushed, owed);
      ok := |runQueue| < MAX_TASKS;
      if ok {
        runQueue := runQueue + [task];
      }
      kernel.SignalEventLocal();
      E.DoTwo(s, Config(), E.WakePush(task), E.WakePend);
    }

    /** The timer interrupt; the callback of an executor pends it. */
    method OnTimerInterrupt(ghost pc: E.Pc, ghost pushed: nat, ghost owed: set<E.Task>) returns (ghost fired: seq<Item>)
      requires Valid()
      modifies kernel, kernel.alarms.queue
      ensures Valid() && kernel.ticks == old(kernel.ticks) + 1
      ensures Expiry(old(kernel.alarms.queue.items), old(kernel.ticks), fired, kernel.alarms.queue.items)
      ensures kernel.event <==> old(kernel.event) || exists x :: x in fired && x.id == handle
      ensures E.Enabled(old(Model(pc, pushed, owed)), Config(), E.Tick(fired))
      ensures Model(pc, pushed, owed) == E.Do(old(Model(pc, pushed, owed)), Config(), E.Tick(fired))
    {
      var now := kernel.ticks;
      kernel.ticks := now + 1;
      fired := CallBack(now);
      TickDone(old(Model(pc, pushed, owed)), Config(), fired, kernel.alarms.queue.items);
    }

    /** The alarms due are taken out; one of this executor pends it. */
    method CallBack(now: nat) returns (ghost fired: seq<Item>)
      requires Valid()
      modifies kernel`event, kernel.alarms.queue
      ensures Valid()
      ensures Expiry(old(kernel.alarms.queue.items), now, fired, kernel.alarms.queue.items) && InOrder(fired)
      ensures kernel.event == (old(kernel.event) || E.Rings(fired, handle))
      ensures kernel.event <==> old(kernel.event) || exists x :: x in fired && x.id == handle
    {
      var count, called;
      count, fired, called := kernel.alarms.CallAllExpired(now);
      CalledIffRings(fired, kernel.alarms.callbacks, handle);
      RingsMeans(fired, handle);
      if handle in called {
        kernel.SignalEventLocal();
      }
    }
  }

  lemma {:induction false} TasksNext(fired: seq<Item>, i: nat)
    requires i < |fired|
    ensures E.Tasks(fired[..i + 1]) == E.Tasks(fired[..i]) + [fired[i].id]
  {
    if i == 0 {
      assert fired[..1] == [fired[0]] && fired[..1][1..] == [];
    } else {
      TasksNext(fired[1..], i - 1);
      assert fired[..i + 1][1..] == fired[1..][..i];
      assert fired[..i][1..] == fired[1..][..i - 1];
    }
  }
}
