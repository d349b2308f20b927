/** The executor as a step system: its loop, broken at every critical section, interleaved with
    wakers in interrupt handlers and tasks, with timer interrupts and with other executors. */
module Executor {
  import opened Wrappers
  import opened Timers

  type Task = nat

  /** Where the executor stands in its loop. */
  datatype Pc =
    | Check                       // fetch and clear the pend flag
    | ReadClock                   // check_timer_queue reads the time
    | Dequeue(now: nat)           // expired timers leave the timer queue
    | PushReady(ready: seq<Item>) // their tasks enter the run queue
    | Drain                       // pop the next runnable task
    | Polling(task: Task)
    | UpdateTimer(task: Task)     // the polled task may have set a timer
    | ReadNext                    // renew_alarm reads the next deadline
    | SetAlarm(tick: nat)

  /** The event flag of the thread executor, or the request bit of the software interrupt of an
      interrupt executor, is `flag`. */
  datatype State = State(
    pc: Pc,
    flag: bool,
    runQueue: seq<Task>,
    timers: multiset<Item>,
    alarms: multiset<Item>,       // of all executors
    ticks: nat,
    expiresAt: map<Task, nat>,    // the `expires_at` of the tasks that have one
    pushed: nat,                  // wakers that have pushed a task and not pended yet
    owed: set<Task>)              // tasks spawned or woken and not polled since

  /** Capacities of the bounded queues, and the alarm handle of this executor. The vector the
      expired timers are collected in has the capacity of the run queue. */
  datatype Config = Config(runCap: nat, timerCap: nat, alarmCap: nat, handle: nat)

  datatype Step =
    | Fetch
    | Clock
    | TakeExpired(fired: seq<Item>)
    | PushExpired
    | Pop
    | SetTimer(deadline: nat)     // by the task being polled
    | SpawnInTask(task: Task)     // by the task being polled
    | PollDone
    | Update
    | Next(tick: Option<nat>)
    | Renew
    | WakePush(task: Task)
    | WakePend
    | Tick(fired: seq<Item>)      // the timer interrupt
    | OtherAlarm(item: Item)      // another executor sets an alarm

  /** Tasks spawned before `start`; the flag is up from the beginning. */
  function Start(spawned: seq<Task>, ticks: nat): State {
    State(Check, true, spawned, multiset{}, multiset{}, ticks, map[], 0, set t | t in spawned)
  }

  ghost predicate NextIs(timers: multiset<Item>, tick: Option<nat>) {
    match tick
    case None => timers == multiset{}
    case Some(e) => exists x :: Earliest(timers, x) && x.expiresAt == e
  }

  ghost predicate Enabled(s: State, cfg: Config, step: Step) {
    match step
    case Fetch => s.pc.Check?
    case Clock => s.pc.ReadClock?
    case TakeExpired(fired) =>
      && s.pc.Dequeue? && multiset(fired) <= s.timers && InOrder(fired)
      && Expiry(s.timers, s.pc.now, fired, s.timers - multiset(fired))
    case PushExpired => s.pc.PushReady?
    case Pop => s.pc.Drain?
    case SetTimer(_) => s.pc.Polling?
    case SpawnInTask(_) => s.pc.Polling?
    case PollDone => s.pc.Polling?
    case Update => s.pc.UpdateTimer?
    case Next(tick) => s.pc.ReadNext? && NextIs(s.timers, tick)
    case Renew => s.pc.SetAlarm?
    case WakePush(_) => true
    case WakePend => s.pushed > 0
    case Tick(fired) =>
      multiset(fired) <= s.alarms && InOrder(fired) && Expiry(s.alarms, s.ticks, fired, s.alarms - multiset(fired))
    case OtherAlarm(x) => x.id != cfg.handle
  }

  function Tasks(fired: seq<Item>): seq<Task> {
    if fired == [] then [] else [fired[0].id] + Tasks(fired[1..])
  }

  predicate Rings(fired: seq<Item>, handle: nat) {
    exists i :: 0 <= i < |fired| && fired[i].id == handle
  }

  /** One step of the program. A push to a full queue has no effect: the wakers, the timers and
      the alarms ignore the failure. (A spawn, and the two moves of expired timers, panic instead.) */
  function Do(s: State, cfg: Config, step: Step): State {
    match step
    case Fetch => if s.flag then s.(flag := false, pc := ReadClock) else s
    case Clock => s.(pc := Dequeue(s.ticks))
    case TakeExpired(fired) => s.(timers := s.timers - multiset(fired), pc := PushReady(fired))
    case PushExpired =>
      if !s.pc.PushReady? then s else s.(runQueue := s.runQueue + Tasks(s.pc.ready), pc := Drain)
    case Pop =>
      if s.runQueue == [] then s.(pc := ReadNext)
      else
        var t := s.runQueue[0];
        s.(runQueue := s.runQueue[1..], expiresAt := s.expiresAt - {t}, pc := Polling(t), owed := s.owed - {t})
    case SetTimer(e) => if !s.pc.Polling? then s else s.(expiresAt := s.expiresAt[s.pc.task := e])
    case SpawnInTask(t) =>
      s.(runQueue := if |s.runQueue| < cfg.runCap then [t] + s.runQueue else s.runQueue, owed := s.owed + {t})
    case PollDone => if !s.pc.Polling? then s else s.(pc := UpdateTimer(s.pc.task))
    case Update =>
      if !s.pc.UpdateTimer? then s
      else if s.pc.task in s.expiresAt && |s.timers| < cfg.timerCap then
        s.(timers := s.timers + multiset{Item(s.expiresAt[s.pc.task], s.pc.task)}, pc := Drain)
      else s.(pc := Drain)
    case Next(tick) => s.(pc := if tick.Some? then SetAlarm(tick.value) else Check)
    case Renew =>
      if !s.pc.SetAlarm? then s
      else if |s.alarms| < cfg.alarmCap then
        s.(alarms := s.alarms + multiset{Item(s.pc.tick, cfg.handle)}, pc := Check)
      else s.(pc := Check)
    case WakePush(t) =>
      s.(runQueue := if |s.runQueue| < cfg.runCap then s.runQueue + [t] else s.runQueue,
         pushed := s.pushed + 1, owed := s.owed + {t})
    case WakePend => if s.pushed == 0 then s else s.(pushed := s.pushed - 1, flag := true)
    case Tick(fired) =>
      s.(ticks := s.ticks + 1, alarms := s.alarms - multiset(fired), flag := s.flag || Rings(fired, cfg.handle))
    case OtherAlarm(x) => if |s.alarms| < cfg.alarmCap then s.(alarms := s.alarms + multiset{x}) else s
  }

  function DoAll(s: State, cfg: Config, steps: seq<Step>): State
    decreases |steps|
  {
    if steps == [] then s else DoAll(Do(s, cfg, steps[0]), cfg, steps[1..])
  }

  lemma DoTwo(s: State, cfg: Config, a: Step, b: Step)
    ensures DoAll(s, cfg, [a, b]) == Do(Do(s, cfg, a), cfg, b)
  {
    assert [a, b][1..] == [b] && [b][1..] == [];
    var s1 := Do(s, cfg, a);
    assert DoAll(s1, cfg, [b]) == DoAll(Do(s1, cfg, b), cfg, []);
  }

  // ----- pushes to full queues

  /** What the program answers with a panic does not happen. */
  predicate NoPanic(s: State, cfg: Config, step: Step) {
    match step
    case TakeExpired(fired) => |fired| <= cfg.runCap
    case PushExpired => s.pc.PushReady? ==> |s.runQueue| + |s.pc.ready| <= cfg.runCap
    case SpawnInTask(_) => |s.runQueue| < cfg.runCap
    case _ => true
  }

  /** The task a waker could not push is in the run queue anyway. */
  predicate TaskKept(s: State, cfg: Config, step: Step) {
    step.WakePush? ==> |s.runQueue| < cfg.runCap || step.task in s.runQueue
  }

  /** A timer of task `t` expires by `e`. */
  ghost predicate TimerBy(s: State, t: Task, e: nat) {
    exists x :: x in s.timers && x.id == t && x.expiresAt <= e
  }

  /** This executor will be pended no later than the first timer interrupt at or after `e`. */
  ghost predicate Guarded(s: State, cfg: Config, e: nat) {
    exists a :: a in s.alarms && a.id == cfg.handle && a.expiresAt <= e
  }

  function Max(a: nat, b: nat): nat { if a < b then b else a }

  /** What `renew_alarm` can rely on instead of room in the alarm queue: an alarm of this executor
      due by the deadline or right now, or the executor pended or about to be. */
  ghost predicate Covered(s: State, cfg: Config)
    requires s.pc.SetAlarm?
  {
    Guarded(s, cfg, Max(s.pc.tick, s.ticks)) || s.flag || s.pushed > 0
  }

  /** A timer or an alarm that could not be pushed is not needed. */
  ghost predicate DeadlineKept(s: State, cfg: Config, step: Step) {
    match step
    case Update =>
      s.pc.UpdateTimer? && s.pc.task in s.expiresAt ==>
        |s.timers| < cfg.timerCap || TimerBy(s, s.pc.task, s.expiresAt[s.pc.task]) || s.pc.task in s.runQueue
    case Renew => s.pc.SetAlarm? ==> |s.alarms| < cfg.alarmCap || Covered(s, cfg)
    case _ => true
  }

  /** What the failing pushes of a run must not harm. */
  datatype Care = Nothing | Wakeups | Deadlines

  ghost predicate Fits(s: State, cfg: Config, care: Care, step: Step) {
    && NoPanic(s, cfg, step)
    && (care != Nothing ==> TaskKept(s, cfg, step))
    && (care == Deadlines ==> DeadlineKept(s, cfg, step))
  }

  // ----- the invariants

  /** The executor will still look at the run queue before it looks at the flag again. */
  predicate WillDrain(pc: Pc) {
    pc.ReadClock? || pc.Dequeue? || pc.PushReady? || pc.Drain? || pc.Polling? || pc.UpdateTimer?
  }

  /** A task that was spawned or woken is in the run queue until it is polled, and a run queue
      with something in it is going to be drained. */
  ghost predicate NoLostWakeup(s: State) {
    && (forall t :: t in s.owed ==> t in s.runQueue)
    && (s.runQueue != [] ==> s.flag || s.pushed > 0 || WillDrain(s.pc))
  }

  /** The deadline `e` of task `t` is being watched, or the task is on its way to be polled. */
  ghost predicate Watched(s: State, t: Task, e: nat) {
    || TimerBy(s, t, e)
    || t in s.runQueue
    || (s.pc.PushReady? && exists i :: 0 <= i < |s.pc.ready| && s.pc.ready[i].id == t)
    || s.pc == Polling(t) || s.pc == UpdateTimer(t)
  }

  ghost predicate DeadlinesWatched(s: State) {
    forall t :: t in s.expiresAt ==> Watched(s, t, s.expiresAt[t])
  }

  /** A sleeping executor has an alarm set for each of its timers, and the one it is about to set
      is for the earliest of them. */
  ghost predicate AlarmsGuard(s: State, cfg: Config) {
    && (s.pc.Check? && !s.flag ==> forall x :: x in s.timers ==> Guarded(s, cfg, x.expiresAt))
    && (s.pc.SetAlarm? ==> NextIs(s.timers, Some(s.pc.tick)))
  }

  /** A waker is half way, or the next timer interrupt is going to pend the executor. */
  ghost predicate Coming(s: State, cfg: Config) {
    s.pc.Check? && !s.flag && (s.pushed > 0 || Guarded(s, cfg, s.ticks))
  }

  ghost predicate Inv(s: State, cfg: Config) {
    NoLostWakeup(s) && DeadlinesWatched(s) && (AlarmsGuard(s, cfg) || Coming(s, cfg))
  }

  lemma StartKeeps(spawned: seq<Task>, ticks: nat, cfg: Config)
    ensures Inv(Start(spawned, ticks), cfg)
  {
  }

  lemma WakeupPop(s: State, cfg: Config)
    requires NoLostWakeup(s) && s.pc.Drain?
    ensures NoLostWakeup(Do(s, cfg, Pop))
  {
    assert s.runQueue != [] ==> s.runQueue == [s.runQueue[0]] + s.runQueue[1..];
  }

  lemma WakeupPush(s: State, cfg: Config, t: Task)
    requires NoLostWakeup(s) && TaskKept(s, cfg, WakePush(t))
    ensures NoLostWakeup(Do(s, cfg, WakePush(t)))
  {
  }

  lemma WakeupSpawn(s: State, cfg: Config, t: Task)
    requires NoLostWakeup(s) && |s.runQueue| < cfg.runCap && (s.flag || s.pushed > 0 || WillDrain(s.pc))
    ensures NoLostWakeup(Do(s, cfg, SpawnInTask(t)))
  {
    assert forall u :: u in s.owed ==> u in [t] + s.runQueue;
    assert t in [t] + s.runQueue;
  }

  lemma WakeupKept(s: State, cfg: Config, step: Step)
    requires NoLostWakeup(s) && Enabled(s, cfg, step) && NoPanic(s, cfg, step) && TaskKept(s, cfg, step)
    ensures NoLostWakeup(Do(s, cfg, step))
  {
    match step
    case Pop => WakeupPop(s, cfg);
    case WakePush(t) => WakeupPush(s, cfg, t);
    case SpawnInTask(t) => WakeupSpawn(s, cfg, t);
    case _ =>
  }

  lemma TasksMembers(fired: seq<Item>, i: nat)
    requires i < |fired|
    ensures fired[i].id in Tasks(fired)
  {
    if i > 0 {
      TasksMembers(fired[1..], i - 1);
    }
  }

  lemma WatchTakeExpired(s: State, cfg: Config, fired: seq<Item>)
    requires DeadlinesWatched(s) && Enabled(s, cfg, TakeExpired(fired))
    ensures DeadlinesWatched(Do(s, cfg, TakeExpired(fired)))
  {
    var s' := Do(s, cfg, TakeExpired(fired));
    forall t | t in s'.expiresAt
      ensures Watched(s', t, s'.expiresAt[t])
    {
      if x :| x in s.timers && x.id == t && x.expiresAt <= s.expiresAt[t] {
        if x in s'.timers {
          assert TimerBy(s', t, s'.expiresAt[t]);
        } else {
          assert x in multiset(fired);
          var i :| 0 <= i < |fired| && fired[i] == x;
        }
      }
    }
  }

  lemma WatchPushExpired(s: State, cfg: Config)
    requires DeadlinesWatched(s) && s.pc.PushReady?
    ensures DeadlinesWatched(Do(s, cfg, PushExpired))
  {
    var s' := Do(s, cfg, PushExpired);
    forall t | t in s'.expiresAt
      ensures Watched(s', t, s'.expiresAt[t])
    {
      if i :| 0 <= i < |s.pc.ready| && s.pc.ready[i].id == t {
        TasksMembers(s.pc.ready, i);
      }
    }
  }

  lemma WatchPop(s: State, cfg: Config)
    requires DeadlinesWatched(s) && s.pc.Drain?
    ensures DeadlinesWatched(Do(s, cfg, Pop))
  {
    assert s.runQueue != [] ==> s.runQueue == [s.runQueue[0]] + s.runQueue[1..];
  }

  lemma WatchUpdate(s: State, cfg: Config)
    requires DeadlinesWatched(s) && s.pc.UpdateTimer? && DeadlineKept(s, cfg, Update)
    ensures DeadlinesWatched(Do(s, cfg, Update))
  {
    var s' := Do(s, cfg, Update);
    forall t | t in s'.expiresAt
      ensures Watched(s', t, s'.expiresAt[t])
    {
      var e := s.expiresAt[t];
      assert Watched(s, t, e);
      if t == s.pc.task && |s.timers| < cfg.timerCap {
        assert Item(e, t) in s'.timers;
      } else if TimerBy(s, t, e) {
        var x :| x in s.timers && x.id == t && x.expiresAt <= e;
        assert x in s'.timers;
      }
    }
  }

  /** Nothing that watches a deadline is taken away. */
  lemma WatchCarried(s: State, s': State)
    requires DeadlinesWatched(s) && s'.timers == s.timers && s'.expiresAt == s.expiresAt
    requires forall t :: t in s.runQueue ==> t in s'.runQueue
    requires s'.pc == s.pc || !(s.pc.PushReady? || s.pc.Polling? || s.pc.UpdateTimer?)
    ensures DeadlinesWatched(s')
  {
    forall t | t in s'.expiresAt
      ensures Watched(s', t, s'.expiresAt[t])
    {
      assert Watched(s, t, s.expiresAt[t]);
    }
  }

  /** While a task is polled its deadline need not be watched. */
  lemma WatchPolled(s: State, cfg: Config, step: Step)
    requires DeadlinesWatched(s) && s.pc.Polling? && (step.SetTimer? || step.PollDone?)
    ensures DeadlinesWatched(Do(s, cfg, step))
  {
    var s' := Do(s, cfg, step);
    forall t | t in s'.expiresAt
      ensures Watched(s', t, s'.expiresAt[t])
    {
      assert t != s.pc.task ==> Watched(s, t, s.expiresAt[t]);
    }
  }

  lemma WatchKept(s: State, cfg: Config, step: Step)
    requires DeadlinesWatched(s) && Enabled(s, cfg, step) && DeadlineKept(s, cfg, step)
    ensures DeadlinesWatched(Do(s, cfg, step))
  {
    match step
    case TakeExpired(fired) => WatchTakeExpired(s, cfg, fired);
    case PushExpired => WatchPushExpired(s, cfg);
    case Pop => WatchPop(s, cfg);
    case Update => WatchUpdate(s, cfg);
    case SetTimer(_) => WatchPolled(s, cfg, step);
    case PollDone => WatchPolled(s, cfg, step);
    case _ => WatchCarried(s, Do(s, cfg, step));
  }

  /** The timer interrupt takes an alarm of this executor only by pending it. */
  lemma FiredRings(fired: seq<Item>, a: Item)
    ensures a in multiset(fired) ==> Rings(fired, a.id)
  {
    if a in multiset(fired) {
      var i :| 0 <= i < |fired| && fired[i] == a;
    }
  }

  lemma OtherGuards(s: State, cfg: Config, x: Item)
    requires AlarmsGuard(s, cfg)
    ensures AlarmsGuard(Do(s, cfg, OtherAlarm(x)), cfg)
  {
    var s' := Do(s, cfg, OtherAlarm(x));
    forall y | y in s'.timers && s.pc.Check? && !s.flag
      ensures Guarded(s', cfg, y.expiresAt)
    {
      var a :| a in s.alarms && a.id == cfg.handle && a.expiresAt <= y.expiresAt;
      assert a in s'.alarms;
    }
  }

  lemma TickGuards(s: State, cfg: Config, fired: seq<Item>)
    requires AlarmsGuard(s, cfg) && Enabled(s, cfg, Tick(fired))
    ensures AlarmsGuard(Do(s, cfg, Tick(fired)), cfg)
  {
    var s' := Do(s, cfg, Tick(fired));
    forall y | y in s'.timers && s'.pc.Check? && !s'.flag
      ensures Guarded(s', cfg, y.expiresAt)
    {
      var a :| a in s.alarms && a.id == cfg.handle && a.expiresAt <= y.expiresAt;
      FiredRings(fired, a);
      assert a in s'.alarms;
    }
  }

  lemma RenewGuards(s: State, cfg: Config)
    requires AlarmsGuard(s, cfg) && s.pc.SetAlarm? && (|s.alarms| < cfg.alarmCap || Covered(s, cfg))
    ensures AlarmsGuard(Do(s, cfg, Renew), cfg) || Coming(Do(s, cfg, Renew), cfg)
  {
    var s' := Do(s, cfg, Renew);
    if |s.alarms| < cfg.alarmCap {
      var a := Item(s.pc.tick, cfg.handle);
      assert a in s'.alarms;
    } else {
      assert s'.alarms == s.alarms;
      if Guarded(s, cfg, Max(s.pc.tick, s.ticks)) {
        var a :| a in s.alarms && a.id == cfg.handle && a.expiresAt <= Max(s.pc.tick, s.ticks);
        assert a in s'.alarms;
      }
    }
  }

  lemma GuardKept(s: State, cfg: Config, step: Step)
    requires AlarmsGuard(s, cfg) && Enabled(s, cfg, step) && DeadlineKept(s, cfg, step)
    ensures AlarmsGuard(Do(s, cfg, step), cfg) || Coming(Do(s, cfg, step), cfg)
  {
    match step
    case Renew => RenewGuards(s, cfg);
    case Tick(fired) => TickGuards(s, cfg, fired);
    case OtherAlarm(x) => OtherGuards(s, cfg, x);
    case _ =>
  }

  lemma DueRings(s: State, cfg: Config, fired: seq<Item>)
    requires Enabled(s, cfg, Tick(fired)) && Guarded(s, cfg, s.ticks)
    ensures Rings(fired, cfg.handle)
  {
    var a :| a in s.alarms && a.id == cfg.handle && a.expiresAt <= s.ticks;
    FiredRings(fired, a);
    assert a !in s.alarms - multiset(fired);
  }

  lemma ComingKept(s: State, cfg: Config, step: Step)
    requires Coming(s, cfg) && Enabled(s, cfg, step)
    ensures Coming(Do(s, cfg, step), cfg) || AlarmsGuard(Do(s, cfg, step), cfg)
  {
    var s' := Do(s, cfg, step);
    match step
    case Tick(fired) =>
      if s.pushed == 0 {
        DueRings(s, cfg, fired);
      }
    case OtherAlarm(x) =>
      if s.pushed == 0 {
        var a :| a in s.alarms && a.id == cfg.handle && a.expiresAt <= s.ticks;
        assert a in s'.alarms;
      }
    case WakePend =>
    case WakePush(t) =>
    case Fetch =>
  }

  lemma StepKeeps(s: State, cfg: Config, step: Step)
    requires Inv(s, cfg) && Enabled(s, cfg, step) && Fits(s, cfg, Deadlines, step)
    ensures Inv(Do(s, cfg, step), cfg)
  {
    WakeupKept(s, cfg, step);
    WatchKept(s, cfg, step);
    if AlarmsGuard(s, cfg) {
      GuardKept(s, cfg, step);
    } else {
      ComingKept(s, cfg, step);
    }
  }

  // ----- all runs

  /** A run of the program in which failing pushes do no harm to what is cared for. */
  ghost predicate Runs(s: State, cfg: Config, care: Care, steps: seq<Step>, s': State)
    decreases |steps|
  {
    if steps == [] then s' == s
    else
      && Enabled(s, cfg, steps[0]) && Fits(s, cfg, care, steps[0])
      && Runs(Do(s, cfg, steps[0]), cfg, care, steps[1..], s')
  }

  lemma {:induction false} RunKeeps(s: State, cfg: Config, steps: seq<Step>, s': State)
    requires Inv(s, cfg) && Runs(s, cfg, Deadlines, steps, s')
    ensures Inv(s', cfg)
    decreases |steps|
  {
    if steps != [] {
      StepKeeps(s, cfg, steps[0]);
      RunKeeps(Do(s, cfg, steps[0]), cfg, steps[1..], s');
    }
  }

  lemma {:induction false} RunKeepsWakeups(s: State, cfg: Config, care: Care, steps: seq<Step>, s': State)
    requires NoLostWakeup(s) && care != Nothing && Runs(s, cfg, care, steps, s')
    ensures NoLostWakeup(s')
    decreases |steps|
  {
    if steps != [] {
      WakeupKept(s, cfg, steps[0]);
      RunKeepsWakeups(Do(s, cfg, steps[0]), cfg, care, steps[1..], s');
    }
  }

  /** The executor spins on a flag that is down, and no waker is half way. */
  predicate Idle(s: State) {
    s.pc.Check? && !s.flag && s.pushed == 0
  }

  /** In no interleaving does the executor idle while a task that was spawned or woken has not
      been polled, whatever timers and alarms find their queues full. */
  lemma IdleOwesNothing(spawned: seq<Task>, ticks: nat, cfg: Config, care: Care, steps: seq<Step>, s: State)
    requires care != Nothing && Runs(Start(spawned, ticks), cfg, care, steps, s) && Idle(s)
    ensures s.owed == {} && s.runQueue == []
  {
    StartKeeps(spawned, ticks, cfg);
    RunKeepsWakeups(Start(spawned, ticks), cfg, care, steps, s);
    assert forall t :: t in s.owed ==> t in s.runQueue;
  }

  lemma QuietAfterTick(s: State, cfg: Config, fired: seq<Item>)
    requires AlarmsGuard(s, cfg) && Enabled(s, cfg, Tick(fired)) && Idle(s)
    ensures !Rings(fired, cfg.handle) ==> forall x :: x in s.timers ==> s.ticks < x.expiresAt
  {
    if !Rings(fired, cfg.handle) {
      forall x | x in s.timers
        ensures s.ticks < x.expiresAt
      {
        var a :| a in s.alarms && a.id == cfg.handle && a.expiresAt <= x.expiresAt;
        FiredRings(fired, a);
        assert a in s.alarms - multiset(fired);
      }
    }
  }

  lemma IdleDeadlinesAreTimers(s: State, t: Task)
    requires NoLostWakeup(s) && DeadlinesWatched(s) && Idle(s) && t in s.expiresAt
    ensures TimerBy(s, t, s.expiresAt[t])
  {
    assert Watched(s, t, s.expiresAt[t]);
  }

  /** When the interrupt that handles a tick leaves the executor idle, no deadline at or before
      that tick is left: not in its timer queue, and in none of its tasks. */
  ghost predicate OnTime(s: State, cfg: Config, fired: seq<Item>) {
    var s' := Do(s, cfg, Tick(fired));
    Idle(s') ==>
      && (forall x :: x in s'.timers ==> s.ticks < x.expiresAt)
      && (forall t :: t in s'.expiresAt ==> s.ticks < s'.expiresAt[t])
  }

  lemma TickOnTime(s: State, cfg: Config, fired: seq<Item>)
    requires Inv(s, cfg) && Enabled(s, cfg, Tick(fired))
    ensures OnTime(s, cfg, fired)
  {
    if Idle(Do(s, cfg, Tick(fired))) {
      if !AlarmsGuard(s, cfg) {
        DueRings(s, cfg, fired);
        assert false;
      }
      QuietAfterTick(s, cfg, fired);
      forall t | t in s.expiresAt
        ensures s.ticks < s.expiresAt[t]
      {
        IdleDeadlinesAreTimers(s, t);
      }
    }
  }

  /** In no interleaving is a deadline missed, as long as no failing push does harm. */
  lemma NoDeadlineMissed(spawned: seq<Task>, ticks: nat, cfg: Config, steps: seq<Step>, s: State, fired: seq<Item>)
    requires Runs(Start(spawned, ticks), cfg, Deadlines, steps, s) && Enabled(s, cfg, Tick(fired))
    ensures OnTime(s, cfg, fired)
  {
    StartKeeps(spawned, ticks, cfg);
    RunKeeps(Start(spawned, ticks), cfg, steps, s);
    TickOnTime(s, cfg, fired);
  }

  // ----- order

  function Pops(steps: seq<Step>): nat {
    if steps == [] then 0 else (if steps[0].Pop? then 1 else 0) + Pops(steps[1..])
  }

  ghost predicate NoSpawn(steps: seq<Step>) {
    forall step :: step in steps ==> !step.SpawnInTask?
  }

  lemma StepAdvances(s: State, cfg: Config, step: Step)
    requires !step.SpawnInTask? && (step.Pop? ==> s.runQueue != [])
    ensures s.runQueue[if step.Pop? then 1 else 0..] <= Do(s, cfg, step).runQueue
  {
  }

  lemma PrefixAfter(q: seq<Task>, q1: seq<Task>, q2: seq<Task>, k: nat, n: nat)
    requires k + n <= |q| && q[k..] <= q1 && q1[n..] <= q2
    ensures q[k + n..] <= q2
  {
    assert q[k..][n..] == q[k + n..];
    assert q[k..][n..] <= q1[n..];
  }

  /** Tasks are polled in the order they became runnable: whatever happens in between (a spawn
      by a task aside), the queue is shortened at the front only by its own pops and grows only
      at the back. */
  lemma {:induction false} QueueAdvances(s: State, cfg: Config, care: Care, steps: seq<Step>, s': State)
    requires Runs(s, cfg, care, steps, s') && NoSpawn(steps) && Pops(steps) <= |s.runQueue|
    ensures s.runQueue[Pops(steps)..] <= s'.runQueue
    decreases |steps|
  {
    if steps != [] {
      assert !steps[0].SpawnInTask?;
      StepAdvances(s, cfg, steps[0]);
      var s1 := Do(s, cfg, steps[0]);
      QueueAdvances(s1, cfg, care, steps[1..], s');
      PrefixAfter(s.runQueue, s1.runQueue, s'.runQueue, if steps[0].Pop? then 1 else 0, Pops(steps[1..]));
    }
  }

  /** The task at position k of the run queue is the one polled by the pop after k others. */
  lemma PolledInTurn(s: State, cfg: Config, care: Care, steps: seq<Step>, s': State, k: nat)
    requires Runs(s, cfg, care, steps, s') && NoSpawn(steps) && Pops(steps) == k < |s.runQueue| && s'.pc.Drain?
    ensures Do(s', cfg, Pop).pc == Polling(s.runQueue[k])
  {
    QueueAdvances(s, cfg, care, steps, s');
    assert s.runQueue[k..][0] == s'.runQueue[0];
  }

  /** A task spawned by a task is polled next, however many are queued before it. */
  lemma SpawnedIsNext(s: State, cfg: Config, care: Care, t: Task, steps: seq<Step>, s': State)
    requires NoPanic(s, cfg, SpawnInTask(t)) && Runs(Do(s, cfg, SpawnInTask(t)), cfg, care, steps, s')
    requires NoSpawn(steps) && Pops(steps) == 0 && s'.pc.Drain?
    ensures Do(s', cfg, Pop).pc == Polling(t)
  {
    assert Do(s, cfg, SpawnInTask(t)).runQueue[0] == t;
    PolledInTurn(Do(s, cfg, SpawnInTask(t)), cfg, care, steps, s', 0);
  }

  /** A task woken is polled after all that are queued, however it is interleaved. */
  lemma WokenIsLast(s: State, cfg: Config, care: Care, t: Task, steps: seq<Step>, s': State)
    requires |s.runQueue| < cfg.runCap && Runs(Do(s, cfg, WakePush(t)), cfg, care, steps, s')
    requires NoSpawn(steps) && Pops(steps) == |s.runQueue| && s'.pc.Drain?
    ensures Do(s', cfg, Pop).pc == Polling(t)
  {
    PolledInTurn(Do(s, cfg, WakePush(t)), cfg, care, steps, s', |s.runQueue|);
  }

  lemma {:induction false} TasksAt(fired: seq<Item>, i: nat)
    requires i < |fired|
    ensures |Tasks(fired)| == |fired| && Tasks(fired)[i] == fired[i].id
    decreases fired
  {
    if |fired| > 1 {
      TasksAt(fired[1..], if i > 0 then i - 1 else 0);
    }
  }

  /** The tasks whose timers have expired are polled after those queued already, the earliest
      deadline first. */
  lemma EarliestDeadlineFirst(s: State, cfg: Config, care: Care, fired: seq<Item>, i: nat, steps: seq<Step>, s': State)
    requires Enabled(s, cfg, TakeExpired(fired)) && i < |fired|
    requires Runs(Do(Do(s, cfg, TakeExpired(fired)), cfg, PushExpired), cfg, care, steps, s')
    requires NoSpawn(steps) && Pops(steps) == |s.runQueue| + i && s'.pc.Drain?
    ensures Do(s', cfg, Pop).pc == Polling(fired[i].id)
    ensures forall j :: i <= j < |fired| ==> fired[i].expiresAt <= fired[j].expiresAt
  {
    var s1 := Do(Do(s, cfg, TakeExpired(fired)), cfg, PushExpired);
    TasksAt(fired, i);
    assert s1.runQueue == s.runQueue + Tasks(fired);
    PolledInTurn(s1, cfg, care, steps, s', |s.runQueue| + i);
  }

  lemma RunOne(s: State, cfg: Config, care: Care, step: Step, rest: seq<Step>, s': State)
    requires Enabled(s, cfg, step) && Fits(s, cfg, care, step) && Runs(Do(s, cfg, step), cfg, care, rest, s')
    ensures Runs(s, cfg, care, [step] + rest, s')
  {
    assert ([step] + rest)[1..] == rest;
  }
}
