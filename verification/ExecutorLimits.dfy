/** Where the guarantees of the executor end: a spawn from outside, and queues that are full. */
module ExecutorLimits {
  import opened Wrappers
  import opened Timers
  import opened Executor
  import opened ExecutorTurns

  // ----- a sleeping executor

  /** Nothing pends the executor: no waker comes, and none of its own alarms goes off. */
  predicate Quiet(step: Step, cfg: Config) {
    !step.WakePush? && !step.WakePend? && (step.Tick? ==> !Rings(step.fired, cfg.handle))
  }

  lemma {:induction false} SleepsOn(s: State, cfg: Config, care: Care, steps: seq<Step>, s': State)
    requires s.pc.Check? && !s.flag && Runs(s, cfg, care, steps, s')
    requires forall step :: step in steps ==> Quiet(step, cfg)
    ensures s' == s.(ticks := s'.ticks, alarms := s'.alarms)
    decreases |steps|
  {
    if steps != [] {
      assert Quiet(steps[0], cfg);
      SleepsOn(Do(s, cfg, steps[0]), cfg, care, steps[1..], s');
    }
  }

  lemma {:induction false} ClockRuns(s: State, cfg: Config, care: Care, steps: seq<Step>, s': State)
    requires Runs(s, cfg, care, steps, s')
    ensures s.ticks <= s'.ticks
    decreases |steps|
  {
    if steps != [] {
      ClockRuns(Do(s, cfg, steps[0]), cfg, care, steps[1..], s');
    }
  }

  // ----- spawning from outside

  /** A spawn from outside the executor's own tasks after `start`: a push without a pend. */
  function ForeignSpawn(s: State, cfg: Config, t: Task): State {
    Do(s, cfg, SpawnInTask(t))
  }

  /** In no run does the executor go idle and still owe the task a poll. */
  ghost predicate NeverForgotten(s: State, cfg: Config, t: Task) {
    forall steps, s' :: Runs(s, cfg, Wakeups, steps, s') && Idle(s') ==> t !in s'.owed
  }

  lemma NotForgotten(s: State, cfg: Config, t: Task)
    requires NoLostWakeup(s)
    ensures NeverForgotten(s, cfg, t)
  {
    forall steps, s' | Runs(s, cfg, Wakeups, steps, s') && Idle(s')
      ensures t !in s'.owed
    {
      RunKeepsWakeups(s, cfg, Wakeups, steps, s');
    }
  }

  /** An executor past its drain, left alone, goes idle. */
  lemma GoesToSleep(s: State, cfg: Config) returns (s': State)
    requires !s.flag && s.pushed == 0 && !WillDrain(s.pc)
    ensures Reaches(s, cfg, Wakeups, s') && Idle(s') && s'.owed == s.owed
    decreases s.pc.ReadNext?
  {
    if s.pc.SetAlarm? {
      s' := Do(s, cfg, Renew);
      ReachesItself(s', cfg, Wakeups);
      Before(s, cfg, Wakeups, Renew, s');
    } else if s.pc.Check? {
      s' := s;
      ReachesItself(s', cfg, Wakeups);
    } else if s.timers == multiset{} {
      s' := Do(s, cfg, Next(None));
      ReachesItself(s', cfg, Wakeups);
      Before(s, cfg, Wakeups, Next(None), s');
    } else {
      var x := EarliestExists(s.timers);
      var s1 := Do(s, cfg, Next(Some(x.expiresAt)));
      s' := GoesToSleep(s1, cfg);
      Before(s, cfg, Wakeups, Next(Some(x.expiresAt)), s');
    }
  }

  /** In every run after such a spawn the executor notices it before it goes idle, if and only if
      at the time of the spawn it was pended, about to be pended, or not done with its drain. */
  lemma ForeignSpawnNoticedIff(s: State, cfg: Config, t: Task)
    requires NoLostWakeup(s) && |s.runQueue| < cfg.runCap
    ensures NeverForgotten(ForeignSpawn(s, cfg, t), cfg, t) <==> s.flag || s.pushed > 0 || WillDrain(s.pc)
  {
    var s1 := ForeignSpawn(s, cfg, t);
    if s.flag || s.pushed > 0 || WillDrain(s.pc) {
      WakeupSpawn(s, cfg, t);
      NotForgotten(s1, cfg, t);
    } else {
      var s' := GoesToSleep(s1, cfg);
      var steps :| Runs(s1, cfg, Wakeups, steps, s');
      assert Idle(s') && t in s'.owed;
    }
  }

  /** A task spawned on an executor that sleeps is not polled until something else pends it. */
  lemma ForeignSpawnStarves(s: State, cfg: Config, care: Care, t: Task, steps: seq<Step>, s': State)
    requires s.pc.Check? && !s.flag && |s.runQueue| < cfg.runCap
    requires Runs(ForeignSpawn(s, cfg, t), cfg, care, steps, s')
    requires forall step :: step in steps ==> Quiet(step, cfg)
    ensures t in s'.owed && t in s'.runQueue && s'.pc.Check?
  {
    SleepsOn(ForeignSpawn(s, cfg, t), cfg, care, steps, s');
  }

  // ----- a full run queue

  /** A waker that finds the run queue full is no loss if its task is in the run queue. */
  lemma CrowdedWakeServed(s: State, cfg: Config, t: Task)
    requires NoLostWakeup(s) && (|s.runQueue| < cfg.runCap || t in s.runQueue)
    ensures NeverForgotten(Do(s, cfg, WakePush(t)), cfg, t)
  {
    WakeupPush(s, cfg, t);
    NotForgotten(Do(s, cfg, WakePush(t)), cfg, t);
  }

  /** Up to tick m nothing is going to put task `t` into the run queue: its timers are later, and
      it is not being polled with a timer set. */
  ghost predicate Absent(s: State, t: Task, m: nat) {
    && t !in s.runQueue && (forall x :: x in s.timers && x.id == t ==> m < x.expiresAt)
    && (s.pc.Dequeue? ==> s.pc.now <= m)
    && (s.pc.PushReady? ==> forall x :: x in s.pc.ready ==> x.id != t)
    && (s.pc == Polling(t) || s.pc == UpdateTimer(t) ==> t !in s.expiresAt)
  }

  /** The step wakes or spawns task `t`, or sets a timer for it. */
  predicate Serves(s: State, step: Step, t: Task) {
    step == WakePush(t) || step == SpawnInTask(t) || (step.SetTimer? && s.pc == Polling(t))
  }

  ghost predicate LeftAlone(s: State, cfg: Config, steps: seq<Step>, t: Task)
    decreases |steps|
  {
    steps != [] ==> !Serves(s, steps[0], t) && LeftAlone(Do(s, cfg, steps[0]), cfg, steps[1..], t)
  }

  lemma TasksOf(fired: seq<Item>, t: Task)
    requires forall x :: x in fired ==> x.id != t
    ensures t !in Tasks(fired)
  {
    if fired != [] {
      TasksOf(fired[1..], t);
    }
  }

  lemma AbsentTake(s: State, cfg: Config, fired: seq<Item>, t: Task, m: nat)
    requires Absent(s, t, m) && Enabled(s, cfg, TakeExpired(fired))
    ensures Absent(Do(s, cfg, TakeExpired(fired)), t, m)
  {
    forall x | x in fired
      ensures x.id != t
    {
      assert x in multiset(fired) && x in s.timers && x.expiresAt <= m;
    }
  }

  lemma AbsentPush(s: State, cfg: Config, t: Task, m: nat)
    requires Absent(s, t, m) && s.pc.PushReady?
    ensures Absent(Do(s, cfg, PushExpired), t, m)
  {
    TasksOf(s.pc.ready, t);
  }

  lemma AbsentPop(s: State, cfg: Config, t: Task, m: nat)
    requires Absent(s, t, m) && s.pc.Drain?
    ensures var s' := Do(s, cfg, Pop);
            && Absent(s', t, m) && (t in s.owed ==> t in s'.owed)
            && (t in s.expiresAt ==> t in s'.expiresAt && s'.expiresAt[t] == s.expiresAt[t])
  {
    assert s.runQueue != [] ==> s.runQueue[0] in s.runQueue;
  }

  lemma AbsentUpdate(s: State, cfg: Config, t: Task, m: nat)
    requires Absent(s, t, m) && s.pc.UpdateTimer?
    ensures Absent(Do(s, cfg, Update), t, m)
  {
  }

  lemma AbsentStep(s: State, cfg: Config, step: Step, t: Task, m: nat)
    requires Absent(s, t, m) && Enabled(s, cfg, step) && !Serves(s, step, t) && s.ticks <= m
    ensures Absent(Do(s, cfg, step), t, m)
  {
    match step
    case TakeExpired(fired) => AbsentTake(s, cfg, fired, t, m);
    case PushExpired => AbsentPush(s, cfg, t, m);
    case Pop => AbsentPop(s, cfg, t, m);
    case Update => AbsentUpdate(s, cfg, t, m);
    case _ =>
  }

  lemma AbsentUnserved(s: State, cfg: Config, step: Step, t: Task, m: nat)
    requires Absent(s, t, m) && Enabled(s, cfg, step) && !Serves(s, step, t) && s.ticks <= m
    ensures var s' := Do(s, cfg, step);
            && (t in s.owed ==> t in s'.owed)
            && (t in s.expiresAt ==> t in s'.expiresAt && s'.expiresAt[t] == s.expiresAt[t])
  {
    if step.Pop? {
      AbsentPop(s, cfg, t, m);
    }
  }

  lemma {:induction false} StaysAbsent(s: State, cfg: Config, care: Care, steps: seq<Step>, s': State, t: Task, m: nat)
    requires Absent(s, t, m) && Runs(s, cfg, care, steps, s') && LeftAlone(s, cfg, steps, t) && s'.ticks <= m
    ensures Absent(s', t, m) && (t in s.owed ==> t in s'.owed)
    ensures t in s.expiresAt ==> t in s'.expiresAt && s'.expiresAt[t] == s.expiresAt[t]
    decreases |steps|
  {
    ClockRuns(s, cfg, care, steps, s');
    if steps != [] {
      AbsentStep(s, cfg, steps[0], t, m);
      AbsentUnserved(s, cfg, steps[0], t, m);
      StaysAbsent(Do(s, cfg, steps[0]), cfg, care, steps[1..], s', t, m);
    }
  }

  /** Otherwise the wakeup is lost: whatever happens, and as long as no earlier timer of its own is
      due, the task is not polled before it is woken or spawned again. */
  lemma CrowdedWakeStarves(s: State, cfg: Config, care: Care, t: Task, m: nat, steps: seq<Step>, s': State)
    requires |s.runQueue| >= cfg.runCap && Absent(s, t, m) && s'.ticks <= m
    requires Runs(Do(s, cfg, WakePush(t)), cfg, care, steps, s') && LeftAlone(Do(s, cfg, WakePush(t)), cfg, steps, t)
    ensures t in s'.owed && t !in s'.runQueue
  {
    StaysAbsent(Do(s, cfg, WakePush(t)), cfg, care, steps, s', t, m);
  }

  // ----- a full timer queue

  /** A timer that finds the timer queue full is lost, unless the task has one that is due by then
      or is in the run queue: unless it is woken or spawned again, an executor that idles when the
      deadline is over has missed it. */
  lemma DroppedTimerMisses(s: State, cfg: Config, care: Care, t: Task, steps: seq<Step>, s': State, fired: seq<Item>)
    requires s.pc == UpdateTimer(t) && t in s.expiresAt && !DeadlineKept(s, cfg, Update)
    requires Runs(Do(s, cfg, Update), cfg, care, steps, s') && LeftAlone(Do(s, cfg, Update), cfg, steps, t)
    requires Enabled(s', cfg, Tick(fired)) && s'.ticks == s.expiresAt[t] && Idle(Do(s', cfg, Tick(fired)))
    ensures !OnTime(s', cfg, fired)
  {
    StaysAbsent(Do(s, cfg, Update), cfg, care, steps, s', t, s.expiresAt[t]);
  }

  // ----- a full alarm queue

  /** However the run goes on, no deadline is missed, unless a later push does harm. */
  ghost predicate AlwaysOnTime(s: State, cfg: Config) {
    forall steps, s', fired ::
      Runs(s, cfg, Deadlines, steps, s') && Enabled(s', cfg, Tick(fired)) ==> OnTime(s', cfg, fired)
  }

  /** Its clock ticks and its executor sleeps, as long as none of its alarms is due. */
  lemma {:induction false} SleepsUntil(s: State, cfg: Config, m: nat) returns (s': State)
    requires Idle(s) && !Guarded(s, cfg, m) && s.ticks <= m
    ensures Reaches(s, cfg, Deadlines, s') && s'.ticks == m && Idle(s') && s'.timers == s.timers && !Guarded(s', cfg, m)
    decreases m - s.ticks
  {
    if s.ticks == m {
      s' := s;
      ReachesItself(s, cfg, Deadlines);
    } else {
      var fired := ExpiryExists(s.alarms, s.ticks);
      UndueSilent(s, cfg, fired, m);
      s' := SleepsUntil(Do(s, cfg, Tick(fired)), cfg, m);
      Before(s, cfg, Deadlines, Tick(fired), s');
    }
  }

  lemma UndueSilent(s: State, cfg: Config, fired: seq<Item>, m: nat)
    requires Enabled(s, cfg, Tick(fired)) && !Guarded(s, cfg, m) && s.ticks <= m
    ensures !Rings(fired, cfg.handle) && !Guarded(Do(s, cfg, Tick(fired)), cfg, m)
  {
    forall i | 0 <= i < |fired|
      ensures fired[i].id != cfg.handle
    {
      assert fired[i] in multiset(fired) && fired[i] in s.alarms;
    }
  }

  lemma UnguardedIsLate(s: State, cfg: Config, x: Item, m: nat)
    requires Idle(s) && x in s.timers && x.expiresAt <= m && s.ticks <= m && !Guarded(s, cfg, m)
    ensures !AlwaysOnTime(s, cfg)
  {
    var s' := SleepsUntil(s, cfg, m);
    var steps :| Runs(s, cfg, Deadlines, steps, s');
    var fired := ExpiryExists(s'.alarms, s'.ticks);
    UndueSilent(s', cfg, fired, m);
    assert Runs(s, cfg, Deadlines, steps, s') && Enabled(s', cfg, Tick(fired)) && !OnTime(s', cfg, fired);
  }

  lemma UncoveredRenew(s: State, cfg: Config)
    requires Inv(s, cfg) && s.pc.SetAlarm? && |s.alarms| >= cfg.alarmCap && !Covered(s, cfg)
    ensures !AlwaysOnTime(Do(s, cfg, Renew), cfg)
  {
    var m := Max(s.pc.tick, s.ticks);
    var x :| Earliest(s.timers, x) && x.expiresAt == s.pc.tick;
    var s1 := Do(s, cfg, Renew);
    assert s1.alarms == s.alarms;
    assert !Guarded(s1, cfg, m);
    UnguardedIsLate(s1, cfg, x, m);
  }

  /** `renew_alarm` ignores a full alarm queue. That is harmless, whatever else is dropped later
      without harm, if and only if the queue had room, or an alarm of this executor is due by the
      deadline or right now, or the executor is pended or about to be. */
  lemma RenewOnTimeIff(s: State, cfg: Config)
    requires Inv(s, cfg) && s.pc.SetAlarm?
    ensures AlwaysOnTime(Do(s, cfg, Renew), cfg) <==> |s.alarms| < cfg.alarmCap || Covered(s, cfg)
  {
    var s1 := Do(s, cfg, Renew);
    if |s.alarms| < cfg.alarmCap || Covered(s, cfg) {
      StepKeeps(s, cfg, Renew);
      forall steps, s', fired | Runs(s1, cfg, Deadlines, steps, s') && Enabled(s', cfg, Tick(fired))
        ensures OnTime(s', cfg, fired)
      {
        RunKeeps(s1, cfg, steps, s');
        TickOnTime(s', cfg, fired);
      }
    } else {
      UncoveredRenew(s, cfg);
    }
  }

  /** An executor that sleeps without an alarm up to tick m sleeps past m in every run in which no
      waker comes, and its timers stay where they are. */
  lemma {:induction false} UnguardedSleepsPast(s: State, cfg: Config, care: Care, m: nat, steps: seq<Step>, s': State)
    requires s.pc.Check? && !s.flag && !Guarded(s, cfg, m) && Runs(s, cfg, care, steps, s') && s'.ticks <= m + 1
    requires forall step :: step in steps ==> !step.WakePush? && !step.WakePend?
    ensures s'.pc.Check? && !s'.flag && s'.timers == s.timers && s'.expiresAt == s.expiresAt
    decreases |steps|
  {
    if steps != [] {
      var step, s1 := steps[0], Do(s, cfg, steps[0]);
      ClockRuns(s1, cfg, care, steps[1..], s');
      if step.Tick? {
        UndueSilent(s, cfg, step.fired, m);
      }
      UnguardedSleepsPast(s1, cfg, care, m, steps[1..], s');
    }
  }

  // ----- alarms are never taken back

  /** The step puts alarm `a` into the alarm queue. */
  predicate SetsAlarm(s: State, cfg: Config, step: Step, a: Item) {
    && |s.alarms| < cfg.alarmCap
    && ((step.Renew? && s.pc.SetAlarm? && a == Item(s.pc.tick, cfg.handle)) || step == OtherAlarm(a))
  }

  /** How often alarm `a` gets into the alarm queue in a run. */
  function TimesSet(s: State, cfg: Config, steps: seq<Step>, a: Item): nat
    decreases |steps|
  {
    if steps == [] then 0
    else
      (if SetsAlarm(s, cfg, steps[0], a) then 1 else 0) + TimesSet(Do(s, cfg, steps[0]), cfg, steps[1..], a)
  }

  lemma AlarmAdded(alarms: multiset<Item>, x: Item, a: Item)
    ensures (alarms + multiset{x})[a] == alarms[a] + if a == x then 1 else 0
  {
  }

  lemma AlarmFired(alarms: multiset<Item>, now: nat, fired: seq<Item>, a: Item)
    requires (forall x :: x in fired ==> x.expiresAt <= now) && now < a.expiresAt
    ensures (alarms - multiset(fired))[a] == alarms[a]
  {
    assert a !in multiset(fired);
  }

  lemma AlarmStep(s: State, cfg: Config, step: Step, a: Item)
    requires Enabled(s, cfg, step) && (step.Tick? ==> s.ticks < a.expiresAt)
    ensures Do(s, cfg, step).alarms[a] == s.alarms[a] + if SetsAlarm(s, cfg, step, a) then 1 else 0
  {
    match step
    case Renew => AlarmAdded(s.alarms, Item(s.pc.tick, cfg.handle), a);
    case OtherAlarm(x) => AlarmAdded(s.alarms, x, a);
    case Tick(fired) => AlarmFired(s.alarms, s.ticks, fired, a);
    case _ =>
  }

  /** Until its tick an alarm is there once for every time it got into the queue: setting it again
      does not replace it, and nothing takes it back. */
  lemma {:induction false} AlarmsAddUp(s: State, cfg: Config, care: Care, steps: seq<Step>, s': State, a: Item)
    requires Runs(s, cfg, care, steps, s') && s'.ticks <= a.expiresAt
    ensures s'.alarms[a] == s.alarms[a] + TimesSet(s, cfg, steps, a)
    decreases |steps|
  {
    if steps != [] {
      var s1 := Do(s, cfg, steps[0]);
      ClockRuns(s1, cfg, care, steps[1..], s');
      AlarmStep(s, cfg, steps[0], a);
      AlarmsAddUp(s1, cfg, care, steps[1..], s', a);
    }
  }

  // ----- too many expired timers

  /** `due` are the timers that are due. */
  ghost predicate IsDue(timers: multiset<Item>, now: nat, due: multiset<Item>) {
    && due <= timers && (forall x :: x in due ==> x.expiresAt <= now)
    && (forall x :: x in timers - due ==> now < x.expiresAt)
  }

  lemma AllDueFire(timers: multiset<Item>, now: nat, due: multiset<Item>, fired: seq<Item>)
    requires IsDue(timers, now, due) && multiset(fired) <= timers && Expiry(timers, now, fired, timers - multiset(fired))
    ensures |fired| == |due|
  {
    forall x: Item
      ensures multiset(fired)[x] == due[x]
    {
      var rest, later := timers - multiset(fired), timers - due;
      assert rest[x] == timers[x] - multiset(fired)[x] && later[x] == timers[x] - due[x];
      if x.expiresAt <= now {
        assert x !in rest && x !in later;
      } else {
        assert x !in multiset(fired) && x !in due;
      }
    }
    assert multiset(fired) == due;
    assert |multiset(fired)| == |fired|;
  }

  /** `check_timer_queue` can take the expired timers without a panic, if and only if no more of
      them are due than the vector holds; in which order they are taken makes no difference. */
  lemma ExpiredFitIff(s: State, cfg: Config, due: multiset<Item>)
    requires s.pc.Dequeue? && IsDue(s.timers, s.pc.now, due)
    ensures (exists fired :: Enabled(s, cfg, TakeExpired(fired)) && NoPanic(s, cfg, TakeExpired(fired))) <==> |due| <= cfg.runCap
    ensures (forall fired :: Enabled(s, cfg, TakeExpired(fired)) ==> NoPanic(s, cfg, TakeExpired(fired))) <==> |due| <= cfg.runCap
  {
    forall fired | Enabled(s, cfg, TakeExpired(fired))
      ensures |fired| == |due|
    {
      AllDueFire(s.timers, s.pc.now, due, fired);
    }
    var fired := ExpiryExists(s.timers, s.pc.now);
    assert Enabled(s, cfg, TakeExpired(fired));
    assert NoPanic(s, cfg, TakeExpired(fired)) <==> |due| <= cfg.runCap;
  }
}
