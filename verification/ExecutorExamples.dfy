/** Runs of the executor, for every configuration, that get to where its guarantees end. */
module ExecutorExamples {
  import opened Wrappers
  import opened Timers
  import opened Executor
  import opened ExecutorTurns
  import opened ExecutorLimits

  // ----- a task forgotten

  /** Started with nothing to do, the executor sleeps after one turn of its loop, for every
      configuration; a task spawned then is forgotten. */
  lemma SpawnedTooLate(cfg: Config, ticks: nat, t: Task)
    requires 0 < cfg.runCap
    ensures var s := Start([], ticks).(flag := false);
            && Reaches(Start([], ticks), cfg, Deadlines, s) && Idle(s)
            && !NeverForgotten(ForeignSpawn(s, cfg, t), cfg, t)
  {
    var s := Start([], ticks).(flag := false);
    var s1 := s.(pc := Drain);
    ReachesItself(s, cfg, Deadlines);
    Before(s1.(pc := ReadNext), cfg, Deadlines, Next(None), s);
    Before(s1, cfg, Deadlines, Pop, s);
    WakeTurn(Start([], ticks), cfg, Deadlines, s);
    var s2 := ForeignSpawn(s, cfg, t);
    assert Runs(s2, cfg, Wakeups, [], s2) && Idle(s2) && t in s2.owed;
  }

  // ----- a task crowded out of the run queue

  function Ones(k: nat): (r: seq<Task>)
    ensures |r| == k && forall t :: t in r ==> t == 1
  {
    if k == 0 then [] else Ones(k - 1) + [1]
  }

  lemma OnesTail(k: nat)
    requires k > 0
    ensures Ones(k)[0] == 1 && Ones(k)[1..] == Ones(k - 1)
  {
    assert Ones(k)[0] in Ones(k);
    if k > 1 {
      OnesTail(k - 1);
    }
  }

  /** No timers and no alarms; task 1 is in the run queue k times. */
  function Crowd(pc: Pc, flag: bool, k: nat, pushed: nat, owed: set<Task>): State {
    State(pc, flag, Ones(k), multiset{}, multiset{}, 0, map[], pushed, owed)
  }

  lemma CrowdGathers(cfg: Config, k: nat, s': State)
    requires k <= cfg.runCap && Reaches(Crowd(Check, false, k, k, if k == 0 then {} else {1}), cfg, Nothing, s')
    ensures Reaches(Crowd(Check, false, 0, 0, {}), cfg, Nothing, s')
  {
    if k > 0 {
      var owed: set<Task> := if k == 1 then {} else {1};
      assert owed + {1} == {1};
      Before(Crowd(Check, false, k - 1, k - 1, owed), cfg, Nothing, WakePush(1), s');
      CrowdGathers(cfg, k - 1, s');
    }
  }

  lemma CrowdPends(cfg: Config, flag: bool, k: nat, pushed: nat, owed: set<Task>, s': State)
    requires Reaches(Crowd(Check, flag || pushed > 0, k, 0, owed), cfg, Nothing, s')
    ensures Reaches(Crowd(Check, flag, k, pushed, owed), cfg, Nothing, s')
    decreases pushed
  {
    if pushed > 0 {
      CrowdPends(cfg, true, k, pushed - 1, owed, s');
      Before(Crowd(Check, flag, k, pushed, owed), cfg, Nothing, WakePend, s');
    }
  }

  lemma CrowdPolled(cfg: Config, k: nat, owed: set<Task>, s': State)
    requires Reaches(Crowd(Drain, false, 0, 0, if k > 0 then owed - {1} else owed), cfg, Nothing, s')
    ensures Reaches(Crowd(Drain, false, k, 0, owed), cfg, Nothing, s')
    decreases k
  {
    if k > 0 {
      var s := Crowd(Drain, false, k, 0, owed);
      OnesTail(k);
      assert owed - {1} - {1} == owed - {1};
      assert s.expiresAt - {1} == map[];
      assert Polled(s, None) == Crowd(Drain, false, k - 1, 0, owed - {1});
      CrowdPolled(cfg, k - 1, owed - {1}, s');
      PollTurn(s, cfg, Nothing, None, s');
    }
  }

  lemma CrowdSleeps(cfg: Config, owed: set<Task>, s': State)
    requires Reaches(Crowd(Check, false, 0, 0, owed), cfg, Nothing, s')
    ensures Reaches(Crowd(Drain, false, 0, 0, owed), cfg, Nothing, s')
  {
    Before(Crowd(ReadNext, false, 0, 0, owed), cfg, Nothing, Next(None), s');
    Before(Crowd(Drain, false, 0, 0, owed), cfg, Nothing, Pop, s');
  }

  lemma BothPolled(cfg: Config, s': State)
    requires 2 <= cfg.runCap && Reaches(Crowd(Check, false, 0, 0, {}), cfg, Nothing, s')
    ensures Reaches(Start([1, 2], 0), cfg, Nothing, s')
  {
    var s0 := Start([1, 2], 0);
    var s1 := s0.(flag := false, pc := Drain);
    var s2 := Polled(s1, None);
    assert [1, 2][1..] == [2] && [2][1..] == [];
    assert s1.expiresAt - {1} - {2} == map[] && s1.owed - {1} - {2} == {};
    assert Polled(s2, None) == Crowd(Drain, false, 0, 0, {});
    CrowdSleeps(cfg, {}, s');
    PollTurn(s2, cfg, Nothing, None, s');
    PollTurn(s1, cfg, Nothing, None, s');
    WakeTurn(s0, cfg, Nothing, s');
  }

  /** For every configuration: while the executor sleeps task 1 is woken until the run queue is
      full of it; then task 2 is woken. The executor goes idle and still owes task 2 a poll. */
  lemma CrowdedOut(cfg: Config)
    requires 2 <= cfg.runCap
    ensures var s := Crowd(Check, false, 0, 0, {2});
            Reaches(Start([1, 2], 0), cfg, Nothing, s) && Idle(s) && 2 in s.owed
  {
    var n, s := cfg.runCap, Crowd(Check, false, 0, 0, {2});
    ReachesItself(s, cfg, Nothing);
    CrowdSleeps(cfg, {2}, s);
    assert {1, 2} - {1} == {2};
    CrowdPolled(cfg, n, {1, 2}, s);
    WakeTurn(Crowd(Check, true, n, 0, {1, 2}), cfg, Nothing, s);
    CrowdPends(cfg, false, n, n + 1, {1, 2}, s);
    assert {1} + {2} == {1, 2};
    Before(Crowd(Check, false, n, n, {1}), cfg, Nothing, WakePush(2), s);
    CrowdGathers(cfg, n, s);
    BothPolled(cfg, s);
  }

  // ----- alarms that pile up

  // Two tasks. Task 1 waits until tick `late`; from then on one of the two is woken again and
  // again before that tick: task 2, which sets no timer, or task 1, which then waits anew.

  function Copies(x: Item, n: nat): (r: multiset<Item>)
    ensures |r| == n && forall y :: y in r ==> y == x
  {
    multiset{}[x := n]
  }

  lemma OneMore(x: Item, n: nat)
    ensures Copies(x, n) + multiset{x} == Copies(x, n + 1)
  {
  }

  /** Asleep at tick 0, after n of the turns set a timer and m an alarm. */
  function Piled(cfg: Config, late: nat, n: nat, m: nat): State {
    State(Check, false, [], Copies(Item(late, 1), n), Copies(Item(late, cfg.handle), m), 0, map[1 := late], 0, {})
  }

  lemma RenewPiles(cfg: Config, late: nat, n: nat, m: nat)
    requires m < cfg.alarmCap && 0 < n
    ensures NextIs(Piled(cfg, late, n, m).timers, Some(late))
    ensures Do(Piled(cfg, late, n, m).(pc := SetAlarm(late)), cfg, Renew) == Piled(cfg, late, n, m + 1)
  {
    OneMore(Item(late, cfg.handle), m);
    assert Earliest(Copies(Item(late, 1), n), Item(late, 1));
  }

  lemma FirstPolled(cfg: Config, late: nat)
    ensures var s := Start([1, 2], 0).(flag := false, pc := Drain);
            && Polled(s, Some(late)).runQueue == [2]
            && Polled(Polled(s, Some(late)), None) == Piled(cfg, late, 1, 0).(pc := Drain)
  {
    var s := Start([1, 2], 0).(flag := false, pc := Drain);
    assert [1, 2][1..] == [2] && [2][1..] == [];
    assert s.owed - {1} - {2} == {};
    assert map[1 := late] - {2} == map[1 := late];
    assert s.expiresAt - {1} == map[];
    OneMore(Item(late, 1), 0);
  }

  /** Task 1 or 2 is polled alone. */
  lemma AgainPolled(cfg: Config, late: nat, again: bool, n: nat, m: nat)
    ensures var s := Piled(cfg, late, n, m);
            var t, timer := if again then 1 else 2, if again then Some(late) else None;
            Polled(s.(runQueue := [t], owed := s.owed + {t}), timer) == Piled(cfg, late, if again then n + 1 else n, m)
  {
    var t := if again then 1 else 2;
    assert [t][1..] == [] && {} + {t} - {t} == {};
    OneMore(Item(late, 1), n);
    if again {
      assert (map[1 := late] - {1})[1 := late] == map[1 := late];
    } else {
      assert map[1 := late] - {2} == map[1 := late];
    }
  }

  lemma FirstTurn(cfg: Config, care: Care, late: nat, s': State)
    requires 2 <= cfg.runCap && 0 < cfg.timerCap && 0 < cfg.alarmCap
    requires Reaches(Piled(cfg, late, 1, 1), cfg, care, s')
    ensures Reaches(Start([1, 2], 0), cfg, care, s')
  {
    var s0 := Start([1, 2], 0);
    var s1 := s0.(flag := false, pc := Drain);
    var s2, s3 := Polled(s1, Some(late)), Piled(cfg, late, 1, 0).(pc := Drain);
    FirstPolled(cfg, late);
    RenewPiles(cfg, late, 1, 0);
    Before(s3.(pc := SetAlarm(late)), cfg, care, Renew, s');
    NextTurn(s3, cfg, care, late, s');
    PollTurn(s2, cfg, care, None, s');
    PollTurn(s1, cfg, care, Some(late), s');
    WakeTurn(s0, cfg, care, s');
  }

  /** One more turn; `again` says that task 1 is the one woken, and waits anew. */
  lemma AgainTurn(cfg: Config, care: Care, late: nat, again: bool, n: nat, m: nat, s': State)
    requires 0 < cfg.runCap && 0 < late && 0 < n && m < cfg.alarmCap && (again ==> n < cfg.timerCap)
    requires Reaches(Piled(cfg, late, if again then n + 1 else n, m + 1), cfg, care, s')
    ensures Reaches(Piled(cfg, late, n, m), cfg, care, s')
  {
    var n' := if again then n + 1 else n;
    AgainPolled(cfg, late, again, n, m);
    RenewPiles(cfg, late, n', m);
    Before(Piled(cfg, late, n', m).(pc := SetAlarm(late)), cfg, care, Renew, s');
    WokenTurn(Piled(cfg, late, n, m), cfg, care, if again then 1 else 2, if again then Some(late) else None, late, s');
  }

  function Waiting(again: bool, m: nat): nat { if again then m else 1 }

  lemma {:induction false} PileReaches(cfg: Config, care: Care, late: nat, again: bool, m: nat, s': State)
    requires 2 <= cfg.runCap && 0 < late && 0 < m <= cfg.alarmCap && Waiting(again, m) <= cfg.timerCap
    requires Reaches(Piled(cfg, late, Waiting(again, m), m), cfg, care, s')
    ensures Reaches(Start([1, 2], 0), cfg, care, s')
    decreases m
  {
    if m == 1 {
      FirstTurn(cfg, care, late, s');
    } else {
      AgainTurn(cfg, care, late, again, Waiting(again, m - 1), m - 1, s');
      PileReaches(cfg, care, late, again, m - 1, s');
    }
  }

  /** One timer, set once, and as many alarms for it as the alarm queue has room for: every turn
      of the loop sets it again, and by AlarmsAddUp every copy stays. */
  lemma AlarmsPileUp(cfg: Config, late: nat, m: nat)
    requires 2 <= cfg.runCap && 0 < cfg.timerCap && 0 < late && 0 < m <= cfg.alarmCap
    ensures var s := Piled(cfg, late, 1, m);
            && Reaches(Start([1, 2], 0), cfg, Deadlines, s)
            && s.timers == multiset{Item(late, 1)} && s.alarms[Item(late, cfg.handle)] == m
  {
    ReachesItself(Piled(cfg, late, 1, m), cfg, Deadlines);
    PileReaches(cfg, Deadlines, late, false, m, Piled(cfg, late, 1, m));
  }

  // ----- a deadline missed

  function At(s: State, now: nat): State { s.(ticks := now) }

  lemma {:induction false} TicksPass(s: State, cfg: Config, care: Care, n: nat, s': State)
    requires forall a :: a in s.alarms ==> s.ticks + n <= a.expiresAt
    requires Reaches(At(s, s.ticks + n), cfg, care, s')
    ensures Reaches(s, cfg, care, s')
    decreases n
  {
    if n == 0 {
      assert At(s, s.ticks + n) == s;
    } else {
      var s1 := At(s, s.ticks + 1);
      assert s.alarms - multiset([]) == s.alarms;
      assert Do(s, cfg, Tick([])) == s1;
      TicksPass(s1, cfg, care, n - 1, s');
      Before(s, cfg, care, Tick([]), s');
    }
  }

  /** The alarm queue is full of alarms for `late`; task 2 was woken and waits until `early`. */
  function Full(cfg: Config, early: nat, late: nat): State {
    Piled(cfg, late, 1, cfg.alarmCap).(
      pc := SetAlarm(early), timers := multiset{Item(late, 1), Item(early, 2)}, expiresAt := map[1 := late, 2 := early])
  }

  lemma FullReached(cfg: Config, care: Care, early: nat, late: nat, s': State)
    requires 2 <= cfg.runCap && 2 <= cfg.timerCap && 0 < cfg.alarmCap && 0 < early < late
    requires Reaches(Full(cfg, early, late), cfg, care, s')
    ensures Reaches(Start([1, 2], 0), cfg, care, s')
  {
    var s, full := Piled(cfg, late, 1, cfg.alarmCap), Full(cfg, early, late);
    assert [2][1..] == [];
    var p := Polled(s.(runQueue := [2], owed := s.owed + {2}), Some(early));
    assert p.owed == {} && p.expiresAt == full.expiresAt && p.timers == full.timers;
    assert Earliest(p.timers, Item(early, 2));
    assert p.(pc := SetAlarm(early)) == full;
    WokenTurn(s, cfg, care, 2, Some(early), early, s');
    PileReaches(cfg, care, late, false, cfg.alarmCap, s');
  }

  /** After the alarm for `early` has been dropped, and `early` is over. */
  function Missed(cfg: Config, early: nat, late: nat): State {
    At(Do(Full(cfg, early, late), cfg, Renew), early + 1)
  }

  /** For every configuration: two tasks, one of them woken often enough, and the executor sleeps
      past the deadline of the other wait. In the run that leads there only the alarm queue
      overflows, once; at its end the timer is still in the queue, and nothing is under way that
      would notice. */
  lemma FullAlarmQueueMissesDeadline(cfg: Config, early: nat, late: nat)
    requires 2 <= cfg.runCap && 2 <= cfg.timerCap && 0 < cfg.alarmCap && 0 < early < late
    ensures Reaches(Start([1, 2], 0), cfg, Deadlines, Full(cfg, early, late))
    ensures var s := Missed(cfg, early, late);
            && Reaches(Start([1, 2], 0), cfg, Wakeups, s)
            && Idle(s) && Item(early, 2) in s.timers && s.expiresAt[2] == early < s.ticks
  {
    var full, s := Full(cfg, early, late), Missed(cfg, early, late);
    ReachesItself(full, cfg, Deadlines);
    FullReached(cfg, Deadlines, early, late, full);
    ReachesItself(s, cfg, Wakeups);
    TicksPass(Do(full, cfg, Renew), cfg, Wakeups, early + 1, s);
    Before(full, cfg, Wakeups, Renew, s);
    FullReached(cfg, Wakeups, early, late, s);
  }

  // ----- too many expired timers

  lemma AllSame(x: Item, r: seq<Item>)
    requires forall y :: y in multiset(r) ==> y == x
    ensures InOrder(r + [x])
  {
    assert forall i :: 0 <= i < |r| ==> r[i] in multiset(r);
  }

  function Times(x: Item, n: nat): (r: seq<Item>)
    ensures |r| == n && multiset(r) == Copies(x, n) && InOrder(r)
  {
    if n == 0 then [] else
      OneMore(x, n - 1);
      AllSame(x, Times(x, n - 1));
      Times(x, n - 1) + [x]
  }

  /** Awake at tick `late` + 1, with m timers of task 1 due. */
  function AllDue(cfg: Config, late: nat, m: nat): State {
    Piled(cfg, late, m, 0).(pc := Dequeue(late + 1), ticks := late + 1)
  }

  lemma AllAlarmsFire(a: Item, m: nat)
    requires 0 < m
    ensures var fired := Times(a, m);
            && Rings(fired, a.id) && (forall x :: x in fired ==> x == a)
            && Copies(a, m) - multiset(fired) == Copies(a, 0) == multiset{}
  {
    var fired := Times(a, m);
    assert forall x :: x in fired ==> x in multiset(fired);
    assert fired[0] in fired;
  }

  lemma AlarmsDue(cfg: Config, late: nat, m: nat)
    requires 0 < m
    ensures Enabled(At(Piled(cfg, late, m, m), late), cfg, Tick(Times(Item(late, cfg.handle), m)))
  {
    AllAlarmsFire(Item(late, cfg.handle), m);
  }

  lemma AlarmsGoOff(cfg: Config, late: nat, m: nat)
    requires 0 < m
    ensures Do(At(Piled(cfg, late, m, m), late), cfg, Tick(Times(Item(late, cfg.handle), m)))
         == Piled(cfg, late, m, 0).(ticks := late + 1, flag := true)
  {
    AllAlarmsFire(Item(late, cfg.handle), m);
  }

  lemma RingReaches(cfg: Config, late: nat, m: nat)
    requires 0 < m
    ensures Reaches(At(Piled(cfg, late, m, m), late), cfg, Deadlines, AllDue(cfg, late, m))
  {
    var s1, s3 := Piled(cfg, late, m, 0).(ticks := late + 1, flag := true), AllDue(cfg, late, m);
    ReachesItself(s3, cfg, Deadlines);
    Before(s1.(flag := false, pc := ReadClock), cfg, Deadlines, Clock, s3);
    Before(s1, cfg, Deadlines, Fetch, s3);
    AlarmsDue(cfg, late, m);
    AlarmsGoOff(cfg, late, m);
    Before(At(Piled(cfg, late, m, m), late), cfg, Deadlines, Tick(Times(Item(late, cfg.handle), m)), s3);
  }

  lemma DueReached(cfg: Config, late: nat, m: nat)
    requires 2 <= cfg.runCap && 0 < late && 0 < m <= cfg.timerCap && m <= cfg.alarmCap
    ensures Reaches(Start([1, 2], 0), cfg, Deadlines, AllDue(cfg, late, m))
  {
    var s, due := Piled(cfg, late, m, m), AllDue(cfg, late, m);
    RingReaches(cfg, late, m);
    TicksPass(s, cfg, Deadlines, late, due);
    PileReaches(cfg, Deadlines, late, true, m, due);
  }

  /** Polled again before its timer is due, a task leaves the old timer behind. With more timers
      due than the vector for expired ones can hold, `check_timer_queue` panics; a task that is
      woken often enough gets there. */
  lemma StaleTimersOverflow(cfg: Config, late: nat)
    requires 2 <= cfg.runCap && cfg.runCap < cfg.timerCap && cfg.runCap < cfg.alarmCap && 0 < late
    ensures var s := AllDue(cfg, late, cfg.runCap + 1);
            && Reaches(Start([1, 2], 0), cfg, Deadlines, s) && s.pc.Dequeue?
            && forall fired :: Enabled(s, cfg, TakeExpired(fired)) ==> !NoPanic(s, cfg, TakeExpired(fired))
  {
    var s := AllDue(cfg, late, cfg.runCap + 1);
    DueReached(cfg, late, cfg.runCap + 1);
    ExpiredFitIff(s, cfg, s.timers);
  }
}
