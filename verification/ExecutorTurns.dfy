/** Whole turns of the executor's loop, for building runs. */
module ExecutorTurns {
  import opened Wrappers
  import opened Timers
  import opened Executor

  ghost predicate Reaches(s: State, cfg: Config, care: Care, s': State) {
    exists steps :: Runs(s, cfg, care, steps, s')
  }

  lemma ReachesItself(s: State, cfg: Config, care: Care)
    ensures Reaches(s, cfg, care, s)
  {
    assert Runs(s, cfg, care, [], s);
  }

  lemma Before(s: State, cfg: Config, care: Care, step: Step, s': State)
    requires Enabled(s, cfg, step) && Fits(s, cfg, care, step) && Reaches(Do(s, cfg, step), cfg, care, s')
    ensures Reaches(s, cfg, care, s')
  {
    var rest :| Runs(Do(s, cfg, step), cfg, care, rest, s');
    RunOne(s, cfg, care, step, rest, s');
  }

  /** A pended executor with no expired timer starts to drain its run queue. */
  lemma WakeTurn(s: State, cfg: Config, care: Care, s': State)
    requires s.pc.Check? && s.flag && |s.runQueue| <= cfg.runCap
    requires forall x :: x in s.timers ==> s.ticks < x.expiresAt
    requires Reaches(s.(flag := false, pc := Drain), cfg, care, s')
    ensures Reaches(s, cfg, care, s')
  {
    var s1 := s.(flag := false, pc := ReadClock);
    var s2 := s1.(pc := Dequeue(s.ticks));
    var s3 := s2.(pc := PushReady([]));
    assert s2.timers - multiset([]) == s2.timers;
    assert s3.runQueue + Tasks([]) == s3.runQueue;
    Before(s3, cfg, care, PushExpired, s');
    Before(s2, cfg, care, TakeExpired([]), s');
    Before(s1, cfg, care, Clock, s');
    Before(s, cfg, care, Fetch, s');
  }

  /** The first runnable task has been polled, and has set a timer if there is one. */
  function Polled(s: State, timer: Option<nat>): State
    requires s.runQueue != []
  {
    var t := s.runQueue[0];
    var s1 := s.(runQueue := s.runQueue[1..], expiresAt := s.expiresAt - {t}, owed := s.owed - {t});
    if timer.None? then s1
    else s1.(expiresAt := s1.expiresAt[t := timer.value], timers := s.timers + multiset{Item(timer.value, t)})
  }

  lemma PollTurn(s: State, cfg: Config, care: Care, timer: Option<nat>, s': State)
    requires s.pc.Drain? && s.runQueue != [] && (timer.Some? ==> |s.timers| < cfg.timerCap)
    requires Reaches(Polled(s, timer), cfg, care, s')
    ensures Reaches(s, cfg, care, s')
  {
    var s1 := Do(s, cfg, Pop);
    var s2 := if timer.Some? then Do(s1, cfg, SetTimer(timer.value)) else s1;
    var s3 := Do(s2, cfg, PollDone);
    Before(s3, cfg, care, Update, s');
    Before(s2, cfg, care, PollDone, s');
    if timer.Some? {
      Before(s1, cfg, care, SetTimer(timer.value), s');
    }
    Before(s, cfg, care, Pop, s');
  }

  /** With nothing left to run the executor reads its next deadline. */
  lemma NextTurn(s: State, cfg: Config, care: Care, e: nat, s': State)
    requires s.pc.Drain? && s.runQueue == [] && NextIs(s.timers, Some(e))
    requires Reaches(s.(pc := SetAlarm(e)), cfg, care, s')
    ensures Reaches(s, cfg, care, s')
  {
    Before(s.(pc := ReadNext), cfg, care, Next(Some(e)), s');
    Before(s, cfg, care, Pop, s');
  }

  /** A pended executor with one task to run polls it and reads the next deadline. */
  lemma PolledTurn(s: State, cfg: Config, care: Care, t: Task, timer: Option<nat>, next: nat, s': State)
    requires s.pc.Check? && s.flag && s.runQueue == [t] && 0 < cfg.runCap && (timer.Some? ==> |s.timers| < cfg.timerCap)
    requires forall x :: x in s.timers ==> s.ticks < x.expiresAt
    requires var p := Polled(s.(flag := false), timer);
             NextIs(p.timers, Some(next)) && Reaches(p.(pc := SetAlarm(next)), cfg, care, s')
    ensures Reaches(s, cfg, care, s')
  {
    var s1 := s.(flag := false, pc := Drain);
    assert [t][1..] == [];
    NextTurn(Polled(s1, timer), cfg, care, next, s');
    PollTurn(s1, cfg, care, timer, s');
    WakeTurn(s, cfg, care, s');
  }

  /** A sleeping executor with room in its queues: task t is woken and polled, and the next
      deadline is read. */
  lemma WokenTurn(s: State, cfg: Config, care: Care, t: Task, timer: Option<nat>, next: nat, s': State)
    requires s.pc.Check? && !s.flag && s.runQueue == [] && 0 < cfg.runCap && (timer.Some? ==> |s.timers| < cfg.timerCap)
    requires forall x :: x in s.timers ==> s.ticks < x.expiresAt
    requires var p := Polled(s.(runQueue := [t], owed := s.owed + {t}), timer);
             NextIs(p.timers, Some(next)) && Reaches(p.(pc := SetAlarm(next)), cfg, care, s')
    ensures Reaches(s, cfg, care, s')
  {
    var s1 := s.(runQueue := s.runQueue + [t], pushed := s.pushed + 1, owed := s.owed + {t});
    var s2 := s.(runQueue := [t], owed := s.owed + {t}, flag := true);
    assert s.runQueue + [t] == [t];
    PolledTurn(s2, cfg, care, t, timer, next, s');
    Before(s1, cfg, care, WakePend, s');
    Before(s, cfg, care, WakePush(t), s');
  }
}
