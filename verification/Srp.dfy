/** The stack resource policy: jobs preempt each other by priority, and a contended mutex raises
    the current priority to its ceiling while it is held. */
module Srp {
  datatype Access = Owned(prio: nat) | CoOwned(prio: nat) | Contended(prio: nat)

  function Max(a: nat, b: nat): nat { if a < b then b else a }

  function RegisterAccess(s: Access, prio: nat): Access {
    match s
    case Owned(p) => if p == prio then CoOwned(p) else Contended(Max(p, prio))
    case CoOwned(p) => if p != prio then Contended(Max(p, prio)) else s
    case Contended(p) => if p != prio then Contended(Max(p, prio)) else s
  }

  /** The mutex created with priority regs[0], after the other registrations. */
  function Configured(regs: seq<nat>): Access
    requires regs != []
  {
    var n := |regs| - 1;
    if n == 0 then Owned(regs[0]) else RegisterAccess(Configured(regs[..n]), regs[n])
  }

  ghost predicate AllSame(regs: seq<nat>) {
    forall p, q :: p in regs && q in regs ==> p == q
  }

  /** What the three states mean, in whatever order the accesses were registered. */
  lemma {:induction false} ConfiguredMeans(regs: seq<nat>)
    requires regs != []
    ensures Configured(regs).Owned? <==> |regs| == 1
    ensures Configured(regs).Contended? <==> !AllSame(regs)
    ensures Configured(regs).prio in regs && forall p :: p in regs ==> p <= Configured(regs).prio
  {
    var n := |regs| - 1;
    if n > 0 {
      var init, last := regs[..n], regs[n];
      ConfiguredMeans(init);
      assert regs == init + [last];
      assert init[0] in init;
      var p := Configured(init).prio;
      assert p in regs && last in regs;
      assert forall q :: q in regs <==> q in init || q == last;
      if AllSame(init) && last == p {
        assert AllSame(regs);
      }
    }
  }

  /** The order of registration does not matter once there are two. */
  lemma OrderIrrelevant(regs: seq<nat>, regs': seq<nat>)
    requires |regs| == |regs'| > 0 && multiset(regs) == multiset(regs')
    ensures Configured(regs) == Configured(regs')
  {
    ConfiguredMeans(regs);
    ConfiguredMeans(regs');
    assert forall p :: p in regs <==> p in multiset(regs);
    assert forall p :: p in regs' <==> p in multiset(regs');
  }

  // ----- nested preemption

  datatype Phase = Entering | Inside | Leaving

  /** A call of `do_srp` under way, with the ceiling it has read. */
  datatype Frame = Frame(mutex: nat, previous: nat, phase: Phase)

  /** A job and what was in CCPN when it started. */
  datatype Job = Job(prio: nat, saved: nat, frames: seq<Frame>)

  /** The running job is the last one. */
  datatype Cpu = Cpu(ccpn: nat, jobs: seq<Job>)

  datatype Step =
    | Interrupt(prio: nat)
    | Lock(mutex: nat)     // read the ceiling
    | Raise                // write the ceiling; the closure starts
    | Finish               // the closure returns
    | Restore              // write back what was read
    | Return               // the job ends

  /** The registered priorities of each mutex. */
  type Registry = seq<seq<nat>>

  function Boot(): Cpu { Cpu(0, [Job(0, 0, [])]) }

  function Top(c: Cpu): Job
    requires c.jobs != []
  {
    c.jobs[|c.jobs| - 1]
  }

  function TopFrame(c: Cpu): Frame
    requires c.jobs != [] && Top(c).frames != []
  {
    Top(c).frames[|Top(c).frames| - 1]
  }

  predicate HasFrame(c: Cpu, phase: Phase) {
    c.jobs != [] && Top(c).frames != [] && TopFrame(c).phase == phase
  }

  /** A job locks only mutexes it registered its priority on. */
  predicate Enabled(c: Cpu, r: Registry, step: Step) {
    c.jobs != [] &&
    match step
    case Interrupt(q) => c.ccpn < q
    case Lock(m) =>
      m < |r| && Top(c).prio in r[m]
      && (Top(c).frames != [] ==> TopFrame(c).phase.Inside?)
    case Raise => HasFrame(c, Entering)
    case Finish => HasFrame(c, Inside)
    case Restore => HasFrame(c, Leaving)
    case Return => |c.jobs| > 1 && Top(c).frames == []
  }

  function WithFrames(c: Cpu, ccpn: nat, frames: seq<Frame>): Cpu
    requires c.jobs != []
  {
    Cpu(ccpn, c.jobs[..|c.jobs| - 1] + [Top(c).(frames := frames)])
  }

  function State(r: Registry, m: nat): Access {
    if m < |r| && r[m] != [] then Configured(r[m]) else Owned(0)
  }

  function Init<T>(s: seq<T>): seq<T>
    requires s != []
  {
    s[..|s| - 1]
  }

  function Do(c: Cpu, r: Registry, step: Step): Cpu
    requires Enabled(c, r, step)
  {
    match step
    case Interrupt(q) => Cpu(q, c.jobs + [Job(q, c.ccpn, [])])
    case Lock(m) =>
      var phase := if State(r, m).Contended? then Entering else Inside;
      WithFrames(c, c.ccpn, Top(c).frames + [Frame(m, c.ccpn, phase)])
    case Raise =>
      var f := TopFrame(c);
      WithFrames(c, if f.previous < State(r, f.mutex).prio then State(r, f.mutex).prio else c.ccpn,
                 Init(Top(c).frames) + [f.(phase := Inside)])
    case Finish =>
      var f := TopFrame(c);
      WithFrames(c, c.ccpn,
                 Init(Top(c).frames) + if State(r, f.mutex).Contended? then [f.(phase := Leaving)] else [])
    case Restore => WithFrames(c, TopFrame(c).previous, Init(Top(c).frames))
    case Return => Cpu(Top(c).saved, Init(c.jobs))
  }

  // ----- the mutex in place

  function Raised(state: Access, level: nat): nat {
    if state.Contended? then Max(level, state.prio) else level
  }

  /** A whole `do_srp` up to the call of the closure, no interrupt in between. */
  function Entered(c: Cpu, r: Registry, m: nat): Cpu
    requires Enabled(c, r, Lock(m))
  {
    var c1 := Do(c, r, Lock(m));
    if State(r, m).Contended? then Do(c1, r, Raise) else c1
  }

  /** The rest of it, after the closure has returned. */
  function Exited(c: Cpu, r: Registry): Cpu
    requires Enabled(c, r, Finish)
  {
    var c1 := Do(c, r, Finish);
    if State(r, TopFrame(c).mutex).Contended? then Do(c1, r, Restore) else c1
  }

  /** Only the last change of the running job's frames counts. */
  lemma FramesTwice(c: Cpu, p: nat, f: seq<Frame>, q: nat, g: seq<Frame>)
    requires c.jobs != []
    ensures Top(WithFrames(c, p, f)) == Top(c).(frames := f)
    ensures WithFrames(WithFrames(c, p, f), q, g) == WithFrames(c, q, g)
    ensures WithFrames(c, c.ccpn, Top(c).frames) == c
  {
    assert WithFrames(c, p, f).jobs[..|c.jobs| - 1] == c.jobs[..|c.jobs| - 1];
    assert c.jobs == c.jobs[..|c.jobs| - 1] + [Top(c)];
  }

  lemma InitAppend(frames: seq<Frame>, f: Frame)
    ensures Init(frames + [f]) == frames && frames + [] == frames
  {
  }

  lemma EnteredIs(c: Cpu, r: Registry, m: nat)
    requires Enabled(c, r, Lock(m))
    ensures Entered(c, r, m) == WithFrames(c, Raised(State(r, m), c.ccpn), Top(c).frames + [Frame(m, c.ccpn, Inside)])
  {
    var frames := Top(c).frames;
    if State(r, m).Contended? {
      var f := Frame(m, c.ccpn, Entering);
      InitAppend(frames, f);
      FramesTwice(c, c.ccpn, frames + [f], Raised(State(r, m), c.ccpn), frames + [f.(phase := Inside)]);
    }
  }

  lemma ExitedIs(c: Cpu, r: Registry)
    requires Enabled(c, r, Finish)
    ensures var f := TopFrame(c);
            Exited(c, r) == WithFrames(c, if State(r, f.mutex).Contended? then f.previous else c.ccpn, Init(Top(c).frames))
  {
    var f, frames := TopFrame(c), Init(Top(c).frames);
    InitAppend(frames, f.(phase := Leaving));
    FramesTwice(c, c.ccpn, frames + [f.(phase := Leaving)], f.previous, frames);
  }

  lemma EnteredTop(c: Cpu, r: Registry, m: nat)
    requires Enabled(c, r, Lock(m))
    ensures var e := Entered(c, r, m);
            e.ccpn == Raised(State(r, m), c.ccpn) && HasFrame(e, Inside) && TopFrame(e) == Frame(m, c.ccpn, Inside)
  {
    var frames, f := Top(c).frames, Frame(m, c.ccpn, Inside);
    EnteredIs(c, r, m);
    FramesTwice(c, Raised(State(r, m), c.ccpn), frames + [f], 0, []);
  }

  class Icr {
    var ccpn: nat

    constructor ()
      ensures ccpn == 0
    {
      ccpn := 0;
    }
  }

  class SrpMutex {
    var state: Access

    constructor (prio: nat)
      ensures state == Configured([prio])
    {
      state := Owned(prio);
    }

    method Register(prio: nat, ghost regs: seq<nat>)
      requires regs != [] && state == Configured(regs)
      modifies this
      ensures state == Configured(regs + [prio])
    {
      assert (regs + [prio])[..|regs|] == regs;
      match state
      case Owned(p) =>
        state := if p == prio then CoOwned(p) else Contended(Max(p, prio));
      case CoOwned(p) =>
        if p != prio {
          state := Contended(Max(p, prio));
        }
      case Contended(p) =>
        if p != prio {
          state := Contended(Max(p, prio));
        }
    }

    /** `do_srp` up to the call of the closure, by the job on top of the stack of `c`. */
    method Enter(icr: Icr, ghost c: Cpu, ghost r: Registry, ghost m: nat) returns (previous: nat)
      requires Enabled(c, r, Lock(m)) && state == State(r, m) && icr.ccpn == c.ccpn
      modifies icr
      ensures icr.ccpn == Entered(c, r, m).ccpn
      ensures previous == old(icr.ccpn)
      ensures icr.ccpn == if state.Contended? && previous < state.prio then state.prio else previous
      ensures HasFrame(Entered(c, r, m), Inside) && TopFrame(Entered(c, r, m)) == Frame(m, previous, Inside)
    {
      EnteredTop(c, r, m);
      previous := icr.ccpn;
      if state.Contended? {
        if previous < state.prio {
          icr.ccpn := state.prio;
        }
      }
    }

    /** `do_srp` after the closure has returned, with what `Enter` has read. */
    method Exit(icr: Icr, previous: nat, ghost c: Cpu, ghost r: Registry)
      requires Enabled(c, r, Finish) && icr.ccpn == c.ccpn
      requires state == State(r, TopFrame(c).mutex) && previous == TopFrame(c).previous
      modifies icr
      ensures icr.ccpn == Exited(c, r).ccpn
      ensures icr.ccpn == if state.Contended? then previous else old(icr.ccpn)
    {
      ExitedIs(c, r);
      if state.Contended? {
        icr.ccpn := previous;
      }
    }
  }

  /** Leaving undoes entering: the stack and CCPN are as before. */
  lemma ExitUndoesEnter(c: Cpu, r: Registry, m: nat)
    requires Enabled(c, r, Lock(m))
    ensures Enabled(Entered(c, r, m), r, Finish)
    ensures Exited(Entered(c, r, m), r) == c
  {
    var frames, f := Top(c).frames, Frame(m, c.ccpn, Inside);
    var e := Entered(c, r, m);
    EnteredIs(c, r, m);
    InitAppend(frames, f);
    FramesTwice(c, e.ccpn, frames + [f], c.ccpn, frames);
    ExitedIs(e, r);
  }

  // ----- the invariant: CCPN is a function of the stack

  predicate Holds(r: Registry, f: Frame) {
    State(r, f.mutex).Contended? && !f.phase.Entering?
  }

  /** The priority a job runs at: its own, raised by the contended mutexes it holds. */
  function Level(r: Registry, prio: nat, frames: seq<Frame>): nat {
    if frames == [] then prio
    else
      var f := frames[|frames| - 1];
      var below := Level(r, prio, Init(frames));
      if Holds(r, f) then Max(below, State(r, f.mutex).prio) else below
  }

  function JobLevel(r: Registry, j: Job): nat {
    Level(r, j.prio, j.frames)
  }

  ghost predicate FrameOk(r: Registry, j: Job, k: nat)
    requires k < |j.frames|
  {
    var f := j.frames[k];
    && f.mutex < |r| && j.prio in r[f.mutex]
    && f.previous == Level(r, j.prio, j.frames[..k])
    && (k + 1 < |j.frames| ==> f.phase.Inside?)
    && (!State(r, f.mutex).Contended? ==> f.phase.Inside?)
  }

  ghost predicate JobOk(r: Registry, j: Job) {
    forall k :: 0 <= k < |j.frames| ==> FrameOk(r, j, k)
  }

  ghost predicate Inv(c: Cpu, r: Registry) {
    && c.jobs != []
    && (forall i :: 0 <= i < |c.jobs| ==> JobOk(r, c.jobs[i]))
    && (forall i, j :: 0 <= i && j == i + 1 && j < |c.jobs| ==>
          c.jobs[j].saved == JobLevel(r, c.jobs[i]) < c.jobs[j].prio)
    && c.ccpn == JobLevel(r, Top(c))
  }

  lemma {:induction false} LevelBounds(r: Registry, prio: nat, frames: seq<Frame>)
    ensures prio <= Level(r, prio, frames)
    ensures forall f :: f in frames && Holds(r, f) ==> State(r, f.mutex).prio <= Level(r, prio, frames)
  {
    if frames != [] {
      LevelBounds(r, prio, Init(frames));
      assert frames == Init(frames) + [frames[|frames| - 1]];
    }
  }

  lemma FramesKept(r: Registry, j: Job, j': Job)
    requires JobOk(r, j) && j'.prio == j.prio && |j'.frames| > 0
    requires Init(j'.frames) <= j.frames
    requires FrameOk(r, j', |j'.frames| - 1)
    requires forall k :: 0 <= k < |j'.frames| - 1 ==> j.frames[k].phase.Inside?
    ensures JobOk(r, j')
  {
    var n := |j'.frames| - 1;
    forall k | 0 <= k < |j'.frames|
      ensures FrameOk(r, j', k)
    {
      if k < n {
        assert FrameOk(r, j, k);
        assert j'.frames[k] == Init(j'.frames)[k] == j.frames[k];
        assert j'.frames[..k] == j.frames[..k];
      }
    }
  }

  lemma InitOk(r: Registry, j: Job)
    requires JobOk(r, j) && j.frames != []
    ensures JobOk(r, j.(frames := Init(j.frames)))
    ensures forall k :: 0 <= k < |j.frames| - 1 ==> j.frames[k].phase.Inside?
  {
    var j' := j.(frames := Init(j.frames));
    forall k | 0 <= k < |j'.frames|
      ensures FrameOk(r, j', k) && j.frames[k].phase.Inside?
    {
      assert FrameOk(r, j, k);
      assert j'.frames[..k] == j.frames[..k];
    }
  }

  /** A step of the running job that leaves the other jobs alone. */
  lemma TopKept(c: Cpu, r: Registry, ccpn: nat, frames: seq<Frame>)
    requires Inv(c, r) && JobOk(r, Top(c).(frames := frames)) && ccpn == Level(r, Top(c).prio, frames)
    ensures Inv(WithFrames(c, ccpn, frames), r)
  {
    var c' := WithFrames(c, ccpn, frames);
    var n := |c.jobs| - 1;
    assert Top(c') == Top(c).(frames := frames);
    forall i, j | 0 <= i && j == i + 1 && j < |c'.jobs|
      ensures c'.jobs[j].saved == JobLevel(r, c'.jobs[i]) < c'.jobs[j].prio
    {
      assert c'.jobs[i] == c.jobs[i] && c'.jobs[j].saved == c.jobs[j].saved && c'.jobs[j].prio == c.jobs[j].prio;
    }
  }

  lemma AllInside(r: Registry, j: Job)
    requires JobOk(r, j) && (j.frames != [] ==> j.frames[|j.frames| - 1].phase.Inside?)
    ensures forall k :: 0 <= k < |j.frames| ==> j.frames[k].phase.Inside?
  {
    forall k | 0 <= k < |j.frames|
      ensures j.frames[k].phase.Inside?
    {
      assert FrameOk(r, j, k);
    }
  }

  lemma PushedFrame(r: Registry, j: Job, f: Frame)
    requires JobOk(r, j) && (j.frames != [] ==> j.frames[|j.frames| - 1].phase.Inside?)
    requires f.mutex < |r| && j.prio in r[f.mutex] && f.previous == JobLevel(r, j)
    requires !State(r, f.mutex).Contended? ==> f.phase.Inside?
    ensures JobOk(r, j.(frames := j.frames + [f]))
  {
    InitAppend(j.frames, f);
    AllInside(r, j);
    FramesKept(r, j, j.(frames := j.frames + [f]));
  }

  lemma LevelPushed(r: Registry, prio: nat, frames: seq<Frame>, f: Frame)
    requires !Holds(r, f)
    ensures Level(r, prio, frames + [f]) == Level(r, prio, frames)
  {
    InitAppend(frames, f);
  }

  lemma LockKeeps(c: Cpu, r: Registry, m: nat)
    requires Inv(c, r) && Enabled(c, r, Lock(m))
    ensures Inv(Do(c, r, Lock(m)), r)
  {
    var f := Frame(m, c.ccpn, if State(r, m).Contended? then Entering else Inside);
    PushedFrame(r, Top(c), f);
    LevelPushed(r, Top(c).prio, Top(c).frames, f);
    TopKept(c, r, c.ccpn, Top(c).frames + [f]);
    assert Do(c, r, Lock(m)) == WithFrames(c, c.ccpn, Top(c).frames + [f]);
  }

  lemma RaiseKeeps(c: Cpu, r: Registry)
    requires Inv(c, r) && Enabled(c, r, Raise)
    ensures Inv(Do(c, r, Raise), r)
  {
    var j, f, n := Top(c), TopFrame(c), |Top(c).frames| - 1;
    var frames := Init(j.frames) + [f.(phase := Inside)];
    assert FrameOk(r, j, n) && j.frames[..n] == Init(j.frames);
    assert Init(frames) == Init(j.frames) && frames[..n] == Init(j.frames);
    InitOk(r, j);
    FramesKept(r, j, j.(frames := frames));
    TopKept(c, r, Do(c, r, Raise).ccpn, frames);
  }

  lemma FinishKeeps(c: Cpu, r: Registry)
    requires Inv(c, r) && Enabled(c, r, Finish)
    ensures Inv(Do(c, r, Finish), r)
  {
    var j, f, n := Top(c), TopFrame(c), |Top(c).frames| - 1;
    assert FrameOk(r, j, n) && j.frames[..n] == Init(j.frames);
    InitOk(r, j);
    if State(r, f.mutex).Contended? {
      var frames := Init(j.frames) + [f.(phase := Leaving)];
      assert Init(frames) == Init(j.frames) && frames[..n] == Init(j.frames);
      FramesKept(r, j, j.(frames := frames));
      TopKept(c, r, c.ccpn, frames);
    } else {
      assert Init(j.frames) + [] == Init(j.frames);
      TopKept(c, r, c.ccpn, Init(j.frames));
    }
  }

  lemma RestoreKeeps(c: Cpu, r: Registry)
    requires Inv(c, r) && Enabled(c, r, Restore)
    ensures Inv(Do(c, r, Restore), r)
  {
    var j, n := Top(c), |Top(c).frames| - 1;
    assert FrameOk(r, j, n) && j.frames[..n] == Init(j.frames);
    InitOk(r, j);
    TopKept(c, r, TopFrame(c).previous, Init(j.frames));
  }

  lemma StepKeeps(c: Cpu, r: Registry, step: Step)
    requires Inv(c, r) && Enabled(c, r, step)
    ensures Inv(Do(c, r, step), r)
  {
    match step
    case Interrupt(q) =>
      var c' := Do(c, r, step);
      assert Top(c') == Job(q, c.ccpn, []);
    case Lock(m) => LockKeeps(c, r, m);
    case Raise => RaiseKeeps(c, r);
    case Finish => FinishKeeps(c, r);
    case Restore => RestoreKeeps(c, r);
    case Return =>
      var n := |c.jobs| - 1;
      assert c.jobs[n].saved == JobLevel(r, c.jobs[n - 1]);
  }

  // ----- all runs

  predicate Runs(c: Cpu, r: Registry, steps: seq<Step>, c': Cpu)
    decreases |steps|
  {
    if steps == [] then c' == c
    else Enabled(c, r, steps[0]) && Runs(Do(c, r, steps[0]), r, steps[1..], c')
  }

  lemma {:induction false} RunKeeps(c: Cpu, r: Registry, steps: seq<Step>, c': Cpu)
    requires Inv(c, r) && Runs(c, r, steps, c')
    ensures Inv(c', r)
    decreases |steps|
  {
    if steps != [] {
      StepKeeps(c, r, steps[0]);
      RunKeeps(Do(c, r, steps[0]), r, steps[1..], c');
    }
  }

  lemma {:induction false} LevelsRise(c: Cpu, r: Registry, i: nat, j: nat)
    requires Inv(c, r) && i < j < |c.jobs|
    ensures JobLevel(r, c.jobs[i]) < c.jobs[j].prio
    ensures c.jobs[i].prio < c.jobs[j].prio
    decreases j - i
  {
    LevelBounds(r, c.jobs[i].prio, c.jobs[i].frames);
    if i + 1 < j {
      LevelsRise(c, r, i + 1, j);
      LevelBounds(r, c.jobs[i + 1].prio, c.jobs[i + 1].frames);
      assert JobLevel(r, c.jobs[i]) < c.jobs[i + 1].prio;
    }
  }

  /** Job i is inside the closure it passed to `lock` on mutex m. */
  ghost predicate InsideMutex(c: Cpu, i: nat, m: nat) {
    i < |c.jobs| && exists f :: f in c.jobs[i].frames && f.mutex == m && !f.phase.Entering?
  }

  lemma Exclusive(c: Cpu, r: Registry, i: nat, j: nat, m: nat)
    requires Inv(c, r) && i < j < |c.jobs| && InsideMutex(c, i, m)
    ensures !InsideMutex(c, j, m)
  {
    var p, q := c.jobs[i], c.jobs[j];
    var f :| f in p.frames && f.mutex == m && !f.phase.Entering?;
    var k :| 0 <= k < |p.frames| && p.frames[k] == f;
    assert FrameOk(r, p, k);
    LevelsRise(c, r, i, j);
    LevelBounds(r, p.prio, p.frames);
    ConfiguredMeans(r[m]);
    forall g | g in q.frames
      ensures g.mutex != m
    {
      var l :| 0 <= l < |q.frames| && q.frames[l] == g;
      assert FrameOk(r, q, l);
      assert q.prio in r[m] ==> Holds(r, f) && q.prio <= State(r, m).prio;
    }
  }

  /** Mutual exclusion, over every nesting of preemptions and locks. */
  lemma MutualExclusion(r: Registry, steps: seq<Step>, c: Cpu, i: nat, j: nat, m: nat)
    requires Runs(Boot(), r, steps, c) && InsideMutex(c, i, m) && InsideMutex(c, j, m)
    ensures i == j
  {
    RunKeeps(Boot(), r, steps, c);
    if i < j {
      Exclusive(c, r, i, j, m);
    } else if j < i {
      Exclusive(c, r, j, i, m);
    }
  }

  /** CCPN never falls below the ceiling of a contended mutex held anywhere on the stack, nor
      below the priority of a job on the stack. */
  lemma CeilingRespected(r: Registry, steps: seq<Step>, c: Cpu, i: nat, f: Frame)
    requires Runs(Boot(), r, steps, c) && i < |c.jobs|
    ensures c.jobs[i].prio <= c.ccpn
    ensures f in c.jobs[i].frames && Holds(r, f) ==> State(r, f.mutex).prio <= c.ccpn
  {
    RunKeeps(Boot(), r, steps, c);
    var n := |c.jobs| - 1;
    LevelBounds(r, c.jobs[i].prio, c.jobs[i].frames);
    LevelBounds(r, c.jobs[n].prio, c.jobs[n].frames);
    if i < n {
      LevelsRise(c, r, i, n);
    }
  }

  lemma {:induction false} LevelReached(r: Registry, prio: nat, frames: seq<Frame>)
    ensures Level(r, prio, frames) == prio
         || exists f :: f in frames && Holds(r, f) && State(r, f.mutex).prio == Level(r, prio, frames)
  {
    if frames != [] {
      var f := frames[|frames| - 1];
      LevelReached(r, prio, Init(frames));
      assert f in frames && forall g :: g in Init(frames) ==> g in frames;
    }
  }

  /** CCPN is raised no higher than that: it is the priority of the running job, or the ceiling of
      a contended mutex that job holds. So an interrupt is kept out only by one of these. */
  lemma CcpnIsReached(r: Registry, steps: seq<Step>, c: Cpu)
    requires Runs(Boot(), r, steps, c)
    ensures c.jobs != []
    ensures c.ccpn == Top(c).prio
         || exists f :: f in Top(c).frames && Holds(r, f) && State(r, f.mutex).prio == c.ccpn
  {
    RunKeeps(Boot(), r, steps, c);
    LevelReached(r, Top(c).prio, Top(c).frames);
  }

  /** The first n jobs are never the running one before the last step. */
  predicate StaysAbove(c: Cpu, r: Registry, steps: seq<Step>, n: nat)
    decreases |steps|
  {
    steps != [] ==> Enabled(c, r, steps[0]) && |c.jobs| > n && StaysAbove(Do(c, r, steps[0]), r, steps[1..], n)
  }

  lemma {:induction false} SuspendedUntouched(c: Cpu, r: Registry, steps: seq<Step>, c': Cpu, n: nat)
    requires Runs(c, r, steps, c') && StaysAbove(c, r, steps, n) && n <= |c.jobs|
    ensures n <= |c'.jobs| && c'.jobs[..n] == c.jobs[..n]
    decreases |steps|
  {
    if steps != [] {
      var c1 := Do(c, r, steps[0]);
      assert c1.jobs[..n] == c.jobs[..n];
      SuspendedUntouched(c1, r, steps[1..], c', n);
    }
  }

  /** However deep the preemption, when the jobs that came on top are gone the preempted job
      finds itself, its locks and CCPN as it left them. */
  lemma PreemptionRestores(r: Registry, before: seq<Step>, c: Cpu, prio: nat, steps: seq<Step>, c': Cpu)
    requires Runs(Boot(), r, before, c) && Enabled(c, r, Interrupt(prio))
    requires Runs(Do(c, r, Interrupt(prio)), r, steps, c')
    requires StaysAbove(Do(c, r, Interrupt(prio)), r, steps, |c.jobs|) && |c'.jobs| == |c.jobs|
    ensures c' == c
  {
    var c1 := Do(c, r, Interrupt(prio));
    RunKeeps(Boot(), r, before, c);
    StepKeeps(c, r, Interrupt(prio));
    RunKeeps(c1, r, steps, c');
    SuspendedUntouched(c1, r, steps, c', |c.jobs|);
    assert c1.jobs[..|c.jobs|] == c.jobs && c'.jobs[..|c.jobs|] == c'.jobs;
  }
}
