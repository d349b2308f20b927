/** Waker registrations. A waker is the id of the task it wakes. */
module Wakers {
  import opened Wrappers

  type Task = nat

  function ToSet(s: seq<Task>): set<Task> {
    set t | t in s
  }

  // ----- several wakers

  /** The registered wakers, and the tasks woken, after `t` registers in a buffer of `cap`. */
  function RegisterIn(ws: seq<Task>, cap: nat, t: Task): (r: (seq<Task>, seq<Task>))
    requires cap > 0
  {
    if t in ws then (ws, [])
    else if |ws| >= cap then ([t], ws)
    else (ws + [t], [])
  }

  /** Nobody is forgotten: whoever was registered still is, or is woken. */
  lemma RegisterForgetsNobody(ws: seq<Task>, cap: nat, t: Task)
    requires 0 < cap && |ws| <= cap
    ensures var (ws', woken) := RegisterIn(ws, cap, t);
            |ws'| <= cap && ToSet(ws') == ToSet(ws) - ToSet(woken) + {t} && t !in woken
  {
    var (ws', woken) := RegisterIn(ws, cap, t);
    if t !in ws && |ws| >= cap {
      assert ToSet(ws') == {t};
    }
  }

  /** Nobody is woken as long as there is room for the newcomer, or it is registered already. */
  lemma RegisterIsQuiet(ws: seq<Task>, cap: nat, t: Task)
    requires 0 < cap && |ws| <= cap
    ensures var (ws', woken) := RegisterIn(ws, cap, t);
            && (woken != [] <==> t !in ws && |ws| == cap)
            && (woken == [] ==> ws' == if t in ws then ws else ws + [t])
  {
  }

  class MultiWakerRegistration {
    const cap: nat
    var wakers: seq<Task>

    ghost predicate Valid()
      reads this
    {
      |wakers| <= cap
    }

    constructor (cap: nat)
      ensures Valid() && this.cap == cap && wakers == []
    {
      this.cap := cap;
      wakers := [];
    }

    method Register(w: Task) returns (woken: seq<Task>)
      requires Valid() && cap > 0
      modifies this
      ensures Valid() && (wakers, woken) == RegisterIn(old(wakers), cap, w)
      ensures w in old(wakers) ==> wakers == old(wakers) && woken == []
      ensures w !in old(wakers) && |old(wakers)| < cap ==> wakers == old(wakers) + [w] && woken == []
      ensures w !in old(wakers) && |old(wakers)| == cap ==> wakers == [w] && woken == old(wakers)
    {
      woken := [];
      for i := 0 to |wakers|
        invariant forall j :: 0 <= j < i ==> wakers[j] != w
      {
        if wakers[i] == w {
          return;
        }
      }
      if |wakers| == cap {
        woken := Wake();
        assert wakers + [w] == [w];
      }
      wakers := wakers + [w];
    }

    method Wake() returns (woken: seq<Task>)
      requires Valid()
      modifies this
      ensures Valid() && wakers == [] && woken == old(wakers)
    {
      var taken := wakers;
      wakers := [];
      woken := [];
      for i := 0 to |taken|
        invariant woken == taken[..i] && wakers == []
      {
        woken := woken + [taken[i]];
      }
    }
  }

  // ----- a single waker

  /** The slot, and the tasks woken, after `t` registers. */
  function RegisterOne(slot: Option<Task>, t: Task): (Option<Task>, set<Task>) {
    (Some(t), if slot == None || slot == Some(t) then {} else {slot.value})
  }

  function Slot(slot: Option<Task>): set<Task> {
    if slot.Some? then {slot.value} else {}
  }

  class WakerRegistration {
    var waker: Option<Task>

    constructor ()
      ensures waker == None
    {
      waker := None;
    }

    method Register(w: Task) returns (woken: set<Task>)
      modifies this
      ensures (waker, woken) == RegisterOne(old(waker), w)
      ensures waker == Some(w)
      ensures woken == if old(waker).Some? && old(waker).value != w then {old(waker).value} else {}
    {
      woken := {};
      if waker != Some(w) {
        var previous := waker;
        waker := Some(w);
        if previous.Some? {
          woken := {previous.value};
        }
      }
    }

    method Wake() returns (woken: set<Task>)
      modifies this
      ensures waker == None && woken == Slot(old(waker))
      ensures woken == if old(waker).Some? then {old(waker).value} else {}
    {
      woken := {};
      if waker.Some? {
        woken := {waker.value};
        waker := None;
      }
    }
  }
}
