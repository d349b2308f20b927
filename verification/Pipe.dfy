/** The byte pipe: a ring over a fixed buffer, and a waker on each side. */
module Pipes {
  import opened Wrappers
  import opened Wakers
  import opened Rings
  import opened Handoff

  newtype byte = x: int | 0 <= x < 256

  class Pipe {
    const n: nat
    const buf: array<byte>
    const ring: RingBuffer
    const readWaker: WakerRegistration
    const writeWaker: WakerRegistration

    ghost predicate Valid()
      reads this, ring
    {
      buf.Length == n == ring.n && ring.Valid() && readWaker != writeWaker
    }

    /** The bytes in the pipe, oldest first. */
    ghost function Contents(): (s: seq<byte>)
      requires Valid()
      reads this, ring, buf
      ensures |s| == ring.Count()
    {
      Unwrap(buf[..], ring.start, ring.Count())
    }

    ghost function Model(): Buf<byte>
      requires Valid()
      reads this, ring, buf, readWaker, writeWaker
    {
      Buf(Contents(), readWaker.waker, writeWaker.waker)
    }

    constructor (n: nat)
      ensures Valid() && this.n == n && Model() == Handoff.Start<byte>().b
      ensures fresh(buf) && fresh(ring) && fresh(readWaker) && fresh(writeWaker)
    {
      this.n := n;
      buf := new byte[n](_ => 0);
      ring := new RingBuffer(n);
      readWaker := new WakerRegistration();
      writeWaker := new WakerRegistration();
    }

    /** Some(k): k bytes were read; None: the pipe is empty. */
    method TryReadWithContext(cx: Option<Task>, out: array<byte>)
      returns (r: Option<nat>, readers: set<Task>, writers: set<Task>)
      requires Valid() && out != buf
      modifies ring, readWaker, writeWaker, out
      ensures Valid()
      ensures var k := Min(ReadRun(n, old(ring.start), old(ring.Count())), out.Length);
              && Take(old(Model()), IsFull(old(Model()), n, false), k, cx) == Outcome(Model(), r.Some?, readers, writers)
              && (r.Some? ==> r.value == k && out[..] == old(Contents())[..k] + old(out[..])[k..])
              && (r.None? ==> out[..] == old(out[..]))
      ensures r.Some? <==> old(Contents()) != []
      ensures r.Some? ==> r.value <= |old(Contents())| && Contents() == old(Contents())[r.value..]
      ensures r.None? ==> Contents() == old(Contents()) && (cx.Some? ==> readWaker.waker == cx)
      ensures writers == if old(ring.full) && old(writeWaker.waker).Some? then {old(writeWaker.waker).value} else {}
    {
      readers, writers := {}, {};
      if ring.full {
        writers := writeWaker.Wake();
      }
      var lo, hi := ring.PopBuf();
      if lo == hi {
        if cx.Some? {
          readers := readWaker.Register(cx.value);
        }
        return None, readers, writers;
      }
      var k := Min(hi - lo, out.Length);
      MoveOut(lo, k, out);
      return Some(k), readers, writers;
    }

    lemma FrontInPlace(k: nat)
      requires Valid() && k <= ReadRun(n, ring.start, ring.Count())
      ensures ring.start + k <= buf.Length && buf[ring.start..ring.start + k] == Contents()[..k]
      ensures Unwrap(buf[..], if k == 0 then ring.start else Wrap(n, ring.start + k), ring.Count() - k) == Contents()[k..]
    {
      var s := buf[..];
      UnwrapDrop(s, ring.start, ring.Count(), k);
      assert s[ring.start..ring.start + k] == buf[ring.start..ring.start + k];
      assert k == 0 ==> Contents()[0..] == Contents();
    }

    method DropFront(k: nat)
      requires Valid() && k <= ReadRun(n, ring.start, ring.Count())
      modifies ring
      ensures Valid() && Contents() == old(Contents())[k..]
    {
      FrontInPlace(k);
      ring.Pop(k);
    }

    /** Copies k bytes from the front of the pipe and drops them. */
    method MoveOut(lo: nat, k: nat, out: array<byte>)
      requires Valid() && out != buf && k <= out.Length && lo == ring.start
      requires k <= ReadRun(n, ring.start, ring.Count())
      modifies ring, out
      ensures Valid() && Contents() == old(Contents())[k..]
      ensures out[..] == old(Contents())[..k] + old(out[..])[k..]
    {
      var front := Front(lo, lo + k);
      Copy(out, 0, front);
      DropFront(k);
    }

    /** Some(k): the first k bytes of the input were written; None: the pipe is full. */
    method TryWriteWithContext(cx: Option<Task>, input: seq<byte>)
      returns (r: Option<nat>, readers: set<Task>, writers: set<Task>)
      requires Valid()
      modifies ring, readWaker, writeWaker, buf
      ensures Valid()
      ensures var k := Min(WriteRun(n, old(ring.start), old(ring.Count())), |input|);
              && Put(old(Model()), n, input[..k], cx) == Outcome(Model(), r.Some?, readers, writers)
              && (r.Some? ==> r.value == k && (input != [] ==> k > 0))
      ensures r.Some? <==> |old(Contents())| < n
      ensures r.Some? ==> r.value <= |input| && Contents() == old(Contents()) + input[..r.value]
      ensures r.None? ==> Contents() == old(Contents()) && (cx.Some? ==> writeWaker.waker == cx)
      ensures readers == if old(Contents()) == [] && old(readWaker.waker).Some? then {old(readWaker.waker).value} else {}
    {
      readers, writers := {}, {};
      ghost var before := Contents();
      if ring.start == ring.end && !ring.full {
        readers := readWaker.Wake();
      }
      assert Contents() == before;
      var lo, hi := ring.PushBuf();
      if lo == hi {
        if cx.Some? {
          writers := writeWaker.Register(cx.value);
        }
        assert Contents() == before;
        return None, readers, writers;
      }
      var k := Min(hi - lo, |input|);
      MoveIn(lo, input[..k]);
      assert Contents() == before + input[..k];
      return Some(k), readers, writers;
    }

    /** Appends bytes for which there is room without wrapping. */
    method MoveIn(lo: nat, data: seq<byte>)
      requires Valid() && ring.Count() < n && lo == Wrap(n, ring.start + ring.Count())
      requires |data| <= WriteRun(n, ring.start, ring.Count())
      modifies ring, buf
      ensures Valid() && Contents() == old(Contents()) + data
    {
      ghost var before := buf[..];
      Copy(buf, lo, data);
      UnwrapAppend(before, buf[..], ring.start, ring.Count(), data);
      ring.Push(|data|);
    }

    /** What can be read without wrapping, left in place. */
    method TryFillBufWithContext(cx: Option<Task>) returns (r: Option<seq<byte>>, readers: set<Task>, writers: set<Task>)
      requires Valid()
      modifies readWaker, writeWaker
      ensures Valid()
      ensures Take(old(Model()), IsFull(old(Model()), n, false), 0, cx) == Outcome(Model(), r.Some?, readers, writers)
      ensures r.Some? ==> r.value == Contents()[..ReadRun(n, ring.start, ring.Count())] && r.value != []
      ensures (r.Some? <==> Contents() != []) && (r.None? && cx.Some? ==> readWaker.waker == cx)
    {
      readers, writers := {}, {};
      if Contents() != [] {
        PeekLeavesData(Model(), ring.full, cx);
      }
      if ring.full {
        writers := writeWaker.Wake();
      }
      var lo, hi := ring.PopBuf();
      if lo == hi {
        if cx.Some? {
          readers := readWaker.Register(cx.value);
        }
        return None, readers, writers;
      }
      var front := Front(lo, hi);
      return Some(front), readers, writers;
    }

    method Front(lo: nat, hi: nat) returns (s: seq<byte>)
      requires Valid() && lo == ring.start && lo <= hi && hi - lo <= ReadRun(n, ring.start, ring.Count())
      ensures s == Contents()[..hi - lo]
    {
      FrontInPlace(hi - lo);
      s := buf[lo..hi];
    }

    method Consume(amount: nat)
      requires Valid() && amount <= ReadRun(n, ring.start, ring.Count())   // asserted by the program
      modifies ring
      ensures Valid() && Model() == old(Model()).(data := old(Contents())[amount..])
    {
      var lo, hi := ring.PopBuf();
      DropFront(amount);
    }

    method Clear() returns (writers: set<Task>)
      requires Valid()
      modifies ring, writeWaker
      ensures Valid() && Handoff.Clear(old(Model())) == Outcome(Model(), true, {}, writers)
      ensures Contents() == [] && writeWaker.waker == None
      ensures writers == if old(writeWaker.waker).Some? then {old(writeWaker.waker).value} else {}
    {
      ring.Clear();
      writers := writeWaker.Wake();
    }

    method Len() returns (len: nat)
      requires Valid()
      ensures len == |Contents()|
    {
      len := ring.Len();
    }

    method FreeCapacity() returns (free: nat)
      requires Valid()
      ensures free + |Contents()| == n
    {
      var len := Len();
      free := n - len;
    }

    static method Copy(a: array<byte>, at: nat, data: seq<byte>)
      requires at + |data| <= a.Length
      modifies a
      ensures Written(old(a[..]), a[..], at, data)
      ensures at == 0 ==> a[..] == data + old(a[..])[|data|..]
    {
      for i := 0 to |data|
        invariant forall j :: 0 <= j < a.Length ==>
                    a[j] == if at <= j < at + i then data[j - at] else old(a[j])
      {
        a[at + i] := data[i];
      }
    }
  }
}
