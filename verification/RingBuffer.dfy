/** Index arithmetic of a ring: `start`, `end` and a flag that tells full from empty. */
module Rings {

  function Min(a: nat, b: nat): nat { if a < b then a else b }

  function Wrap(n: nat, x: nat): nat {
    if x < n then x else x - n
  }

  /** The `len` elements of a ring that start at `start`, in order. */
  function Unwrap<T>(s: seq<T>, start: nat, len: nat): (r: seq<T>)
    requires start <= |s| && len <= |s|
    ensures |r| == len
  {
    if start + len <= |s| then s[start..start + len] else s[start..] + s[..start + len - |s|]
  }

  lemma UnwrapAt<T>(s: seq<T>, start: nat, len: nat, i: nat)
    requires start <= |s| && i < len <= |s|
    ensures Unwrap(s, start, len)[i] == s[Wrap(|s|, start + i)]
  {
  }

  /** Reading k elements from the front. */
  lemma UnwrapDrop<T>(s: seq<T>, start: nat, len: nat, k: nat)
    requires start <= |s| && k <= len <= |s| && start + k <= |s| && (start < |s| || s == [])
    ensures s[start..start + k] == Unwrap(s, start, len)[..k]
    ensures Unwrap(s, Wrap(|s|, start + k), len - k) == Unwrap(s, start, len)[k..]
  {
  }

  /** `s'` is `s` with `data` written from index e on. */
  ghost predicate Written<T>(s: seq<T>, s': seq<T>, e: nat, data: seq<T>) {
    && |s'| == |s| && e + |data| <= |s|
    && forall i :: 0 <= i < |s| ==> s'[i] == if e <= i < e + |data| then data[i - e] else s[i]
  }

  /** Writing behind the last element appends. */
  lemma UnwrapAppend<T>(s: seq<T>, s': seq<T>, start: nat, len: nat, data: seq<T>)
    requires start < |s| && len + |data| <= |s| && Written(s, s', Wrap(|s|, start + len), data)
    ensures Unwrap(s', start, len + |data|) == Unwrap(s, start, len) + data
  {
    var r, q := Unwrap(s', start, len + |data|), Unwrap(s, start, len) + data;
    forall i | 0 <= i < len + |data|
      ensures r[i] == q[i]
    {
      UnwrapAt(s', start, len + |data|, i);
      if i < len {
        UnwrapAt(s, start, len, i);
        NotOverwritten(|s|, start, len, |data|, i);
      } else {
        BehindLast(|s|, start, len, i);
      }
    }
  }

  lemma NotOverwritten(n: nat, start: nat, len: nat, k: nat, i: nat)
    requires start < n && i < len && len + k <= n
    ensures var e := Wrap(n, start + len); !(e <= Wrap(n, start + i) < e + k)
  {
  }

  lemma BehindLast(n: nat, start: nat, len: nat, i: nat)
    requires start < n && len <= i < n
    ensures Wrap(n, start + len) + (i - len) < n ==> Wrap(n, start + i) == Wrap(n, start + len) + (i - len)
  {
  }

  /** How many elements can be read without wrapping, and how many can be written. */
  function ReadRun(n: nat, start: nat, len: nat): nat
    requires start <= n
  {
    Min(len, n - start)
  }

  function WriteRun(n: nat, start: nat, len: nat): nat
    requires start <= n && len <= n
  {
    if len == n then 0 else if start + len < n then n - (start + len) else n - len
  }

  class RingBuffer {
    const n: nat
    var start: nat
    var end: nat
    var full: bool

    ghost predicate Valid()
      reads this
    {
      if n == 0 then start == end == 0 && !full else start < n && end < n && (full ==> start == end)
    }

    ghost function Count(): (len: nat)
      requires Valid()
      reads this
      ensures len <= n && (n > 0 ==> end == Wrap(n, start + len) && (full <==> len == n))
    {
      if start == end && !full then 0 else if start < end then end - start else n + end - start
    }

    constructor (n: nat)
      ensures Valid() && this.n == n && Count() == 0 && start == 0
    {
      this.n := n;
      start, end, full := 0, 0, false;
    }

    /** The range to write to next; empty if and only if nothing can be written. It ends where the
        free elements end or the buffer does. */
    method PushBuf() returns (lo: nat, hi: nat)
      requires Valid()
      ensures hi - lo == WriteRun(n, start, Count()) && hi <= n
      ensures lo < hi ==> lo == Wrap(n, start + Count())
      ensures lo <= hi && (lo == hi <==> Count() == n)
      ensures Count() + (hi - lo) == n || hi == n
    {
      if full {
        return 0, 0;
      }
      var len := if start <= end then n - end else start - end;
      return end, end + len;
    }

    method Push(k: nat)
      requires Valid() && k <= WriteRun(n, start, Count())
      modifies this
      ensures Valid() && start == old(start) && Count() == old(Count()) + k
    {
      if k == 0 {
        return;
      }
      end := WrapIndex(end + k);
      full := start == end;
    }

    /** The range to read from next; empty if and only if there is nothing to read. It ends where
        the elements end or the buffer does. */
    method PopBuf() returns (lo: nat, hi: nat)
      requires Valid()
      ensures hi - lo == ReadRun(n, start, Count()) && hi <= n
      ensures lo < hi ==> lo == start
      ensures lo <= hi && (lo == hi <==> Count() == 0)
      ensures hi - lo == Count() || hi == n
    {
      if start == end && !full {
        return 0, 0;
      }
      var len := if end <= start then n - start else end - start;
      return start, start + len;
    }

    method Pop(k: nat)
      requires Valid() && k <= ReadRun(n, start, Count())
      modifies this
      ensures Valid() && start == (if k == 0 then old(start) else Wrap(n, old(start) + k))
      ensures Count() == old(Count()) - k
    {
      if k == 0 {
        return;
      }
      start := WrapIndex(start + k);
      full := false;
    }

    method Len() returns (len: nat)
      requires Valid()
      ensures len == Count()
    {
      if start == end && !full {
        len := 0;
      } else if start < end {
        len := end - start;
      } else {
        len := n + end - start;
      }
    }

    method Clear()
      requires Valid()
      modifies this
      ensures Valid() && Count() == 0 && start == 0
    {
      start, end, full := 0, 0, false;
    }

    method WrapIndex(x: nat) returns (r: nat)
      requires x <= n   // asserted by the program
      ensures r == Wrap(n, x)
    {
      r := if x == n then 0 else x;
    }
  }
}
