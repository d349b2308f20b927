/** What the canonical free list means for whole histories of allocations and releases. */
module HeapLaws {
  import opened Alignment
  import opened Wrappers
  import opened Tiling
  import opened FirstFit
  import opened HoleHeap

  function IndexOf(ts: seq<Tile>, t: Tile): (k: nat)
    requires t in ts
    ensures k < |ts| && ts[k] == t
  {
    if ts[0] == t then 0 else 1 + IndexOf(ts[1..], t)
  }

  function ReleaseBlock(ts: seq<Tile>, t: Tile): seq<Tile>
    requires t in ts
  {
    Release(ts, IndexOf(ts, t))
  }

  lemma ReleaseBlockKeeps(ts: seq<Tile>, t: Tile, lo: int, hi: int, a: int)
    requires a > 0 && Canonical(ts, lo, hi, a) && t in Live(ts)
    ensures Canonical(ReleaseBlock(ts, t), lo, hi, a)
    ensures Live(ReleaseBlock(ts, t)) == Live(ts) - {t}
  {
    ReleaseKeeps(ts, IndexOf(ts, t), lo, hi, a);
  }

  lemma TwoReleases(ts: seq<Tile>, t: Tile, u: Tile, lo: int, hi: int, a: int)
    requires a > 0 && Canonical(ts, lo, hi, a) && t in Live(ts) && u in Live(ts) && t != u
    ensures u in ReleaseBlock(ts, t)
    ensures Canonical(ReleaseBlock(ReleaseBlock(ts, t), u), lo, hi, a)
    ensures Live(ReleaseBlock(ReleaseBlock(ts, t), u)) == Live(ts) - {t, u}
  {
    ReleaseBlockKeeps(ts, t, lo, hi, a);
    var us := ReleaseBlock(ts, t);
    assert u in Live(us);
    ReleaseBlockKeeps(us, u, lo, hi, a);
  }

  /** Blocks may be freed in either order. */
  lemma FreesCommute(ts: seq<Tile>, t: Tile, u: Tile, lo: int, hi: int, a: int)
    requires a > 0 && Canonical(ts, lo, hi, a) && t in Live(ts) && u in Live(ts) && t != u
    ensures u in ReleaseBlock(ts, t) && t in ReleaseBlock(ts, u)
    ensures ReleaseBlock(ReleaseBlock(ts, t), u) == ReleaseBlock(ReleaseBlock(ts, u), t)
  {
    TwoReleases(ts, t, u, lo, hi, a);
    TwoReleases(ts, u, t, lo, hi, a);
    assert {t, u} == {u, t};
    Unique(ReleaseBlock(ReleaseBlock(ts, t), u), ReleaseBlock(ReleaseBlock(ts, u), t), lo, hi, a);
  }

  ghost predicate Distinct(order: seq<Tile>) {
    forall i, j :: 0 <= i < j < |order| ==> order[i] != order[j]
  }

  /** Frees the blocks one after the other; a tile that is not there is skipped. */
  function ReleaseAll(ts: seq<Tile>, order: seq<Tile>): seq<Tile>
    decreases |order|
  {
    if order == [] then ts
    else ReleaseAll(if order[0] in ts then ReleaseBlock(ts, order[0]) else ts, order[1..])
  }

  /** Freeing every block, in any order whatever, leaves one hole from bottom to top. */
  lemma {:induction false} FreeingAll(ts: seq<Tile>, order: seq<Tile>, lo: int, hi: int, a: int)
    requires a > 0 && Canonical(ts, lo, hi, a)
    requires Distinct(order) && Live(ts) == set t | t in order
    ensures ReleaseAll(ts, order) == [Tile(lo, hi - lo, true)]
    decreases |order|
  {
    if order == [] {
      AllFreed(ts, lo, hi, a);
    } else {
      var t, rest := order[0], order[1..];
      assert t in Live(ts);
      ReleaseBlockKeeps(ts, t, lo, hi, a);
      assert order == [t] + rest;
      assert (set x | x in order) - {t} == set x | x in rest;
      FreeingAll(ReleaseBlock(ts, t), rest, lo, hi, a);
    }
  }

  /** Holes are maximal: any stretch of memory without a block in use lies inside one hole. */
  lemma FreeStretchInOneHole(ts: seq<Tile>, x: int, y: int, lo: int, hi: int, a: int)
    requires a > 0 && Canonical(ts, lo, hi, a) && lo <= x < y <= hi
    requires forall t :: t in Live(ts) ==> t.End() <= x || y <= t.addr
    ensures exists h :: h in Holes(ts) && h.addr <= x && y <= h.End()
  {
    EveryByteOnce(ts, lo, hi, a, x);
    var k :| 0 <= k < |ts| && ts[k].addr <= x < ts[k].End();
    var found := ts[k];
    assert found in ts && (found in Live(ts) <==> !found.free);
    HolesMembers(ts);
    if k + 1 < |ts| {
      var next := ts[k + 1];
      assert next in ts && !next.free && next in Live(ts);
      assert ts[k].End() == next.addr;
      assert Piece(next, a);
    }
    assert y <= ts[k].End();
  }

  /** Two heaps over the same memory with the same blocks in use have the same free list,
      whatever was allocated and freed before. */
  lemma SameFreeList(g: HoleList, h: HoleList)
    requires g.Valid() && h.Valid() && g.a == h.a && g.bottom == h.bottom && g.top == h.top
    requires Live(g.tiles) == Live(h.tiles)
    ensures Holes(g.tiles) == Holes(h.tiles)
    ensures STUB in g.mem && STUB in h.mem && g.mem[STUB] == h.mem[STUB]
    ensures forall x :: x in Holes(g.tiles) ==>
              x.addr in g.mem && x.addr in h.mem && g.mem[x.addr] == h.mem[x.addr]
  {
    Unique(g.tiles, h.tiles, g.bottom, g.top, g.a);
    var hs := Holes(g.tiles);
    assert ([DUMMY] + hs)[0] == DUMMY;
    forall x | x in hs
      ensures x.addr in g.mem && x.addr in h.mem && g.mem[x.addr] == h.mem[x.addr]
    {
      var i :| 0 <= i < |hs| && hs[i] == x;
      NodeAt(g.mem, hs, i);
      NodeAt(h.mem, hs, i);
    }
  }

  /** Every byte of a valid heap is accounted for, and no header lies in a block in use. */
  lemma Accounting(h: HoleList)
    requires h.Valid()
    ensures TotalSize(Holes(h.tiles)) + TotalSize(InUse(h.tiles)) == h.top - h.bottom
    ensures forall x, b :: x in Holes(h.tiles) && b in Live(h.tiles) ==>
              x.addr + MinSize(h.a) <= b.addr || b.End() <= x.addr
  {
    BytesConserved(h.tiles, h.bottom, h.top, h.a);
    HolesMembers(h.tiles);
    forall x, b | x in Holes(h.tiles) && b in Live(h.tiles)
      ensures x.addr + MinSize(h.a) <= b.addr || b.End() <= x.addr
    {
      Apart(h.tiles, h.bottom, h.top, h.a, x, b);
      assert Piece(x, h.a);
    }
  }

  /** Whatever the owner of a block writes in it, the free list stays intact: no header it is
      made of overlaps the block. */
  lemma OwnerMayWrite(mem: map<int, Hole>, mem': map<int, Hole>, ts: seq<Tile>, b: Tile, lo: int, hi: int, a: int)
    requires a > 0 && STUB < lo && Tiles(ts, lo, hi, a) && b in Live(ts) && Listed(mem, Holes(ts))
    requires forall x :: x in mem && (x == STUB || x + MinSize(a) <= b.addr || b.End() <= x) ==>
               x in mem' && mem'[x] == mem[x]
    ensures Listed(mem', Holes(ts))
  {
    var ns := [DUMMY] + Holes(ts);
    HolesMembers(ts);
    forall i | 0 <= i < |ns|
      ensures ns[i].addr in mem' && mem'[ns[i].addr] == mem[ns[i].addr]
    {
      if i > 0 {
        assert ns[i] in Holes(ts);
        Apart(ts, lo, hi, a, ns[i], b);
        assert Piece(ns[i], a);
      }
    }
  }

  /** Allocating a block and freeing it again restores the free list. */
  method AllocateThenFree(h: HoleList, size: nat, align: int)
    requires h.Valid() && IsPow2(align)
    modifies h
    ensures h.Valid() && h.tiles == old(h.tiles)
  {
    ghost var before := h.tiles;
    var r := h.AllocateFirstFit(size, align);
    if r.Some? {
      var (p, n) := r.value;
      assert Tile(p, n, false) in Live(h.tiles);
      NewBlock(before, p, n, align, h.bottom, h.top, h.a);
      h.Deallocate(p, size);
      Unique(h.tiles, before, h.bottom, h.top, h.a);
    }
  }
}
