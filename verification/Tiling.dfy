/** The heap's memory seen as a row of tiles: every byte between `bottom` and `top` belongs to
    exactly one tile, and a tile is either a hole or a block handed out to a caller. */
module Tiling {
  import opened Alignment
  import opened Sequences

  datatype Tile = Tile(addr: int, size: int, free: bool) {
    function End(): int { addr + size }
  }

  /** Smallest tile that can store a hole header: two words. */
  function MinSize(a: int): int { 2 * a }

  predicate Piece(t: Tile, a: int)
    requires a > 0
  {
    MinSize(a) <= t.size && Aligned(t.addr, a) && Aligned(t.size, a)
  }

  /** The tiles cover [lo, hi) from left to right with neither gap nor overlap. */
  ghost predicate Tiles(ts: seq<Tile>, lo: int, hi: int, a: int)
    requires a > 0
  {
    && |ts| > 0 && ts[0].addr == lo && ts[|ts| - 1].End() == hi
    && (forall t :: t in ts ==> Piece(t, a))
    && (forall i, j :: 0 <= i && j == i + 1 && j < |ts| ==> ts[i].End() == ts[j].addr)
  }

  /** No hole touches another hole. */
  ghost predicate Coalesced(ts: seq<Tile>) {
    forall i, j :: 0 <= i && j == i + 1 && j < |ts| ==> !(ts[i].free && ts[j].free)
  }

  ghost predicate Canonical(ts: seq<Tile>, lo: int, hi: int, a: int)
    requires a > 0
  {
    Tiles(ts, lo, hi, a) && Coalesced(ts)
  }

  /** The holes, by increasing address. */
  function Holes(ts: seq<Tile>): seq<Tile> {
    if ts == [] then [] else (if ts[0].free then [ts[0]] else []) + Holes(ts[1..])
  }

  /** The blocks in use. */
  ghost function Live(ts: seq<Tile>): set<Tile> {
    set t | t in ts && !t.free
  }

  function TotalSize(ts: seq<Tile>): int {
    if ts == [] then 0 else ts[0].size + TotalSize(ts[1..])
  }

  function InUse(ts: seq<Tile>): seq<Tile> {
    if ts == [] then [] else (if ts[0].free then [] else [ts[0]]) + InUse(ts[1..])
  }

  // ----- order

  lemma {:induction false} EndsBefore(ts: seq<Tile>, lo: int, hi: int, a: int, i: nat, j: nat)
    requires a > 0 && Tiles(ts, lo, hi, a) && i < j < |ts|
    ensures ts[i].End() <= ts[j].addr && ts[i].addr < ts[j].addr
    decreases j - i
  {
    assert Piece(ts[i], a) && ts[i].End() == ts[i + 1].addr;
    if i + 1 < j {
      EndsBefore(ts, lo, hi, a, i + 1, j);
    }
  }

  lemma TileBounds(ts: seq<Tile>, lo: int, hi: int, a: int)
    requires a > 0 && Tiles(ts, lo, hi, a)
    ensures forall i, j :: 0 <= i < j < |ts| ==> ts[i].End() <= ts[j].addr && ts[i].addr < ts[j].addr
    ensures forall t :: t in ts ==> lo <= t.addr && t.End() <= hi
    ensures forall t :: t in ts ==> t.addr == lo || lo + MinSize(a) <= t.addr
    ensures forall t :: t in ts ==> t.End() == hi || t.End() + MinSize(a) <= hi
  {
    forall i, j | 0 <= i < j < |ts|
      ensures ts[i].End() <= ts[j].addr && ts[i].addr < ts[j].addr
    {
      EndsBefore(ts, lo, hi, a, i, j);
    }
    forall t | t in ts
      ensures lo <= t.addr && t.End() <= hi
      ensures t.addr == lo || lo + MinSize(a) <= t.addr
      ensures t.End() == hi || t.End() + MinSize(a) <= hi
    {
      var i :| 0 <= i < |ts| && ts[i] == t;
      var last := |ts| - 1;
      assert Piece(ts[0], a) && Piece(ts[last], a) && Piece(t, a);
      assert i > 0 ==> ts[0].End() <= ts[i].addr;
      assert i < last ==> ts[i].End() <= ts[last].addr;
    }
  }

  lemma Endpoints(ts: seq<Tile>, lo: int, hi: int, a: int, k: nat)
    requires a > 0 && Tiles(ts, lo, hi, a) && k < |ts|
    ensures k > 0 ==> Tiles(ts[..k], lo, ts[k].addr, a)
    ensures k + 1 < |ts| ==> Tiles(ts[k + 1..], ts[k].End(), hi, a)
    ensures Tiles(ts[k..], ts[k].addr, hi, a)
    ensures ts == ts[..k] + [ts[k]] + ts[k + 1..]
  {
  }

  /** Two tiles are the same tile or do not overlap. */
  lemma Apart(ts: seq<Tile>, lo: int, hi: int, a: int, t: Tile, u: Tile)
    requires a > 0 && Tiles(ts, lo, hi, a) && t in ts && u in ts
    ensures t == u || t.End() <= u.addr || u.End() <= t.addr
    ensures t.size > 0 && u.size > 0
  {
    var i :| 0 <= i < |ts| && ts[i] == t;
    var j :| 0 <= j < |ts| && ts[j] == u;
    if i < j {
      EndsBefore(ts, lo, hi, a, i, j);
    } else if j < i {
      EndsBefore(ts, lo, hi, a, j, i);
    }
    assert Piece(t, a) && Piece(u, a);
  }

  // ----- filtering

  lemma {:induction false} HolesMembers(ts: seq<Tile>)
    ensures forall h :: h in Holes(ts) <==> h in ts && h.free
  {
    if ts != [] {
      HolesMembers(ts[1..]);
      assert ts == [ts[0]] + ts[1..];
    }
  }

  lemma HolesCons(t: Tile, ts: seq<Tile>)
    ensures Holes([t] + ts) == (if t.free then [t] else []) + Holes(ts)
  {
    ConsParts(t, ts, 0);
  }

  lemma {:induction false} HolesConcat(s: seq<Tile>, t: seq<Tile>)
    ensures Holes(s + t) == Holes(s) + Holes(t)
  {
    if s == [] {
      assert s + t == t;
    } else {
      var head := if s[0].free then [s[0]] else [];
      HeadAndTail(s);
      Associative([s[0]], s[1..], t);
      HolesCons(s[0], s[1..] + t);
      HolesConcat(s[1..], t);
      Associative(head, Holes(s[1..]), Holes(t));
    }
  }

  lemma HolesAround(pre: seq<Tile>, mid: seq<Tile>, post: seq<Tile>)
    ensures Holes(pre + mid + post) == Holes(pre) + Holes(mid) + Holes(post)
  {
    HolesConcat(pre + mid, post);
    HolesConcat(pre, mid);
  }

  lemma SplitAt(ts: seq<Tile>, k: nat)
    requires k < |ts|
    ensures ts == ts[..k] + [ts[k]] + ts[k + 1..]
  {
  }

  lemma HolesMiddle(pre: seq<Tile>, t: Tile, post: seq<Tile>)
    ensures Holes(pre + [t] + post) == if t.free then Holes(pre) + [t] + Holes(post) else Holes(pre) + Holes(post)
  {
    HolesAround(pre, [t], post);
    HolesOne(t);
  }

  lemma HolesOne(t: Tile)
    ensures Holes([t]) == if t.free then [t] else []
  {
    assert [t][1..] == [] && Holes([]) == [];
  }

  /** If it is not the first tile, hole number i is one of the rest. */
  lemma LocateInRest(t: Tile, rest: seq<Tile>, i: nat, k: nat)
    requires var skip := if t.free then 1 else 0;
             && skip <= i && i - skip < |Holes(rest)| && k < |rest| && rest[k] == Holes(rest)[i - skip]
             && Holes(rest[..k]) == Holes(rest)[..i - skip] && Holes(rest[k + 1..]) == Holes(rest)[i - skip + 1..]
    ensures var ts := [t] + rest;
            && i < |Holes(ts)| && ts[k + 1] == Holes(ts)[i]
            && Holes(ts[..k + 1]) == Holes(ts)[..i] && Holes(ts[k + 2..]) == Holes(ts)[i + 1..]
  {
    var head := if t.free then [t] else [];
    HolesCons(t, rest);
    HolesCons(t, rest[..k]);
    ConsParts(t, rest, k);
    ConsParts(t, rest, k + 1);
    AppendParts(head, Holes(rest), i - |head|);
    AppendParts(head, Holes(rest), i - |head| + 1);
  }

  /** Hole number i of the list, found in the row of tiles. */
  lemma {:induction false} LocateHole(ts: seq<Tile>, i: nat) returns (k: nat)
    requires i < |Holes(ts)|
    ensures k < |ts| && ts[k] == Holes(ts)[i]
    ensures Holes(ts[..k]) == Holes(ts)[..i] && Holes(ts[k + 1..]) == Holes(ts)[i + 1..]
  {
    var rest := ts[1..];
    HeadAndTail(ts);
    HolesCons(ts[0], rest);
    if ts[0].free && i == 0 {
      k := 0;
      AppendParts([ts[0]], Holes(rest), 0);
    } else {
      k := LocateHole(rest, if ts[0].free then i - 1 else i);
      LocateInRest(ts[0], rest, i, k);
      k := k + 1;
    }
  }

  lemma {:induction false} TotalSizeSpan(ts: seq<Tile>, lo: int, hi: int, a: int)
    requires a > 0 && Tiles(ts, lo, hi, a)
    ensures TotalSize(ts) == hi - lo
  {
    if |ts| > 1 {
      Endpoints(ts, lo, hi, a, 0);
      TotalSizeSpan(ts[1..], ts[0].End(), hi, a);
    }
  }

  /** Conservation: every byte between bottom and top is in a hole or in a block in use. */
  lemma {:induction false} BytesConserved(ts: seq<Tile>, lo: int, hi: int, a: int)
    requires a > 0 && Tiles(ts, lo, hi, a)
    ensures TotalSize(Holes(ts)) + TotalSize(InUse(ts)) == hi - lo
  {
    if |ts| > 1 {
      Endpoints(ts, lo, hi, a, 0);
      BytesConserved(ts[1..], ts[0].End(), hi, a);
      var hs, us := Holes(ts[1..]), InUse(ts[1..]);
      if ts[0].free {
        assert Holes(ts) == [ts[0]] + hs && ([ts[0]] + hs)[1..] == hs && InUse(ts) == us;
      } else {
        assert InUse(ts) == [ts[0]] + us && ([ts[0]] + us)[1..] == us && Holes(ts) == hs;
      }
    } else {
      assert ts == [ts[0]] && Holes([]) == [] && InUse([]) == [];
      assert TotalSize([ts[0]]) == ts[0].size;
    }
  }

  /** Each address of the arena lies in exactly one tile. */
  lemma {:induction false} EveryByteOnce(ts: seq<Tile>, lo: int, hi: int, a: int, x: int)
    requires a > 0 && Tiles(ts, lo, hi, a) && lo <= x < hi
    ensures exists k :: 0 <= k < |ts| && ts[k].addr <= x < ts[k].End()
    ensures forall j, k :: (0 <= j < |ts| && 0 <= k < |ts| && ts[j].addr <= x < ts[j].End()
                            && ts[k].addr <= x < ts[k].End()) ==> j == k
  {
    if x < ts[0].End() {
      assert ts[0].addr <= x;
    } else {
      Endpoints(ts, lo, hi, a, 0);
      EveryByteOnce(ts[1..], ts[0].End(), hi, a, x);
      var k :| 0 <= k < |ts[1..]| && ts[1..][k].addr <= x < ts[1..][k].End();
      assert ts[k + 1].addr <= x < ts[k + 1].End();
    }
    forall j, k | 0 <= j < |ts| && 0 <= k < |ts| && ts[j].addr <= x < ts[j].End() && ts[k].addr <= x < ts[k].End()
      ensures j == k
    {
      if j < k {
        EndsBefore(ts, lo, hi, a, j, k);
      } else if k < j {
        EndsBefore(ts, lo, hi, a, k, j);
      }
    }
  }

  // ----- the free list is determined by the blocks in use

  lemma HeadsAgree(ts: seq<Tile>, us: seq<Tile>, lo: int, hi: int, a: int)
    requires a > 0 && Canonical(ts, lo, hi, a) && Canonical(us, lo, hi, a)
    requires Live(ts) == Live(us) && ts[0].free
    ensures us[0].free && us[0].End() >= ts[0].End()
  {
    var t, u := ts[0], us[0];
    TileBounds(ts, lo, hi, a);
    assert t in ts && u in us && Piece(u, a);
    assert u in Live(us) <==> !u.free;
    if u in ts {
      Apart(ts, lo, hi, a, t, u);
    }
    assert u.free;
    if |us| > 1 {
      var v := us[1];
      assert !v.free && v in us && v.addr == u.End();
      assert v in Live(us);
      assert v in ts;
      Apart(ts, lo, hi, a, t, v);
    }
  }

  lemma LiveTail(ts: seq<Tile>, lo: int, hi: int, a: int)
    requires a > 0 && Tiles(ts, lo, hi, a)
    ensures Live(ts[1..]) == Live(ts) - {ts[0]}
  {
    assert ts == [ts[0]] + ts[1..];
    assert ts[0] !in ts[1..] by {
      TileBounds(ts, lo, hi, a);
      assert forall j :: 0 <= j < |ts[1..]| ==> ts[0].addr < ts[1..][j].addr;
    }
  }

  lemma SameHead(ts: seq<Tile>, us: seq<Tile>, lo: int, hi: int, a: int)
    requires a > 0 && Canonical(ts, lo, hi, a) && Canonical(us, lo, hi, a)
    requires Live(ts) == Live(us)
    ensures ts[0] == us[0]
  {
    var t := ts[0];
    if t.free {
      HeadsAgree(ts, us, lo, hi, a);
      HeadsAgree(us, ts, lo, hi, a);
    } else {
      assert t in Live(ts);
      assert t in us && us[0] in us;
      Apart(us, lo, hi, a, t, us[0]);
    }
  }

  lemma OneTile(ts: seq<Tile>, lo: int, hi: int, a: int)
    requires a > 0 && Tiles(ts, lo, hi, a)
    ensures |ts| == 1 <==> ts[0].End() == hi
  {
    if |ts| > 1 {
      TileBounds(ts, lo, hi, a);
      assert ts[1] in ts && Piece(ts[1], a) && ts[0].End() == ts[1].addr;
    }
  }

  /** A canonical row of tiles is a function of its bounds and of the set of blocks in use.
      What order blocks were allocated and freed in leaves no trace. */
  lemma {:induction false} Unique(ts: seq<Tile>, us: seq<Tile>, lo: int, hi: int, a: int)
    requires a > 0 && Canonical(ts, lo, hi, a) && Canonical(us, lo, hi, a)
    requires Live(ts) == Live(us)
    ensures ts == us
  {
    SameHead(ts, us, lo, hi, a);
    OneTile(ts, lo, hi, a);
    OneTile(us, lo, hi, a);
    if |ts| > 1 {
      Endpoints(ts, lo, hi, a, 0);
      Endpoints(us, lo, hi, a, 0);
      LiveTail(ts, lo, hi, a);
      LiveTail(us, lo, hi, a);
      Unique(ts[1..], us[1..], ts[0].End(), hi, a);
    }
  }

  /** Once everything is freed a single hole spans the arena. */
  lemma AllFreed(ts: seq<Tile>, lo: int, hi: int, a: int)
    requires a > 0 && Canonical(ts, lo, hi, a) && Live(ts) == {}
    ensures ts == [Tile(lo, hi - lo, true)] && Holes(ts) == ts
  {
    assert forall t :: t in ts && !t.free ==> t in Live(ts);
    assert ts[0] in ts && ts[0].free;
    var second := ts[if |ts| > 1 then 1 else 0];
    assert second in ts && second.free;
    assert |ts| == 1;
    assert ts == [ts[0]] && Holes([]) == [];
  }
}
