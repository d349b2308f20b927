/** What allocation and release do to a row of tiles. */
module FirstFit {
  import opened Alignment
  import opened Sequences
  import opened Wrappers
  import opened Tiling

  /** `p` is a place for `size` bytes inside hole `t`: aligned, and what is left of the hole on
      either side is nothing or big enough to be a hole of its own. */
  ghost predicate Placement(t: Tile, p: int, size: int, align: int, a: int)
    requires align > 0
  {
    && t.free && Aligned(p, align)
    && (p == t.addr || t.addr + MinSize(a) <= p)
    && (p + size == t.End() || p + size + MinSize(a) <= t.End())
  }

  /** The place that `split_current` tries in a hole, if it accepts the hole. */
  function FitIn(t: Tile, size: int, align: int, a: int): Option<int>
    requires a > 0 && align > 0
  {
    if t.size < size then None else
    var p := if t.addr == AlignUp(t.addr, align) then t.addr else AlignUp(t.addr + MinSize(a), align);
    if p + size > t.End() then None
    else if p + size == t.End() || AlignUp(p + size, a) + MinSize(a) <= t.End() then Some(p)
    else None
  }

  ghost predicate Request(size: int, align: int, a: int) {
    a > 0 && IsPow2(a) && IsPow2(align) && Aligned(size, a) && MinSize(a) <= size
  }

  lemma FirstTryAligned(t: Tile, size: int, align: int, a: int)
    requires Request(size, align, a) && Piece(t, a)
    ensures var p := if t.addr == AlignUp(t.addr, align) then t.addr else AlignUp(t.addr + MinSize(a), align);
            Aligned(p, a) && Aligned(p + size, a) && AlignUp(p + size, a) == p + size
    ensures t.addr != AlignUp(t.addr, align) ==> MinSize(a) <= align
  {
    if t.addr == AlignUp(t.addr, align) {
      AlignedSum(t.addr, size, a);
    } else {
      if align <= a {
        Pow2Divides(align, a);
        AlignedTransitive(t.addr, a, align);
        AlignUpLeast(t.addr, align, t.addr);
        assert false;
      }
      Pow2Divides(a, align);
      var p := AlignUp(t.addr + MinSize(a), align);
      AlignedTransitive(p, align, a);
      AlignedSum(p, size, a);
      AlignedSum(align, a, a);
      AlignedGap(align - a, a);
    }
  }

  /** `split_current` is right to accept and right to refuse: the place it tries is the lowest
      possible one, and when that one fails no other place in the hole would do. */
  lemma FitInLeast(t: Tile, size: int, align: int, a: int)
    requires Request(size, align, a) && Piece(t, a) && t.free
    ensures forall p :: FitIn(t, size, align, a) == Some(p) ==>
              Placement(t, p, size, align, a) && Aligned(p, a)
              && (forall q :: Placement(t, q, size, align, a) ==> p <= q)
    ensures FitIn(t, size, align, a) == None ==> forall q :: !Placement(t, q, size, align, a)
  {
    FirstTryAligned(t, size, align, a);
    var start := AlignUp(t.addr, align);
    var p := if t.addr == start then t.addr else AlignUp(t.addr + MinSize(a), align);
    forall q | Placement(t, q, size, align, a)
      ensures p <= q && FitIn(t, size, align, a) == Some(p)
    {
      if t.addr != start {
        AlignUpLeast(t.addr + MinSize(a), align, if q == t.addr then p else q);
        AlignUpLeast(t.addr, align, if q == t.addr then q else start);
      }
      assert p <= q;
      if q > p && p != t.addr {
        AlignedSum(q, p, align);
        AlignedGap(q - p, align);
      }
    }
    assert p == t.addr || t.addr + MinSize(a) <= p;
  }

  /** Somewhere in the free memory there is a place for the block at `p`. */
  ghost predicate CanPlace(ts: seq<Tile>, p: int, size: int, align: int, a: int)
    requires align > 0
  {
    exists t :: t in ts && Placement(t, p, size, align, a)
  }

  ghost predicate LowestPlace(ts: seq<Tile>, p: int, size: int, align: int, a: int)
    requires align > 0
  {
    CanPlace(ts, p, size, align, a) && forall q :: CanPlace(ts, q, size, align, a) ==> p <= q
  }

  /** A place for a block is aligned, inside the heap, and holds no block yet. */
  lemma NewBlock(ts: seq<Tile>, p: int, n: int, align: int, lo: int, hi: int, a: int)
    requires Request(n, align, a) && Tiles(ts, lo, hi, a) && CanPlace(ts, p, n, align, a)
    ensures Aligned(p, align) && lo <= p && p + n <= hi
    ensures Tile(p, n, false) !in Live(ts)
    ensures forall b :: b in Live(ts) ==> p + n <= b.addr || b.End() <= p
  {
    var t :| t in ts && Placement(t, p, n, align, a);
    TileBounds(ts, lo, hi, a);
    forall b | b in Live(ts)
      ensures p + n <= b.addr || b.End() <= p
    {
      Apart(ts, lo, hi, a, t, b);
    }
  }

  /** A hole that fits exactly, or with a header's room to spare, is never refused when it is
      aligned; a hole with room for any alignment is never refused. */
  lemma RoomSuffices(ts: seq<Tile>, t: Tile, size: int, align: int, a: int)
    requires Request(size, align, a) && t in ts && t.free
    ensures Aligned(t.addr, align) && (t.size == size || t.size >= size + MinSize(a)) ==> CanPlace(ts, t.addr, size, align, a)
    ensures t.size >= size + align + 2 * MinSize(a) ==> exists p :: CanPlace(ts, p, size, align, a)
  {
    if Aligned(t.addr, align) && (t.size == size || t.size >= size + MinSize(a)) {
      assert Placement(t, t.addr, size, align, a);
    }
    if t.size >= size + align + 2 * MinSize(a) {
      var p := AlignUp(t.addr + MinSize(a), align);
      assert Placement(t, p, size, align, a);
      assert CanPlace(ts, p, size, align, a);
    }
  }

  ghost predicate NoPlace(ts: seq<Tile>, size: int, align: int, a: int)
    requires align > 0
  {
    forall q :: !CanPlace(ts, q, size, align, a)
  }

  lemma HolesInOrder(ts: seq<Tile>, i: nat, j: nat, lo: int, hi: int, a: int)
    requires a > 0 && Tiles(ts, lo, hi, a) && i < j < |Holes(ts)|
    ensures Holes(ts)[i].addr < Holes(ts)[j].addr && Holes(ts)[i].End() <= Holes(ts)[j].addr
  {
    var k := LocateHole(ts, j);
    var below := Holes(ts[..k]);
    BelowBounds(ts, k, lo, hi, a);
    assert below[i] == Holes(ts)[i] && below[i] in below;
  }

  /** The first hole that is not refused holds the lowest place in the whole heap. */
  lemma FirstFitIsLowest(ts: seq<Tile>, i: nat, p: int, size: int, align: int, lo: int, hi: int, a: int)
    requires Request(size, align, a) && Tiles(ts, lo, hi, a) && i < |Holes(ts)|
    requires forall j :: 0 <= j < i ==> FitIn(Holes(ts)[j], size, align, a) == None
    requires FitIn(Holes(ts)[i], size, align, a) == Some(p)
    ensures LowestPlace(ts, p, size, align, a)
  {
    var hs := Holes(ts);
    var k := LocateHole(ts, i);
    HolesMembers(ts);
    assert hs[i] in hs && hs[i] in ts;
    FitInLeast(hs[i], size, align, a);
    forall q | CanPlace(ts, q, size, align, a)
      ensures p <= q
    {
      var t :| t in ts && Placement(t, q, size, align, a);
      assert t in hs;
      var j :| 0 <= j < |hs| && hs[j] == t;
      FitInLeast(t, size, align, a);
      if j > i {
        HolesInOrder(ts, i, j, lo, hi, a);
      }
    }
  }

  lemma AllRefused(ts: seq<Tile>, size: int, align: int, lo: int, hi: int, a: int)
    requires Request(size, align, a) && Tiles(ts, lo, hi, a)
    requires forall j :: 0 <= j < |Holes(ts)| ==> FitIn(Holes(ts)[j], size, align, a) == None
    ensures NoPlace(ts, size, align, a)
  {
    HolesMembers(ts);
    forall t, q | t in ts && t.free
      ensures !Placement(t, q, size, align, a)
    {
      assert t in Holes(ts);
      FitInLeast(t, size, align, a);
    }
  }

  // ----- allocation

  function FrontPad(t: Tile, p: int): seq<Tile> {
    if p == t.addr then [] else [Tile(t.addr, p - t.addr, true)]
  }

  function BackPad(t: Tile, e: int): seq<Tile> {
    if e == t.End() then [] else [Tile(e, t.End() - e, true)]
  }

  function Carve(ts: seq<Tile>, k: nat, p: int, size: int): seq<Tile>
    requires k < |ts|
  {
    ts[..k] + (FrontPad(ts[k], p) + [Tile(p, size, false)] + BackPad(ts[k], p + size)) + ts[k + 1..]
  }

  lemma PadPieces(t: Tile, p: int, size: int, align: int, a: int)
    requires Request(size, align, a) && Piece(t, a) && Placement(t, p, size, align, a) && Aligned(p, a)
    ensures Tiles(FrontPad(t, p) + [Tile(p, size, false)] + BackPad(t, p + size), t.addr, t.End(), a)
  {
    AlignedSum(p, t.addr, a);
    AlignedSum(t.addr, t.size, a);
    AlignedSum(p, size, a);
    AlignedSum(t.End(), p + size, a);
  }

  /** Replacing some tiles by tiles of the same span. */
  lemma SpliceTiles(ts: seq<Tile>, l: nat, r: nat, mid: seq<Tile>, lo: int, hi: int, a: int)
    requires a > 0 && Tiles(ts, lo, hi, a) && l < r <= |ts|
    requires Tiles(mid, ts[l].addr, ts[r - 1].End(), a)
    ensures Tiles(ts[..l] + mid + ts[r..], lo, hi, a)
  {
    var us := ts[..l] + mid + ts[r..];
    forall i, j | 0 <= i && j == i + 1 && j < |us|
      ensures us[i].End() == us[j].addr
    {
      if j < l {
        assert us[i] == ts[i] && us[j] == ts[j];
      } else if j == l {
        assert us[i] == ts[i] && us[j] == mid[0];
        assert ts[i].End() == ts[l].addr;
      } else if j < l + |mid| {
        assert us[i] == mid[i - l] && us[j] == mid[j - l];
      } else {
        var m := j - |mid| - l + r;
        assert us[j] == ts[m];
        if j == l + |mid| {
          assert us[i] == mid[|mid| - 1];
          assert ts[m - 1].End() == ts[m].addr;
        } else {
          assert us[i] == ts[m - 1];
        }
      }
    }
  }

  lemma CarveLive(ts: seq<Tile>, k: nat, p: int, size: int)
    requires k < |ts| && ts[k].free
    ensures Live(Carve(ts, k, p, size)) == Live(ts) + {Tile(p, size, false)}
  {
    assert ts == ts[..k] + [ts[k]] + ts[k + 1..];
    var us := Carve(ts, k, p, size);
    assert Tile(p, size, false) in us;
    forall t | t in Live(us)
      ensures t in Live(ts) + {Tile(p, size, false)}
    {
    }
  }

  /** Allocation in tile k keeps the row canonical, adds exactly the new block to the blocks in
      use, and leaves every other hole as it was. */
  lemma CarveKeeps(ts: seq<Tile>, k: nat, p: int, size: int, align: int, lo: int, hi: int, a: int)
    requires Request(size, align, a) && Canonical(ts, lo, hi, a) && k < |ts|
    requires Placement(ts[k], p, size, align, a) && Aligned(p, a)
    ensures Canonical(Carve(ts, k, p, size), lo, hi, a)
    ensures Live(Carve(ts, k, p, size)) == Live(ts) + {Tile(p, size, false)}
    ensures Holes(Carve(ts, k, p, size))
         == Holes(ts[..k]) + (FrontPad(ts[k], p) + BackPad(ts[k], p + size)) + Holes(ts[k + 1..])
  {
    var t := ts[k];
    assert t in ts && Piece(t, a);
    PadPieces(t, p, size, align, a);
    var mid := FrontPad(t, p) + [Tile(p, size, false)] + BackPad(t, p + size);
    SpliceTiles(ts, k, k + 1, mid, lo, hi, a);
    CarveLive(ts, k, p, size);
    HolesAround(ts[..k], mid, ts[k + 1..]);
    HolesAround(FrontPad(t, p), [Tile(p, size, false)], BackPad(t, p + size));
    HolesOne(Tile(p, size, false));
    PadsAreHoles(t, p, size);
    CarveCoalesced(ts, k, p, size);
  }

  lemma PadsAreHoles(t: Tile, p: int, size: int)
    ensures Holes(FrontPad(t, p)) == FrontPad(t, p)
    ensures Holes(BackPad(t, p + size)) == BackPad(t, p + size)
  {
    assert Holes([]) == [];
  }

  lemma CarveCoalesced(ts: seq<Tile>, k: nat, p: int, size: int)
    requires k < |ts| && ts[k].free && Coalesced(ts)
    ensures Coalesced(Carve(ts, k, p, size))
  {
    var t := ts[k];
    var mid := FrontPad(t, p) + [Tile(p, size, false)] + BackPad(t, p + size);
    var us := ts[..k] + mid + ts[k + 1..];
    forall i, j | 0 <= i && j == i + 1 && j < |us|
      ensures !(us[i].free && us[j].free)
    {
      if j < k {
        assert us[i] == ts[i] && us[j] == ts[j];
      } else if j == k {
        assert us[i] == ts[i] && !(ts[k].free && ts[i].free);
      } else if j < k + |mid| {
        assert us[i] == mid[i - k] && us[j] == mid[j - k];
      } else {
        var m := j - |mid| + 1;
        assert us[j] == ts[m];
        assert m == k + 1 ==> !(ts[k].free && ts[m].free);
        assert m > k + 1 ==> us[i] == ts[m - 1];
      }
    }
  }

  // ----- release

  predicate FreeAt(ts: seq<Tile>, k: int) {
    0 <= k < |ts| && ts[k].free
  }

  function LeftEdge(ts: seq<Tile>, k: nat): nat
    requires k < |ts|
  {
    if FreeAt(ts, k - 1) then k - 1 else k
  }

  function RightEdge(ts: seq<Tile>, k: nat): nat
    requires k < |ts|
  {
    if FreeAt(ts, k + 1) then k + 2 else k + 1
  }

  function Span(l: Tile, r: Tile): Tile {
    Tile(l.addr, r.End() - l.addr, true)
  }

  /** Tile k becomes free and is joined with the holes on either side of it. */
  function Release(ts: seq<Tile>, k: nat): seq<Tile>
    requires k < |ts|
  {
    var l, r := LeftEdge(ts, k), RightEdge(ts, k);
    ts[..l] + [Span(ts[l], ts[r - 1])] + ts[r..]
  }

  lemma SpanTiles(ts: seq<Tile>, l: nat, r: nat, lo: int, hi: int, a: int)
    requires a > 0 && Tiles(ts, lo, hi, a) && l < r <= |ts|
    ensures Tiles([Span(ts[l], ts[r - 1])], ts[l].addr, ts[r - 1].End(), a)
    decreases r - l
  {
    assert ts[r - 1] in ts && Piece(ts[r - 1], a);
    if l < r - 1 {
      SpanTiles(ts, l, r - 1, lo, hi, a);
      assert Piece(Span(ts[l], ts[r - 2]), a) by {
        assert Span(ts[l], ts[r - 2]) in [Span(ts[l], ts[r - 2])];
      }
      assert ts[r - 2].End() == ts[r - 1].addr;
      AlignedSum(Span(ts[l], ts[r - 2]).size, ts[r - 1].size, a);
    }
  }

  lemma LiveConcat(s: seq<Tile>, t: seq<Tile>)
    ensures Live(s + t) == Live(s) + Live(t)
  {
    assert forall x :: x in s + t <==> x in s || x in t;
  }

  lemma LiveSplice(pre: seq<Tile>, mid: seq<Tile>, post: seq<Tile>)
    ensures Live(pre + mid + post) == Live(pre) + Live(mid) + Live(post)
  {
    LiveConcat(pre + mid, post);
    LiveConcat(pre, mid);
  }

  lemma OnlyLive(mid: seq<Tile>, k: nat)
    requires k < |mid| && !mid[k].free
    requires forall i :: 0 <= i < |mid| && i != k ==> mid[i].free
    ensures Live(mid) == {mid[k]}
  {
  }

  lemma NowhereElse(ts: seq<Tile>, k: nat, l: nat, r: nat, lo: int, hi: int, a: int)
    requires a > 0 && Tiles(ts, lo, hi, a) && l <= k < r <= |ts|
    ensures ts[k] !in ts[..l] && ts[k] !in ts[r..]
  {
    TileBounds(ts, lo, hi, a);
    var pre, post := ts[..l], ts[r..];
    assert forall i :: 0 <= i < |pre| ==> pre[i].addr < ts[k].addr;
    assert forall i :: 0 <= i < |post| ==> ts[k].addr < post[i].addr;
  }

  lemma ReleaseLive(ts: seq<Tile>, k: nat, lo: int, hi: int, a: int)
    requires a > 0 && Tiles(ts, lo, hi, a) && k < |ts| && !ts[k].free
    ensures Live(Release(ts, k)) == Live(ts) - {ts[k]}
  {
    var l, r := LeftEdge(ts, k), RightEdge(ts, k);
    var pre, mid, post := ts[..l], ts[l..r], ts[r..];
    var span := Span(ts[l], ts[r - 1]);
    NowhereElse(ts, k, l, r, lo, hi, a);
    assert mid[k - l] == ts[k];
    OnlyLive(mid, k - l);
    assert ts == pre + mid + post;
    LiveSplice(pre, mid, post);
    LiveSplice(pre, [span], post);
    assert Live([span]) == {};
  }

  lemma ReleaseCoalesced(ts: seq<Tile>, k: nat)
    requires Coalesced(ts) && k < |ts| && !ts[k].free
    ensures Coalesced(Release(ts, k))
  {
    var l, r := LeftEdge(ts, k), RightEdge(ts, k);
    var us := Release(ts, k);
    forall i, j | 0 <= i && j == i + 1 && j < |us|
      ensures !(us[i].free && us[j].free)
    {
      if j < l {
        assert us[i] == ts[i] && us[j] == ts[j];
      } else if j == l {
        assert us[i] == ts[i];
        assert l < k ==> !(ts[l].free && ts[i].free);
      } else {
        var m := j - l - 1 + r;
        assert us[j] == ts[m];
        if j == l + 1 {
          var n := m - 1;
          assert r == k + 2 ==> !(ts[n].free && ts[m].free);
        } else {
          assert us[i] == ts[m - 1];
        }
      }
    }
  }

  // ----- release as the list of holes sees it

  predicate TouchesLeft(hs: seq<Tile>, node: Tile) {
    hs != [] && hs[|hs| - 1].End() == node.addr
  }

  predicate TouchesRight(node: Tile, hs: seq<Tile>) {
    hs != [] && node.End() == hs[0].addr
  }

  /** A new hole between the holes below and the holes above it, joined with those it touches. */
  function Joined(below: seq<Tile>, node: Tile, above: seq<Tile>): seq<Tile> {
    var l := if TouchesLeft(below, node) then below[|below| - 1] else node;
    var r := if TouchesRight(node, above) then above[0] else node;
    below[..|below| - if TouchesLeft(below, node) then 1 else 0]
    + [Span(l, r)]
    + above[if TouchesRight(node, above) then 1 else 0..]
  }

  lemma HolesBelow(ts: seq<Tile>, k: nat)
    requires k < |ts|
    ensures Holes(ts[..k]) == Holes(ts[..LeftEdge(ts, k)]) + if FreeAt(ts, k - 1) then [ts[k - 1]] else []
  {
    if k > 0 {
      var prev := ts[k - 1];
      assert ts[..k] == ts[..k - 1] + [prev];
      HolesConcat(ts[..k - 1], [prev]);
      HolesOne(prev);
    }
  }

  lemma HolesAbove(ts: seq<Tile>, k: nat)
    requires k < |ts|
    ensures Holes(ts[k + 1..]) == (if FreeAt(ts, k + 1) then [ts[k + 1]] else []) + Holes(ts[RightEdge(ts, k)..])
  {
    if k + 1 < |ts| {
      var next := ts[k + 1];
      assert ts[k + 1..] == [next] + ts[k + 2..];
      HolesConcat([next], ts[k + 2..]);
      HolesOne(next);
    }
  }

  lemma BelowBounds(ts: seq<Tile>, k: nat, lo: int, hi: int, a: int)
    requires a > 0 && Tiles(ts, lo, hi, a) && k < |ts|
    ensures forall h :: h in Holes(ts[..k]) ==> h in ts && h.free && h.End() <= ts[k].addr && h.addr < ts[k].addr
    ensures TouchesLeft(Holes(ts[..k]), ts[k]) <==> FreeAt(ts, k - 1)
  {
    HolesMembers(ts[..k]);
    forall h | h in ts[..k]
      ensures h.End() <= ts[k].addr && h.addr < ts[k].addr
      ensures h.End() == ts[k].addr ==> h == ts[k - 1]
    {
      var i :| 0 <= i < k && ts[i] == h;
      EndsBefore(ts, lo, hi, a, i, k);
      if i < k - 1 {
        EndsBefore(ts, lo, hi, a, i, k - 1);
        assert ts[k - 1] in ts && Piece(ts[k - 1], a) && ts[k - 1].End() == ts[k].addr;
      }
    }
    HolesBelow(ts, k);
    var hs := Holes(ts[..k]);
    assert hs != [] ==> hs[|hs| - 1] in hs;
  }

  lemma AboveBounds(ts: seq<Tile>, k: nat, lo: int, hi: int, a: int)
    requires a > 0 && Tiles(ts, lo, hi, a) && k < |ts|
    ensures forall h :: h in Holes(ts[k + 1..]) ==> h in ts && h.free && ts[k].End() <= h.addr && ts[k].addr < h.addr
    ensures TouchesRight(ts[k], Holes(ts[k + 1..])) <==> FreeAt(ts, k + 1)
  {
    HolesMembers(ts[k + 1..]);
    forall h | h in ts[k + 1..]
      ensures ts[k].End() <= h.addr && ts[k].addr < h.addr
      ensures h.addr == ts[k].End() ==> h == ts[k + 1]
    {
      var i :| k < i < |ts| && ts[i] == h;
      EndsBefore(ts, lo, hi, a, k, i);
      if k + 1 < i {
        EndsBefore(ts, lo, hi, a, k + 1, i);
        assert ts[k].End() == ts[k + 1].addr;
      }
    }
    HolesAbove(ts, k);
    var hs := Holes(ts[k + 1..]);
    assert hs != [] ==> hs[0] in hs;
  }

  lemma JoinedAs(below: seq<Tile>, node: Tile, above: seq<Tile>, pre: seq<Tile>, post: seq<Tile>, l: Tile, r: Tile)
    requires below == pre + if TouchesLeft(below, node) then [l] else []
    requires above == (if TouchesRight(node, above) then [r] else []) + post
    requires !TouchesLeft(below, node) ==> l.addr == node.addr
    requires !TouchesRight(node, above) ==> r.End() == node.End()
    ensures Joined(below, node, above) == pre + [Span(l, r)] + post
  {
    var cutL := if TouchesLeft(below, node) then 1 else 0;
    var cutR := if TouchesRight(node, above) then 1 else 0;
    assert below[..|below| - cutL] == pre;
    assert above[cutR..] == post;
  }

  /** What the merged list is, in terms of the tiles on either side. */
  lemma JoinedHoles(ts: seq<Tile>, k: nat, lo: int, hi: int, a: int)
    requires a > 0 && Tiles(ts, lo, hi, a) && k < |ts|
    ensures var l, r := LeftEdge(ts, k), RightEdge(ts, k);
            Joined(Holes(ts[..k]), ts[k].(free := true), Holes(ts[k + 1..]))
            == Holes(ts[..l]) + [Span(ts[l], ts[r - 1])] + Holes(ts[r..])
  {
    var node := ts[k].(free := true);
    var l, r := LeftEdge(ts, k), RightEdge(ts, k);
    var below, above := Holes(ts[..k]), Holes(ts[k + 1..]);
    HolesBelow(ts, k);
    HolesAbove(ts, k);
    BelowBounds(ts, k, lo, hi, a);
    AboveBounds(ts, k, lo, hi, a);
    assert TouchesLeft(below, node) == FreeAt(ts, k - 1);
    assert TouchesRight(node, above) == FreeAt(ts, k + 1);
    JoinedAs(below, node, above, Holes(ts[..l]), Holes(ts[r..]), ts[l], ts[r - 1]);
  }

  lemma ReleaseHoles(ts: seq<Tile>, k: nat, lo: int, hi: int, a: int)
    requires a > 0 && Tiles(ts, lo, hi, a) && k < |ts|
    ensures Holes(Release(ts, k)) == Joined(Holes(ts[..k]), ts[k].(free := true), Holes(ts[k + 1..]))
  {
    var l, r := LeftEdge(ts, k), RightEdge(ts, k);
    HolesMiddle(ts[..l], Span(ts[l], ts[r - 1]), ts[r..]);
    JoinedHoles(ts, k, lo, hi, a);
  }

  /** Release keeps the row canonical, takes exactly the released block out of use, and needs at
      most one join on either side. */
  lemma ReleaseKeeps(ts: seq<Tile>, k: nat, lo: int, hi: int, a: int)
    requires a > 0 && Canonical(ts, lo, hi, a) && k < |ts| && !ts[k].free
    ensures Canonical(Release(ts, k), lo, hi, a)
    ensures Live(Release(ts, k)) == Live(ts) - {ts[k]}
    ensures Holes(Release(ts, k)) == Joined(Holes(ts[..k]), ts[k].(free := true), Holes(ts[k + 1..]))
  {
    var l, r := LeftEdge(ts, k), RightEdge(ts, k);
    SpanTiles(ts, l, r, lo, hi, a);
    SpliceTiles(ts, l, r, [Span(ts[l], ts[r - 1])], lo, hi, a);
    ReleaseCoalesced(ts, k);
    ReleaseLive(ts, k, lo, hi, a);
    ReleaseHoles(ts, k, lo, hi, a);
  }

  // ----- merging as the cursor does it

  /** Starting at hole i: join it with its successor when they touch, else move to the
      successor; at most n times. */
  function MergeN(hs: seq<Tile>, i: nat, n: nat): seq<Tile>
    requires i < |hs|
    decreases n
  {
    if n == 0 || i + 1 == |hs| then hs
    else if hs[i].End() == hs[i + 1].addr then
      MergeN(hs[..i] + [Span(hs[i], hs[i + 1])] + hs[i + 2..], i, n - 1)
    else
      MergeN(hs, i + 1, n - 1)
  }

  lemma MergeTouching(below: seq<Tile>, node: Tile, next: Tile, above: seq<Tile>)
    requires node.End() == next.addr
    ensures MergeN(below + [node] + ([next] + above), |below|, 1) == below + [Span(node, next)] + above
  {
    Neighbours(below, node, next, above);
    var joined := below + [Span(node, next)] + above;
    assert MergeN(joined, |below|, 0) == joined;
  }

  lemma MergeApart(below: seq<Tile>, node: Tile, next: Tile, above: seq<Tile>)
    requires node.End() != next.addr
    ensures MergeN(below + [node] + ([next] + above), |below|, 1) == below + [node] + ([next] + above)
  {
    Neighbours(below, node, next, above);
    var hs := below + [node] + ([next] + above);
    assert MergeN(hs, |below| + 1, 0) == hs;
  }

  lemma MergeOnce(below: seq<Tile>, node: Tile, above: seq<Tile>)
    requires node.free
    ensures MergeN(below + [node] + above, |below|, 1)
         == below + [Span(node, if TouchesRight(node, above) then above[0] else node)]
            + above[if TouchesRight(node, above) then 1 else 0..]
  {
    assert Span(node, node) == node;
    if above == [] {
      assert above[0..] == above;
    } else {
      HeadAndTail(above);
      if TouchesRight(node, above) {
        MergeTouching(below, node, above[0], above[1..]);
      } else {
        MergeApart(below, node, above[0], above[1..]);
        assert above[0..] == above;
      }
    }
  }

  /** The one or two merge steps of `deallocate` do all the joining there is to do. */
  lemma MergeJoins(below: seq<Tile>, node: Tile, above: seq<Tile>)
    requires node.free && forall h :: h in below ==> h.free
    ensures MergeN(below + [node] + above, if below == [] then 0 else |below| - 1, if below == [] then 1 else 2)
         == Joined(below, node, above)
  {
    if below == [] {
      MergeOnce(below, node, above);
    } else {
      var i := |below| - 1;
      var pre, prev := below[..i], below[i];
      var hs := below + [node] + above;
      ShapeBelow(below, node, above);
      assert prev in below;
      if TouchesLeft(below, node) {
        MergeOnce(pre, Span(prev, node), above);
      } else {
        MergeOnce(below, node, above);
        assert MergeN(hs, i, 2) == MergeN(hs, i + 1, 1);
      }
    }
  }

  lemma ShapeBelow(below: seq<Tile>, node: Tile, above: seq<Tile>)
    requires below != []
    ensures var i, hs := |below| - 1, below + [node] + above;
            hs[i] == below[i] && hs[i + 1] == node && hs[..i] == below[..i] && hs[i + 2..] == above
  {
  }
}
