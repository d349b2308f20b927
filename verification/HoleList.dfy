/** The first-fit allocator whose free list is stored in the free memory itself. */
module HoleHeap {
  import opened Alignment
  import opened Wrappers
  import opened Tiling
  import opened FirstFit

  /** A header, stored at the first bytes of the hole it describes. */
  datatype Hole = Hole(size: int, next: Option<int>)

  datatype Cursor = Cursor(prev: int, hole: int)

  /** Where the dummy first node lives: outside the managed memory. */
  const STUB := -1

  /** The dummy node, as the first tile of the list. */
  const DUMMY := Tile(STUB, 0, false)

  function Head(hs: seq<Tile>, after: Option<int>): Option<int> {
    if hs == [] then after else Some(hs[0].addr)
  }

  function NextOf(hs: seq<Tile>, i: nat, after: Option<int>): Option<int>
    requires i < |hs|
  {
    if i + 1 < |hs| then Some(hs[i + 1].addr) else after
  }

  /** The headers of `hs` are linked in this order, the last one pointing at `after`. */
  ghost predicate Seg(mem: map<int, Hole>, hs: seq<Tile>, after: Option<int>) {
    forall i :: 0 <= i < |hs| ==>
      hs[i].addr in mem && mem[hs[i].addr] == Hole(hs[i].size, NextOf(hs, i, after))
  }

  ghost predicate Ascending(hs: seq<Tile>) {
    forall i, j :: 0 <= i < j < |hs| ==> hs[i].addr < hs[j].addr && hs[i].End() <= hs[j].addr
  }

  /** Following `next` from the dummy node visits exactly `hs`, by increasing address. */
  ghost predicate Listed(mem: map<int, Hole>, hs: seq<Tile>) {
    Seg(mem, [DUMMY] + hs, None) && Ascending([DUMMY] + hs)
  }

  lemma SegConcat(mem: map<int, Hole>, s: seq<Tile>, t: seq<Tile>, after: Option<int>)
    ensures Seg(mem, s + t, after) <==> Seg(mem, s, Head(t, after)) && Seg(mem, t, after)
  {
    var u := s + t;
    assert forall i :: 0 <= i < |s| ==> u[i] == s[i];
    assert forall i :: 0 <= i < |t| ==> u[|s| + i] == t[i];
    if Seg(mem, u, after) {
      forall i | 0 <= i < |s|
        ensures s[i].addr in mem && mem[s[i].addr] == Hole(s[i].size, NextOf(s, i, Head(t, after)))
      {
        assert NextOf(u, i, after) == NextOf(s, i, Head(t, after));
      }
      forall i | 0 <= i < |t|
        ensures t[i].addr in mem && mem[t[i].addr] == Hole(t[i].size, NextOf(t, i, after))
      {
        assert NextOf(u, |s| + i, after) == NextOf(t, i, after);
        assert u[|s| + i] == t[i];
      }
    }
    if Seg(mem, s, Head(t, after)) && Seg(mem, t, after) {
      forall i | 0 <= i < |u|
        ensures u[i].addr in mem && mem[u[i].addr] == Hole(u[i].size, NextOf(u, i, after))
      {
        if i < |s| {
          assert NextOf(u, i, after) == NextOf(s, i, Head(t, after));
        } else {
          assert u[i] == t[i - |s|];
          assert NextOf(u, i, after) == NextOf(t, i - |s|, after);
        }
      }
    }
  }

  lemma SegAround(mem: map<int, Hole>, pre: seq<Tile>, mid: seq<Tile>, post: seq<Tile>)
    requires mid != []
    ensures Seg(mem, pre + mid + post, None)
       <==> Seg(mem, pre, Some(mid[0].addr)) && Seg(mem, mid, Head(post, None)) && Seg(mem, post, None)
  {
    SegConcat(mem, pre + mid, post, None);
    SegConcat(mem, pre, mid, Head(post, None));
  }

  /** Outside the addresses in `touched` nothing changed. */
  ghost predicate Frame(mem: map<int, Hole>, mem': map<int, Hole>, touched: set<int>) {
    forall x :: x in mem && x !in touched ==> x in mem' && mem'[x] == mem[x]
  }

  ghost predicate Untouched(hs: seq<Tile>, touched: set<int>) {
    forall i :: 0 <= i < |hs| ==> hs[i].addr !in touched
  }

  /** Rewriting a stretch of the list that starts at an unchanged address. */
  lemma SpliceSeg(mem: map<int, Hole>, mem': map<int, Hole>, touched: set<int>,
                  pre: seq<Tile>, cut: seq<Tile>, mid: seq<Tile>, post: seq<Tile>)
    requires cut != [] && mid != [] && cut[0].addr == mid[0].addr
    requires Seg(mem, pre + cut + post, None) && Seg(mem', mid, Head(post, None))
    requires Frame(mem, mem', touched) && Untouched(pre, touched) && Untouched(post, touched)
    ensures Seg(mem', pre + mid + post, None)
  {
    SegAround(mem, pre, cut, post);
    SegAround(mem', pre, mid, post);
  }

  lemma HolesAscending(ts: seq<Tile>, lo: int, hi: int, a: int)
    requires a > 0 && lo > STUB && Tiles(ts, lo, hi, a)
    ensures Ascending([DUMMY] + Holes(ts))
    ensures forall h :: h in Holes(ts) ==> h in ts && Piece(h, a) && h.free
  {
    var hs := Holes(ts);
    HolesMembers(ts);
    TileBounds(ts, lo, hi, a);
    forall i, j | 0 <= i < j < |hs|
      ensures hs[i].addr < hs[j].addr && hs[i].End() <= hs[j].addr
    {
      HolesInOrder(ts, i, j, lo, hi, a);
    }
    AscendingParts([DUMMY], hs);
  }

  /** After this hole there is either nothing before the top or room for another hole. */
  predicate NoSliver(h: Tile, top: int, a: int)
    requires a > 0
  {
    h.End() >= top || AlignUp(h.End(), a) + MinSize(a) <= top
  }

  // The list around a cursor: `p` and `h` are the nodes under `prev` and `hole`.

  ghost predicate Around(mem: map<int, Hole>, pre: seq<Tile>, p: Tile, h: Tile, post: seq<Tile>) {
    Seg(mem, pre + [p, h] + post, None) && Ascending(pre + [p, h] + post)
  }

  lemma AroundFacts(mem: map<int, Hole>, pre: seq<Tile>, p: Tile, h: Tile, post: seq<Tile>)
    requires Around(mem, pre, p, h, post)
    ensures p.addr in mem && mem[p.addr] == Hole(p.size, Some(h.addr))
    ensures h.addr in mem && mem[h.addr] == Hole(h.size, Head(post, None))
    ensures p.addr < h.addr && p.End() <= h.addr
    ensures forall x :: x in pre ==> x.addr < p.addr
    ensures forall x :: x in post ==> h.End() <= x.addr && h.addr < x.addr
  {
    SegAround(mem, pre, [p, h], post);
    assert Seg(mem, [p, h], Head(post, None));
    assert [p, h][0] == p && [p, h][1] == h;
    var ns := pre + [p, h] + post;
    assert ns[|pre|] == p && ns[|pre| + 1] == h;
    forall x | x in pre
      ensures x.addr < p.addr
    {
      var i :| 0 <= i < |pre| && pre[i] == x;
      assert ns[i] == x;
    }
    forall x | x in post
      ensures h.End() <= x.addr && h.addr < x.addr
    {
      var i :| 0 <= i < |post| && post[i] == x;
      assert ns[|pre| + 2 + i] == x;
    }
  }

  /** Hole `h` replaced by `pads` inside its bounds, when only the node before it and headers
      inside it were written. */
  lemma LinkPads(mem: map<int, Hole>, mem': map<int, Hole>, pre: seq<Tile>, p: Tile, h: Tile, post: seq<Tile>,
                 pads: seq<Tile>, touched: set<int>)
    requires Around(mem, pre, p, h, post)
    requires Seg(mem', [p] + pads, Head(post, None)) && Frame(mem, mem', touched)
    requires forall x :: x in touched ==> x == p.addr || h.addr <= x < h.End() || x == h.addr
    ensures Seg(mem', pre + ([p] + pads) + post, None)
  {
    AroundFacts(mem, pre, p, h, post);
    assert Untouched(pre, touched) by {
      assert forall i :: 0 <= i < |pre| ==> pre[i] in pre;
    }
    assert Untouched(post, touched) by {
      assert forall i :: 0 <= i < |post| ==> post[i] in post;
    }
    SpliceSeg(mem, mem', touched, pre, [p, h], [p] + pads, post);
  }

  // Shapes of sequences, proved apart from everything else.

  lemma ShapeOpen(hs: seq<Tile>, i: nat)
    requires i < |hs|
    ensures var ns := [DUMMY] + hs; ns == ns[..i] + [ns[i], hs[i]] + hs[i + 1..]
  {
  }

  lemma ShapeMerge(hs: seq<Tile>, k: nat)
    requires k + 1 < |hs|
    ensures ([DUMMY] + hs[..k]) + [hs[k], hs[k + 1]] + hs[k + 2..] == [DUMMY] + hs
    ensures ([DUMMY] + hs[..k]) + [Span(hs[k], hs[k + 1])] + hs[k + 2..] == [DUMMY] + Merged(hs, k)
  {
  }

  /** Reading the list at hole i. */
  lemma OpenAt(mem: map<int, Hole>, hs: seq<Tile>, i: nat)
    requires Listed(mem, hs) && i < |hs|
    ensures var ns := [DUMMY] + hs; Around(mem, ns[..i], ns[i], hs[i], hs[i + 1..])
    ensures hs[i].addr in mem && mem[hs[i].addr] == Hole(hs[i].size, NextOf(hs, i, None))
  {
    var ns := [DUMMY] + hs;
    ShapeOpen(hs, i);
    AroundFacts(mem, ns[..i], ns[i], hs[i], hs[i + 1..]);
  }

  /** `n` is the least size that holds the request and, once it is free again, a header. */
  ghost predicate BlockSize(n: int, size: int, a: int)
    requires a > 0
  {
    && Aligned(n, a) && size <= n && MinSize(a) <= n
    && forall m :: Aligned(m, a) && size <= m && MinSize(a) <= m ==> n <= m
  }

  function AlignedSize(size: int, a: int): (r: int)
    requires a > 0
    ensures BlockSize(r, size, a)
  {
    var least := if size < MinSize(a) then MinSize(a) else size;
    var r := AlignUp(least, a);
    assert BlockSize(r, size, a) by {
      forall m | Aligned(m, a) && size <= m && MinSize(a) <= m
        ensures r <= m
      {
        AlignUpLeast(least, a, m);
      }
    }
    r
  }

  lemma PadsInPlace(hs: seq<Tile>, i: nat, pads: seq<Tile>)
    requires i < |hs|
    ensures var ns := [DUMMY] + hs;
            ns[..i] + ([ns[i]] + pads) + hs[i + 1..] == [DUMMY] + (hs[..i] + pads + hs[i + 1..])
  {
  }

  /** The list once the pads stand in the place of hole i. */
  function WithPads(hs: seq<Tile>, i: nat, p: int, n: int): seq<Tile>
    requires i < |hs|
  {
    var ns := [DUMMY] + hs;
    ns[..i] + ([ns[i]] + (FrontPad(hs[i], p) + BackPad(hs[i], p + n))) + hs[i + 1..]
  }

  ghost predicate Refused(hs: seq<Tile>, i: nat, n: int, align: int, a: int)
    requires a > 0 && align > 0 && i <= |hs|
  {
    forall j :: 0 <= j < i ==> FitIn(hs[j], n, align, a) == None
  }

  /** The row of tiles once hole i has been split for a block at `p`. */
  lemma Allocated(mem: map<int, Hole>, ts: seq<Tile>, i: nat, p: int, n: int, align: int, lo: int, hi: int, a: int)
    returns (us: seq<Tile>)
    requires Request(n, align, a) && Canonical(ts, lo, hi, a) && STUB < lo && i < |Holes(ts)|
    requires Refused(Holes(ts), i, n, align, a)
    requires FitIn(Holes(ts)[i], n, align, a) == Some(p)
    requires Seg(mem, WithPads(Holes(ts), i, p, n), None)
    ensures Canonical(us, lo, hi, a) && Listed(mem, Holes(us))
    ensures Live(us) == Live(ts) + {Tile(p, n, false)}
    ensures LowestPlace(ts, p, n, align, a)
  {
    var hs, ns := Holes(ts), [DUMMY] + Holes(ts);
    FirstFitIsLowest(ts, i, p, n, align, lo, hi, a);
    var k := LocateHole(ts, i);
    HolesMembers(ts);
    assert hs[i] in hs;
    FitInLeast(hs[i], n, align, a);
    CarveKeeps(ts, k, p, n, align, lo, hi, a);
    var pads := FrontPad(hs[i], p) + BackPad(hs[i], p + n);
    us := Carve(ts, k, p, n);
    HolesAscending(us, lo, hi, a);
    PadsInPlace(hs, i, pads);
  }

  // ----- insertion

  /** Writing at an address that is not a header of the list keeps the list. */
  lemma SegFrame(mem: map<int, Hole>, mem': map<int, Hole>, hs: seq<Tile>, after: Option<int>, touched: set<int>)
    requires Seg(mem, hs, after) && Frame(mem, mem', touched) && Untouched(hs, touched)
    ensures Seg(mem', hs, after)
  {
  }

  lemma AscendingParts(s: seq<Tile>, t: seq<Tile>)
    ensures Ascending(s + t) <==>
              Ascending(s) && Ascending(t)
              && forall x, y :: x in s && y in t ==> x.addr < y.addr && x.End() <= y.addr
  {
    var u := s + t;
    assert forall i :: 0 <= i < |s| ==> u[i] == s[i];
    assert forall i :: 0 <= i < |t| ==> u[|s| + i] == t[i];
    if Ascending(s) && Ascending(t) && forall x, y :: x in s && y in t ==> x.addr < y.addr && x.End() <= y.addr {
      forall i, j | 0 <= i < j < |u|
        ensures u[i].addr < u[j].addr && u[i].End() <= u[j].addr
      {
        if i < |s| && |s| <= j {
          assert u[i] in s && u[j] in t;
        } else if j < |s| {
          assert u[i] == s[i] && u[j] == s[j];
        } else {
          assert u[i] == t[i - |s|] && u[j] == t[j - |s|];
        }
      }
    }
  }

  /** `node` linked in after `p`. */
  lemma LinkAfter(mem: map<int, Hole>, mem': map<int, Hole>, pre: seq<Tile>, p: Tile, node: Tile, post: seq<Tile>)
    requires Seg(mem, pre + [p] + post, None) && Ascending(pre + [p, node] + post)
    requires Frame(mem, mem', {p.addr, node.addr})
    requires p.addr in mem' && mem'[p.addr] == Hole(p.size, Some(node.addr))
    requires node.addr in mem' && mem'[node.addr] == Hole(node.size, Head(post, None))
    ensures Seg(mem', pre + [p, node] + post, None)
  {
    var ns := pre + [p, node] + post;
    assert ns[|pre|] == p && ns[|pre| + 1] == node;
    assert forall i :: 0 <= i < |pre| ==> pre[i] == ns[i];
    assert forall i :: 0 <= i < |post| ==> post[i] == ns[|pre| + 2 + i];
    SpliceSeg(mem, mem', {p.addr, node.addr}, pre, [p], [p, node], post);
  }

  lemma LinkAfterHole(mem: map<int, Hole>, mem': map<int, Hole>, hs: seq<Tile>, i: nat, node: Tile)
    requires Listed(mem, hs) && i < |hs| && Ascending([DUMMY] + hs[..i] + [hs[i], node] + hs[i + 1..])
    requires Frame(mem, mem', {hs[i].addr, node.addr})
    requires hs[i].addr in mem' && mem'[hs[i].addr] == Hole(hs[i].size, Some(node.addr))
    requires node.addr in mem' && mem'[node.addr] == Hole(node.size, Head(hs[i + 1..], None))
    ensures Seg(mem', [DUMMY] + hs[..i] + [hs[i], node] + hs[i + 1..], None)
  {
    assert [DUMMY] + hs[..i] + [hs[i]] + hs[i + 1..] == [DUMMY] + hs;
    LinkAfter(mem, mem', [DUMMY] + hs[..i], hs[i], node, hs[i + 1..]);
  }

  /** `h` and the node after it become one node. */
  lemma LinkMerged(mem: map<int, Hole>, mem': map<int, Hole>, pre: seq<Tile>, h: Tile, x: Tile, post: seq<Tile>)
    requires Around(mem, pre, h, x, post) && h.End() == x.addr
    requires Frame(mem, mem', {h.addr, x.addr})
    requires h.addr in mem' && mem'[h.addr] == Hole(h.size + x.size, Head(post, None))
    ensures Seg(mem', pre + [Span(h, x)] + post, None) && Ascending(pre + [Span(h, x)] + post)
  {
    AroundFacts(mem, pre, h, x, post);
    assert forall i :: 0 <= i < |pre| ==> pre[i] in pre;
    assert forall i :: 0 <= i < |post| ==> post[i] in post;
    SpliceSeg(mem, mem', {h.addr, x.addr}, pre, [h, x], [Span(h, x)], post);
    AscendingParts(pre + [h, x], post);
    AscendingParts(pre, [h, x]);
    AscendingParts(pre + [Span(h, x)], post);
    AscendingParts(pre, [Span(h, x)]);
    assert h in [h, x] && x in [h, x];
    assert forall y :: y in [Span(h, x)] ==> y == Span(h, x);
    assert forall y :: y in pre + [Span(h, x)] ==> y in pre || y == Span(h, x);
    assert forall y :: y in pre ==> y in pre + [h, x];
  }

  /** Facts about the place of a new node between the holes below and the holes above it. */
  lemma Between(below: seq<Tile>, n: Tile, above: seq<Tile>)
    requires Ascending([DUMMY] + below + [n] + above)
    ensures Ascending([DUMMY] + (below + above)) && STUB < n.addr
    ensures forall i :: 0 <= i < |below| ==> (below + above)[i].addr < n.addr
    ensures forall i :: |below| <= i < |below + above| ==> n.addr < (below + above)[i].addr
  {
    var u, hs := [DUMMY] + below + [n] + above, below + above;
    var v := [DUMMY] + hs;
    ShapeBetween(below, n, above);
    forall i, j | 0 <= i < j < |v|
      ensures v[i].addr < v[j].addr && v[i].End() <= v[j].addr
    {
      assert v[i] == u[Skipping(i, |below|)] && v[j] == u[Skipping(j, |below|)];
    }
    forall i | 0 <= i < |hs|
      ensures if i < |below| then hs[i].addr < n.addr else n.addr < hs[i].addr
    {
      assert hs[i] == u[Skipping(i + 1, |below|)];
    }
  }

  function Skipping(i: int, k: int): int {
    if i <= k then i else i + 1
  }

  lemma ShapeBetween(below: seq<Tile>, n: Tile, above: seq<Tile>)
    ensures var u, v := [DUMMY] + below + [n] + above, [DUMMY] + (below + above);
            && |u| == |v| + 1 && u[0] == DUMMY && u[|below| + 1] == n
            && (forall i :: 0 <= i < |v| ==> v[i] == u[Skipping(i, |below|)])
            && forall i :: 0 <= i < |below + above| ==> (below + above)[i] == u[Skipping(i + 1, |below|)]
  {
  }

  function Merged(hs: seq<Tile>, k: nat): seq<Tile>
    requires k + 1 < |hs|
  {
    hs[..k] + [Span(hs[k], hs[k + 1])] + hs[k + 2..]
  }

  lemma NodeAt(mem: map<int, Hole>, hs: seq<Tile>, i: nat)
    requires Listed(mem, hs) && i < |hs|
    ensures hs[i].addr in mem && mem[hs[i].addr] == Hole(hs[i].size, NextOf(hs, i, None))
  {
    OpenAt(mem, hs, i);
  }

  lemma MergedListed(mem: map<int, Hole>, mem': map<int, Hole>, hs: seq<Tile>, k: nat)
    requires Listed(mem, hs) && k + 1 < |hs| && hs[k].End() == hs[k + 1].addr
    requires Frame(mem, mem', {hs[k].addr, hs[k + 1].addr})
    requires hs[k].addr in mem'
    requires mem'[hs[k].addr] == Hole(hs[k].size + hs[k + 1].size, NextOf(hs, k + 1, None))
    ensures Listed(mem', Merged(hs, k))
  {
    var pre, post := [DUMMY] + hs[..k], hs[k + 2..];
    ShapeMerge(hs, k);
    LinkMerged(mem, mem', pre, hs[k], hs[k + 1], post);
  }

  predicate NoSlivers(hs: seq<Tile>, top: int, a: int)
    requires a > 0
  {
    forall h :: h in hs ==> NoSliver(h, top, a)
  }

  lemma TileNoSliver(t: Tile, limit: int, a: int)
    requires a > 0 && Piece(t, a) && (t.End() >= limit || t.End() + MinSize(a) <= limit)
    ensures NoSliver(t, limit, a)
  {
    AlignedSum(t.addr, t.size, a);
  }

  /** What inserting a node between the holes below and above it relies on. */
  ghost predicate Insertable(mem: map<int, Hole>, below: seq<Tile>, node: Tile, above: seq<Tile>, lo: int, limit: int, a: int)
    requires a > 0
  {
    && Listed(mem, below + above) && node.free && (forall h :: h in below ==> h.free)
    && Ascending([DUMMY] + below + [node] + above)
    && NoSlivers(below + [node] + above, limit, a)
    && (node.addr == lo || lo + MinSize(a) <= node.addr)
  }

  lemma OtherHeaders(hs: seq<Tile>, n: int)
    requires n != STUB && forall h :: h in hs ==> h.addr != n
    ensures Untouched([DUMMY] + hs, {n})
  {
    assert forall i :: 0 < i < |[DUMMY] + hs| ==> ([DUMMY] + hs)[i] == hs[i - 1];
  }

  lemma HeaderWritten(mem: map<int, Hole>, mem': map<int, Hole>, below: seq<Tile>, n: Tile, above: seq<Tile>,
                      lo: int, limit: int, a: int)
    requires a > 0 && Insertable(mem, below, n, above, lo, limit, a)
    requires mem' == mem[n.addr := Hole(n.size, None)]
    ensures Listed(mem', below + above) && STUB in mem' && mem'[STUB] == Hole(0, Head(below + above, None))
    ensures below != [] ==> below[0] == (below + above)[0] && below[0].addr < n.addr
    ensures below == [] && above != [] ==> n.addr < (below + above)[0].addr && Ascending([DUMMY, n] + (below + above))
    ensures STUB < n.addr
  {
    var hs := below + above;
    Between(below, n, above);
    OtherHeaders(hs, n.addr);
    SegFrame(mem, mem', [DUMMY] + hs, None, {n.addr});
    assert ([DUMMY] + hs)[0] == DUMMY;
    assert hs != [] ==> ([DUMMY] + hs)[1] == hs[0];
    assert below != [] ==> hs[0] == below[0];
    assert below == [] ==> [DUMMY, n] + hs == [DUMMY] + below + [n] + above;
  }

  function Freed(ts: seq<Tile>, k: nat): seq<Tile>
    requires k < |ts|
  {
    ts[..k] + [ts[k].(free := true)] + ts[k + 1..]
  }

  lemma FreedTiles(ts: seq<Tile>, k: nat, lo: int, hi: int, a: int)
    requires a > 0 && Tiles(ts, lo, hi, a) && k < |ts|
    ensures Tiles(Freed(ts, k), lo, hi, a)
  {
    assert ts[k] in ts;
    SpliceTiles(ts, k, k + 1, [ts[k].(free := true)], lo, hi, a);
  }

  lemma FreedHoles(ts: seq<Tile>, k: nat)
    requires k < |ts| && !ts[k].free
    ensures Holes(ts) == Holes(ts[..k]) + Holes(ts[k + 1..])
    ensures Holes(Freed(ts, k)) == Holes(ts[..k]) + [ts[k].(free := true)] + Holes(ts[k + 1..])
  {
    HolesMiddle(ts[..k], ts[k], ts[k + 1..]);
    HolesMiddle(ts[..k], ts[k].(free := true), ts[k + 1..]);
    SplitAt(ts, k);
  }

  lemma ReleaseAscending(ts: seq<Tile>, k: nat, lo: int, hi: int, a: int)
    requires a > 0 && STUB < lo && Tiles(ts, lo, hi, a) && k < |ts| && !ts[k].free
    ensures Ascending([DUMMY] + Holes(ts[..k]) + [ts[k].(free := true)] + Holes(ts[k + 1..]))
  {
    FreedTiles(ts, k, lo, hi, a);
    FreedHoles(ts, k);
    HolesAscending(Freed(ts, k), lo, hi, a);
    assert [DUMMY] + Holes(Freed(ts, k))
        == [DUMMY] + Holes(ts[..k]) + [ts[k].(free := true)] + Holes(ts[k + 1..]);
  }

  ghost predicate Clear(ts: seq<Tile>, limit: int, a: int) {
    forall t :: t in ts ==> t.End() >= limit || t.End() + MinSize(a) <= limit
  }

  /** A block in use can be inserted in the list of holes. */
  lemma ReleaseReady(mem: map<int, Hole>, ts: seq<Tile>, k: nat, lo: int, hi: int, limit: int, a: int)
    requires a > 0 && STUB < lo && Tiles(ts, lo, hi, a) && k < |ts| && !ts[k].free
    requires Listed(mem, Holes(ts)) && Clear(ts, limit, a)
    ensures Insertable(mem, Holes(ts[..k]), ts[k].(free := true), Holes(ts[k + 1..]), lo, limit, a)
  {
    FreedHoles(ts, k);
    ReleaseAscending(ts, k, lo, hi, a);
    NoSliversAround(ts, k, lo, hi, limit, a);
    HolesMembers(ts[..k]);
    TileAt(ts, k, lo, hi, a);
  }

  lemma TileAt(ts: seq<Tile>, k: nat, lo: int, hi: int, a: int)
    requires a > 0 && Tiles(ts, lo, hi, a) && k < |ts|
    ensures ts[k].addr == lo || lo + MinSize(a) <= ts[k].addr
  {
    TileBounds(ts, lo, hi, a);
    assert ts[k] in ts;
  }

  /** The row of tiles and the list agree again after the release. */
  lemma Released(mem: map<int, Hole>, ts: seq<Tile>, k: nat, lo: int, hi: int, a: int)
    requires a > 0 && STUB < lo && Canonical(ts, lo, hi, a) && k < |ts| && !ts[k].free
    requires Seg(mem, [DUMMY] + Joined(Holes(ts[..k]), ts[k].(free := true), Holes(ts[k + 1..])), None)
    ensures Canonical(Release(ts, k), lo, hi, a) && Listed(mem, Holes(Release(ts, k)))
    ensures Live(Release(ts, k)) == Live(ts) - {ts[k]}
  {
    ReleaseKeeps(ts, k, lo, hi, a);
    HolesAscending(Release(ts, k), lo, hi, a);
  }

  lemma NoSliversAround(ts: seq<Tile>, k: nat, lo: int, hi: int, limit: int, a: int)
    requires a > 0 && Tiles(ts, lo, hi, a) && k < |ts|
    requires Clear(ts, limit, a)
    ensures NoSlivers(Holes(ts[..k]) + [ts[k].(free := true)] + Holes(ts[k + 1..]), limit, a)
  {
    HolesMembers(ts[..k]);
    HolesMembers(ts[k + 1..]);
    forall h | h in Holes(ts[..k]) + [ts[k].(free := true)] + Holes(ts[k + 1..])
      ensures NoSliver(h, limit, a)
    {
      var t := if h in ts then h else ts[k];
      assert t in ts && Piece(t, a) && t.addr == h.addr && t.size == h.size;
      TileNoSliver(h, limit, a);
    }
  }

  /** New memory at the top, as a block about to be released. */
  lemma ExtensionSize(n: int, extendBy: int, a: int)
    requires a > 0 && n == AlignDown(extendBy, a) && MinSize(a) <= extendBy
    ensures MinSize(a) <= n && Aligned(n, a)
  {
    AlignedSum(a, a, a);
    AlignedSum(MinSize(a), n, a);
    if n < MinSize(a) {
      AlignedGap(MinSize(a) - n, a);
    }
  }

  lemma ExtensionTiles(ts: seq<Tile>, n: int, lo: int, hi: int, a: int)
    requires a > 0 && Canonical(ts, lo, hi, a) && MinSize(a) <= n && Aligned(n, a)
    ensures Canonical(ts + [Tile(hi, n, false)], lo, hi + n, a)
    ensures Live(ts + [Tile(hi, n, false)]) - {Tile(hi, n, false)} == Live(ts)
    ensures Clear(ts + [Tile(hi, n, false)], hi, a)
  {
    var block := Tile(hi, n, false);
    TileBounds(ts, lo, hi, a);
    var last := ts[|ts| - 1];
    assert last in ts && Piece(last, a);
    AlignedSum(last.addr, last.size, a);
    LiveConcat(ts, [block]);
    assert block in [block] && block !in ts;
    assert forall t :: t in [block] ==> t == block;
  }

  lemma Extension(mem: map<int, Hole>, ts: seq<Tile>, n: int, lo: int, hi: int, a: int)
    requires a > 0 && Canonical(ts, lo, hi, a) && MinSize(a) <= n && Aligned(n, a)
    requires STUB < lo && Listed(mem, Holes(ts))
    ensures Insertable(mem, Holes(ts), Tile(hi, n, true), [], lo, hi, a)
  {
    var us := ts + [Tile(hi, n, false)];
    ExtensionTiles(ts, n, lo, hi, a);
    assert us[|ts|] == Tile(hi, n, false) && us[..|ts|] == ts && us[|ts| + 1..] == [] && Holes([]) == [];
    FreedHoles(us, |ts|);
    assert Holes(ts) + [] == Holes(ts);
    ReleaseReady(mem, us, |ts|, lo, hi + n, hi, a);
  }

  datatype HoleInfo = HoleInfo(addr: int, size: int)

  function InfoTiles(pad: Option<HoleInfo>): seq<Tile> {
    if pad.None? then [] else [Tile(pad.value.addr, pad.value.size, true)]
  }

  class HoleList {
    const a: int                // alignment of a header
    var mem: map<int, Hole>     // headers by address; the dummy node at STUB
    var bottom: int
    var top: int
    var pendingExtend: int
    ghost var tiles: seq<Tile>

    constructor (holeAddr: int, holeSize: int, a: int)
      requires IsPow2(a) && a > 0 && MinSize(a) <= 256 && 0 < holeAddr
      requires AlignDown(holeSize - (AlignUp(holeAddr, a) - holeAddr), a) >= MinSize(a)
      ensures Valid() && this.a == a
      ensures Live(tiles) == {} && holeAddr <= bottom < holeAddr + a
      ensures top + pendingExtend == holeAddr + holeSize && pendingExtend < a
    {
      var alignedAddr := AlignUp(holeAddr, a);
      var requestedSize := holeSize - (alignedAddr - holeAddr);
      var alignedSize := AlignDown(requestedSize, a);
      this.a := a;
      mem := map[STUB := Hole(0, Some(alignedAddr)), alignedAddr := Hole(alignedSize, None)];
      bottom := alignedAddr;
      top := alignedAddr + alignedSize;
      pendingExtend := requestedSize - alignedSize;
      tiles := [Tile(alignedAddr, alignedSize, true)];
      assert Holes([Tile(alignedAddr, alignedSize, true)]) == [Tile(alignedAddr, alignedSize, true)] by {
        assert Holes([]) == [];
      }
    }

    ghost predicate Valid()
      reads this
    {
      && IsPow2(a) && a > 0 && MinSize(a) <= 256
      && 0 < bottom
      && Canonical(tiles, bottom, top, a)
      && Listed(mem, Holes(tiles))
      && 0 <= pendingExtend < MinSize(a)
    }

    /** Takes the current hole out of the list and puts the paddings in its place. */
    method ReplaceHole(c: Cursor, front: Option<HoleInfo>, back: Option<HoleInfo>,
                       ghost pre: seq<Tile>, ghost p: Tile, ghost h: Tile, ghost post: seq<Tile>)
      requires Around(mem, pre, p, h, post) && c == Cursor(p.addr, h.addr)
      requires front.Some? ==> front.value.addr == h.addr
      requires back.Some? ==> h.addr <= back.value.addr < h.End()
      requires front.Some? && back.Some? ==> h.addr < back.value.addr
      modifies `mem
      ensures Seg(mem, pre + ([p] + (InfoTiles(front) + InfoTiles(back))) + post, None)
    {
      AroundFacts(mem, pre, p, h, post);
      mem := mem[c.prev := mem[c.prev].(next := None)];
      var next := mem[c.hole].next;
      mem := mem[c.hole := mem[c.hole].(next := None)];
      match (front, back) {
        case (None, None) =>
          mem := mem[c.prev := mem[c.prev].(next := next)];
        case (None, Some(pad)) =>
          mem := mem[pad.addr := Hole(pad.size, next)];
          mem := mem[c.prev := mem[c.prev].(next := Some(pad.addr))];
        case (Some(pad), None) =>
          mem := mem[pad.addr := Hole(pad.size, next)];
          mem := mem[c.prev := mem[c.prev].(next := Some(pad.addr))];
        case (Some(f), Some(b)) =>
          mem := mem[b.addr := Hole(b.size, next)];
          mem := mem[f.addr := Hole(f.size, Some(b.addr))];
          mem := mem[c.prev := mem[c.prev].(next := Some(f.addr))];
      }
      LinkPads(old(mem), mem, pre, p, h, post, InfoTiles(front) + InfoTiles(back),
               {c.prev, c.hole} + if back.Some? then {back.value.addr} else {});
    }

    method SplitCurrent(c: Cursor, size: int, align: int,
                        ghost pre: seq<Tile>, ghost p: Tile, ghost h: Tile, ghost post: seq<Tile>)
      returns (r: Option<int>)
      requires Request(size, align, a) && Around(mem, pre, p, h, post) && c == Cursor(p.addr, h.addr) && Piece(h, a)
      modifies `mem
      ensures r == FitIn(h, size, align, a)
      ensures r.None? ==> mem == old(mem)
      ensures r.Some? ==>
                Seg(mem, pre + ([p] + (FrontPad(h, r.value) + BackPad(h, r.value + size))) + post, None)
    {
      AroundFacts(mem, pre, p, h, post);
      FirstTryAligned(h, size, align, a);
      var holeSize := mem[c.hole].size;
      if holeSize < size {
        return None;
      }
      var front: Option<HoleInfo> := None;
      var aligned := c.hole;
      if c.hole != AlignUp(c.hole, align) {
        var newStart := c.hole + MinSize(a);
        aligned := AlignUp(newStart, align);
        front := Some(HoleInfo(c.hole, aligned - c.hole));
      }
      var allocEnd := aligned + size;
      var holeEnd := c.hole + holeSize;
      if allocEnd > holeEnd {
        return None;
      }
      var back: Option<HoleInfo> := None;
      var backSize := holeEnd - allocEnd;
      if backSize != 0 {
        var backStart := AlignUp(allocEnd, a);
        if backStart + MinSize(a) > holeEnd {
          return None;
        }
        back := Some(HoleInfo(backStart, backSize));
      }
      ReplaceHole(c, front, back, pre, p, h, post);
      return Some(aligned);
    }
  
    /** The search over the list; `i` is the hole that was split. */
    method SearchFirstFit(n: int, align: int, ghost hs: seq<Tile>) returns (r: Option<int>, ghost i: nat)
      requires Request(n, align, a) && Listed(mem, hs) && forall h :: h in hs ==> Piece(h, a)
      modifies `mem
      ensures r.Some? ==>
                && i < |hs| && Refused(hs, i, n, align, a) && FitIn(hs[i], n, align, a) == r
                && Seg(mem, WithPads(hs, i, r.value, n), None)
      ensures r.None? ==> mem == old(mem) && Refused(hs, |hs|, n, align, a)
    {
      i := 0;
      assert ([DUMMY] + hs)[0] == DUMMY;
      assert hs != [] ==> ([DUMMY] + hs)[1] == hs[0];
      if mem[STUB].next == None {
        return None, 0;
      }
      var c := Cursor(STUB, mem[STUB].next.value);
      while true
        invariant i < |hs| && c == Cursor(([DUMMY] + hs)[i].addr, hs[i].addr)
        invariant mem == old(mem) && Refused(hs, i, n, align, a)
        decreases |hs| - i
      {
        ghost var ns := [DUMMY] + hs;
        OpenAt(mem, hs, i);
        assert hs[i] in hs;
        var fit := SplitCurrent(c, n, align, ns[..i], ns[i], hs[i], hs[i + 1..]);
        if fit.Some? {
          return fit, i;
        }
        var next := mem[c.hole].next;
        if next.None? {
          return None, i;
        }
        assert ns[i + 1] == hs[i];
        c := Cursor(c.hole, next.value);
        i := i + 1;
      }
    }

    method AllocateFirstFit(size: nat, align: int) returns (r: Option<(int, int)>)
      requires Valid() && IsPow2(align)
      modifies `mem, `tiles
      ensures Valid()
      ensures r.Some? ==>
                var (p, n) := r.value;
                && n == AlignedSize(size, a) && BlockSize(n, size, a)
                && Live(tiles) == old(Live(tiles)) + {Tile(p, n, false)}
                && LowestPlace(old(tiles), p, n, align, a)
                && Aligned(p, align) && bottom <= p && p + n <= top
                && forall b :: b in old(Live(tiles)) ==> p + n <= b.addr || b.End() <= p
      ensures r.None? ==>
                && mem == old(mem) && tiles == old(tiles)
                && NoPlace(tiles, AlignedSize(size, a), align, a)
    {
      var n := AlignedSize(size, a);
      assert Request(n, align, a);
      HolesAscending(tiles, bottom, top, a);
      var p;
      ghost var i;
      p, i := SearchFirstFit(n, align, Holes(tiles));
      if p.None? {
        AllRefused(tiles, n, align, bottom, top, a);
        return None;
      }
      ghost var before := tiles;
      tiles := Allocated(mem, tiles, i, p.value, n, align, bottom, top, a);
      NewBlock(before, p.value, n, align, bottom, top, a);
      return Some((p.value, n));
    }
  
    // ----- deallocation

    method MakeHole(addr: int, size: int)
      modifies `mem
      ensures mem == old(mem)[addr := Hole(size, None)]
    {
      mem := mem[addr := Hole(size, None)];
    }

    method CheckMergeTop(node: int)
      requires a > 0 && node in mem
      modifies `mem
      ensures var h := old(mem)[node];
              var end := node + h.size;
              mem == if NoSliver(Tile(node, h.size, true), top, a) then old(mem)
                     else old(mem)[node := Hole(top - node, h.next)]
    {
      var end := node + mem[node].size;
      if end < top {
        var nextHoleEnd := AlignUp(end, a) + MinSize(a);
        if nextHoleEnd > top {
          var offset := top - end;
          mem := mem[node := mem[node].(size := mem[node].size + offset)];
        }
      }
    }

    method CheckMergeBottom(node: int) returns (r: int)
      requires node in mem
      modifies `mem
      ensures if bottom + MinSize(a) > node
              then r == bottom && mem == old(mem)[bottom := Hole(old(mem)[node].size + (node - bottom), None)]
              else r == node && mem == old(mem)
    {
      if bottom + MinSize(a) > node {
        var offset := node - bottom;
        var size := mem[node].size + offset;
        MakeHole(bottom, size);
        r := bottom;
      } else {
        r := node;
      }
    }

    method TryInsertBack(c: Cursor, node: int, ghost n: Tile, ghost hs: seq<Tile>) returns (ok: bool, c': Cursor)
      requires Listed(mem, hs) && hs != [] && c == Cursor(STUB, hs[0].addr)
      requires node == n.addr && node in mem && mem[node] == Hole(n.size, None) && node != hs[0].addr
      requires node == bottom || bottom + MinSize(a) <= node
      requires node < hs[0].addr ==> Ascending([DUMMY, n] + hs)
      modifies `mem
      ensures ok <==> node < hs[0].addr
      ensures ok ==> c' == Cursor(STUB, node) && Seg(mem, [DUMMY] + ([n] + hs), None)
      ensures !ok ==> c' == c && mem == old(mem)
    {
      if node < c.hole {
        assert ([DUMMY] + hs)[0] == DUMMY;
        var node' := CheckMergeBottom(node);
        mem := mem[c.prev := mem[c.prev].(next := Some(node'))];
        mem := mem[node' := mem[node'].(next := Some(c.hole))];
        assert [DUMMY, n] + hs == [DUMMY] + ([n] + hs);
        assert ([DUMMY, n] + hs)[0] == DUMMY && ([DUMMY, n] + hs)[1] == n;
        assert [] + [DUMMY] + hs == [DUMMY] + hs && [] + [DUMMY, n] + hs == [DUMMY, n] + hs;
        LinkAfter(old(mem), mem, [], DUMMY, n, hs);
        return true, Cursor(c.prev, node');
      } else {
        return false, c;
      }
    }

    method TryInsertAfter(c: Cursor, node: int, ghost n: Tile, ghost hs: seq<Tile>, ghost i: nat) returns (ok: bool)
      requires Listed(mem, hs) && i < |hs| && c.hole == hs[i].addr
      requires node == n.addr && node in mem && mem[node] == Hole(n.size, None) && hs[i].addr < node
      requires (i + 1 < |hs| ==> node < hs[i + 1].addr) ==> Ascending([DUMMY] + hs[..i] + [hs[i], n] + hs[i + 1..])
      modifies `mem
      ensures ok <==> (i + 1 < |hs| ==> node < hs[i + 1].addr)
      ensures ok ==> Seg(mem, [DUMMY] + hs[..i] + [hs[i], n] + hs[i + 1..], None)
      ensures !ok ==> mem == old(mem)
    {
      OpenAt(mem, hs, i);
      if mem[c.hole].next.Some? {
        if node >= mem[c.hole].next.value {
          return false;
        }
      }
      var next := mem[c.hole].next;
      mem := mem[c.hole := mem[c.hole].(next := Some(node))];
      mem := mem[node := mem[node].(next := next)];
      LinkAfterHole(old(mem), mem, hs, i, n);
      return true;
    }

    /** Absorbs `next`, which starts where `hole` ends. */
    method MergeNext(hole: int, next: int, ghost hs: seq<Tile>, ghost k: nat)
      requires a > 0 && Listed(mem, hs) && k + 1 < |hs| && hole == hs[k].addr && next == hs[k + 1].addr
      requires hs[k].End() == next && NoSlivers(hs, top, a)
      modifies `mem
      ensures Listed(mem, Merged(hs, k)) && NoSlivers(Merged(hs, k), top, a)
    {
      NodeAt(mem, hs, k);
      NodeAt(mem, hs, k + 1);
      var nextSize, nextNext := mem[next].size, mem[next].next;
      mem := mem[next := mem[next].(next := None)];
      mem := mem[hole := Hole(mem[hole].size + nextSize, nextNext)];
      MergedListed(old(mem), mem, hs, k);
      assert hs[k + 1] in hs;
    }

    /** Merges the current node with up to `max` following nodes. */
    method TryMergeNextN(c: Cursor, max: nat, ghost hs: seq<Tile>, ghost i: nat)
      requires a > 0 && Listed(mem, hs) && i < |hs| && c.hole == hs[i].addr
      requires NoSlivers(hs, top, a)
      modifies `mem
      ensures Seg(mem, [DUMMY] + MergeN(hs, i, max), None)
    {
      var hole := c.hole;
      ghost var cur, k := hs, i;
      for m := 0 to max
        invariant 0 <= k < |cur| && Listed(mem, cur) && hole == cur[k].addr
        invariant NoSlivers(cur, top, a)
        invariant MergeN(cur, k, max - m) == MergeN(hs, i, max)
      {
        NodeAt(mem, cur, k);
        if mem[hole].next.None? {
          assert cur[k] in cur;
          CheckMergeTop(hole);
          return;
        }
        var next := mem[hole].next.value;
        var end := hole + mem[hole].size;
        if end == next {
          MergeNext(hole, next, cur, k);
          cur := Merged(cur, k);
        } else {
          hole := next;
          k := k + 1;
        }
      }
    }
  
    /** The search for the place of a new node that is not the first of the list. */
    method InsertInOrder(c0: Cursor, node: int, ghost below: seq<Tile>, ghost n: Tile, ghost above: seq<Tile>)
      returns (c: Cursor)
      requires below != [] && Listed(mem, below + above) && c0 == Cursor(STUB, below[0].addr)
      requires node == n.addr && node in mem && mem[node] == Hole(n.size, None)
      requires Ascending([DUMMY] + below + [n] + above)
      modifies `mem
      ensures c.hole == below[|below| - 1].addr
      ensures Seg(mem, [DUMMY] + (below + [n] + above), None)
    {
      ghost var hs := below + above;
      Between(below, n, above);
      ghost var last := |below| - 1;
      assert [DUMMY] + hs[..last] + [hs[last], n] + hs[last + 1..] == [DUMMY] + below + [n] + above by {
        assert hs[..last] + [hs[last]] == below && hs[last + 1..] == above;
      }
      assert [DUMMY] + (below + [n] + above) == [DUMMY] + below + [n] + above;
      c := c0;
      ghost var i := 0;
      while true
        invariant 0 <= i < |below| && c.hole == hs[i].addr && mem == old(mem)
        decreases |below| - i
      {
        OpenAt(mem, hs, i);
        var done := TryInsertAfter(c, node, n, hs, i);
        if done {
          assert i == last;
          return;
        }
        var next := mem[c.hole].next;
        c := Cursor(c.hole, next.value);   // the `expect` here is never reached
        i := i + 1;
      }
    }

    /** A new node for an empty list. */
    method InsertOnly(addr: int, ghost n: Tile)
      requires a > 0 && addr == n.addr && STUB in mem && STUB < addr && mem[STUB] == Hole(0, None)
      requires addr in mem && mem[addr] == Hole(n.size, None)
      requires NoSliver(n, top, a) && (addr == bottom || bottom + MinSize(a) <= addr)
      modifies `mem
      ensures Seg(mem, [DUMMY] + [n], None)
    {
      var hole := CheckMergeBottom(addr);
      CheckMergeTop(hole);
      mem := mem[STUB := mem[STUB].(next := Some(hole))];
    }

    method DeallocateRaw(addr: int, size: int, ghost below: seq<Tile>, ghost above: seq<Tile>)
      requires a > 0 && Insertable(mem, below, Tile(addr, size, true), above, bottom, top, a)
      modifies `mem
      ensures Seg(mem, [DUMMY] + Joined(below, Tile(addr, size, true), above), None)
    {
      ghost var n := Tile(addr, size, true);
      ghost var hs := below + above;
      MergeJoins(below, n, above);
      MakeHole(addr, size);
      HeaderWritten(old(mem), mem, below, n, above, bottom, top, a);
      if mem[STUB].next.None? {
        assert n in below + [n] + above;
        InsertOnly(addr, n);
        assert Joined(below, n, above) == [n];
        return;
      }
      var cursor := Cursor(STUB, mem[STUB].next.value);
      var first, c := TryInsertBack(cursor, addr, n, hs);
      var max := 1;
      if first {
        assert [n] + hs == below + [n] + above;
      } else {
        c := InsertInOrder(c, addr, below, n, above);
        max := 2;
      }
      assert [DUMMY] + (below + [n] + above) == [DUMMY] + below + [n] + above;
      TryMergeNextN(c, max, below + [n] + above, if below == [] then 0 else |below| - 1);
    }

    /** Gives back a block obtained from `AllocateFirstFit` with a layout of the same size. */
    method Deallocate(addr: int, size: nat)
      requires Valid() && Tile(addr, AlignedSize(size, a), false) in tiles
      modifies `mem, `tiles
      ensures Valid()
      ensures Live(tiles) == old(Live(tiles)) - {Tile(addr, AlignedSize(size, a), false)}
    {
      var n := AlignedSize(size, a);
      ghost var k :| 0 <= k < |tiles| && tiles[k] == Tile(addr, n, false);
      ghost var below, above := Holes(tiles[..k]), Holes(tiles[k + 1..]);
      assert Clear(tiles, top, a) by { TileBounds(tiles, bottom, top, a); }
      ReleaseReady(mem, tiles, k, bottom, top, top, a);
      DeallocateRaw(addr, n, below, above);
      Released(mem, tiles, k, bottom, top, a);
      tiles := Release(tiles, k);
    }

    /** Hands `amount` more bytes, just after those already given, to the heap. */
    method Extend(amount: nat)
      requires Valid()
      modifies this
      ensures Valid()
      ensures Live(tiles) == old(Live(tiles)) && bottom == old(bottom)
      ensures top + pendingExtend == old(top + pendingExtend) + amount
      ensures if old(pendingExtend) + amount < MinSize(a) then top == old(top) else pendingExtend < a
    {
      var extendBy := pendingExtend + amount;
      if extendBy < MinSize(a) {
        pendingExtend := extendBy;
        return;
      }
      var n := AlignDown(extendBy, a);
      ghost var grown := tiles + [Tile(top, n, false)];
      ghost var k := |tiles|;
      assert grown[..k] == tiles && grown[k + 1..] == [] && Holes([]) == [];
      ExtensionSize(n, extendBy, a);
      ExtensionTiles(tiles, n, bottom, top, a);
      Extension(mem, tiles, n, bottom, top, a);
      DeallocateRaw(top, n, Holes(tiles), []);
      Released(mem, grown, k, bottom, top + n, a);
      tiles := Release(grown, k);
      top := top + n;
      pendingExtend := extendBy - n;
    }
  }
}
