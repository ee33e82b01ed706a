/** The circular free list: sentinel unit 0, then the free blocks in address order. */
module PacketRing {
  import opened PacketPool

  function Starts(ts: seq<Tile>): seq<int> {
    if ts == [] then [] else (if ts[0].free then [ts[0].start] else []) + Starts(ts[1..])
  }

  function Ring(ts: seq<Tile>): (r: seq<int>)
    ensures |r| > 0 && r[0] == 0
  {
    [0] + Starts(ts)
  }

  /** Position in the ring of the first free block at or after tile i. */
  function Place(ts: seq<Tile>, i: nat): (k: nat)
    requires i <= |ts|
    ensures k > 0
  {
    1 + |Starts(ts[..i])|
  }

  ghost predicate Ascending(r: seq<int>) {
    forall i, j :: 0 <= i < j < |r| ==> r[i] < r[j]
  }

  function After(r: seq<int>, k: nat): int
    requires k < |r|
  {
    if k + 1 < |r| then r[k + 1] else r[0]
  }

  /** Following next goes round r. */
  ghost predicate Circular(nx: seq<int>, r: seq<int>) {
    && |r| > 0
    && (forall k :: 0 <= k < |r| ==> 0 <= r[k] < |nx|)
    && forall k {:trigger nx[r[k]]} :: 0 <= k < |r| ==> nx[r[k]] == After(r, k)
  }

  /** The sizes in the headers are those of the tiles. */
  ghost predicate Sizes(sz: seq<int>, ts: seq<Tile>) {
    forall i :: 0 <= i < |ts| ==> 0 < ts[i].start < |sz| && sz[ts[i].start] == ts[i].size
  }

  /** The header units: sizes of all blocks, links of the free ones. */
  ghost predicate Headers(sz: seq<int>, nx: seq<int>, ts: seq<Tile>, units: nat) {
    && |sz| == units && |nx| == units && PoolOk(ts, units) && units > 1
    && sz[0] == 0
    && Sizes(sz, ts)
    && Circular(nx, Ring(ts))
  }

  // ---------------------------------------------------------------- positions

  lemma {:induction false} StartsConcat(a: seq<Tile>, b: seq<Tile>)
    ensures Starts(a + b) == Starts(a) + Starts(b)
  {
    if a == [] {
      assert a + b == b;
    } else {
      assert (a + b)[1..] == a[1..] + b;
      StartsConcat(a[1..], b);
      var x: seq<int> := if a[0].free then [a[0].start] else [];
      assert x + (Starts(a[1..]) + Starts(b)) == x + Starts(a[1..]) + Starts(b);
    }
  }

  lemma StartsOne(t: Tile)
    ensures Starts([t]) == if t.free then [t.start] else []
  {
    assert [t][1..] == [];
  }

  lemma {:induction false} StartsRange(ts: seq<Tile>, lo: nat, hi: nat)
    requires Tiling(ts, lo, hi)
    ensures forall k :: 0 <= k < |Starts(ts)| ==> lo <= Starts(ts)[k] < hi
    ensures Ascending(Starts(ts))
    decreases |ts|
  {
    if ts != [] {
      TilingRange(ts, lo, hi);
      StartsRange(ts[1..], lo + ts[0].size, hi);
    }
  }

  /** The ring is in address order. */
  lemma RingAscending(ts: seq<Tile>, units: nat)
    requires Tiling(ts, 1, units) && units > 1
    ensures Ascending(Ring(ts)) && forall k :: 0 <= k < |Ring(ts)| ==> 0 <= Ring(ts)[k] < units
  {
    StartsRange(ts, 1, units);
  }

  /** Ring members before Place(ts, i) lie below tile i, the others at or above it. */
  lemma PlaceSplits(ts: seq<Tile>, units: nat, i: nat)
    requires Tiling(ts, 1, units) && i < |ts|
    ensures Place(ts, i) <= |Ring(ts)|
    ensures forall k :: 0 <= k < Place(ts, i) ==> Ring(ts)[k] < ts[i].start
    ensures forall k :: Place(ts, i) <= k < |Ring(ts)| ==> Ring(ts)[k] >= ts[i].start
    ensures ts[i].free ==> Place(ts, i) < |Ring(ts)| && Ring(ts)[Place(ts, i)] == ts[i].start
    ensures !ts[i].free ==> forall k :: Place(ts, i) <= k < |Ring(ts)| ==> Ring(ts)[k] > ts[i].start
  {
    var a, b := ts[..i], ts[i..];
    assert ts == a + b && b[0] == ts[i];
    StartsConcat(a, b);
    TilingSplit(a, b, 1, units);
    var mid: nat :| 1 <= mid <= units && Tiling(a, 1, mid) && Tiling(b, mid, units);
    StartsRange(a, 1, mid);
    StartsRange(b, mid, units);
    StartsRange(b[1..], mid + b[0].size, units);
  }

  /** Every ring member but the sentinel is a free tile. */
  lemma {:induction false} RingTile(ts: seq<Tile>, k: nat) returns (i: nat)
    requires 0 < k < |Ring(ts)|
    ensures i < |ts| && ts[i].free && Place(ts, i) == k && Ring(ts)[k] == ts[i].start
    decreases |ts|
  {
    if ts[0].free && k == 1 {
      i := 0;
    } else {
      var k1 := if ts[0].free then k - 1 else k;
      var i1 := RingTile(ts[1..], k1);
      i := i1 + 1;
      assert ts[..i] == [ts[0]] + ts[1..][..i1];
      StartsConcat([ts[0]], ts[1..][..i1]);
      assert Starts([ts[0]]) == if ts[0].free then [ts[0].start] else [];
    }
  }

  // ---------------------------------------------------------------- link updates

  lemma LinkDrop(nx: seq<int>, r: seq<int>, k: nat)
    requires Circular(nx, r) && Ascending(r) && 0 < k < |r|
    ensures Circular(nx[r[k - 1] := nx[r[k]]], r[..k] + r[k + 1..])
  {
    var r', nx' := r[..k] + r[k + 1..], nx[r[k - 1] := nx[r[k]]];
    forall j | 0 <= j < |r'|
      ensures nx'[r'[j]] == After(r', j)
    {
      var o := if j < k then j else j + 1;
      assert r'[j] == r[o] && nx[r[o]] == After(r, o) && nx[r[k]] == After(r, k);
    }
  }

  lemma LinkInsert(nx: seq<int>, r: seq<int>, k: nat, p: nat)
    requires Circular(nx, r) && Ascending(r) && 0 < k <= |r| && p < |nx| && p !in r
    ensures Circular(nx[p := nx[r[k - 1]]][r[k - 1] := p], r[..k] + [p] + r[k..])
  {
    var r', nx' := r[..k] + [p] + r[k..], nx[p := nx[r[k - 1]]][r[k - 1] := p];
    forall j | 0 <= j < |r'|
      ensures nx'[r'[j]] == After(r', j)
    {
      if j == k {
        assert r'[j] == p && nx[r[k - 1]] == After(r, k - 1);
        assert r[k - 1] in r;
      } else {
        var o := if j < k then j else j - 1;
        assert r'[j] == r[o] && nx[r[o]] == After(r, o) && r[o] in r;
      }
    }
  }

  lemma LinkReplace(nx: seq<int>, r: seq<int>, k: nat, p: nat)
    requires Circular(nx, r) && Ascending(r) && 0 < k < |r| && p < |nx| && p !in r
    ensures Circular(nx[p := nx[r[k]]][r[k - 1] := p], r[k := p])
  {
    var r', nx' := r[k := p], nx[p := nx[r[k]]][r[k - 1] := p];
    forall j | 0 <= j < |r'|
      ensures nx'[r'[j]] == After(r', j)
    {
      assert nx[r[j]] == After(r, j) && r[j] in r && r[k - 1] in r;
    }
  }

  lemma LinkSame(nx: seq<int>, r: seq<int>, k: nat, p: nat, v: int)
    requires Circular(nx, r) && k < |r| && p < |nx| && p !in r
    ensures Circular(nx[p := v][r[k] := nx[r[k]]], r)
  {
    forall j | 0 <= j < |r|
      ensures nx[p := v][r[k] := nx[r[k]]][r[j]] == After(r, j)
    {
      assert nx[r[j]] == After(r, j) && r[j] in r;
    }
  }

  lemma StartsThree(a: seq<Tile>, b: seq<Tile>, d: seq<Tile>, ts: seq<Tile>)
    requires ts == a + b + d
    ensures Starts(ts) == Starts(a) + Starts(b) + Starts(d)
  {
    StartsConcat(a + b, d);
    StartsConcat(a, b);
  }

  /** No two tiles share a header unit. */
  lemma OtherStarts(ts: seq<Tile>, units: nat, i: nat)
    requires Tiling(ts, 1, units) && i < |ts|
    ensures forall j :: 0 <= j < |ts| && j != i ==> ts[j].start != ts[i].start
  {
    TilingRange(ts, 1, units);
    forall j | 0 <= j < |ts| && j != i
      ensures ts[j].start != ts[i].start
    {
      if j < i { TilingOrder(ts, 1, units, j, i); } else { TilingOrder(ts, 1, units, i, j); }
    }
  }

  // ---------------------------------------------------------------- alloc_buff

  lemma AllocStarts(ts: seq<Tile>, i: nat, now: seq<Tile>)
    requires i < |ts| && ts[i].free && now == ts[i := ts[i].(free := false)]
    ensures var a, d := Starts(ts[..i]), Starts(ts[i + 1..]);
            Starts(ts) == a + [ts[i].start] + d && Starts(now) == a + [] + d
  {
    StartsThree(ts[..i], [ts[i]], ts[i + 1..], ts);
    StartsThree(ts[..i], [now[i]], ts[i + 1..], now);
    StartsOne(ts[i]);
    StartsOne(now[i]);
  }

  lemma AllocWholeRing(ts: seq<Tile>, i: nat)
    requires i < |ts| && ts[i].free
    ensures var k, r := Place(ts, i), Ring(ts);
            0 < k < |r| && r[k] == ts[i].start && Ring(AllocAt(ts, i, ts[i].size)) == r[..k] + r[k + 1..]
  {
    AllocStarts(ts, i, AllocAt(ts, i, ts[i].size));
    CutOut(Starts(ts[..i]), ts[i].start, Starts(ts[i + 1..]));
  }

  lemma CutOut(a: seq<int>, x: int, d: seq<int>)
    ensures var r, k := [0] + (a + [x] + d), 1 + |a|; r[k] == x && [0] + (a + [] + d) == r[..k] + r[k + 1..]
  {
  }

  /** wrk->next = ptr->next */
  lemma AllocWhole(sz: seq<int>, nx: seq<int>, ts: seq<Tile>, units: nat, i: nat)
    requires Headers(sz, nx, ts, units) && i < |ts| && ts[i].free
    ensures var k, r := Place(ts, i), Ring(ts);
            && 0 < k < |r| && r[k] == ts[i].start && 0 <= r[k - 1] < units
            && Headers(sz, nx[r[k - 1] := nx[r[k]]], AllocAt(ts, i, ts[i].size), units)
            && Ring(AllocAt(ts, i, ts[i].size)) == r[..k] + r[k + 1..]
  {
    AllocWholeRing(ts, i);
    RingAscending(ts, units);
    TilingRange(ts, 1, units);
    AllocKeeps(ts, units, i, ts[i].size);
    LinkDrop(nx, Ring(ts), Place(ts, i));
  }

  lemma AllocPartRing(ts: seq<Tile>, i: nat, need: nat)
    requires i < |ts| && ts[i].free && 0 < need < ts[i].size
    ensures Ring(AllocAt(ts, i, need)) == Ring(ts)
  {
    var t := ts[i];
    var rest, live := t.(size := t.size - need), Tile(t.start + t.size - need, need, false);
    StartsThree(ts[..i], [t], ts[i + 1..], ts);
    StartsThree(ts[..i], [rest, live], ts[i + 1..], AllocAt(ts, i, need));
    assert [rest, live] == [rest] + [live];
    StartsOne(t);
    StartsOne(rest);
    StartsOne(live);
    StartsConcat([rest], [live]);
  }

  lemma AllocPartSizes(sz: seq<int>, ts: seq<Tile>, units: nat, i: nat, need: nat)
    requires Tiling(ts, 1, units) && |sz| == units && Sizes(sz, ts) && i < |ts| && 0 < need < ts[i].size
    ensures var t := ts[i]; var top := t.start + t.size - need;
            0 < top < units && Sizes(sz[t.start := t.size - need][top := need], AllocAt(ts, i, need))
  {
    var t := ts[i];
    var rest, live := t.(size := t.size - need), Tile(t.start + t.size - need, need, false);
    var now := AllocAt(ts, i, need);
    TilingRange(ts, 1, units);
    var sz' := sz[t.start := t.size - need][live.start := need];
    forall x | 0 <= x < |now|
      ensures 0 < now[x].start < units && sz'[now[x].start] == now[x].size
    {
      if x < i {
        assert now[x] == ts[x];
        TilingOrder(ts, 1, units, x, i);
      } else if x > i + 1 {
        assert now[x] == ts[x - 1];
        TilingOrder(ts, 1, units, i, x - 1);
      }
    }
  }

  /** ptr->size -= units; ptr += ptr->size; ptr->size = units */
  lemma AllocPart(sz: seq<int>, nx: seq<int>, ts: seq<Tile>, units: nat, i: nat, need: nat)
    requires Headers(sz, nx, ts, units) && i < |ts| && ts[i].free && 0 < need < ts[i].size
    ensures var t := ts[i]; var top := t.start + t.size - need;
            && 0 < top < units && t.start < units
            && Headers(sz[t.start := t.size - need][top := need], nx, AllocAt(ts, i, need), units)
            && Ring(AllocAt(ts, i, need)) == Ring(ts)
  {
    AllocKeeps(ts, units, i, need);
    AllocPartRing(ts, i, need);
    AllocPartSizes(sz, ts, units, i, need);
  }

  // ---------------------------------------------------------------- free_buff

  /** The two adjacency tests of free_buff see exactly the free neighbours. */
  lemma AdjacencyTests(sz: seq<int>, nx: seq<int>, ts: seq<Tile>, units: nat, i: nat)
    requires Headers(sz, nx, ts, units) && i < |ts| && !ts[i].free
    ensures var k, r, p := Place(ts, i), Ring(ts), ts[i].start;
            && 0 < k <= |r| && 0 <= r[k - 1] < units && 0 <= nx[r[k - 1]] < units
            && nx[r[k - 1]] == (if k < |r| then r[k] else 0)
            && (p + ts[i].size == nx[r[k - 1]] <==> FreeAfter(ts, i))
            && (r[k - 1] + sz[r[k - 1]] == p <==> FreeBefore(ts, i))
            && (FreeAfter(ts, i) ==> k < |r| && r[k] == ts[i + 1].start)
            && (FreeBefore(ts, i) ==> k > 1 && r[k - 1] == ts[i - 1].start)
  {
    var k, r := Place(ts, i), Ring(ts);
    PlaceSplits(ts, units, i);
    TilingRange(ts, 1, units);
    RingAscending(ts, units);
    assert nx[r[k - 1]] == After(r, k - 1);
    AdjacentAfter(ts, units, i);
    AdjacentBefore(ts, units, i);
    if k > 1 {
      var h := RingTile(ts, k - 1);
      assert sz[ts[h].start] == ts[h].size;
    }
  }

  lemma AdjacentAfter(ts: seq<Tile>, units: nat, i: nat)
    requires Tiling(ts, 1, units) && i < |ts| && !ts[i].free
    ensures var k, r := Place(ts, i), Ring(ts);
            && (FreeAfter(ts, i) ==> k < |r| && r[k] == ts[i + 1].start == ts[i].start + ts[i].size)
            && (k < |r| && r[k] == ts[i].start + ts[i].size ==> FreeAfter(ts, i))
  {
    var k, r := Place(ts, i), Ring(ts);
    TilingNext(ts, 1, units, i);
    TilingRange(ts, 1, units);
    RingAscending(ts, units);
    if i + 1 < |ts| {
      PlaceSplits(ts, units, i + 1);
      assert ts[..i + 1] == ts[..i] + [ts[i]];
      StartsConcat(ts[..i], [ts[i]]);
      StartsOne(ts[i]);
    }
  }

  lemma AdjacentBefore(ts: seq<Tile>, units: nat, i: nat)
    requires Tiling(ts, 1, units) && i < |ts|
    ensures var k, r := Place(ts, i), Ring(ts);
            && (FreeBefore(ts, i) ==>
                  1 < k <= |r| && r[k - 1] == ts[i - 1].start && ts[i - 1].start + ts[i - 1].size == ts[i].start)
            && (forall h :: 0 <= h < |ts| && ts[h].free && ts[h].start + ts[h].size == ts[i].start ==>
              FreeBefore(ts, i) && h == i - 1)
  {
    TilingRange(ts, 1, units);
    if i > 0 {
      TilingNext(ts, 1, units, i - 1);
      PlaceSplits(ts, units, i - 1);
      assert ts[..i] == ts[..i - 1] + [ts[i - 1]];
      StartsConcat(ts[..i - 1], [ts[i - 1]]);
      StartsOne(ts[i - 1]);
      PlaceSplits(ts, units, i);
    }
    OnlyBefore(ts, units, i);
  }

  lemma OnlyBefore(ts: seq<Tile>, units: nat, i: nat)
    requires Tiling(ts, 1, units) && i < |ts|
    ensures forall h :: 0 <= h < |ts| && ts[h].free && ts[h].start + ts[h].size == ts[i].start ==>
              FreeBefore(ts, i) && h == i - 1
  {
    TilingRange(ts, 1, units);
    forall h | 0 <= h < |ts| && ts[h].free && ts[h].start + ts[h].size == ts[i].start
      ensures FreeBefore(ts, i) && h == i - 1
    {
      TilingNext(ts, 1, units, h);
      if h + 1 < i { TilingOrder(ts, 1, units, h + 1, i); }
      if i < h { TilingOrder(ts, 1, units, i, h); }
    }
  }

  /** The ring after freeing the block at p: a new member, a member moved down, none, or one fewer. */
  function Freed(r: seq<int>, k: nat, p: int, before: bool, after: bool): seq<int>
    requires k <= |r| && (after ==> k < |r|)
  {
    if before then (if after then r[..k] + r[k + 1..] else r)
    else (if after then r[k := p] else r[..k] + [p] + r[k..])
  }

  function FreedRing(ts: seq<Tile>, i: nat): seq<int>
    requires i < |ts| && Place(ts, i) <= |Ring(ts)| && (FreeAfter(ts, i) ==> Place(ts, i) < |Ring(ts)|)
  {
    Freed(Ring(ts), Place(ts, i), ts[i].start, FreeBefore(ts, i), FreeAfter(ts, i))
  }

  lemma Splice(a: seq<int>, b: seq<int>, e: seq<int>, d: seq<int>, p: int, s: seq<int>, s': seq<int>, before: bool,
               after: bool)
    requires |b| <= 1 && |e| <= 1 && (before <==> b != []) && (after <==> e != [])
    requires s == a + (b + e) + d && s' == a + [if before then b[0] else p] + d
    ensures var r, k := [0] + s, 1 + |a| + |b|;
            k <= |r| && (after ==> k < |r|) && [0] + s' == Freed(r, k, p, before, after)
  {
  }

  lemma FreeRingParts(ts: seq<Tile>, i: nat, lo: nat, hi: nat)
    requires i < |ts| && !ts[i].free
    requires lo == if FreeBefore(ts, i) then i - 1 else i
    requires hi == if FreeAfter(ts, i) then i + 2 else i + 1
    ensures var a, b, e, d := Starts(ts[..lo]), Starts(ts[lo..i]), Starts(ts[i + 1..hi]), Starts(ts[hi..]);
            && Starts(ts) == a + (b + e) + d && Starts(FreeAt(ts, i)) == a + [ts[lo].start] + d
            && Place(ts, i) == 1 + |a| + |b|
  {
    FreeParts(ts, i);
    var one := Tile(ts[lo].start, SizeSum(ts[lo..hi]), true);
    StartsOne(one);
    StartsThree(ts[..lo], ts[lo..hi], ts[hi..], ts);
    StartsThree(ts[..lo], [one], ts[hi..], FreeAt(ts, i));
    MiddleStarts(ts, i, lo, hi);
    assert ts[..i] == ts[..lo] + ts[lo..i];
    StartsConcat(ts[..lo], ts[lo..i]);
  }

  lemma FreeRing(ts: seq<Tile>, i: nat)
    requires i < |ts| && !ts[i].free
    ensures Place(ts, i) <= |Ring(ts)| && (FreeAfter(ts, i) ==> Place(ts, i) < |Ring(ts)|)
    ensures Ring(FreeAt(ts, i)) == FreedRing(ts, i)
  {
    var a, b, e, d := FreePieces(ts, i);
    Splice(a, b, e, d, ts[i].start, Starts(ts), Starts(FreeAt(ts, i)), FreeBefore(ts, i), FreeAfter(ts, i));
  }

  /** The free blocks below, just below, just above and above block i. */
  lemma FreePieces(ts: seq<Tile>, i: nat) returns (a: seq<int>, b: seq<int>, e: seq<int>, d: seq<int>)
    requires i < |ts| && !ts[i].free
    ensures |b| <= 1 && |e| <= 1 && (FreeBefore(ts, i) <==> b != []) && (FreeAfter(ts, i) <==> e != [])
    ensures Starts(ts) == a + (b + e) + d
    ensures Starts(FreeAt(ts, i)) == a + [if FreeBefore(ts, i) then b[0] else ts[i].start] + d
    ensures Place(ts, i) == 1 + |a| + |b|
  {
    var lo := if FreeBefore(ts, i) then i - 1 else i;
    var hi := if FreeAfter(ts, i) then i + 2 else i + 1;
    FreeRingParts(ts, i, lo, hi);
    MiddleStarts(ts, i, lo, hi);
    a, b, e, d := Starts(ts[..lo]), Starts(ts[lo..i]), Starts(ts[i + 1..hi]), Starts(ts[hi..]);
  }

  lemma MiddleStarts(ts: seq<Tile>, i: nat, lo: nat, hi: nat)
    requires i < |ts| && !ts[i].free
    requires lo == if FreeBefore(ts, i) then i - 1 else i
    requires hi == if FreeAfter(ts, i) then i + 2 else i + 1
    ensures Starts(ts[lo..i]) == if FreeBefore(ts, i) then [ts[i - 1].start] else []
    ensures Starts(ts[i + 1..hi]) == if FreeAfter(ts, i) then [ts[i + 1].start] else []
    ensures Starts(ts[lo..hi]) == Starts(ts[lo..i]) + Starts(ts[i + 1..hi])
  {
    assert ts[lo..hi] == ts[lo..i] + ([ts[i]] + ts[i + 1..hi]);
    StartsConcat(ts[lo..i], [ts[i]] + ts[i + 1..hi]);
    StartsConcat([ts[i]], ts[i + 1..hi]);
    StartsOne(ts[i]);
    if FreeBefore(ts, i) { assert ts[lo..i] == [ts[i - 1]]; StartsOne(ts[i - 1]); }
    if FreeAfter(ts, i) { assert ts[i + 1..hi] == [ts[i + 1]]; StartsOne(ts[i + 1]); }
  }

  /** What free_buff writes into the size fields. */
  function FreedSizes(sz: seq<int>, p: nat, wrk: nat, nxt: nat, before: bool, after: bool): seq<int>
    requires p < |sz| && wrk < |sz| && nxt < |sz|
  {
    var s1 := if after then sz[p := sz[p] + sz[nxt]] else sz;
    if before then s1[wrk := s1[wrk] + s1[p]] else s1
  }

  /** What free_buff writes into the links. */
  function FreedLinks(nx: seq<int>, p: nat, wrk: nat, nxt: nat, before: bool, after: bool): seq<int>
    requires p < |nx| && wrk < |nx| && nxt < |nx|
  {
    var n1 := nx[p := if after then nx[nxt] else nx[wrk]];
    n1[wrk := if before then n1[p] else p]
  }

  lemma FreeSizes(sz: seq<int>, ts: seq<Tile>, units: nat, i: nat, wrk: nat, nxt: nat)
    requires Tiling(ts, 1, units) && |sz| == units && Sizes(sz, ts) && i < |ts| && wrk < units && nxt < units
    requires FreeBefore(ts, i) ==> wrk == ts[i - 1].start
    requires FreeAfter(ts, i) ==> nxt == ts[i + 1].start
    requires ts[i].start < units
    ensures Sizes(FreedSizes(sz, ts[i].start, wrk, nxt, FreeBefore(ts, i), FreeAfter(ts, i)), FreeAt(ts, i))
  {
    var now := FreeAt(ts, i);
    var lo := if FreeBefore(ts, i) then i - 1 else i;
    var hi := if FreeAfter(ts, i) then i + 2 else i + 1;
    var sz' := FreedSizes(sz, ts[i].start, wrk, nxt, FreeBefore(ts, i), FreeAfter(ts, i));
    OtherStarts(ts, units, i);
    OtherStarts(ts, units, lo);
    forall k | 0 <= k < |now|
      ensures 0 < now[k].start < units && sz'[now[k].start] == now[k].size
    {
      if k == lo {
        assert now[k].start == ts[lo].start;
      } else {
        var o := if k < lo then k else k + hi - lo - 1;
        assert now[k] == ts[o] && o != i && o != lo;
      }
    }
  }

  lemma FreeLinks(nx: seq<int>, ts: seq<Tile>, units: nat, i: nat)
    requires Tiling(ts, 1, units) && units > 1 && |nx| == units && Circular(nx, Ring(ts)) && i < |ts| && !ts[i].free
    ensures var k, r, p := Place(ts, i), Ring(ts), ts[i].start;
            && 0 < k <= |r| && 0 <= r[k - 1] < units && 0 <= nx[r[k - 1]] < units && p < units
            && Circular(FreedLinks(nx, p, r[k - 1], nx[r[k - 1]], FreeBefore(ts, i), FreeAfter(ts, i)),
              Ring(FreeAt(ts, i)))
  {
    var k, r, p := Place(ts, i), Ring(ts), ts[i].start;
    TilingRange(ts, 1, units);
    RingAscending(ts, units);
    PlaceSplits(ts, units, i);
    FreeRing(ts, i);
    assert p !in r;
    assert nx[r[k - 1]] == After(r, k - 1);
    if FreeAfter(ts, i) {
      if FreeBefore(ts, i) {
        LinkDrop(nx, r, k);
        LinkOutside(nx[r[k - 1] := nx[r[k]]], r[..k] + r[k + 1..], p, nx[r[k]]);
        assert nx[p := nx[r[k]]][r[k - 1] := nx[r[k]]] == nx[r[k - 1] := nx[r[k]]][p := nx[r[k]]];
      } else {
        LinkReplace(nx, r, k, p);
      }
    } else {
      if FreeBefore(ts, i) { LinkSame(nx, r, k - 1, p, nx[r[k - 1]]); } else { LinkInsert(nx, r, k, p); }
    }
  }

  lemma LinkOutside(nx: seq<int>, r: seq<int>, p: nat, v: int)
    requires Circular(nx, r) && p < |nx| && p !in r
    ensures Circular(nx[p := v], r)
  {
    forall j | 0 <= j < |r|
      ensures nx[p := v][r[j]] == After(r, j)
    {
      assert nx[r[j]] == After(r, j) && r[j] in r;
    }
  }

  /** What free_buff leaves behind is the pool with tile i freed. */
  lemma FreeHeaders(sz: seq<int>, nx: seq<int>, ts: seq<Tile>, units: nat, i: nat, wrk: nat, nxt: nat)
    requires Headers(sz, nx, ts, units) && i < |ts| && !ts[i].free && Place(ts, i) <= |Ring(ts)|
    requires wrk == Ring(ts)[Place(ts, i) - 1] && 0 < ts[i].start < units && wrk < ts[i].start && nxt == nx[wrk] &&
             nxt < units
    requires FreeBefore(ts, i) ==> wrk == ts[i - 1].start
    requires FreeAfter(ts, i) ==> nxt == ts[i + 1].start
    ensures var p, before, after := ts[i].start, FreeBefore(ts, i), FreeAfter(ts, i);
            Headers(FreedSizes(sz, p, wrk, nxt, before, after), FreedLinks(nx, p, wrk, nxt, before, after),
                FreeAt(ts, i), units)
    ensures wrk in Ring(FreeAt(ts, i))
  {
    FreeLinks(nx, ts, units, i);
    FreeSizes(sz, ts, units, i, wrk, nxt);
    FreeKeeps(ts, units, i);
    FreeZero(sz, ts, units, i, wrk, nxt);
    StaysInRing(ts, i);
  }

  lemma FreeZero(sz: seq<int>, ts: seq<Tile>, units: nat, i: nat, wrk: nat, nxt: nat)
    requires Tiling(ts, 1, units) && units > 1 && |sz| == units && i < |ts| && sz[0] == 0 && 0 < ts[i].start < units &&
             wrk < units && nxt < units
    requires FreeBefore(ts, i) ==> wrk == ts[i - 1].start
    ensures FreedSizes(sz, ts[i].start, wrk, nxt, FreeBefore(ts, i), FreeAfter(ts, i))[0] == 0
  {
    TilingRange(ts, 1, units);
  }

  lemma StaysInRing(ts: seq<Tile>, i: nat)
    requires i < |ts| && !ts[i].free && Place(ts, i) <= |Ring(ts)|
    ensures Ring(ts)[Place(ts, i) - 1] in Ring(FreeAt(ts, i))
  {
    FreeRing(ts, i);
    var k := Place(ts, i);
    assert FreedRing(ts, i)[k - 1] == Ring(ts)[k - 1];
  }
}
