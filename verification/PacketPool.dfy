/** The packet-buffer pool as a tiling of its units, and what alloc_buff and free_buff do to it. */
module PacketPool {

  /** A run of units starting with a block header. */
  datatype Tile = Tile(start: nat, size: nat, free: bool)

  /** The tiles cover lo..hi, one after the other. */
  ghost predicate Tiling(ts: seq<Tile>, lo: nat, hi: nat)
    decreases |ts|
  {
    if ts == [] then lo == hi
    else ts[0].start == lo && ts[0].size > 0 && Tiling(ts[1..], lo + ts[0].size, hi)
  }

  /** Free neighbours have been joined. */
  ghost predicate Joined(ts: seq<Tile>) {
    forall i :: 0 < i < |ts| ==> !(ts[i - 1].free && ts[i].free)
  }

  ghost predicate PoolOk(ts: seq<Tile>, units: nat) {
    Tiling(ts, 1, units) && Joined(ts)
  }

  /** Carve need units from the top of free tile i. */
  function AllocAt(ts: seq<Tile>, i: nat, need: nat): seq<Tile>
    requires i < |ts| && need <= ts[i].size
  {
    var t := ts[i];
    if t.size == need then ts[i := t.(free := false)]
    else ts[..i] + [t.(size := t.size - need), Tile(t.start + t.size - need, need, false)] + ts[i + 1..]
  }

  predicate FreeBefore(ts: seq<Tile>, i: nat) requires i < |ts| { i > 0 && ts[i - 1].free }
  predicate FreeAfter(ts: seq<Tile>, i: nat) requires i < |ts| { i + 1 < |ts| && ts[i + 1].free }

  /** Free tile i and join it with its free neighbours. */
  function FreeAt(ts: seq<Tile>, i: nat): seq<Tile>
    requires i < |ts|
  {
    var lo := if FreeBefore(ts, i) then i - 1 else i;
    var hi := if FreeAfter(ts, i) then i + 2 else i + 1;
    var before := if FreeBefore(ts, i) then ts[i - 1].size else 0;
    var after := if FreeAfter(ts, i) then ts[i + 1].size else 0;
    ts[..lo] + [Tile(ts[lo].start, before + ts[i].size + after, true)] + ts[hi..]
  }

  // ---------------------------------------------------------------- tilings

  lemma {:induction false} TilingSplit(a: seq<Tile>, b: seq<Tile>, lo: nat, hi: nat)
    requires Tiling(a + b, lo, hi)
    ensures exists mid: nat :: lo <= mid <= hi && Tiling(a, lo, mid) && Tiling(b, mid, hi)
    decreases |a|
  {
    if a == [] {
      assert a + b == b;
      TilingRange(b, lo, hi);
      assert Tiling(a, lo, lo) && Tiling(b, lo, hi);
    } else {
      assert (a + b)[1..] == a[1..] + b;
      TilingSplit(a[1..], b, lo + a[0].size, hi);
      var mid: nat :| lo + a[0].size <= mid <= hi && Tiling(a[1..], lo + a[0].size, mid) && Tiling(b, mid, hi);
      assert Tiling(a, lo, mid);
    }
  }

  lemma {:induction false} TilingJoin(a: seq<Tile>, b: seq<Tile>, lo: nat, mid: nat, hi: nat)
    requires Tiling(a, lo, mid) && Tiling(b, mid, hi)
    ensures Tiling(a + b, lo, hi)
    decreases |a|
  {
    if a == [] {
      assert a + b == b;
    } else {
      assert (a + b)[1..] == a[1..] + b;
      TilingJoin(a[1..], b, lo + a[0].size, mid, hi);
    }
  }

  lemma {:induction false} TilingRange(ts: seq<Tile>, lo: nat, hi: nat)
    requires Tiling(ts, lo, hi)
    ensures lo <= hi
    ensures forall i :: 0 <= i < |ts| ==> lo <= ts[i].start && ts[i].start + ts[i].size <= hi && ts[i].size > 0
    decreases |ts|
  {
    if ts != [] {
      TilingRange(ts[1..], lo + ts[0].size, hi);
      assert forall i :: 0 < i < |ts| ==> ts[i] == ts[1..][i - 1];
    }
  }

  /** Tiles follow each other without gap or overlap. */
  lemma {:induction false} TilingNext(ts: seq<Tile>, lo: nat, hi: nat, i: nat)
    requires Tiling(ts, lo, hi) && i < |ts|
    ensures ts[i].start + ts[i].size == if i + 1 < |ts| then ts[i + 1].start else hi
    decreases |ts|
  {
    if i == 0 {
      if |ts| > 1 { assert ts[1..][0] == ts[1]; }
    } else {
      TilingNext(ts[1..], lo + ts[0].size, hi, i - 1);
    }
  }

  lemma TilingOrder(ts: seq<Tile>, lo: nat, hi: nat, i: nat, j: nat)
    requires Tiling(ts, lo, hi) && i < j < |ts|
    ensures ts[i].start + ts[i].size <= ts[j].start
    decreases j - i
  {
    TilingNext(ts, lo, hi, i);
    TilingRange(ts, lo, hi);
    if i + 1 < j { TilingOrder(ts, lo, hi, i + 1, j); }
  }

  /** Replacing a stretch of tiles by another that covers the same units. */
  lemma TilingReplace(a: seq<Tile>, b: seq<Tile>, b': seq<Tile>, d: seq<Tile>, lo: nat, hi: nat)
    requires Tiling(a + b + d, lo, hi)
    requires forall x: nat, y: nat :: Tiling(b, x, y) ==> Tiling(b', x, y)
    ensures Tiling(a + b' + d, lo, hi)
  {
    assert a + b + d == a + (b + d);
    TilingSplit(a, b + d, lo, hi);
    var m1: nat :| lo <= m1 <= hi && Tiling(a, lo, m1) && Tiling(b + d, m1, hi);
    TilingSplit(b, d, m1, hi);
    var m2: nat :| m1 <= m2 <= hi && Tiling(b, m1, m2) && Tiling(d, m2, hi);
    TilingJoin(b', d, m1, m2, hi);
    TilingJoin(a, b' + d, lo, m1, hi);
    assert a + (b' + d) == a + b' + d;
  }

  /** Carving keeps the partition and never leaves two free neighbours. */
  lemma AllocKeeps(ts: seq<Tile>, units: nat, i: nat, need: nat)
    requires PoolOk(ts, units) && i < |ts| && ts[i].free && 0 < need <= ts[i].size
    ensures PoolOk(AllocAt(ts, i, need), units)
  {
    var t, a, d := ts[i], ts[..i], ts[i + 1..];
    assert ts == a + [t] + d;
    if t.size == need {
      TilingReplace(a, [t], [t.(free := false)], d, 1, units);
      assert AllocAt(ts, i, need) == a + [t.(free := false)] + d;
    } else {
      var two := [t.(size := t.size - need), Tile(t.start + t.size - need, need, false)];
      forall x: nat, y: nat | Tiling([t], x, y)
        ensures Tiling(two, x, y)
      {
        assert Tiling([t][1..], x + t.size, y);
        assert two[1..][1..] == [];
      }
      TilingReplace(a, [t], two, d, 1, units);
      var r := AllocAt(ts, i, need);
      assert forall k :: 0 <= k < |r| ==> r[k] == if k < i then ts[k] else if k <= i + 1 then two[k - i] else ts[k - 1];
    }
  }

  function SizeSum(ts: seq<Tile>): nat {
    if ts == [] then 0 else ts[0].size + SizeSum(ts[1..])
  }

  lemma {:induction false} TilingSum(ts: seq<Tile>, lo: nat, hi: nat)
    requires Tiling(ts, lo, hi)
    ensures lo + SizeSum(ts) == hi
  {
    if ts != [] { TilingSum(ts[1..], lo + ts[0].size, hi); }
  }

  /** One tile may stand for a stretch of tiles with the same start and total size. */
  lemma OneCovers(b: seq<Tile>, one: Tile, x: nat, y: nat)
    requires Tiling(b, x, y) && b != [] && one.start == b[0].start && one.size == SizeSum(b)
    ensures Tiling([one], x, y)
  {
    TilingSum(b, x, y);
    assert [one][1..] == [];
    assert Tiling([one][1..], x + one.size, y);
  }

  lemma FreeParts(ts: seq<Tile>, i: nat)
    requires i < |ts|
    ensures var lo := if FreeBefore(ts, i) then i - 1 else i;
            var hi := if FreeAfter(ts, i) then i + 2 else i + 1;
            && ts == ts[..lo] + ts[lo..hi] + ts[hi..]
            && FreeAt(ts, i) == ts[..lo] + [Tile(ts[lo].start, SizeSum(ts[lo..hi]), true)] + ts[hi..]
  {
    var lo := if FreeBefore(ts, i) then i - 1 else i;
    var hi := if FreeAfter(ts, i) then i + 2 else i + 1;
    var b := ts[lo..hi];
    assert SizeSum(b) == b[0].size + SizeSum(b[1..]);
    if |b| > 1 { assert SizeSum(b[1..]) == b[1].size + SizeSum(b[1..][1..]); }
    if |b| > 2 { assert SizeSum(b[1..][1..]) == b[2].size + SizeSum(b[1..][1..][1..]); }
  }

  /** Freeing keeps the partition and joins everything that can be joined. */
  lemma FreeKeeps(ts: seq<Tile>, units: nat, i: nat)
    requires PoolOk(ts, units) && i < |ts| && !ts[i].free
    ensures PoolOk(FreeAt(ts, i), units)
  {
    var lo := if FreeBefore(ts, i) then i - 1 else i;
    var hi := if FreeAfter(ts, i) then i + 2 else i + 1;
    FreeParts(ts, i);
    var b := ts[lo..hi];
    var one := Tile(ts[lo].start, SizeSum(b), true);
    forall x: nat, y: nat | Tiling(b, x, y)
      ensures Tiling([one], x, y)
    {
      OneCovers(b, one, x, y);
    }
    TilingReplace(ts[..lo], b, [one], ts[hi..], 1, units);
    FreeJoins(ts, i, lo, hi, one);
  }

  lemma JoinedAt(ts: seq<Tile>, j: nat)
    requires Joined(ts) && 0 < j < |ts|
    ensures !ts[j - 1].free || !ts[j].free
  {
  }

  lemma FreeJoins(ts: seq<Tile>, i: nat, lo: nat, hi: nat, one: Tile)
    requires Joined(ts) && i < |ts|
    requires lo == if FreeBefore(ts, i) then i - 1 else i
    requires hi == if FreeAfter(ts, i) then i + 2 else i + 1
    ensures Joined(ts[..lo] + [one] + ts[hi..])
  {
    var r := ts[..lo] + [one] + ts[hi..];
    forall k | 0 < k < |r| ensures !(r[k - 1].free && r[k].free) {
      if k < lo {
        assert r[k] == ts[k] && r[k - 1] == ts[k - 1];
      } else if k == lo {
        JoinedAt(ts, lo);
        assert r[k - 1] == ts[lo - 1];
      } else if k == lo + 1 {
        JoinedAt(ts, hi);
        assert r[k] == ts[hi];
      } else {
        var j := k - lo - 1 + hi;
        assert r[k] == ts[j] && r[k - 1] == ts[j - 1];
      }
    }
  }

  lemma SomeLive(ts: seq<Tile>)
    requires Joined(ts) && |ts| > 1
    ensures exists i :: 0 <= i < |ts| && !ts[i].free
  {
    if ts[0].free { assert !ts[1].free; }
  }

  /** With every buffer returned the pool is the one free block it started as. */
  lemma AllFreedIsInitial(ts: seq<Tile>, units: nat)
    requires PoolOk(ts, units) && units > 1 && forall i :: 0 <= i < |ts| ==> ts[i].free
    ensures ts == [Tile(1, units - 1, true)]
  {
    assert ts != [];
    if |ts| > 1 { SomeLive(ts); }
    TilingNext(ts, 1, units, 0);
    assert ts == [ts[0]];
  }

  // ---------------------------------------------------------------- any sequence of calls

  datatype Call = Alloc(tile: nat, need: nat) | Free(tile: nat)

  ghost predicate CallOk(ts: seq<Tile>, c: Call) {
    c.tile < |ts| && if c.Alloc? then ts[c.tile].free && 0 < c.need <= ts[c.tile].size else !ts[c.tile].free
  }

  function Apply(ts: seq<Tile>, c: Call): seq<Tile>
    requires c.tile < |ts| && (c.Alloc? ==> c.need <= ts[c.tile].size)
  {
    if c.Alloc? then AllocAt(ts, c.tile, c.need) else FreeAt(ts, c.tile)
  }

  ghost predicate PoolRun(trace: seq<seq<Tile>>, calls: seq<Call>, units: nat) {
    && units > 1 && |trace| == |calls| + 1 && trace[0] == [Tile(1, units - 1, true)]
    && forall k :: 0 <= k < |calls| ==> CallOk(trace[k], calls[k]) && trace[k + 1] == Apply(trace[k], calls[k])
  }

  /** After any sequence of calls the blocks partition the pool and no two free blocks touch. */
  lemma {:induction false} EveryPoolOk(trace: seq<seq<Tile>>, calls: seq<Call>, units: nat, k: nat)
    requires PoolRun(trace, calls, units) && k < |trace|
    ensures PoolOk(trace[k], units)
    decreases k
  {
    if k == 0 {
      assert trace[0][1..] == [];
    } else {
      EveryPoolOk(trace, calls, units, k - 1);
      var ts, c := trace[k - 1], calls[k - 1];
      if c.Alloc? { AllocKeeps(ts, units, c.tile, c.need); } else { FreeKeeps(ts, units, c.tile); }
    }
  }
}
