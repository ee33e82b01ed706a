/** alloc_buff, free_buff and init_buff on the array of header units. */
module PacketBuffers {
  import opened PacketPool
  import opened PacketRing

  const HEADER_BYTES: nat := 8         // sizeof(m_hdr_t)

  /** Units for a request: the data rounded up, and a header. */
  function UnitsFor(bytes: nat): (u: nat)
    ensures u >= 1 && HEADER_BYTES * (u - 1) >= bytes && HEADER_BYTES * (u - 2) < bytes
  {
    (bytes + HEADER_BYTES - 1) / HEADER_BYTES + 1
  }

  datatype Pointer = Null | At(unit: nat)
  datatype Fit = NoFit | FitAt(pos: nat)

  /** First fit going round ring r from the member after position j, looking at n members. */
  function FirstFit(sz: seq<int>, r: seq<int>, j: nat, n: nat, need: nat): Fit
    requires j < |r| && forall k :: 0 <= k < |r| ==> 0 <= r[k] < |sz|
    decreases n
  {
    if n == 0 then NoFit
    else
      var k := if j + 1 < |r| then j + 1 else 0;
      if sz[r[k]] >= need then FitAt(k) else FirstFit(sz, r, k, n - 1, need)
  }

  lemma FirstFitStep(sz: seq<int>, r: seq<int>, j: nat, n: nat, need: nat, k: nat)
    requires j < |r| && (forall x :: 0 <= x < |r| ==> 0 <= r[x] < |sz|) && n > 0
    requires k == if j + 1 < |r| then j + 1 else 0
    ensures FirstFit(sz, r, j, n, need) == if sz[r[k]] >= need then FitAt(k) else FirstFit(sz, r, k, n - 1, need)
    ensures FirstFit(sz, r, k, 0, need) == NoFit
  {
  }

  /** One round looks at every member: NoFit means none is large enough. */
  lemma {:induction false} FirstFitFinds(sz: seq<int>, r: seq<int>, j: nat, n: nat, need: nat, k: nat)
    requires j < |r| && forall x :: 0 <= x < |r| ==> 0 <= r[x] < |sz|
    requires k < |r| && sz[r[k]] >= need
    requires n >= if k > j then k - j else k + |r| - j
    ensures FirstFit(sz, r, j, n, need).FitAt?
    decreases n
  {
    var k1 := if j + 1 < |r| then j + 1 else 0;
    if sz[r[k1]] < need { FirstFitFinds(sz, r, k1, n - 1, need, k); }
  }

  lemma {:induction false} FirstFitFits(sz: seq<int>, r: seq<int>, j: nat, n: nat, need: nat)
    requires j < |r| && forall x :: 0 <= x < |r| ==> 0 <= r[x] < |sz|
    ensures var f := FirstFit(sz, r, j, n, need); f.FitAt? ==> f.pos < |r| && sz[r[f.pos]] >= need
    decreases n
  {
    if n > 0 { FirstFitFits(sz, r, if j + 1 < |r| then j + 1 else 0, n - 1, need); }
  }

  /** alloc_buff fails only when no free block has enough units. */
  lemma FailsOnlyWhenFull(sz: seq<int>, nx: seq<int>, ts: seq<Tile>, units: nat, j: nat, need: nat)
    requires Headers(sz, nx, ts, units) && j < |Ring(ts)| && need > 0
    requires FirstFit(sz, Ring(ts), j, |Ring(ts)|, need) == NoFit
    ensures forall i :: 0 <= i < |ts| && ts[i].free ==> ts[i].size < need
  {
    forall i | 0 <= i < |ts| && ts[i].free
      ensures ts[i].size < need
    {
      PlaceSplits(ts, units, i);
      if ts[i].size >= need { FirstFitFinds(sz, Ring(ts), j, |Ring(ts)|, need, Place(ts, i)); }
    }
  }

  function Position(r: seq<int>, x: int): (k: nat)
    requires x in r
    ensures k < |r| && r[k] == x
  {
    if r[0] == x then 0 else 1 + Position(r[1..], x)
  }

  /** The result of a successful alloc_buff: the first fit in ring order, carved from the top;
      the caller gets the unit after the new block's header. */
  ghost predicate Carved(before: seq<Tile>, sz: seq<int>, allocptr: int, i: nat, need: nat, after: seq<Tile>, unit: nat)
    requires allocptr in Ring(before) && forall k :: 0 <= k < |Ring(before)| ==> 0 <= Ring(before)[k] < |sz|
  {
    && i < |before| && before[i].free && need <= before[i].size
    && FirstFit(sz, Ring(before), Position(Ring(before), allocptr), |Ring(before)|, need) == FitAt(Place(before, i))
    && after == AllocAt(before, i, need)
    && unit == before[i].start + before[i].size - need + 1
  }

  /** The scan of alloc_buff: once round the ring from allocptr. */
  method Search(size: array<int>, next: array<int>, allocptr: nat, need: nat, ghost ring: seq<int>)
    returns (found: bool, wrk: nat, ptr: nat, ghost k: nat)
    requires size.Length == next.Length && Circular(next[..], ring) && allocptr in ring
    requires forall x :: 0 <= x < |ring| && ring[x] == allocptr ==> x == Position(ring, allocptr)
    ensures FirstFit(size[..], ring, Position(ring, allocptr), |ring|, need) == if found then FitAt(k) else NoFit
    ensures found ==> k < |ring| && ptr == ring[k] && (k > 0 ==> wrk == ring[k - 1])
  {
    ghost var sz, nx, a := size[..], next[..], Position(ring, allocptr);
    ghost var goal, j, n := FirstFit(sz, ring, a, |ring|, need), a, |ring|;
    assert nx[ring[a]] == After(ring, a);
    wrk, ptr, k := allocptr, next[allocptr], 0;
    while true
      invariant 0 <= j < |ring| && n == (if j < a then a - j else |ring| - (j - a))
      invariant wrk == ring[j] && ptr == After(ring, j) && goal == FirstFit(sz, ring, j, n, need)
      decreases n
    {
      k := if j + 1 < |ring| then j + 1 else 0;
      assert ptr == ring[k];
      FirstFitStep(sz, ring, j, n, need, k);
      if size[ptr] >= need { return true, wrk, ptr, k; }
      if ptr == allocptr {
        assert k == a && n == 1;
        return false, wrk, ptr, k;
      }
      assert nx[ring[k]] == After(ring, k);
      j, n, wrk, ptr := k, n - 1, ptr, next[ptr];
    }
  }

  class BufferPool {
    const units: nat
    const size: array<int>
    const next: array<int>
    var allocptr: nat
    ghost var tiles: seq<Tile>

    ghost predicate Valid()
      reads this, size, next
    {
      && size != next && size.Length == units && next.Length == units
      && Headers(size[..], next[..], tiles, units)
      && allocptr in Ring(tiles)
    }

    /** init_buff: the sentinel, then one block that is freed at once. */
    constructor (n: nat)
      requires n > 1
      ensures Valid() && units == n && tiles == [Tile(1, n - 1, true)] && fresh(size) && fresh(next)
    {
      units := n;
      size, next := new int[n], new int[n];
      allocptr := 0;
      tiles := [Tile(1, n - 1, false)];
      new;
      next[0], size[0] := 0, 0;
      size[1] := n - 1;
      assert tiles[1..] == [] && Tiling(tiles[1..], n, n) && Starts(tiles[1..]) == [] && Ring(tiles) == [0];
      FreeBuff(2, 0);
    }

    /** Take need units from the free block ptr that follows wrk in the ring. */
    method Carve(wrk: nat, ptr: nat, need: nat, ghost i: nat) returns (blk: nat)
      requires Valid() && i < |tiles| && tiles[i].free && 0 < need <= tiles[i].size
      requires ptr == tiles[i].start && Place(tiles, i) <= |Ring(tiles)| && wrk == Ring(tiles)[Place(tiles, i) - 1]
      modifies this`allocptr, this`tiles, size, next
      ensures Valid() && tiles == AllocAt(old(tiles), i, need)
      ensures blk == old(tiles)[i].start + old(tiles)[i].size - need
    {
      ghost var sz, nx := size[..], next[..];
      if size[ptr] == need {
        AllocWhole(sz, nx, tiles, units, i);
        next[wrk] := next[ptr];
        blk := ptr;
        assert size[..] == sz;
      } else {
        AllocPart(sz, nx, tiles, units, i, need);
        size[ptr] := size[ptr] - need;
        blk := ptr + size[ptr];
        size[blk] := need;
        assert next[..] == nx;
      }
      ghost var k, r := Place(tiles, i), Ring(tiles);
      tiles := AllocAt(tiles, i, need);
      allocptr := wrk;
      assert Ring(tiles)[k - 1] == wrk;
    }

    /** alloc_buff */
    method AllocBuff(bytes: nat) returns (r: Pointer)
      requires Valid()
      modifies this`allocptr, this`tiles, size, next
      ensures Valid()
      ensures r == Null ==> tiles == old(tiles) && allocptr == old(allocptr) && size[..] == old(size[..])
      ensures r == Null ==> next[..] == old(next[..])
      ensures r == Null ==> forall i :: 0 <= i < |tiles| && tiles[i].free ==> tiles[i].size < UnitsFor(bytes)
      ensures r.At? ==> exists i :: Carved(old(tiles), old(size[..]), old(allocptr), i, UnitsFor(bytes), tiles, r.unit)
    {
      var need := UnitsFor(bytes);
      var found, wrk, ptr, i := FindFit(need);
      if !found { return Null; }
      var blk := Carve(wrk, ptr, need, i);
      assert Carved(old(tiles), old(size[..]), old(allocptr), i, need, tiles, blk + 1);
      return At(blk + 1);
    }

    method FindFit(need: nat) returns (found: bool, wrk: nat, ptr: nat, ghost i: nat)
      requires Valid() && need > 0
      ensures forall k :: 0 <= k < |Ring(tiles)| ==> 0 <= Ring(tiles)[k] < units
      ensures !found ==> forall x :: 0 <= x < |tiles| && tiles[x].free ==> tiles[x].size < need
      ensures found ==> i < |tiles| && tiles[i].free && need <= tiles[i].size && ptr == tiles[i].start
      ensures found ==> Place(tiles, i) <= |Ring(tiles)| && wrk == Ring(tiles)[Place(tiles, i) - 1]
      ensures found ==>
                var r := Ring(tiles); FirstFit(size[..], r, Position(r, allocptr), |r|, need) == FitAt(Place(tiles, i))
    {
      RingAscending(tiles, units);
      ghost var a, k := Position(Ring(tiles), allocptr), 0;
      found, wrk, ptr, k := Search(size, next, allocptr, need, Ring(tiles));
      i := 0;
      if found {
        FirstFitFits(size[..], Ring(tiles), a, |Ring(tiles)|, need);
        i := RingTile(tiles, k);
      } else {
        FailsOnlyWhenFull(size[..], next[..], tiles, units, a, need);
      }
    }

    /** Scan the ring for the free block after which blk belongs. */
    method FindPlace(ptr: nat, ghost i: nat) returns (wrk: nat)
      requires Valid() && i < |tiles| && !tiles[i].free && ptr == tiles[i].start
      ensures Place(tiles, i) <= |Ring(tiles)| && wrk == Ring(tiles)[Place(tiles, i) - 1] && wrk < units && wrk < ptr
    {
      ghost var ring, nx, k := Ring(tiles), next[..], Place(tiles, i);
      RingAscending(tiles, units);
      PlaceSplits(tiles, units, i);
      ghost var j := Position(ring, allocptr);
      wrk := allocptr;
      assert nx[ring[j]] == After(ring, j);
      while !(ptr > wrk && ptr < next[wrk])
        invariant 0 <= j < |ring| && wrk == ring[j] && wrk < units && next[wrk] == After(ring, j)
        decreases if j <= k - 1 then k - 1 - j else |ring| + k - 1 - j
      {
        if wrk >= next[wrk] && (ptr > wrk || ptr < next[wrk]) { break; }
        j := if j + 1 < |ring| then j + 1 else 0;
        assert nx[ring[j]] == After(ring, j);
        wrk := next[wrk];
      }
      assert j == k - 1;
    }

    /** Link the block at ptr in after the free block wrk, joining it with either side. */
    method Join(ptr: nat, wrk: nat, ghost before: bool, ghost after: bool)
      requires size.Length == next.Length && size != next && ptr < size.Length && wrk < size.Length &&
               0 <= next[wrk] < size.Length
      requires (ptr + size[ptr] == next[wrk] <==> after) && (wrk + size[wrk] == ptr <==> before) && wrk != ptr
      modifies size, next
      ensures size[..] == FreedSizes(old(size[..]), ptr, wrk, old(next[wrk]), before, after)
      ensures next[..] == FreedLinks(old(next[..]), ptr, wrk, old(next[wrk]), before, after)
    {
      var nxt := next[wrk];
      if ptr + size[ptr] == nxt {
        size[ptr] := size[ptr] + size[nxt];
        next[ptr] := next[nxt];
      } else {
        next[ptr] := nxt;
      }
      if wrk + size[wrk] == ptr {
        size[wrk] := size[wrk] + size[ptr];
        next[wrk] := next[ptr];
      } else {
        next[wrk] := ptr;
      }
    }

    /** free_buff, for a block that alloc_buff handed out */
    method FreeBuff(blk: nat, ghost i: nat)
      requires Valid() && i < |tiles| && !tiles[i].free && blk == tiles[i].start + 1
      modifies this`allocptr, this`tiles, size, next
      ensures Valid() && tiles == FreeAt(old(tiles), i)
    {
      var ptr := blk - 1;
      ghost var sz, nx := size[..], next[..];
      var wrk := FindPlace(ptr, i);
      AdjacencyTests(sz, nx, tiles, units, i);
      ghost var nxt := next[wrk];
      Join(ptr, wrk, FreeBefore(tiles, i), FreeAfter(tiles, i));
      FreeHeaders(sz, nx, tiles, units, i, wrk, nxt);
      tiles := FreeAt(tiles, i);
      allocptr := wrk;
    }
  }
}
