/** Raw MINIX file system support: from a block of a file to a block on disk, with one-block caches. */
module RawFs {
  import opened Maybe

  const WORD: nat := 0x1_0000_0000
  type Word = w: nat | w < 0x1_0000_0000

  /** The geometry that r_super finds: zones per inode, zone numbers per block, log2 of blocks per zone. */
  datatype Super = Super(blockSize: nat, direct: nat, perBlock: nat, zoneSize: nat) {
    predicate Valid() { blockSize > 0 && perBlock > 0 && 0 < zoneSize < WORD }
  }

  datatype Inode = Inode(size: nat, zones: seq<Word>)

  /** Indirect blocks of an unchanging disk, as zone numbers. */
  type Disk = Word -> seq<Word>

  ghost predicate DiskOk(sb: Super, disk: Disk) { forall b :: |disk(b)| == sb.perBlock }

  /** (block_t) zone << zone_shift, in 32 bits. */
  function First(sb: Super, zone: Word): Word { zone * sb.zoneSize % WORD }

  /** An inode whose size its zones can map. */
  predicate Sound(sb: Super, ino: Inode) {
    && sb.Valid() && |ino.zones| >= sb.direct + 2
    && ino.size <= (sb.direct + sb.perBlock + sb.perBlock * sb.perBlock) * sb.zoneSize * sb.blockSize
  }

  // ---------------------------------------------------------------- without caches

  datatype Place = Direct(zone: nat) | Single(at: nat) | Double(outer: nat, inner: nat)

  /** Where zone number n of a file is kept. */
  function PlaceOf(sb: Super, n: nat): Place
    requires sb.Valid()
  {
    if n < sb.direct then Direct(n)
    else if n - sb.direct < sb.perBlock then Single(n - sb.direct)
    else
      var m := n - sb.direct - sb.perBlock;
      Double(m / sb.perBlock, m % sb.perBlock)
  }

  predicate InBlock(sb: Super, p: Place) {
    match p
    case Direct(z) => z < sb.direct
    case Single(at) => at < sb.perBlock
    case Double(outer, inner) => outer < sb.perBlock && inner < sb.perBlock
  }

  /** The indirect zone that leads to a place. */
  function Indirect(sb: Super, disk: Disk, ino: Inode, p: Place): Word
    requires |ino.zones| >= sb.direct + 2 && InBlock(sb, p) && !p.Direct?
    requires |disk(First(sb, ino.zones[sb.direct + 1]))| == sb.perBlock
  {
    if p.Single? then ino.zones[sb.direct]
    else if ino.zones[sb.direct + 1] == 0 then 0
    else disk(First(sb, ino.zones[sb.direct + 1]))[p.outer]
  }

  /** The block of a data zone; a zone number of 0 is not looked at, as in the original. */
  function DataBlock(sb: Super, zone: Word, index: nat): Word { (First(sb, zone) + index) % WORD }

  /** r_vir2abs recomputed from the inode: None past the end of the file. */
  function Mapped(sb: Super, disk: Disk, ino: Inode, blk: nat): Option<Word>
    requires Sound(sb, ino) && DiskOk(sb, disk)
  {
    if blk * sb.blockSize >= ino.size then None
    else
      PlaceFits(sb, ino, blk);
      var p, index := PlaceOf(sb, blk / sb.zoneSize), blk % sb.zoneSize;
      if p.Direct? then Some(DataBlock(sb, ino.zones[p.zone], index))
      else
        var ind := Indirect(sb, disk, ino, p);
        if ind == 0 then Some(0)
        else Some(DataBlock(sb, disk(First(sb, ind))[if p.Single? then p.at else p.inner], index))
  }

  lemma Below(a: nat, b: nat, c: nat)
    requires a * c < b * c
    ensures a < b
  {
    if a >= b { Grows(b, a, c); }
  }

  lemma Grows(a: nat, b: nat, c: nat)
    requires a <= b
    ensures a * c <= b * c
  {
    assert b * c == a * c + (b - a) * c;
  }

  lemma Quotient(a: nat, b: nat, c: nat)
    requires c > 0 && a < b * c
    ensures a / c < b
  {
    assert a == a / c * c + a % c;
    Below(a / c, b, c);
  }

  /** Every block of the file has a place within its indirect blocks. */
  lemma PlaceFits(sb: Super, ino: Inode, blk: nat)
    requires Sound(sb, ino) && blk * sb.blockSize < ino.size
    ensures InBlock(sb, PlaceOf(sb, blk / sb.zoneSize))
  {
    var zones := sb.direct + sb.perBlock + sb.perBlock * sb.perBlock;
    var n := blk / sb.zoneSize;
    Below(blk, zones * sb.zoneSize, sb.blockSize);
    Quotient(blk, zones, sb.zoneSize);
    if n >= sb.direct + sb.perBlock {
      Quotient(n - sb.direct - sb.perBlock, sb.perBlock, sb.perBlock);
    }
  }

  // ---------------------------------------------------------------- the zones of a file, in order

  /** The zone numbers behind an indirect zone; nothing is behind zone 0. */
  function Numbers(sb: Super, disk: Disk, zone: Word): (r: seq<Option<Word>>)
    requires |disk(First(sb, zone))| == sb.perBlock
    ensures |r| == sb.perBlock
  {
    seq(sb.perBlock, i requires 0 <= i < sb.perBlock =>
      if zone == 0 then None else Some(disk(First(sb, zone))[i]))
  }

  function Joined<T>(lists: seq<seq<T>>): seq<T> {
    if lists == [] then [] else lists[0] + Joined(lists[1..])
  }

  /** The zone numbers behind several indirect zones, one list after the other. */
  ghost function Leaves(sb: Super, disk: Disk, zones: seq<Word>): seq<Option<Word>>
    requires DiskOk(sb, disk)
  {
    Joined(seq(|zones|, k requires 0 <= k < |zones| => Numbers(sb, disk, zones[k])))
  }

  /** All zones of a file: the direct ones, those in the indirect block, and those in the indirect blocks that the
      double indirect block lists, in this order. */
  ghost function ZoneList(sb: Super, disk: Disk, ino: Inode): seq<Option<Word>>
    requires DiskOk(sb, disk) && |ino.zones| >= sb.direct + 2
  {
    var double := ino.zones[sb.direct + 1];
    seq(sb.direct, i requires 0 <= i < sb.direct => Some(ino.zones[i])) +
      Numbers(sb, disk, ino.zones[sb.direct]) +
      Leaves(sb, disk, if double == 0 then seq(sb.perBlock, _ => 0) else disk(First(sb, double)))
  }

  lemma OneLess(k: nat, d: nat)
    requires k > 0
    ensures k * d == (k - 1) * d + d
  {
  }

  lemma Second<T>(a: seq<T>, b: seq<T>, k: nat)
    requires k < |b|
    ensures |a| + k < |a + b| && (a + b)[|a| + k] == b[k]
  {
  }

  /** Lists of length d joined: entry i of list k is at k * d + i. */
  lemma {:induction false} JoinedAt<T>(lists: seq<seq<T>>, d: nat, k: nat, i: nat, n: nat)
    requires (forall j :: 0 <= j < |lists| ==> |lists[j]| == d) && k < |lists| && i < d && n == k * d + i
    ensures n < |Joined(lists)| && Joined(lists)[n] == lists[k][i]
    decreases k
  {
    if k > 0 {
      OneLess(k, d);
      JoinedAt(lists[1..], d, k - 1, i, n - d);
      Second(lists[0], Joined(lists[1..]), n - d);
    }
  }

  lemma LeafAt(sb: Super, disk: Disk, zones: seq<Word>, outer: nat, inner: nat, n: nat)
    requires DiskOk(sb, disk) && outer < |zones| && inner < sb.perBlock && n == outer * sb.perBlock + inner
    ensures n < |Leaves(sb, disk, zones)| && Leaves(sb, disk, zones)[n] == Numbers(sb, disk, zones[outer])[inner]
  {
    JoinedAt(seq(|zones|, k requires 0 <= k < |zones| => Numbers(sb, disk, zones[k])), sb.perBlock, outer, inner, n);
  }

  lemma FirstPlus(sb: Super, zone: Word, index: nat)
    ensures DataBlock(sb, zone, index) == (zone * sb.zoneSize + index) % WORD
  {
    var a := zone * sb.zoneSize;
    assert a == a / WORD * WORD + a % WORD;
    assert a + index == a / WORD * WORD + (a % WORD + index);
    ModPlus(a / WORD, a % WORD + index);
  }

  lemma ModPlus(q: nat, r: nat)
    ensures (q * WORD + r) % WORD == r % WORD
  {
    assert q * WORD + r == (q + r / WORD) * WORD + r % WORD;
  }

  /** The block that a zone list has for block blk of a file: 0 for a hole. */
  function Listed(list: seq<Option<Word>>, zoneSize: nat, blk: nat): Option<Word>
    requires zoneSize > 0
  {
    var n := blk / zoneSize;
    if n >= |list| then None
    else match list[n]
      case None => Some(0)
      case Some(z) => Some((z * zoneSize + blk % zoneSize) % WORD)
  }

  lemma Third<T>(a: seq<T>, b: seq<T>, c: seq<T>, k: nat)
    requires k < |c|
    ensures |a + b + c| > |a| + |b| + k && (a + b + c)[|a| + |b| + k] == c[k]
  {
  }

  /** The zones behind the double indirect zone come last. */
  lemma DoubleAt(sb: Super, disk: Disk, ino: Inode, outer: nat, inner: nat, m: nat)
    requires sb.Valid() && DiskOk(sb, disk) && |ino.zones| >= sb.direct + 2
    requires outer < sb.perBlock && inner < sb.perBlock && m == outer * sb.perBlock + inner
    ensures var list, n := ZoneList(sb, disk, ino), sb.direct + sb.perBlock + m;
            n < |list| && list[n] == Numbers(sb, disk, Indirect(sb, disk, ino, Double(outer, inner)))[inner]
  {
    var double := ino.zones[sb.direct + 1];
    var zones := if double == 0 then seq(sb.perBlock, _ => 0) else disk(First(sb, double));
    LeafAt(sb, disk, zones, outer, inner, m);
    Third(seq(sb.direct, i requires 0 <= i < sb.direct => Some(ino.zones[i])), Numbers(sb, disk, ino.zones[sb.direct]),
          Leaves(sb, disk, zones), m);
  }

  lemma ListedBlock(sb: Super, list: seq<Option<Word>>, blk: nat)
    requires sb.Valid() && blk / sb.zoneSize < |list|
    ensures var entry := list[blk / sb.zoneSize];
            Listed(list, sb.zoneSize, blk) ==
              Some(if entry.None? then 0 else DataBlock(sb, entry.value, blk % sb.zoneSize))
  {
    var entry := list[blk / sb.zoneSize];
    if entry.Some? { FirstPlus(sb, entry.value, blk % sb.zoneSize); }
  }

  /** Zone n of a file is what its place says. */
  lemma ZoneAt(sb: Super, disk: Disk, ino: Inode, n: nat)
    requires sb.Valid() && DiskOk(sb, disk) && |ino.zones| >= sb.direct + 2 && InBlock(sb, PlaceOf(sb, n))
    ensures var p, list := PlaceOf(sb, n), ZoneList(sb, disk, ino);
            n < |list| && list[n] ==
              if p.Direct? then Some(ino.zones[p.zone])
              else Numbers(sb, disk, Indirect(sb, disk, ino, p))[if p.Single? then p.at else p.inner]
  {
    var p := PlaceOf(sb, n);
    if p.Double? {
      Recombined(n - sb.direct - sb.perBlock, sb.perBlock);
      DoubleAt(sb, disk, ino, p.outer, p.inner, n - sb.direct - sb.perBlock);
    }
  }

  lemma Recombined(m: nat, d: nat)
    requires d > 0
    ensures m / d * d + m % d == m
  {
  }

  /** r_vir2abs gives the block that the list of the zones of the file has, in order, for every block of the file. */
  lemma MappedIsListed(sb: Super, disk: Disk, ino: Inode, blk: nat)
    requires Sound(sb, ino) && DiskOk(sb, disk)
    ensures blk * sb.blockSize >= ino.size ==> Mapped(sb, disk, ino, blk) == None
    ensures blk * sb.blockSize < ino.size ==>
            Mapped(sb, disk, ino, blk) == Listed(ZoneList(sb, disk, ino), sb.zoneSize, blk) != None
  {
    if blk * sb.blockSize < ino.size {
      PlaceFits(sb, ino, blk);
      ZoneAt(sb, disk, ino, blk / sb.zoneSize);
      ListedBlock(sb, ZoneList(sb, disk, ino), blk);
    }
  }

  // ---------------------------------------------------------------- the caches

  /** A cached block and its address, 0 when nothing is cached. */
  datatype Cache = Cache(addr: Word, data: seq<Word>)

  predicate CacheOk(sb: Super, disk: Disk, c: Cache) {
    |c.data| == sb.perBlock && (c.addr != 0 ==> c.data == disk(c.addr))
  }

  /** Read block z unless it is the one cached. */
  function Fetch(disk: Disk, c: Cache, z: Word): Cache {
    if c.addr != z then Cache(z, disk(z)) else c
  }

  lemma FetchKeeps(sb: Super, disk: Disk, c: Cache, z: Word)
    requires DiskOk(sb, disk) && CacheOk(sb, disk, c)
    ensures CacheOk(sb, disk, Fetch(disk, c, z)) && (z != 0 ==> Fetch(disk, c, z).data == disk(z))
  {
  }

  /** A fetch gives the block that is on disk, whatever was cached, exactly when that block is not block 0. */
  lemma FetchIff(sb: Super, disk: Disk, z: Word)
    requires DiskOk(sb, disk) && sb.perBlock > 0
    ensures (forall c :: CacheOk(sb, disk, c) ==> Fetch(disk, c, z).data == disk(z)) <==> z != 0
  {
    if z == 0 {
      var d := disk(0);
      var stale := Cache(0, d[0 := if d[0] == 0 then 1 else 0]);
      assert CacheOk(sb, disk, stale) && Fetch(disk, stale, 0).data[0] != d[0];
    } else {
      forall c | CacheOk(sb, disk, c) ensures Fetch(disk, c, z).data == disk(z) { FetchKeeps(sb, disk, c, z); }
    }
  }

  // ---------------------------------------------------------------- with caches

  /** The file last looked at and the two caches. */
  datatype Fs = Fs(file: Inode, ind: Cache, dind: Cache)

  ghost predicate FsOk(sb: Super, disk: Disk, fs: Fs) {
    Sound(sb, fs.file) && DiskOk(sb, disk) && CacheOk(sb, disk, fs.ind) && CacheOk(sb, disk, fs.dind)
  }

  /** r_vir2abs, and what it leaves in the caches. */
  function Vir2Abs(sb: Super, disk: Disk, fs: Fs, blk: nat): (Option<Word>, Fs)
    requires FsOk(sb, disk, fs)
  {
    if blk * sb.blockSize >= fs.file.size then (None, fs)
    else
      PlaceFits(sb, fs.file, blk);
      var p, index := PlaceOf(sb, blk / sb.zoneSize), blk % sb.zoneSize;
      match p
      case Direct(z) => (Some(DataBlock(sb, fs.file.zones[z], index)), fs)
      case Single(at) => FromIndirect(sb, disk, fs, fs.file.zones[sb.direct], at, index)
      case Double(outer, inner) =>
        var zone := fs.file.zones[sb.direct + 1];
        if zone == 0 then (Some(0), fs)
        else
          var fs' := fs.(dind := Fetch(disk, fs.dind, First(sb, zone)));
          FromIndirect(sb, disk, fs', fs'.dind.data[outer], inner, index)
  }

  function FromIndirect(sb: Super, disk: Disk, fs: Fs, ind: Word, at: nat, index: nat): (Option<Word>, Fs)
    requires FsOk(sb, disk, fs) && at < sb.perBlock
  {
    if ind == 0 then (Some(0), fs)
    else
      var c := Fetch(disk, fs.ind, First(sb, ind));
      (Some(DataBlock(sb, c.data[at], index)), fs.(ind := c))
  }

  /** r_stat: the caches are marked empty, their contents stay. */
  function Stat(fs: Fs, ino: Inode): Fs { Fs(ino, Cache(0, fs.ind.data), Cache(0, fs.dind.data)) }

  /** No indirect zone on the way to block blk wraps around to block 0. */
  ghost predicate NoWrap(sb: Super, disk: Disk, ino: Inode, blk: nat)
    requires Sound(sb, ino) && DiskOk(sb, disk)
  {
    if blk * sb.blockSize >= ino.size then true
    else
      PlaceFits(sb, ino, blk);
      var p, double := PlaceOf(sb, blk / sb.zoneSize), ino.zones[sb.direct + 1];
      !p.Direct? ==>
        var ind := Indirect(sb, disk, ino, p);
        (p.Double? && double != 0 ==> First(sb, double) != 0) && (ind != 0 ==> First(sb, ind) != 0)
  }

  lemma FromIndirectIs(sb: Super, disk: Disk, fs: Fs, ind: Word, at: nat, index: nat)
    requires FsOk(sb, disk, fs) && at < sb.perBlock
    ensures FsOk(sb, disk, FromIndirect(sb, disk, fs, ind, at, index).1)
    ensures ind != 0 && First(sb, ind) != 0 ==>
              FromIndirect(sb, disk, fs, ind, at, index).0 == Some(DataBlock(sb, disk(First(sb, ind))[at], index))
  {
    FetchKeeps(sb, disk, fs.ind, First(sb, ind));
  }

  /** The caches do not show: the result is the one recomputed from the inode. */
  lemma CachesAreTransparent(sb: Super, disk: Disk, fs: Fs, blk: nat)
    requires FsOk(sb, disk, fs)
    ensures var (r, fs') := Vir2Abs(sb, disk, fs, blk);
            && FsOk(sb, disk, fs') && fs'.file == fs.file
            && (NoWrap(sb, disk, fs.file, blk) ==> r == Mapped(sb, disk, fs.file, blk))
  {
    if blk * sb.blockSize < fs.file.size {
      PlaceFits(sb, fs.file, blk);
      var p, index := PlaceOf(sb, blk / sb.zoneSize), blk % sb.zoneSize;
      match p
      case Direct(z) =>
      case Single(at) => FromIndirectIs(sb, disk, fs, fs.file.zones[sb.direct], at, index);
      case Double(outer, inner) =>
        var zone := fs.file.zones[sb.direct + 1];
        if zone != 0 {
          FetchKeeps(sb, disk, fs.dind, First(sb, zone));
          var fs' := fs.(dind := Fetch(disk, fs.dind, First(sb, zone)));
          FromIndirectIs(sb, disk, fs', fs'.dind.data[outer], inner, index);
        }
    }
  }

  /** Zones 0 and 1 start at different blocks. */
  lemma TwoBlocks(sb: Super, index: nat, right: Word) returns (zone: Word)
    requires sb.Valid()
    ensures DataBlock(sb, zone, index) != right
  {
    zone := if DataBlock(sb, 0, index) == right then 1 else 0;
    var x, y := index % WORD, (sb.zoneSize + index) % WORD;
    assert First(sb, 0) == 0 && First(sb, 1) == sb.zoneSize;
    Shifted(index, sb.zoneSize);
  }

  lemma Shifted(index: nat, d: nat)
    requires 0 < d < WORD
    ensures index % WORD != (d + index) % WORD
  {
    var q, r := index / WORD, index % WORD;
    if r + d < WORD {
      assert (d + index) == q * WORD + (r + d);
      assert (d + index) % WORD == r + d;
    } else {
      assert (d + index) == (q + 1) * WORD + (r + d - WORD);
      assert (d + index) % WORD == r + d - WORD;
    }
  }

  function Blank(sb: Super): seq<Word> { seq(sb.perBlock, _ => 0) }

  /** With empty caches, an indirect zone that wraps around to block 0 reads whatever the buffer holds. */
  lemma StaleIndirect(sb: Super, disk: Disk, ino: Inode, dind: Cache, ind: Word, at: nat, index: nat, right: Word)
    returns (fs: Fs)
    requires Sound(sb, ino) && DiskOk(sb, disk) && CacheOk(sb, disk, dind) && at < sb.perBlock && ind != 0 &&
             First(sb, ind) == 0
    ensures FsOk(sb, disk, fs) && fs.file == ino && fs.dind == dind && fs.ind.addr == 0
    ensures FromIndirect(sb, disk, fs, ind, at, index).0 != Some(right)
  {
    var zone := TwoBlocks(sb, index, right);
    fs := Fs(ino, Cache(0, Blank(sb)[at := zone]), dind);
  }

  /** Where a zone on the way wraps around, some contents of the emptied caches give a wrong answer. */
  lemma StaleAnswer(sb: Super, disk: Disk, ino: Inode, blk: nat) returns (fs: Fs)
    requires Sound(sb, ino) && DiskOk(sb, disk) && !NoWrap(sb, disk, ino, blk)
    ensures FsOk(sb, disk, fs) && fs.file == ino && fs.ind.addr == 0 && fs.dind.addr == 0
    ensures Vir2Abs(sb, disk, fs, blk).0 != Mapped(sb, disk, ino, blk)
  {
    PlaceFits(sb, ino, blk);
    var p, index := PlaceOf(sb, blk / sb.zoneSize), blk % sb.zoneSize;
    var empty, double := Cache(0, Blank(sb)), ino.zones[sb.direct + 1];
    var right := Mapped(sb, disk, ino, blk).value;
    if p.Single? {
      fs := StaleIndirect(sb, disk, ino, empty, ino.zones[sb.direct], p.at, index, right);
    } else if First(sb, double) != 0 {
      fs := StaleIndirect(sb, disk, ino, empty, Indirect(sb, disk, ino, p), p.inner, index, right);
      StaleDouble(sb, disk, fs, p.outer, p.inner, index);
    } else if right != 0 {
      fs := Fs(ino, empty, empty);
    } else {
      fs := StaleIndirect(sb, disk, ino, Cache(0, Blank(sb)[p.outer := double]), double, p.inner, index, right);
    }
  }

  /** The double indirect block itself is read. */
  lemma StaleDouble(sb: Super, disk: Disk, fs: Fs, outer: nat, inner: nat, index: nat)
    requires FsOk(sb, disk, fs) && fs.dind.addr == 0 && outer < sb.perBlock && inner < sb.perBlock
    requires var z := First(sb, fs.file.zones[sb.direct + 1]); z != 0
    ensures var z := First(sb, fs.file.zones[sb.direct + 1]);
            var fs' := fs.(dind := Fetch(disk, fs.dind, z));
            && fs'.dind.data == disk(z) && FsOk(sb, disk, fs')
            && FromIndirect(sb, disk, fs', disk(z)[outer], inner, index).0 == FromIndirect(sb, disk, fs,
              disk(z)[outer], inner, index).0
  {
  }

  /** r_vir2abs gives the recomputed answer, whatever is cached, exactly when no zone on the way wraps around. */
  lemma TransparentIff(sb: Super, disk: Disk, ino: Inode, blk: nat)
    requires Sound(sb, ino) && DiskOk(sb, disk)
    ensures (forall fs :: FsOk(sb, disk, fs) && fs.file == ino ==>
            Vir2Abs(sb, disk, fs, blk).0 == Mapped(sb, disk, ino, blk))
            <==> NoWrap(sb, disk, ino, blk)
  {
    if NoWrap(sb, disk, ino, blk) {
      forall fs | FsOk(sb, disk, fs) && fs.file == ino ensures Vir2Abs(sb, disk, fs, blk).0 == Mapped(sb, disk, ino,
          blk) {
        CachesAreTransparent(sb, disk, fs, blk);
      }
    } else {
      var fs := StaleAnswer(sb, disk, ino, blk);
    }
  }

  /** The static buffers before anything was read into them, after r_stat of ino. */
  function Cold(sb: Super, ino: Inode): Fs { Fs(ino, Cache(0, Blank(sb)), Cache(0, Blank(sb))) }

  /** The disk with zeros in block 0. */
  function Zeroed(sb: Super, disk: Disk): Disk { (b: Word) => if b == 0 then Blank(sb) else disk(b) }

  /** The first block looked up at all is answered as though block 0 of the disk held zeros: right exactly when the
      words that block 0 holds make no difference to it. */
  lemma ColdAnswer(sb: Super, disk: Disk, ino: Inode, blk: nat)
    requires Sound(sb, ino) && DiskOk(sb, disk)
    ensures FsOk(sb, disk, Cold(sb, ino)) && DiskOk(sb, Zeroed(sb, disk))
    ensures Vir2Abs(sb, disk, Cold(sb, ino), blk).0 == Mapped(sb, Zeroed(sb, disk), ino, blk)
  {
    if blk * sb.blockSize < ino.size { PlaceFits(sb, ino, blk); }
  }

  // ---------------------------------------------------------------- whole runs

  datatype Request = StatFile(inum: nat) | MapBlock(blk: nat)

  /** The answers to a series of requests, with caches. */
  function Answers(sb: Super, disk: Disk, inodes: nat -> Inode, fs: Fs, rs: seq<Request>): seq<Option<Word>>
    requires FsOk(sb, disk, fs) && forall i :: Sound(sb, inodes(i))
    decreases |rs|
  {
    if rs == [] then []
    else match rs[0]
      case StatFile(i) => Answers(sb, disk, inodes, Stat(fs, inodes(i)), rs[1..])
      case MapBlock(b) =>
        CachesAreTransparent(sb, disk, fs, b);
        var (r, fs') := Vir2Abs(sb, disk, fs, b);
        [r] + Answers(sb, disk, inodes, fs', rs[1..])
  }

  /** The same, recomputed from the inode every time. */
  function Recomputed(sb: Super, disk: Disk, inodes: nat -> Inode, file: Inode, rs: seq<Request>): seq<Option<Word>>
    requires Sound(sb, file) && DiskOk(sb, disk) && forall i :: Sound(sb, inodes(i))
    decreases |rs|
  {
    if rs == [] then []
    else match rs[0]
      case StatFile(i) => Recomputed(sb, disk, inodes, inodes(i), rs[1..])
      case MapBlock(b) => [Mapped(sb, disk, file, b)] + Recomputed(sb, disk, inodes, file, rs[1..])
  }

  /** No block of the file, or of any other, is behind a zone that wraps around. */
  ghost predicate NoneWraps(sb: Super, disk: Disk, inodes: nat -> Inode)
    requires DiskOk(sb, disk) && forall i :: Sound(sb, inodes(i))
  {
    forall i: nat, blk: nat :: NoWrap(sb, disk, inodes(i), blk)
  }

  lemma {:induction false} RunIsTransparent(sb: Super, disk: Disk, inodes: nat -> Inode, fs: Fs, i: nat,
                                            rs: seq<Request>)
    requires FsOk(sb, disk, fs) && fs.file == inodes(i)
    requires (forall i :: Sound(sb, inodes(i))) && NoneWraps(sb, disk, inodes)
    ensures Answers(sb, disk, inodes, fs, rs) == Recomputed(sb, disk, inodes, fs.file, rs)
    decreases |rs|
  {
    if rs != [] {
      match rs[0]
      case StatFile(j) => RunIsTransparent(sb, disk, inodes, Stat(fs, inodes(j)), j, rs[1..]);
      case MapBlock(b) =>
        CachesAreTransparent(sb, disk, fs, b);
        RunIsTransparent(sb, disk, inodes, Vir2Abs(sb, disk, fs, b).1, i, rs[1..]);
    }
  }

  /** Every series of requests, from every state of the caches, is answered as without caches. */
  ghost predicate AllRunsTransparent(sb: Super, disk: Disk, inodes: nat -> Inode)
    requires DiskOk(sb, disk) && forall i :: Sound(sb, inodes(i))
  {
    forall fs, i: nat, rs :: FsOk(sb, disk, fs) && fs.file == inodes(i) ==>
      Answers(sb, disk, inodes, fs, rs) == Recomputed(sb, disk, inodes, inodes(i), rs)
  }

  lemma OneRequest(sb: Super, disk: Disk, inodes: nat -> Inode, fs: Fs, blk: nat)
    requires FsOk(sb, disk, fs) && forall i :: Sound(sb, inodes(i))
    ensures Answers(sb, disk, inodes, fs, [MapBlock(blk)]) == [Vir2Abs(sb, disk, fs, blk).0]
    ensures Recomputed(sb, disk, inodes, fs.file, [MapBlock(blk)]) == [Mapped(sb, disk, fs.file, blk)]
  {
    assert [MapBlock(blk)][1..] == [];
    CachesAreTransparent(sb, disk, fs, blk);
  }

  /** Any interleaving of r_stat and r_vir2abs gives what a version without caches would, exactly when no zone wraps. */
  lemma RunsTransparentIff(sb: Super, disk: Disk, inodes: nat -> Inode)
    requires DiskOk(sb, disk) && forall i :: Sound(sb, inodes(i))
    ensures AllRunsTransparent(sb, disk, inodes) <==> NoneWraps(sb, disk, inodes)
  {
    if NoneWraps(sb, disk, inodes) {
      forall fs, i: nat, rs | FsOk(sb, disk, fs) && fs.file == inodes(i)
        ensures Answers(sb, disk, inodes, fs, rs) == Recomputed(sb, disk, inodes, inodes(i), rs)
      {
        RunIsTransparent(sb, disk, inodes, fs, i, rs);
      }
    } else {
      var i: nat, blk: nat :| !NoWrap(sb, disk, inodes(i), blk);
      var fs := StaleAnswer(sb, disk, inodes(i), blk);
      OneRequest(sb, disk, inodes, fs, blk);
    }
  }
}
