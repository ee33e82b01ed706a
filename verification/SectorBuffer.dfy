/** Reading an image: r_vir2abs in place, file_vir2sec and flat_vir2sec, and the track buffer of get_sector. */
module SectorBuffer {
  import opened Maybe
  import opened RawFs
  import opened BootImage

  const MINUS1: Word := 0xFFFF_FFFF     // (u32_t) -1
  const SECBUFS: nat := 16

  // ---------------------------------------------------------------- rawfs.c

  class FileSystem {
    const sb: Super
    const disk: Disk
    var file: Inode
    var indir: seq<Word>
    var aIndir: Word
    var dindir: seq<Word>
    var aDindir: Word

    constructor (sb: Super, disk: Disk, ino: Inode)
      requires Sound(sb, ino) && DiskOk(sb, disk)
      ensures this.sb == sb && this.disk == disk && file == ino && Valid()
    {
      this.sb, this.disk, file := sb, disk, ino;
      indir, aIndir, dindir, aDindir := seq(sb.perBlock, _ => 0), 0, seq(sb.perBlock, _ => 0), 0;
    }

    function State(): Fs reads this { Fs(file, Cache(aIndir, indir), Cache(aDindir, dindir)) }

    ghost predicate Valid() reads this { FsOk(sb, disk, State()) }

    /** r_stat, given the inode it read. */
    method StatFile(ino: Inode)
      requires Valid() && Sound(sb, ino)
      modifies this
      ensures Valid() && State() == Stat(old(State()), ino)
    {
      file := ino;
      aIndir, aDindir := 0, 0;
    }

    method Load(ind: Word, at: nat, index: nat) returns (r: Option<Word>)
      requires Valid() && at < sb.perBlock
      modifies this`indir, this`aIndir
      ensures Valid() && (r, State()) == FromIndirect(sb, disk, old(State()), ind, at, index)
    {
      if ind == 0 { return Some(0); }
      var z := First(sb, ind);
      if aIndir != z {
        indir, aIndir := disk(z), z;
      }
      r := Some(DataBlock(sb, indir[at], index));
    }

    method Map(blk: nat) returns (r: Option<Word>)
      requires Valid()
      modifies this`indir, this`aIndir, this`dindir, this`aDindir
      ensures Valid() && (r, State()) == Vir2Abs(sb, disk, old(State()), blk)
    {
      if blk * sb.blockSize >= file.size { return None; }
      PlaceFits(sb, file, blk);
      var zone, index := blk / sb.zoneSize, blk % sb.zoneSize;
      if zone < sb.direct { return Some(DataBlock(sb, file.zones[zone], index)); }
      zone := zone - sb.direct;
      var ind := file.zones[sb.direct];
      if zone >= sb.perBlock {
        if file.zones[sb.direct + 1] == 0 { return Some(0); }
        var z := First(sb, file.zones[sb.direct + 1]);
        if aDindir != z {
          dindir, aDindir := disk(z), z;
        }
        zone := zone - sb.perBlock;
        ind := dindir[zone / sb.perBlock];
        zone := zone % sb.perBlock;
      }
      r := Load(ind, zone, index);
    }
  }

  // ---------------------------------------------------------------- vir2sec

  datatype Source = InFile | AtOffset(off: nat)

  /** file_vir2sec, given the block; 0 is a hole, -1 an error. */
  function SectorIn(sb: Super, lowsec: nat, blk: Option<Word>, vsec: nat): Word
    requires sb.blockSize >= 512
  {
    var ratio := sb.blockSize / 512;
    if blk.None? || blk.value == MINUS1 then MINUS1
    else if blk.value == 0 then 0
    else (lowsec + blk.value * ratio + vsec % ratio) % WORD
  }

  /** A file that can be read: no indirect zone wraps around. */
  ghost predicate Mappable(sb: Super, disk: Disk, ino: Inode) {
    sb.blockSize >= 512 && Sound(sb, ino) && DiskOk(sb, disk) && forall blk: nat :: NoWrap(sb, disk, ino, blk)
  }

  /** Where virtual sector vsec of the image is, recomputed from the inode. */
  ghost function SectorOf(sb: Super, disk: Disk, ino: Inode, source: Source, lowsec: nat, vsec: nat): Word
    requires Mappable(sb, disk, ino)
  {
    match source
    case InFile => SectorIn(sb, lowsec, Mapped(sb, disk, ino, vsec / (sb.blockSize / 512)), vsec)
    case AtOffset(off) => (lowsec + off + vsec) % WORD
  }

  lemma Split(q: nat, r: nat, d: nat)
    requires r < d
    ensures (q * d + r) / d == q && (q * d + r) % d == r
  {
    var n := q * d + r;
    assert n == n / d * d + n % d;
    Quotient(n, q + 1, d);
    Below(q, n / d + 1, d);
  }

  /** The sectors of a block are consecutive, from its first sector on. */
  lemma BlockSectors(sb: Super, disk: Disk, ino: Inode, lowsec: nat, blk: nat, k: nat, at: Word)
    requires Mappable(sb, disk, ino) && k < sb.blockSize / 512
    requires Mapped(sb, disk, ino, blk) == Some(at) && at != 0 && at != MINUS1
    ensures SectorOf(sb, disk, ino, InFile, lowsec, blk * (sb.blockSize / 512) + k) ==
            (lowsec + at * (sb.blockSize / 512) + k) % WORD
  {
    Split(blk, k, sb.blockSize / 512);
  }

  // ---------------------------------------------------------------- get_sector

  /** What the disk holds, which sectors cannot be read, and where tracks start. */
  datatype Drive = Drive(sector: Word -> Bytes, bad: set<Word>, boundary: Word -> bool)

  /** The buffer holds count sectors from bufsec on. */
  ghost predicate Buffered(d: Drive, buf: seq<Bytes>, count: nat, bufsec: Word) {
    count <= SECBUFS && count <= |buf| && (count > 0 ==> bufsec + count < WORD) && forall i :: 0 <= i < count ==>
              buf[i] == d.sector(bufsec + i)
  }

  /** Where the virtual sectors of an image are. */
  ghost function Layout(sb: Super, disk: Disk, ino: Inode, source: Source, lowsec: nat): (f: nat -> Word)
    requires Mappable(sb, disk, ino)
    ensures forall v: nat :: f(v) == SectorOf(sb, disk, ino, source, lowsec, v)
  {
    (v: nat) => SectorOf(sb, disk, ino, source, lowsec, v)
  }

  /** Sector k after sec is in the same track and comes next in the image too. */
  ghost predicate Joins(d: Drive, where: nat -> Word, vsec: nat, sec: Word, k: nat) {
    sec + k < MINUS1 && !d.boundary(sec + k) && where(vsec + k) == sec + k
  }

  /** n sectors are read together, from sec on, which is where vsec is. */
  ghost predicate IsTrack(d: Drive, where: nat -> Word, vsec: nat, sec: Word, n: nat) {
    && 0 < n <= SECBUFS && (forall k :: 0 < k < n ==> Joins(d, where, vsec, sec, k))
    && (n == SECBUFS || !Joins(d, where, vsec, sec, n))
  }

  lemma OneTrack(d: Drive, where: nat -> Word, vsec: nat, sec: Word, n: nat, n': nat)
    requires IsTrack(d, where, vsec, sec, n) && IsTrack(d, where, vsec, sec, n')
    ensures n == n'
  {
  }

  /** One of n sectors from sec on cannot be read. */
  ghost predicate BadAmong(d: Drive, sec: Word, n: nat) { exists s: Word :: sec <= s < sec + n && s in d.bad }

  /** One of the sectors that are read together with the one asked for cannot be read. */
  ghost predicate BadTrack(d: Drive, where: nat -> Word, vsec: nat) {
    exists n :: IsTrack(d, where, vsec, where(vsec), n) && BadAmong(d, where(vsec), n)
  }

  lemma BadTrackIs(d: Drive, where: nat -> Word, vsec: nat, n: nat)
    requires IsTrack(d, where, vsec, where(vsec), n)
    ensures BadTrack(d, where, vsec) <==> BadAmong(d, where(vsec), n)
  {
    if BadTrack(d, where, vsec) {
      var n' :| IsTrack(d, where, vsec, where(vsec), n') && BadAmong(d, where(vsec), n');
      OneTrack(d, where, vsec, where(vsec), n, n');
    }
  }

  /** The right answer to a request: nil only where vir2sec fails or a sector among those read is bad. */
  ghost predicate Served(d: Drive, where: nat -> Word, vsec: nat, r: Option<Bytes>) {
    var sec := where(vsec);
    if sec == MINUS1 then r.None?
    else if sec == 0 then r == Some(Zeros(512))
    else r == Some(d.sector(sec)) || (r.None? && BadTrack(d, where, vsec))
  }

  /** The image is what the sectors hold. */
  ghost predicate OnDisk(d: Drive, where: nat -> Word, image: Bytes) {
    forall v: nat :: 512 * v + 512 <= |image| ==>
      && where(v) != MINUS1
      && image[512 * v..512 * v + 512] == if where(v) == 0 then Zeros(512) else d.sector(where(v))
  }

  /** The unsigned comparison tells if sec is in the buffer. */
  lemma HitIff(sec: Word, bufsec: Word, count: nat)
    requires count > 0 ==> bufsec + count < WORD
    ensures (sec - bufsec) % WORD < count <==> bufsec <= sec < bufsec + count
  {
  }

  class ImageReader {
    const fs: FileSystem
    const source: Source
    const lowsec: nat
    const drive: Drive
    var buf: seq<Bytes>
    var count: nat
    var bufsec: Word

    constructor (fs: FileSystem, source: Source, lowsec: nat, drive: Drive)
      ensures this.fs == fs && this.source == source && this.lowsec == lowsec && this.drive == drive && count == 0
    {
      this.fs, this.source, this.lowsec, this.drive := fs, source, lowsec, drive;
      buf, count, bufsec := [], 0, 0;
    }

    ghost predicate Valid()
      reads this, fs
    {
      fs.Valid() && Mappable(fs.sb, fs.disk, fs.file)
    }

    ghost function Where(): nat -> Word
      requires Valid()
      reads this, fs
    {
      Layout(fs.sb, fs.disk, fs.file, source, lowsec)
    }

    /** (*vir2sec)(vsec) */
    method Vir2Sec(vsec: nat) returns (sec: Word)
      requires Valid()
      modifies fs
      ensures Valid() && fs.file == old(fs.file) && sec == old(Where())(vsec)
    {
      match source {
        case AtOffset(off) => sec := (lowsec + off + vsec) % WORD;
        case InFile =>
          var ratio := fs.sb.blockSize / 512;
          CachesAreTransparent(fs.sb, fs.disk, fs.State(), vsec / ratio);
          var blk := fs.Map(vsec / ratio);
          sec := SectorIn(fs.sb, lowsec, blk, vsec);
      }
    }

    /** Virtual sector vsec is sector want. */
    method Follows(vsec: nat, want: Word) returns (yes: bool)
      requires Valid()
      modifies fs
      ensures Valid() && fs.file == old(fs.file) && Where() == old(Where())
      ensures yes <==> want < MINUS1 && old(Where())(vsec) == want
    {
      var sec := Vir2Sec(vsec);
      yes := sec != MINUS1 && sec == want;
    }

    /** The read-ahead loop: as many consecutive sectors as fit, within a track. */
    method Ahead(vsec0: nat, sec0: Word) returns (n: nat)
      requires Valid() && sec0 != MINUS1
      modifies fs
      ensures Valid() && fs.file == old(fs.file) && 0 < n && sec0 + n < WORD
      ensures IsTrack(drive, old(Where()), vsec0, sec0, n)
    {
      ghost var where := Where();
      var vsec := vsec0;
      n := 1;
      while n < SECBUFS && !drive.boundary(sec0 + n)
        invariant Valid() && fs.file == old(fs.file) && where == Where() && 0 < n <= SECBUFS && sec0 + n < WORD
        invariant vsec == vsec0 + n - 1 && forall k :: 0 < k < n ==> Joins(drive, where, vsec0, sec0, k)
      {
        vsec := vsec + 1;
        var next := Follows(vsec, sec0 + n);
        if !next { return; }
        n := n + 1;
      }
    }

    /** readsectors */
    method ReadSectors(sec: Word, n: nat) returns (ok: bool)
      requires 0 < n <= SECBUFS && sec + n < WORD
      modifies this`buf
      ensures ok <==> forall s: Word :: sec <= s < sec + n ==> s !in drive.bad
      ensures ok ==> Buffered(drive, buf, n, sec)
    {
      var i := 0;
      buf := [];
      while i < n
        invariant 0 <= i <= n && |buf| == i
        invariant forall s: Word :: sec <= s < sec + i ==> s !in drive.bad
        invariant forall j :: 0 <= j < i ==> buf[j] == drive.sector(sec + j)
      {
        if sec + i in drive.bad { return false; }
        buf := buf + [drive.sector(sec + i)];
        i := i + 1;
      }
      ok := true;
    }

    /** Not in the buffer: read a whole track if possible. */
    method Refill(vsec: nat, sec: Word) returns (r: Option<Bytes>)
      requires Valid() && sec != MINUS1 && sec == Where()(vsec)
      modifies this`buf, this`count, this`bufsec, fs
      ensures Valid() && fs.file == old(fs.file) && Buffered(drive, buf, count, bufsec)
      ensures r == if BadTrack(drive, old(Where()), vsec) then None else Some(drive.sector(sec))
    {
      bufsec := sec;
      count := Ahead(vsec, sec);
      var ok := ReadSectors(bufsec, count);
      BadTrackIs(drive, old(Where()), vsec, count);
      if !ok {
        count := 0;
        return None;
      }
      r := Some(buf[0]);
    }

    /**
     * get_sector: whatever the track buffer holds, the sector that vir2sec names, or zeros for a hole. A
     * request for sector 0 may come after the disk was changed; it empties the buffer.
     */
    method GetSector(vsec: nat) returns (r: Option<Bytes>)
      requires Valid() && (vsec == 0 || Buffered(drive, buf, count, bufsec))
      modifies this`buf, this`count, this`bufsec, fs
      ensures Valid() && fs.file == old(fs.file) && Buffered(drive, buf, count, bufsec)
      ensures Served(drive, old(Where()), vsec, r)
      ensures var sec := old(Where())(vsec);
              sec != MINUS1 && sec != 0 && vsec != 0 && old(bufsec) <= sec < old(bufsec + count) ==> r.Some?
    {
      if vsec == 0 { count := 0; }
      var sec := Vir2Sec(vsec);
      if sec == MINUS1 { return None; }
      if sec == 0 {
        count := 0;
        buf := [Zeros(512)] + if buf == [] then [] else buf[1..];
        return Some(buf[0]);
      }
      HitIff(sec, bufsec, count);
      if (sec - bufsec) % WORD < count {
        return Some(buf[sec - bufsec]);
      }
      r := Refill(vsec, sec);
    }

    /** Any series of requests that starts at sector 0, whatever the buffer held before. */
    method Serve(requests: seq<nat>) returns (answers: seq<Option<Bytes>>)
      requires Valid() && (requests != [] ==> requests[0] == 0)
      modifies this`buf, this`count, this`bufsec, fs
      ensures Valid() && |answers| == |requests|
      ensures forall i :: 0 <= i < |requests| ==> Served(drive, old(Where()), requests[i], answers[i])
    {
      ghost var where := Where();
      answers := [];
      while |answers| < |requests|
        invariant |answers| <= |requests| && Valid() && Where() == where
        invariant answers != [] ==> Buffered(drive, buf, count, bufsec)
        invariant forall i :: 0 <= i < |answers| ==> Served(drive, where, requests[i], answers[i])
      {
        var r := GetSector(requests[|answers|]);
        answers := answers + [r];
      }
    }

    /** Read the first n sectors of an image that is on the disk: they are its bytes, unless a sector is bad. */
    method ReadImage(n: nat, ghost image: Bytes) returns (ok: bool, bytes: Bytes)
      requires Valid() && OnDisk(drive, Where(), image) && 512 * n <= |image|
      modifies this`buf, this`count, this`bufsec, fs
      ensures ok ==> bytes == image[..512 * n]
      ensures !ok ==> exists v: nat :: v < n && BadTrack(drive, old(Where()), v)
    {
      ghost var where := Where();
      ok, bytes := true, [];
      var v := 0;
      while v < n
        invariant 0 <= v <= n && Valid() && Where() == where && bytes == image[..512 * v]
        invariant v > 0 ==> Buffered(drive, buf, count, bufsec)
      {
        var r := GetSector(v);
        if r.None? {
          assert BadTrack(drive, where, v);
          ok := false;
          return;
        }
        assert r.value == image[512 * v..512 * v + 512];
        bytes := bytes + r.value;
        v := v + 1;
      }
    }
  }
}
