/** raw_copy, raw_clear and get_segment: moving an image into memory click by click. */
module SegmentLoader {
  import opened BootImage
  import opened Clicks

  predicate PowerOfTwo(n: nat) { n == 1 || (n > 0 && n % 2 == 0 && PowerOfTwo(n / 2)) }

  /** Click sizes the monitor accepts: 1 << HCLICK_SHIFT up to 1 << 16. */
  predicate LegalClick(c: nat) { 16 <= c <= 0x1_0000 && PowerOfTwo(c) }

  /** The unit in which get_segment copies: a click or a sector, whichever is smaller. */
  function Unit(click: nat): nat { if click < 512 then click else 512 }

  lemma {:induction false} PowersDivide(a: nat, b: nat)
    requires PowerOfTwo(a) && PowerOfTwo(b) && a <= b
    ensures Multiple(b, a)
  {
    if a == 1 {
      assert Times(b, 1, b);
    } else {
      PowersDivide(a / 2, b / 2);
      var k :| Times(k, a / 2, b / 2);
      assert Times(k, a, b);
    }
  }

  lemma UnitDivides(click: nat)
    requires LegalClick(click)
    ensures 0 < Unit(click) <= click && Unit(click) <= 512
    ensures Multiple(512, Unit(click)) && Multiple(click, Unit(click))
  {
    assert PowerOfTwo(8) && PowerOfTwo(64) && PowerOfTwo(512);
    PowersDivide(Unit(click), 512);
    PowersDivide(Unit(click), click);
  }

  /** The whole of memory outside [lo, hi) is as it was. */
  twostate predicate Untouched(mem: array<Byte>, lo: nat, hi: nat)
    reads mem
  {
    forall i :: 0 <= i < mem.Length && !(lo <= i < hi) ==> mem[i] == old(mem[i])
  }

  method RawCopy(mem: array<Byte>, dst: nat, src: nat, n: nat)
    requires src + n <= dst && dst + n <= mem.Length
    modifies mem
    ensures Untouched(mem, dst, dst + n)
    ensures forall j :: dst <= j < dst + n ==> mem[j] == old(mem[j - dst + src])
  {
    var i := 0;
    while i < n
      invariant 0 <= i <= n && Untouched(mem, dst, dst + n)
      invariant forall j :: dst <= j < dst + i ==> mem[j] == old(mem[j - dst + src])
    {
      mem[dst + i] := mem[src + i];
      i := i + 1;
    }
  }

  /** Copy from the monitor's own buffers. */
  method CopyIn(mem: array<Byte>, addr: nat, s: Bytes)
    requires s == [] || addr + |s| <= mem.Length
    modifies mem
    ensures Untouched(mem, addr, addr + |s|) && forall i :: addr <= i < addr + |s| ==> mem[i] == s[i - addr]
  {
    var i := 0;
    while i < |s|
      invariant 0 <= i <= |s| && Untouched(mem, addr, addr + |s|)
      invariant forall j :: addr <= j < addr + i ==> mem[j] == s[j - addr]
    {
      mem[addr + i] := s[i];
      i := i + 1;
    }
  }

  /** raw_clear: one small block of zeros, then doubling copies of what is already clear. */
  method RawClear(mem: array<Byte>, addr: nat, count: nat)
    requires count == 0 || addr + count <= mem.Length
    modifies mem
    ensures Untouched(mem, addr, addr + count)
    ensures forall i :: addr <= i < addr + count ==> mem[i] == 0
  {
    var zct := if 128 > count then count else 128;
    CopyIn(mem, addr, Zeros(zct));
    var left := count - zct;
    while left > 0
      invariant 0 <= left <= count && Untouched(mem, addr, addr + count)
      invariant left > 0 ==> zct > 0 && zct == count - left
      invariant forall i :: addr <= i < addr + (count - left) ==> mem[i] == 0
    {
      var dst := addr + zct;
      if zct > left { zct := left; }
      RawCopy(mem, dst, addr, zct);
      left := left - zct;
      zct := zct * 2;
    }
  }

  // ---------------------------------------------------------------- get_segment

  /** Sectors and bytes that a segment of the given size takes up. */
  ghost function Sectors(size: int): nat { if size > 0 then Up(size, 512) / 512 else 0 }
  ghost function Span(size: int, click: nat): nat requires click > 0 { if size > 0 then Up(size, click) else 0 }

  /** Sector v of the image can be read. */
  predicate Readable(image: Bytes, bad: set<nat>, v: nat) {
    v !in bad && 512 * v + 512 <= |image|
  }

  /** When get_segment succeeds: its sectors can be read and its last unit has a click below limit. */
  ghost predicate Loadable(image: Bytes, bad: set<nat>, vsec: nat, size: int, addr: nat, limit: nat, click: nat)
    requires LegalClick(click)
  {
    size > 0 ==>
      && (forall v :: vsec <= v < vsec + Sectors(size) ==> Readable(image, bad, v))
      && (UnitDivides(click); addr + Up(size, Unit(click)) - Unit(click) + click <= limit)
  }

  lemma AtLeastUnit(m: int, u: nat)
    requires u > 0 && Multiple(m, u) && m > 0
    ensures m >= u
  {
    var k :| Times(k, u, m);
    if k <= 0 { MulStep(k - 1, 0, u); } else { MulStep(0, k, u); }
  }

  /** Rounding to units, then to sectors or clicks, is rounding to sectors or clicks. */
  lemma UpUp(size: nat, u: nat, c: nat)
    requires 0 < u <= c && Multiple(c, u)
    ensures Up(size, u) <= Up(size, c) && Up(Up(size, u), c) == Up(size, c)
  {
    MultipleTrans(Up(size, c), c, u);
    if Up(size, c) < Up(size, u) {
      MultipleUnique(Up(size, c), Up(size, u), size, u);
    }
    MultipleUnique(Up(size, c), Up(Up(size, u), c), Up(size, u), c);
  }

  lemma MultipleTrans(m: int, c: nat, u: nat)
    requires Multiple(m, c) && Multiple(c, u)
    ensures Multiple(m, u)
  {
    var j :| Times(j, c, m);
    var k :| Times(k, u, c);
    assert j * c == j * k * u;
    assert Times(j * k, u, m);
  }

  /** Memory m from addr holds size bytes of the image, rounded up to units, and zeros up to end. */
  ghost predicate Holds(m: Bytes, addr: nat, image: Bytes, from: nat, size: nat, end: nat, click: nat)
    requires click > 0
  {
    var n := if size > 0 then Up(size, Unit(click)) else 0;
    && addr + n <= end <= |m| && from + n <= |image|
    && m[addr..addr + n] == image[from..from + n]
    && forall i :: addr + n <= i < end ==> m[i] == 0
  }

  /** Zeros after a segment belong to it. */
  lemma HoldsMore(m: Bytes, m': Bytes, addr: nat, image: Bytes, from: nat, size: nat, end: nat, end': nat, click: nat)
    requires click > 0 && Holds(m, addr, image, from, size, end, click) && end <= end' <= |m'| && |m| == |m'|
    requires forall i :: 0 <= i < end ==> m'[i] == m[i]
    requires forall i :: end <= i < end' ==> m'[i] == 0
    ensures Holds(m', addr, image, from, size, end', click)
  {
    var n := if size > 0 then Up(size, Unit(click)) else 0;
    assert m'[addr..addr + n] == m[addr..addr + n];
  }

  /** Where the copy loop is after done bytes: v sectors taken, cnt bytes of the last one left. */
  ghost predicate Progress(done: nat, size0: int, v: nat, cnt: nat, u: nat) {
    && u > 0 && Multiple(done, u) && done + cnt == 512 * v && cnt <= 512
    && (done > 0 ==> done < size0 + u && cnt <= 512 - u)
  }

  lemma PieceIsUnit(done: nat, size0: int, v: nat, cnt: nat, click: nat)
    requires LegalClick(click) && Progress(done, size0, v, cnt, Unit(click)) && done < size0
    requires done == 0 ==> cnt == 0
    ensures var full := if cnt == 0 then 512 else cnt; var v' := if cnt == 0 then v + 1 else v;
            && (if click > full then full else click) == Unit(click)
            && Progress(done + Unit(click), size0, v', full - Unit(click), Unit(click))
  {
    var u := Unit(click);
    UnitDivides(click);
    var full := if cnt == 0 then 512 else cnt;
    var v' := if cnt == 0 then v + 1 else v;
    assert Times(v', 512, 512 * v');
    MultipleTrans(512 * v', 512, u);
    MultipleAdd(512 * v', done, u);
    AtLeastUnit(full, u);
    assert Times(1, u, u);
    MultipleAdd(done, u, u);
  }

  /** The loop ends having copied size rounded up to units, from size rounded up to sectors. */
  lemma ProgressEnd(done: nat, size0: nat, v: nat, cnt: nat, click: nat)
    requires LegalClick(click) && Progress(done, size0, v, cnt, Unit(click)) && size0 <= done && size0 > 0
    ensures done == Up(size0, Unit(click)) && v == Up(size0, 512) / 512 && Up(done, click) == Up(size0, click)
  {
    var u := Unit(click);
    UnitDivides(click);
    MultipleUnique(done, Up(size0, u), size0, u);
    assert Times(v, 512, 512 * v);
    MultipleUnique(512 * v, Up(size0, 512), size0, 512);
    UpUp(size0, u, click);
  }

  lemma NotLoadable(image: Bytes, bad: set<nat>, vsec0: nat, size0: int, addr0: nat, limit: nat, click: nat,
                    done: nat, v: nat, cnt: nat)
    requires LegalClick(click) && Progress(done, size0, v, cnt, Unit(click)) && done < size0
    requires (cnt == 0 && !Readable(image, bad, vsec0 + v)) || addr0 + done + click > limit
    ensures !Loadable(image, bad, vsec0, size0, addr0, limit, click)
  {
    UnitDivides(click);
    if addr0 + done + click > limit {
      UnitLeft(done, size0, Unit(click));
    } else {
      SectorLeft(done, size0, v);
    }
  }

  lemma UnitLeft(done: nat, size0: nat, u: nat)
    requires u > 0 && Multiple(done, u) && done < size0
    ensures done + u <= Up(size0, u)
  {
    MultipleAdd(Up(size0, u), done, u);
    AtLeastUnit(Up(size0, u) - done, u);
  }

  lemma SectorLeft(done: nat, size0: nat, v: nat)
    requires done == 512 * v && done < size0
    ensures v < Up(size0, 512) / 512
  {
    assert 512 * v < Up(size0, 512);
  }

  /** Memory from addr0 to addr holds the image from byte from on. */
  ghost predicate Copied(mem: array<Byte>, addr0: nat, addr: nat, image: Bytes, from: nat)
    reads mem
  {
    addr0 < addr ==>
              addr <= mem.Length && from + (addr - addr0) <= |image| &&
                  mem[addr0..addr] == image[from..from + (addr - addr0)]
  }

  method CopyPiece(mem: array<Byte>, ghost addr0: nat, addr: nat, piece: Bytes, ghost image: Bytes, ghost from: nat)
    requires addr0 <= addr && addr + |piece| <= mem.Length && Copied(mem, addr0, addr, image, from)
    requires var at := from + (addr - addr0); at + |piece| <= |image| && piece == image[at..at + |piece|]
    modifies mem
    ensures Untouched(mem, addr, addr + |piece|) && Copied(mem, addr0, addr + |piece|, image, from)
  {
    var n := |piece|;
    CopyIn(mem, addr, piece);
    ghost var at := from + (addr - addr0);
    assert mem[addr..addr + n] == piece == image[at..at + n];
    assert mem[addr0..addr] == old(mem[addr0..addr]) == image[from..at];
    assert mem[addr0..addr + n] == mem[addr0..addr] + mem[addr..addr + n];
    assert image[from..at + n] == image[from..at] + image[at..at + n];
  }

  /** The copy loop of get_segment after some units: v sectors were read, cnt bytes of the last are still in buf. */
  ghost predicate Midway(image: Bytes, bad: set<nat>, vsec0: nat, size0: int, addr0: nat, limit: nat, click: nat,
                         vsec: nat, addr: nat, cnt: nat, buf: Bytes)
  {
    && addr0 <= addr && vsec0 <= vsec && Progress(addr - addr0, size0, vsec - vsec0, cnt, Unit(click))
    && (addr == addr0 ==> cnt == 0) && (addr > addr0 ==> addr - Unit(click) + click <= limit && addr <= limit)
    && (cnt > 0 ==> cnt <= 512 * vsec <= |image| && buf == image[512 * vsec - cnt..512 * vsec])
    && (forall v :: vsec0 <= v < vsec ==> Readable(image, bad, v))
  }

  /** One unit further, vsec' and full being the sector count and the bytes buffered after reading. */
  lemma StepOn(image: Bytes, bad: set<nat>, vsec0: nat, size0: int, addr0: nat, limit: nat, click: nat,
               vsec: nat, addr: nat, cnt: nat, buf: Bytes, vsec': nat, full: nat, buf': Bytes)
    requires LegalClick(click) && Midway(image, bad, vsec0, size0, addr0, limit, click, vsec, addr, cnt, buf)
    requires addr - addr0 < size0 && MayCopy(image, bad, vsec, addr, cnt, limit, click)
    requires vsec' == (if cnt == 0 then vsec + 1 else vsec) && full == if cnt == 0 then 512 else cnt
    requires full <= 512 * vsec' <= |image| && buf' == image[512 * vsec' - full..512 * vsec']
    ensures var u, at := Unit(click), 512 * vsec0 + (addr - addr0);
            && (if click > full then full else click) == u <= full && 0 < u <= click
            && at + u <= |image| && buf'[..u] == image[at..at + u]
            && Midway(image, bad, vsec0, size0, addr0, limit, click, vsec', addr + u, full - u, buf'[u..])
  {
    var u := Unit(click);
    UnitDivides(click);
    PieceIsUnit(addr - addr0, size0, vsec - vsec0, cnt, click);
    assert buf'[u..] == image[512 * vsec' - (full - u)..512 * vsec'];
    var at := 512 * vsec0 + (addr - addr0);
    assert at == 512 * vsec' - full;
    assert buf'[..u] == image[at..at + u];
  }

  /** The next sector, if one is needed, can be read, and a click fits below the limit. */
  predicate MayCopy(image: Bytes, bad: set<nat>, vsec: nat, addr: nat, cnt: nat, limit: nat, click: nat) {
    (cnt == 0 ==> Readable(image, bad, vsec)) && addr + click <= limit
  }

  /** Read a sector if the buffer is used up. */
  method NextSector(image: Bytes, ghost bad: set<nat>, vsec: nat, cnt: nat, buf: Bytes) returns (vsec': nat,
                    cnt': nat, buf': Bytes)
    requires cnt <= 512 && (cnt == 0 ==> Readable(image, bad, vsec))
    requires cnt > 0 ==> cnt <= 512 * vsec <= |image| && buf == image[512 * vsec - cnt..512 * vsec]
    ensures vsec' == (if cnt == 0 then vsec + 1 else vsec) && cnt' == if cnt == 0 then 512 else cnt
    ensures cnt' <= 512 * vsec' <= |image| && buf' == image[512 * vsec' - cnt'..512 * vsec']
  {
    vsec', cnt', buf' := vsec, cnt, buf;
    if cnt == 0 {
      buf', vsec', cnt' := image[512 * vsec..512 * vsec + 512], vsec + 1, 512;
    }
  }

  /** One turn of the loop up to the copy: read a sector if the buffer is used up, take a unit off the buffer. */
  method TakeUnit(image: Bytes, bad: set<nat>, ghost vsec0: nat, ghost size0: int, ghost addr0: nat,
                  limit: nat, click: nat, vsec: nat, addr: nat, cnt: nat, buf: Bytes)
    returns (ok: bool, vsec': nat, cnt': nat, buf': Bytes, piece: Bytes)
    requires LegalClick(click) && addr - addr0 < size0
    requires Midway(image, bad, vsec0, size0, addr0, limit, click, vsec, addr, cnt, buf)
    ensures !ok ==> !Loadable(image, bad, vsec0, size0, addr0, limit, click)
    ensures ok ==> addr + |piece| <= limit && |piece| == Unit(click) > 0
    ensures ok ==> var at := 512 * vsec0 + (addr - addr0); at + |piece| <= |image| && piece == image[at..at + |piece|]
    ensures ok ==> Midway(image, bad, vsec0, size0, addr0, limit, click, vsec', addr + |piece|, cnt', buf')
  {
    ok, vsec', cnt', buf', piece := MayCopy(image, bad, vsec, addr, cnt, limit, click), vsec, cnt, buf, [];
    if !ok {
      NotLoadable(image, bad, vsec0, size0, addr0, limit, click, addr - addr0, vsec - vsec0, cnt);
      return;
    }
    vsec', cnt', buf' := NextSector(image, bad, vsec, cnt, buf);
    StepOn(image, bad, vsec0, size0, addr0, limit, click, vsec, addr, cnt, buf, vsec', cnt', buf');
    var n := if click > cnt' then cnt' else click;
    piece, buf', cnt' := buf'[..n], buf'[n..], cnt' - n;
  }

  /** The copy loop of get_segment. */
  method CopySectors(mem: array<Byte>, image: Bytes, bad: set<nat>, vsec0: nat, size0: int, addr0: nat, limit: nat,
                     click: nat)
    returns (ok: bool, vsec: nat, addr: nat)
    requires LegalClick(click) && limit <= mem.Length
    modifies mem
    ensures ok <==> Loadable(image, bad, vsec0, size0, addr0, limit, click)
    ensures addr0 <= addr && (addr > addr0 ==> addr <= limit) && Untouched(mem, addr0, addr)
    ensures ok ==> vsec >= vsec0
    ensures ok && size0 <= 0 ==> addr == addr0 && vsec == vsec0
    ensures ok && size0 > 0 ==>
      && addr - addr0 == Up(size0, Unit(click)) && vsec - vsec0 == Up(size0, 512) / 512
      && Up(addr - addr0, click) == Up(size0, click) && addr - Unit(click) + click <= limit
      && Copied(mem, addr0, addr, image, 512 * vsec0)
  {
    UnitDivides(click);
    vsec, addr := vsec0, addr0;
    var size, cnt, buf: Bytes, piece: Bytes := size0, 0, [], [];
    assert Times(0, Unit(click), 0);
    while size > 0
      invariant size == size0 - (addr - addr0) && Untouched(mem, addr0, addr)
      invariant Midway(image, bad, vsec0, size0, addr0, limit, click, vsec, addr, cnt, buf)
      invariant Copied(mem, addr0, addr, image, 512 * vsec0)
      decreases size
    {
      ok, vsec, cnt, buf, piece := TakeUnit(image, bad, vsec0, size0, addr0, limit, click, vsec, addr, cnt, buf);
      if !ok { return; }
      CopyPiece(mem, addr0, addr, piece, image, 512 * vsec0);
      addr, size := addr + |piece|, size - |piece|;
    }
    if size0 > 0 { ProgressEnd(addr - addr0, size0, vsec - vsec0, cnt, click); }
    ok := true;
  }

  lemma SegmentEnd(addr0: nat, addr: nat, click: nat)
    requires click > 0 && Multiple(addr0, click) && addr0 <= addr && addr + click <= 0x1_0000_0000
    ensures Align32(addr, click) == addr0 + Up(addr - addr0, click)
  {
    Align32IsUp(addr, click);
    MultipleAdd(addr0, Up(addr - addr0, click), click);
    MultipleUnique(Up(addr, click), addr0 + Up(addr - addr0, click), addr, click);
  }

  /** align(addr, click_size) - addr */
  method ClickGap(ghost addr0: nat, addr: nat, click: nat) returns (n: nat)
    requires click > 0 && Multiple(addr0, click) && addr0 <= addr && addr + click <= 0x1_0000_0000
    ensures addr + n == addr0 + Up(addr - addr0, click)
  {
    SegmentEnd(addr0, addr, click);
    n := Align32(addr, click) - addr;
  }

  /** The clicks of a segment end within a click of the start of its last unit. */
  lemma EndBelow(done: nat, click: nat)
    requires LegalClick(click) && Multiple(done, Unit(click)) && done > 0
    ensures Up(done, click) <= done - Unit(click) + click
  {
    var u := Unit(click);
    UnitDivides(click);
    MultipleTrans(Up(done, click), click, u);
    MultipleAdd(Up(done, click), done, u);
    MultipleAdd(click, Up(done, click) - done, u);
    AtLeastUnit(click - (Up(done, click) - done), u);
  }

  lemma SpanEnd(done: nat, size0: int, click: nat)
    requires LegalClick(click)
    requires size0 <= 0 ==> done == 0
    requires size0 > 0 ==> done == Up(size0, Unit(click)) && Up(done, click) == Up(size0, click)
    ensures Up(done, click) == Span(size0, click)
    ensures done > 0 ==> Up(done, click) <= done - Unit(click) + click
  {
    UnitDivides(click);
    if size0 <= 0 {
      assert Times(0, click, 0);
      MultipleUnique(0, Up(0, click), 0, click);
    }
    if done > 0 { EndBelow(done, click); }
  }

  /** get_segment: read size bytes from sector vsec on into memory at addr, then clear up to a click. */
  method GetSegment(mem: array<Byte>, image: Bytes, bad: set<nat>, vsec0: nat, size0: int, addr0: nat, limit: nat,
                    click: nat)
    returns (ok: bool, vsec: nat, size: int, addr: nat)
    requires LegalClick(click) && Multiple(addr0, click)
    requires limit <= mem.Length && addr0 + click <= 0x1_0000_0000 && limit + click <= 0x1_0000_0000
    modifies mem
    ensures ok <==> Loadable(image, bad, vsec0, size0, addr0, limit, click)
    ensures ok ==>
              vsec == vsec0 + Sectors(size0) && addr == addr0 + Span(size0, click) && size == size0 - Span(size0, click)
    ensures addr0 <= addr && (addr > addr0 ==> addr <= limit) && Untouched(mem, addr0, addr)
    ensures ok && 0 <= size0 && addr <= mem.Length && 512 * vsec0 <= |image| ==>
              Holds(mem[..], addr0, image, 512 * vsec0, size0, addr, click)
  {
    ok, vsec, addr := CopySectors(mem, image, bad, vsec0, size0, addr0, limit, click);
    size := size0 - (addr - addr0);
    if !ok { return; }
    SpanEnd(addr - addr0, size0, click);
    var n := ClickGap(addr0, addr, click);
    RawClear(mem, addr, n);
    addr, size := addr + n, size - n;
  }
}
