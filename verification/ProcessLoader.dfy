/** exec_image, one program: text, data, bss and stack in clicks, and the map main() computes for them. */
module ProcessLoader {
  import opened BootImage
  import opened Clicks
  import opened SegmentLoader

  /** What exec_image and main() use of an a.out header. */
  datatype Sizes = Sizes(text: int, data: int, bss: int, total: int, hdrlen: nat, sep: bool, pal: bool, uzp: bool)

  function SizesOf(h: Bytes): Sizes
    requires |h| >= A_MINHDR
  {
    Sizes(TextSize(h), DataSize(h), Long(h, 16), Long(h, 24), HdrLen(h), IsSep(h), IsPal(h), h[2] % 2 == 1)
  }

  /** A page aligned program carries its header in its text. */
  function Loaded(z: Sizes): int { if z.pal then z.text + z.hdrlen else z.text }

  function Wrap(x: int): (r: nat)
    ensures r < 0x1_0000_0000 && (0 <= x < 0x1_0000_0000 ==> r == x)
  {
    x % 0x1_0000_0000
  }

  // Bounds below which no 32-bit address wraps around.
  const LIMIT_MAX: nat := 0x7F00_0000
  const ADDR_MAX: nat := 0xBF80_0000
  const SIZE_MAX: nat := 0x4000_0000

  /** No size in the header is negative or over a gigabyte. */
  predicate Sane(z: Sizes) {
    && z.text >= 0 && z.data >= 0 && z.bss >= 0 && 0 <= z.total <= SIZE_MAX && z.hdrlen < 256
    && Loaded(z) + z.data + z.bss <= SIZE_MAX
  }

  /** What the kernel asks for: its click, K_CHMEM, and whether this process gets bss and stack (no K_CLAIM). */
  datatype Options = Options(click: nat, chmem: bool, room: bool)

  // ---------------------------------------------------------------- where things go

  /** The part loaded at the data address: all of a program with common I&D. */
  function DataPart(z: Sizes): nat
    requires Sane(z)
  {
    if z.sep then z.data else Loaded(z) + z.data
  }

  function BssPart(z: Sizes, o: Options): nat requires Sane(z) { if o.room then z.bss else 0 }

  /** Bytes reserved from the data address on. */
  function Reserve(z: Sizes, o: Options): nat
    requires Sane(z)
  {
    if !o.room || !o.chmem then DataPart(z) + BssPart(z, o)
    else if z.sep then z.total
    else z.total + Loaded(z) - z.text
  }

  ghost function DataAddr(z: Sizes, addr: nat, click: nat): nat
    requires Sane(z) && click > 0
  {
    if z.sep then addr + Up(Loaded(z), click) else addr
  }

  ghost function DataSector(z: Sizes, vsec: nat): nat
    requires Sane(z)
  {
    if z.sep then vsec + Sectors(Loaded(z)) else vsec
  }

  /** Where what is loaded or cleared ends. */
  ghost function BssEnd(z: Sizes, addr: nat, o: Options): nat
    requires Sane(z) && o.click > 0
  {
    DataAddr(z, addr, o.click) + Up(DataPart(z) + BssPart(z, o), o.click)
  }

  /** Where the next process goes. */
  ghost function End(z: Sizes, addr: nat, o: Options): nat
    requires Sane(z) && o.click > 0
  {
    DataAddr(z, addr, o.click) + Up(Reserve(z, o), o.click)
  }

  datatype Process = Process(cs: nat, ds: nat, data: nat, end: nat)

  function BaseOf(z: Sizes, addr: nat, click: nat): nat { if z.uzp then Wrap(addr - click) else addr }

  /** The segments as exec_image records them: an unmapped zero page moves both bases down a click. */
  ghost function Laying(z: Sizes, addr: nat, o: Options): Process
    requires Sane(z) && o.click > 0
  {
    var d := DataAddr(z, addr, o.click);
    Process(BaseOf(z, addr, o.click), BaseOf(z, d, o.click), if z.sep then d else addr + Loaded(z), End(z, addr, o))
  }

  /** When a program can be loaded. */
  ghost predicate Fits(image: Bytes, bad: set<nat>, vsec: nat, z: Sizes, addr: nat, limit: nat, o: Options)
    requires Sane(z) && LegalClick(o.click)
  {
    && (z.sep ==> Loadable(image, bad, vsec, Loaded(z), addr, limit, o.click))
    && Loadable(image, bad, DataSector(z, vsec), DataPart(z), DataAddr(z, addr, o.click), limit, o.click)
    && BssEnd(z, addr, o) <= limit
  }

  // ---------------------------------------------------------------- rounding

  lemma Double(n: nat)
    requires PowerOfTwo(n)
    ensures PowerOfTwo(2 * n)
  {
  }

  lemma Shift2(n: nat)
    requires PowerOfTwo(n)
    ensures PowerOfTwo(4 * n)
  {
    Double(n);
    Double(2 * n);
  }

  lemma ClickDivides(click: nat)
    requires LegalClick(click)
    ensures Multiple(0x1_0000_0000, click)
  {
    Shift2(1); Shift2(0x4); Shift2(0x10); Shift2(0x40); Shift2(0x100); Shift2(0x400); Shift2(0x1000); Shift2(0x4000);
    Shift2(0x1_0000); Shift2(0x4_0000); Shift2(0x10_0000); Shift2(0x40_0000);
    Shift2(0x100_0000); Shift2(0x400_0000); Shift2(0x1000_0000); Shift2(0x4000_0000);
    PowersDivide(click, 0x1_0000_0000);
  }

  lemma SpanIsUp(size: nat, click: nat)
    requires click > 0
    ensures Span(size, click) == Up(size, click)
  {
    if size == 0 {
      assert Times(0, click, 0);
      MultipleUnique(0, Up(0, click), 0, click);
    }
  }

  /** 32-bit rounding of any size, also of a stack that came out negative. */
  lemma Align32Wraps(x: int, m: int, click: nat)
    requires LegalClick(click) && Multiple(m, click) && x <= m < x + click
    requires -0x8000_0000 <= m <= 0x8000_0000
    ensures Align32(x, click) == Wrap(m)
  {
    var y := (x + click - 1) % 0x1_0000_0000;
    var r := y - y % click;
    assert y == y / click * click + y % click;
    assert Times(y / click, click, r);
    ClickDivides(click);
    if m < 0 {
      MultipleAdd(m, 0x1_0000_0000, click);
      MultipleNegative(m, click);
      MultipleUnique(m + 0x1_0000_0000, r, x + 0x1_0000_0000, click);
    } else {
      MultipleUnique(m, r, x, click);
    }
  }

  lemma MultipleNegative(m: int, c: nat)
    requires c > 0 && Multiple(m, c) && m < 0
    ensures m + c <= 0
  {
    var k :| Times(k, c, m);
    if k > 0 { MulStep(0, k, c); }
    if k < 0 { MulStep(k, 0, c); }
  }

  lemma BssClicks(d: nat, bss: nat, click: nat)
    requires LegalClick(click) && d + bss <= 0x7000_0000
    ensures Up(d, click) + Align32(bss + (d - Up(d, click)), click) == Up(d + bss, click)
    ensures 0 <= Align32(bss + (d - Up(d, click)), click) < bss + click
  {
    UpTelescopes(d, bss, click);
    Align32IsUp(bss + (d - Up(d, click)), click);
  }

  lemma StackClicks(x: nat, stack: int, click: nat)
    requires LegalClick(click) && x <= 0x7000_0000 && 0 <= x + stack <= 0x7000_0000
    ensures Align32(stack + (x - Up(x, click)), click) == Wrap(Up(x + stack, click) - Up(x, click))
  {
    MultipleAdd(Up(x + stack, click), Up(x, click), click);
    Align32Wraps(stack + (x - Up(x, click)), Up(x + stack, click) - Up(x, click), click);
  }

  lemma {:induction false} SectorsAre(size: nat)
    ensures Sectors(size) == Align(size) / 512
  {
    if size > 0 {
      assert Times(Align(size) / 512, 512, Align(size));
      MultipleUnique(Align(size), Up(size, 512), size, 512);
    }
  }

  /** proc_size */
  function Skip(z: Sizes): nat
    requires Sane(z)
  {
    SizeInSectors(Loaded(z), z.data, z.sep)
  }

  /** Loading a program consumes the sectors that skipping it does. */
  lemma SkipIsLoad(z: Sizes, vsec: nat)
    requires Sane(z)
    ensures DataSector(z, vsec) + Sectors(DataPart(z)) == vsec + Skip(z)
  {
    SectorsAre(Loaded(z));
    SectorsAre(DataPart(z));
    AlignSum(Loaded(z), z.data);
    AlignSum(0, Loaded(z));
  }

  // ---------------------------------------------------------------- loading

  /** align(a_bss, click_size), a_bss being what the last data click left over of b bytes. */
  method BssRound(bss: int, click: nat, ghost d: nat, ghost b: nat) returns (n: nat)
    requires LegalClick(click) && d + b <= 0x7000_0000 && bss == b + (d - Up(d, click))
    ensures Up(d, click) + n == Up(d + b, click) && n < b + click
  {
    BssClicks(d, b, click);
    n := Align32(bss, click);
  }

  /** align(a_stack, click_size), which wraps around when a_total is short of the other segments. */
  method StackRound(stack: int, click: nat, ghost x: nat, ghost s: int) returns (n: nat)
    requires LegalClick(click) && x <= 0x7000_0000 && 0 <= x + s <= 0x7000_0000 && stack == s + (x - Up(x, click))
    ensures n == Wrap(Up(x + s, click) - Up(x, click))
  {
    StackClicks(x, s, click);
    n := Align32(stack, click);
  }

  /** Clear the bss clicks that the last data click left over. */
  method ClearBss(mem: array<Byte>, addr0: nat, bss: int, limit: nat, click: nat, ghost d: nat, ghost b: nat)
    returns (ok: bool, addr: nat, left: int)
    requires LegalClick(click) && d + b <= 0x7000_0000 && bss == b + (d - Up(d, click))
    requires limit <= mem.Length && addr0 >= Up(d, click) && addr0 + 0x4000_0000 + click <= 0x1_0000_0000 &&
             b <= 0x4000_0000
    modifies mem
    ensures addr0 <= addr == addr0 - Up(d, click) + Up(d + b, click)
    ensures ok <==> addr <= limit
    ensures Untouched(mem, addr0, if ok then addr else addr0)
    ensures ok ==> left == d + b - Up(d + b, click) && forall i :: addr0 <= i < addr ==> mem[i] == 0
  {
    var n := BssRound(bss, click, d, b);
    left := bss - n;
    addr := Wrap(addr0 + n);
    ok := addr <= limit;
    if ok { RawClear(mem, addr0, n); }
  }

  /** Set stack clicks aside; nothing compares them with the limit. */
  method ReserveStack(addr0: nat, stack: int, click: nat, ghost x: nat, ghost s: int) returns (end: nat)
    requires LegalClick(click) && x <= 0x7000_0000 && 0 <= x + s <= 0x7000_0000 && stack == s + (x - Up(x, click))
    requires Up(x, click) <= addr0 && addr0 <= LIMIT_MAX
    ensures end == addr0 - Up(x, click) + Up(x + s, click)
  {
    var n := StackRound(stack, click, x, s);
    end := Wrap(addr0 + n);
  }

  /** Where a loaded program's segments are in memory, as far as they come from the image. */
  ghost predicate Placed(m: Bytes, image: Bytes, vsec: nat, z: Sizes, addr: nat, o: Options)
    requires Sane(z) && o.click > 0
  {
    var d := DataAddr(z, addr, o.click);
    && (z.sep ==> Holds(m, addr, image, 512 * vsec, Loaded(z), d, o.click))
    && Holds(m, d, image, 512 * DataSector(z, vsec), DataPart(z), BssEnd(z, addr, o), o.click)
  }

  /** The text segment of a program with separate I&D. */
  method LoadText(mem: array<Byte>, image: Bytes, bad: set<nat>, vsec0: nat, z: Sizes, addr0: nat, limit: nat,
                  click: nat)
    returns (ok: bool, vsec: nat, addr: nat)
    requires Sane(z) && LegalClick(click) && Multiple(addr0, click) && z.sep && 512 * vsec0 <= |image|
    requires limit <= mem.Length && limit <= LIMIT_MAX && addr0 <= ADDR_MAX
    modifies mem
    ensures Untouched(mem, addr0, limit)
    ensures ok <==> Loadable(image, bad, vsec0, Loaded(z), addr0, limit, click)
    ensures ok ==> vsec == DataSector(z, vsec0) && addr == DataAddr(z, addr0, click)
    ensures ok ==> Untouched(mem, addr0, addr) && 512 * vsec <= |image| && addr <= ADDR_MAX && Multiple(addr, click)
    ensures ok && addr <= mem.Length ==> Holds(mem[..], addr0, image, 512 * vsec0, Loaded(z), addr, click)
  {
    var left;
    ok, vsec, left, addr := GetSegment(mem, image, bad, vsec0, Loaded(z), addr0, limit, click);
    if ok {
      SpanIsUp(Loaded(z), click);
      MultipleAdd(addr0, Up(Loaded(z), click), click);
      if Loaded(z) > 0 { assert Readable(image, bad, vsec - 1); }
    }
  }

  /** The data segment and the bss after it. */
  method LoadData(mem: array<Byte>, image: Bytes, bad: set<nat>, vsec0: nat, d: nat, bss: nat, addr0: nat, limit: nat,
                  click: nat)
    returns (ok: bool, vsec: nat, addr: nat, left: int)
    requires LegalClick(click) && Multiple(addr0, click) && 512 * vsec0 <= |image| && d + bss <= SIZE_MAX
    requires limit <= mem.Length && limit <= LIMIT_MAX && addr0 <= ADDR_MAX
    modifies mem
    ensures Untouched(mem, addr0, limit)
    ensures ok <==> Loadable(image, bad, vsec0, d, addr0, limit, click) && addr0 + Up(d + bss, click) <= limit
    ensures ok ==> vsec == vsec0 + Sectors(d) && addr == addr0 + Up(d + bss, click)
    ensures ok ==> left == d + bss - Up(d + bss, click)
    ensures ok ==> Untouched(mem, addr0, addr) && Holds(mem[..], addr0, image, 512 * vsec0, d, addr, click)
  {
    ok, vsec, left, addr := GetSegment(mem, image, bad, vsec0, d, addr0, limit, click);
    if !ok { return; }
    SpanIsUp(d, click);
    ghost var m, mid := mem[..], addr;
    ok, addr, left := ClearBss(mem, addr, bss + left, limit, click, d, bss);
    if ok { HoldsMore(m, mem[..], addr0, image, 512 * vsec0, d, mid, addr, click); }
  }

  lemma HoldsFrame(m: Bytes, m': Bytes, addr: nat, image: Bytes, from: nat, size: nat, end: nat, click: nat)
    requires click > 0 && Holds(m, addr, image, from, size, end, click) && |m| == |m'|
    requires forall i :: addr <= i < end ==> m'[i] == m[i]
    ensures Holds(m', addr, image, from, size, end, click)
  {
    var n := if size > 0 then Up(size, Unit(click)) else 0;
    assert m'[addr..addr + n] == m[addr..addr + n];
  }

  /** Text and data on their own, or as one stretch, and the bss. */
  method LoadSegments(mem: array<Byte>, image: Bytes, bad: set<nat>, vsec0: nat, z: Sizes, addr0: nat, limit: nat,
                      o: Options)
    returns (ok: bool, vsec: nat, base: nat, addr: nat, left: int)
    requires Sane(z) && LegalClick(o.click) && Multiple(addr0, o.click) && 512 * vsec0 <= |image|
    requires limit <= mem.Length && limit <= LIMIT_MAX && addr0 <= ADDR_MAX
    modifies mem
    ensures Untouched(mem, addr0, limit)
    ensures ok <==> Fits(image, bad, vsec0, z, addr0, limit, o)
    ensures ok ==> vsec == vsec0 + Skip(z) && base == DataAddr(z, addr0, o.click) && addr == BssEnd(z, addr0, o)
    ensures ok ==> addr <= limit && left == DataPart(z) + BssPart(z, o) - (addr - base)
    ensures ok ==> Untouched(mem, addr0, addr) && Placed(mem[..], image, vsec0, z, addr0, o)
  {
    vsec, base, addr, left := vsec0, addr0, addr0, 0;
    if z.sep {
      ok, vsec, base := LoadText(mem, image, bad, vsec, z, base, limit, o.click);
      if !ok { return; }
    }
    ghost var m := mem[..];
    ok, vsec, addr, left := LoadData(mem, image, bad, vsec, DataPart(z), BssPart(z, o), base, limit, o.click);
    if ok {
      SkipIsLoad(z, vsec0);
      if z.sep { HoldsFrame(m, mem[..], addr0, image, 512 * vsec0, Loaded(z), base, o.click); }
    }
  }

  /** Stack bytes asked for beyond text, data and bss. */
  function StackSize(z: Sizes, o: Options): int {
    if !o.room || !o.chmem then 0
    else if z.sep then z.total - z.data - z.bss
    else z.total - z.data - z.bss - z.text
  }

  lemma ReserveIs(z: Sizes, o: Options)
    requires Sane(z)
    ensures DataPart(z) + BssPart(z, o) + StackSize(z, o) == Reserve(z, o) <= 0x7000_0000
    ensures DataPart(z) + BssPart(z, o) <= 0x7000_0000
  {
  }

  /** The end of the process: stack clicks after what is loaded. */
  method StackEnd(z: Sizes, ghost base: nat, addr: nat, left: int, o: Options) returns (end: nat)
    requires Sane(z) && LegalClick(o.click) && addr == base + Up(DataPart(z) + BssPart(z, o), o.click) &&
             addr <= LIMIT_MAX
    requires left == DataPart(z) + BssPart(z, o) - (addr - base)
    ensures end == base + Up(Reserve(z, o), o.click)
  {
    ReserveIs(z, o);
    end := ReserveStack(addr, StackSize(z, o) + left, o.click, DataPart(z) + BssPart(z, o), StackSize(z, o));
  }

  /** What exec_image notes down once the segments are in. */
  method Note(z: Sizes, addr0: nat, base: nat, addr: nat, left: int, o: Options) returns (p: Process)
    requires Sane(z) && LegalClick(o.click) && base == DataAddr(z, addr0, o.click) && addr == BssEnd(z, addr0, o)
    requires left == DataPart(z) + BssPart(z, o) - (addr - base) && addr <= LIMIT_MAX
    ensures p == Laying(z, addr0, o)
  {
    var end := StackEnd(z, base, addr, left, o);
    var cs := BaseOf(z, addr0, o.click);
    var ds := if z.sep then BaseOf(z, base, o.click) else cs;
    p := Process(cs, ds, if z.sep then base else addr0 + Loaded(z), end);
  }

  /** The body of exec_image's loop, from the segment sizes on. */
  method LoadProcess(mem: array<Byte>, image: Bytes, bad: set<nat>, vsec0: nat, z: Sizes, addr0: nat, limit: nat,
                     o: Options)
    returns (ok: bool, vsec: nat, p: Process)
    requires Sane(z) && LegalClick(o.click) && Multiple(addr0, o.click) && 512 * vsec0 <= |image|
    requires limit <= mem.Length && limit <= LIMIT_MAX && addr0 <= ADDR_MAX
    modifies mem
    ensures Untouched(mem, addr0, limit)
    ensures ok <==> Fits(image, bad, vsec0, z, addr0, limit, o)
    ensures ok ==> vsec == vsec0 + Skip(z) && Untouched(mem, addr0, BssEnd(z, addr0, o))
    ensures ok ==> Placed(mem[..], image, vsec0, z, addr0, o)
    ensures ok ==> p == Laying(z, addr0, o)
  {
    var base, addr, left;
    ok, vsec, base, addr, left := LoadSegments(mem, image, bad, vsec0, z, addr0, limit, o);
    if ok { p := Note(z, addr0, base, addr, left, o); } else { p := Process(0, 0, 0, 0); }
  }
}
