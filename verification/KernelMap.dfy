/** main(): the memory map of each boot process, computed from the headers that the monitor saved. */
module KernelMap {
  import opened BootImage
  import opened Clicks
  import opened SegmentLoader
  import opened ProcessLoader

  /** p_memmap[T], p_memmap[D] and p_memmap[S], in clicks of 1024 bytes. */
  datatype MemMap = MemMap(textPhys: int, textLen: int, dataPhys: int, dataLen: int, stackPhys: int, stackVir: int)

  function MapOf(z: Sizes, loaded: int): MemMap {
    var base, data := loaded / 1024, (z.total + 1023) / 1024;
    var text := if z.sep then (z.text + 1023) / 1024 else 0;
    MemMap(base, text, base + text, data, base + text + data, data)
  }

  /** The header kept for the kernel, its a_syms overwritten with the load address. */
  function Saved(h: Bytes, addr: nat): (r: Bytes)
    requires |h| >= A_MINHDR
    ensures |r| == A_MINHDR
  {
    h[..28] + [addr % 0x100, addr / 0x100 % 0x100, addr / 0x1_0000 % 0x100, addr / 0x100_0000 % 0x100]
  }

  /** main() on one saved header. */
  function KernelView(saved: Bytes): MemMap
    requires |saved| >= A_MINHDR
  {
    MapOf(SizesOf(saved), Long(saved, 28))
  }

  lemma SavedView(h: Bytes, addr: nat)
    requires |h| >= A_MINHDR && addr < 0x8000_0000
    ensures KernelView(Saved(h, addr)) == MapOf(SizesOf(h), addr)
  {
    var r := Saved(h, addr);
    assert forall i :: 0 <= i < 28 ==> r[i] == h[i];
    Digits(addr);
    assert Long(r, 28) == addr;
  }

  lemma Digits(v: nat)
    requires v < 0x1_0000_0000
    ensures v == v % 0x100 + 0x100 * (v / 0x100 % 0x100) +
                 0x1_0000 * (v / 0x1_0000 % 0x100) + 0x100_0000 * (v / 0x100_0000 % 0x100)
  {
    var a, b, c := v / 0x100, v / 0x1_0000, v / 0x100_0000;
    assert b == a / 0x100 && c == b / 0x100 && c < 0x100;
  }

  /** The header that a page aligned program carries in its text costs no click of its own. */
  ghost predicate HeaderIsFree(z: Sizes)
    requires Sane(z)
  {
    z.pal ==>
      if z.sep then Up(z.text + z.hdrlen, 1024) == Up(z.text, 1024)
      else Up(z.total + z.hdrlen, 1024) == Up(z.total, 1024)
  }

  lemma WholeClicks(m: int)
    requires Multiple(m, 1024)
    ensures m / 1024 * 1024 == m
  {
    var k :| Times(k, 1024, m);
  }

  lemma KernelRounds(x: nat)
    ensures (x + 1023) / 1024 * 1024 == Up(x, 1024)
  {
    ClickCount(x, 1024);
    WholeClicks(Up(x, 1024));
  }

  /** The map of main() is where the monitor noted the segments and the end of the process. */
  predicate Agree(m: MemMap, p: Process) {
    1024 * m.textPhys == p.cs && 1024 * m.dataPhys == p.ds && 1024 * m.stackPhys == p.end
  }

  /**
   * Monitor and kernel agree on where a process is exactly when it has no unmapped zero page and its
   * in-text header, if any, costs no click. This needs K_CHMEM, a bss and stack of its own and clicks
   * of 1024 bytes, but not that a_total covers the segments.
   */
  lemma MapAgreesIff(z: Sizes, addr: nat)
    requires Sane(z) && Multiple(addr, 1024) && addr <= LIMIT_MAX
    ensures var m, p := MapOf(z, addr), Laying(z, addr, Options(1024, true, true));
            1024 * m.textPhys == addr && (Agree(m, p) <==> !z.uzp && HeaderIsFree(z))
  {
    WholeClicks(addr);
    KernelRounds(z.text);
    KernelRounds(z.total);
    var m, p := MapOf(z, addr), Laying(z, addr, Options(1024, true, true));
    assert 1024 * m.textPhys == addr;
    assert 1024 * m.dataPhys == addr + if z.sep then Up(z.text, 1024) else 0;
    assert 1024 * m.stackPhys == 1024 * m.dataPhys + Up(z.total, 1024);
    assert z.uzp ==> p.cs != addr;
  }
}
