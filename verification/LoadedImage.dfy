/** From installboot to the running kernel: an image that make_image wrote, loaded by the monitor and mapped by
    main(). */
module LoadedImage {
  import opened Maybe
  import opened BootImage
  import opened Clicks
  import opened SegmentLoader
  import opened ProcessLoader
  import opened KernelMap
  import opened ImageLoader

  ghost function Header(p: Program): (h: Bytes)
    requires WellFormed(p)
    ensures |h| == EXEC_SIZE
  {
    Strip(ExecOf(p.file))
  }

  /** Memory at addr holds s and then zeros up to end. */
  predicate Segment(m: Bytes, addr: nat, s: Bytes, end: nat) {
    addr + |s| <= end <= |m| && m[addr..addr + |s|] == s && forall i :: addr + |s| <= i < end ==> m[i] == 0
  }

  /** The text of a program file, with its header if that is in the text, and its data. */
  ghost function TextOf(p: Program): Bytes
    requires WellFormed(p)
  {
    WellFormedBody(p);
    Body(p.file)[..ImageText(p.file)]
  }

  ghost function DataOf(p: Program): Bytes
    requires WellFormed(p)
  {
    WellFormedBody(p);
    Body(p.file)[ImageText(p.file)..ImageText(p.file) + DataSize(p.file)]
  }

  /** Text x and data y are in memory, everything else up to the end of bss is zero. */
  ghost predicate Held(m: Bytes, z: Sizes, x: Bytes, y: Bytes, addr: nat, o: Options)
    requires Sane(z) && o.click > 0
  {
    var d, e := DataAddr(z, addr, o.click), BssEnd(z, addr, o);
    if z.sep then Segment(m, addr, x, d) && Segment(m, d, y, e) else Segment(m, addr, x + y, e)
  }

  ghost predicate InMemory(m: Bytes, p: Program, addr: nat, o: Options)
    requires WellFormed(p) && Sane(SizesOf(Header(p))) && o.click > 0
  {
    Held(m, SizesOf(Header(p)), TextOf(p), DataOf(p), addr, o)
  }

  // ---------------------------------------------------------------- from sectors to files

  lemma AlignIsUp(n: nat)
    ensures Align(n) == Up(n, 512)
  {
    assert Times(Align(n) / 512, 512, Align(n));
    MultipleUnique(Align(n), Up(n, 512), n, 512);
  }

  lemma HoldsPad(m: Bytes, addr: nat, image: Bytes, from: nat, s: Bytes, more: Bytes, end: nat, click: nat)
    requires LegalClick(click) && from <= |image| && image[from..] == Pad(s) + more
    requires Holds(m, addr, image, from, |s|, end, click)
    ensures Segment(m, addr, s, end)
  {
    if |s| > 0 {
      var n := Up(|s|, Unit(click));
      UnitDivides(click);
      UpUp(|s|, Unit(click), 512);
      AlignIsUp(|s|);
      var got := m[addr..addr + n];
      assert image[from..from + n] == image[from..][..n];
      assert (Pad(s) + more)[..n] == Pad(s)[..n];
      assert got == Pad(s)[..n];
      assert m[addr..addr + |s|] == got[..|s|] == Pad(s)[..|s|];
      forall i | addr + |s| <= i < end ensures m[i] == 0 {
        if i < addr + n { assert m[i] == got[i - addr]; }
      }
    }
  }

  lemma TwoSegments(m: Bytes, addr: nat, image: Bytes, from: nat, x: Bytes, y: Bytes, more: Bytes, mid: nat, end: nat,
                    click: nat)
    requires LegalClick(click) && from <= |image| && image[from..] == Pad(x) + Pad(y) + more
    requires Holds(m, addr, image, from, |x|, mid, click) && Holds(m, mid, image, from + Align(|x|), |y|, end, click)
    ensures Segment(m, addr, x, mid) && Segment(m, mid, y, end)
  {
    assert Pad(x) + Pad(y) + more == Pad(x) + (Pad(y) + more);
    HoldsPad(m, addr, image, from, x, Pad(y) + more, mid, click);
    assert image[from + Align(|x|)..] == image[from..][Align(|x|)..];
    HoldsPad(m, mid, image, from + Align(|x|), y, more, end, click);
  }

  lemma SizesAre(p: Program)
    requires WellFormed(p)
    ensures var z := SizesOf(Header(p));
            && Loaded(z) == ImageText(p.file) >= 0 && z.data == DataSize(p.file) >= 0 && z.sep == IsSep(p.file)
  {
    HeaderKeeps(p.file);
    WellFormedBody(p);
  }

  lemma SegmentsAre(p: Program)
    requires WellFormed(p)
    ensures var x, y := TextOf(p), DataOf(p);
            && |x| == ImageText(p.file) && |y| == DataSize(p.file)
            && (WellFormedBody(p); Segments(p.file)) == if IsSep(p.file) then Pad(x) + Pad(y) else Pad(x + y)
  {
    WellFormedBody(p);
    var f := p.file;
    assert TextOf(p) + DataOf(p) == Body(f)[..ImageText(f) + DataSize(f)];
  }

  /** What get_segment took from the sectors of an entry are the segments of the program file. */
  lemma PlacedIsInMemory(m: Bytes, image: Bytes, vsec: nat, p: Program, more: Bytes, addr: nat, o: Options)
    requires WellFormed(p) && Sane(SizesOf(Header(p))) && LegalClick(o.click) && 512 * vsec <= |image|
    requires image[512 * vsec..] == (WellFormedBody(p); Segments(p.file)) + more
    requires Placed(m, image, vsec, SizesOf(Header(p)), addr, o)
    ensures InMemory(m, p, addr, o)
  {
    SizesAre(p);
    SegmentsAre(p);
    PlacedSegments(m, image, vsec, SizesOf(Header(p)), TextOf(p), DataOf(p), more, addr, o);
  }

  lemma PlacedSegments(m: Bytes, image: Bytes, vsec: nat, z: Sizes, x: Bytes, y: Bytes, more: Bytes, addr: nat,
                       o: Options)
    requires Sane(z) && LegalClick(o.click) && 512 * vsec <= |image| && |x| == Loaded(z) && |y| == z.data
    requires image[512 * vsec..] == (if z.sep then Pad(x) + Pad(y) else Pad(x + y)) + more
    requires Placed(m, image, vsec, z, addr, o)
    ensures Held(m, z, x, y, addr, o)
  {
    SectorsAre(|x|);
    if z.sep {
      TwoSegments(m, addr, image, 512 * vsec, x, y, more, DataAddr(z, addr, o.click), BssEnd(z, addr, o), o.click);
    } else {
      HoldsPad(m, addr, image, 512 * vsec, x + y, more, BssEnd(z, addr, o), o.click);
    }
  }

  // ---------------------------------------------------------------- the programs of an image

  ghost function ItemOf(p: Program): Item requires WellFormed(p) { Item(p.name, Header(p), SizesOf(Header(p))) }

  ghost function Items(ps: seq<Program>): (xs: seq<Item>)
    requires AllWellFormed(ps)
    ensures |xs| == |ps| && forall i :: 0 <= i < |ps| ==> xs[i] == ItemOf(ps[i])
  {
    seq(|ps|, i requires 0 <= i < |ps| => ItemOf(ps[i]))
  }

  lemma Cut(image: Bytes, a: nat, head: Bytes, segs: Bytes, more: Bytes)
    requires a <= |image| && image[a..] == head + segs + more && |head| == 512
    ensures a + 512 + |segs| <= |image| && image[a + 512..] == segs + more && image[a + 512 + |segs|..] == more
    ensures image[a..a + 64] == head[..64] && image[a + 64..a + 112] == head[64..112]
  {
    var rest := image[a..];
    assert image[a..a + 64] == rest[..64] && image[a + 64..a + 112] == rest[64..112];
    assert image[a + 512..] == rest[512..] && image[a + 512 + |segs|..] == rest[512 + |segs|..];
  }

  lemma SkipIsProcSize(h: Bytes)
    requires |h| >= A_MINHDR && Sane(SizesOf(h))
    ensures ImageText(h) >= 0 && DataSize(h) >= 0 && Skip(SizesOf(h)) == ProcSize(h)
  {
  }

  lemma EntrySectors(p: Program)
    requires WellFormed(p) && Sane(ItemOf(p).sizes)
    ensures 512 * Skip(ItemOf(p).sizes) == |(WellFormedBody(p); Segments(p.file))|
  {
    EntrySize(p);
    SkipIsProcSize(Header(p));
    WellFormedBody(p);
    assert |Entry(p)| == 512 + |Segments(p.file)|;
  }

  /** Sector vsec is the header sector of p, and its segments follow. */
  ghost predicate Comes(image: Bytes, vsec: nat, x: Item, p: Program) {
    && WellFormed(p) && x == ItemOf(p) && Sane(x.sizes) && 512 * vsec + 512 <= |image|
    && image[512 * vsec..512 * vsec + 64] == x.name && image[512 * vsec + 64..512 * vsec + 112] == x.header
    && (WellFormedBody(p); Segments(p.file)) <= image[512 * (vsec + 1)..]
  }

  ghost function ComesIn(image: Bytes): (nat, Item, Program) -> bool {
    (vsec: nat, x: Item, p: Program) => Comes(image, vsec, x, p)
  }

  /** The next program of the image is p, more follows. */
  lemma AtEntry(image: Bytes, vsec: nat, next: nat, p: Program, x: Item, more: Bytes)
    requires WellFormed(p) && x == ItemOf(p) && Sane(x.sizes) && next == vsec + 1 + Skip(x.sizes)
    requires 512 * vsec <= |image| && image[512 * vsec..] == Entry(p) + more
    ensures Comes(image, vsec, x, p) && 512 * next <= |image| && image[512 * next..] == more
  {
    WellFormedBody(p);
    EntrySectors(p);
    Cut(image, 512 * vsec, HeaderSector(p), Segments(p.file), more);
  }

  lemma ItemsSplit(ps: seq<Program>, rest: seq<Program>)
    requires AllWellFormed(ps) && ps != [] && rest == ps[1..]
    ensures ps == [ps[0]] + rest && AllWellFormed(rest) && Items(ps) == [ItemOf(ps[0])] + Items(rest)
  {
  }

  lemma AllSaneSplit(x: Item, rest: seq<Item>)
    requires AllSane([x] + rest)
    ensures Sane(x.sizes) && AllSane(rest)
  {
    var xs := [x] + rest;
    assert xs[0] == x && forall i :: 0 <= i < |rest| ==> rest[i] == xs[i + 1];
  }

  /** xs and ps are in step: at every header sector of xs, ok holds of the item and the program. */
  ghost predicate InStep(ok: (nat, Item, Program) -> bool, vsec: nat, xs: seq<Item>, ps: seq<Program>)
    decreases |xs|
  {
    |xs| == |ps| && (xs != [] ==>
      && Sane(xs[0].sizes) && xs[0].name == ps[0].name && ok(vsec, xs[0], ps[0])
      && InStep(ok, vsec + 1 + Skip(xs[0].sizes), xs[1..], ps[1..]))
  }

  /** From sector vsec on, the image consists of the programs ps, which the monitor sees as xs. */
  ghost predicate Follows(image: Bytes, vsec: nat, xs: seq<Item>, ps: seq<Program>) {
    InStep(ComesIn(image), vsec, xs, ps) && Stored(image, vsec, xs)
  }

  lemma InStepPush(ok: (nat, Item, Program) -> bool, vsec: nat, x: Item, p: Program, xs: seq<Item>, ps: seq<Program>)
    requires Sane(x.sizes) && x.name == p.name && ok(vsec, x, p) && InStep(ok, vsec + 1 + Skip(x.sizes), xs, ps)
    ensures InStep(ok, vsec, [x] + xs, [p] + ps)
  {
    assert ([x] + xs)[1..] == xs && ([p] + ps)[1..] == ps;
  }

  lemma StoredPush(image: Bytes, vsec: nat, x: Item, rest: seq<Item>)
    requires 512 * vsec + 512 <= |image| && Sane(x.sizes) && |x.header| == EXEC_SIZE && SizesOf(x.header) == x.sizes
    requires image[512 * vsec..512 * vsec + 64] == x.name && image[512 * vsec + 64..512 * vsec + 112] == x.header
    requires Stored(image, vsec + 1 + Skip(x.sizes), rest)
    ensures Stored(image, vsec, [x] + rest)
  {
    assert ([x] + rest)[1..] == rest;
  }

  lemma FollowsPush(image: Bytes, vsec: nat, next: nat, x: Item, p: Program, xs: seq<Item>, ps: seq<Program>,
                    xs': seq<Item>, ps': seq<Program>)
    requires Comes(image, vsec, x, p) && next == vsec + 1 + Skip(x.sizes) && Follows(image, next, xs, ps)
    requires xs' == [x] + xs && ps' == [p] + ps
    ensures Follows(image, vsec, xs', ps')
  {
    assert ComesIn(image)(vsec, x, p);
    InStepPush(ComesIn(image), vsec, x, p, xs, ps);
    StoredPush(image, vsec, x, xs);
  }

  lemma FollowsNothing(image: Bytes, vsec: nat)
    requires 512 * vsec == |image|
    ensures Follows(image, vsec, [], [])
  {
  }

  /** One program further into the image. */
  lemma EntryStep(image: Bytes, vsec: nat, ps: seq<Program>)
    returns (x: Item, next: nat, xs: seq<Item>, rest: seq<Program>)
    requires AllWellFormed(ps) && AllSane(Items(ps)) && ps != []
    requires 512 * vsec <= |image| && image[512 * vsec..] == Image(ps)
    ensures Comes(image, vsec, x, ps[0]) && next == vsec + 1 + Skip(x.sizes)
    ensures ps == [ps[0]] + rest && Items(ps) == [x] + xs
    ensures AllWellFormed(rest) && xs == Items(rest) && AllSane(xs)
    ensures 512 * next <= |image| && image[512 * next..] == Image(rest)
  {
    x, rest := ItemOf(ps[0]), ps[1..];
    ItemsSplit(ps, rest);
    xs := Items(rest);
    AllSaneSplit(x, xs);
    next := vsec + 1 + Skip(x.sizes);
    AtEntry(image, vsec, next, ps[0], x, Image(rest));
  }

  /** The monitor finds every program of the image at the sector where make_image put it. */
  lemma {:induction false} ImageFollows(image: Bytes, vsec: nat, ps: seq<Program>)
    requires AllWellFormed(ps) && AllSane(Items(ps))
    requires 512 * vsec <= |image| && image[512 * vsec..] == Image(ps)
    ensures Follows(image, vsec, Items(ps), ps)
    decreases |ps|
  {
    if ps == [] {
      FollowsNothing(image, vsec);
    } else {
      var x, next, xs, rest := EntryStep(image, vsec, ps);
      ImageFollows(image, next, rest);
      FollowsPush(image, vsec, next, x, ps[0], xs, rest, Items(ps), ps);
    }
  }

  ghost function Wanted(ps: seq<Program>, labelled: Option<Bytes>): seq<Program> {
    if ps == [] then []
    else if Selected(ps[0].name, labelled) then [ps[0]] + Wanted(ps[1..], labelled)
    else Wanted(ps[1..], labelled)
  }

  /** The plan is for the programs want: ok holds of each at its header sector. */
  ghost predicate Planned(ok: (nat, Item, Program) -> bool, plan: seq<Slot>, want: seq<Program>) {
    |plan| == |want| && forall i :: 0 <= i < |plan| ==>
      plan[i].vsec > 0 && ok(plan[i].vsec - 1, plan[i].item, want[i])
  }

  lemma PlannedPush(ok: (nat, Item, Program) -> bool, x: Slot, p: Program, plan: seq<Slot>, want: seq<Program>)
    requires x.vsec > 0 && ok(x.vsec - 1, x.item, p) && Planned(ok, plan, want)
    ensures Planned(ok, [x] + plan, [p] + want)
  {
  }

  /** The plan is for the programs with the right label, in the order of the image. */
  lemma {:induction false} PlanIsWanted(s: Setup, xs: seq<Item>, ps: seq<Program>, vsec: nat, n: nat, addr: nat,
                                        ok: (nat, Item, Program) -> bool)
    requires AllSane(xs) && s.click > 0 && InStep(ok, vsec, xs, ps)
    ensures Planned(ok, Plan(s, xs, vsec, n, addr), Wanted(ps, s.labelled))
    decreases |xs|
  {
    if xs != [] {
      var next := vsec + 1 + Skip(xs[0].sizes);
      if Selected(ps[0].name, s.labelled) {
        var addr' := NextAddr(s, n, xs[0].sizes, addr);
        PlanIsWanted(s, xs[1..], ps[1..], next, n + 1, addr', ok);
        PlannedPush(ok, Slot(xs[0], vsec + 1, addr), ps[0], Plan(s, xs[1..], next, n + 1, addr'),
                    Wanted(ps[1..], s.labelled));
      } else {
        PlanIsWanted(s, xs[1..], ps[1..], next, n, addr, ok);
      }
    }
  }

  /** p_memmap points at text x and data y: they are where the map says, and zeros follow up to end. */
  ghost predicate PointsAt(m: Bytes, map_: MemMap, sep: bool, x: Bytes, y: Bytes, end: nat) {
    && map_.textPhys >= 0 && map_.dataPhys >= 0
    && if sep then Segment(m, 1024 * map_.textPhys, x, 1024 * map_.dataPhys) && Segment(m, 1024 * map_.dataPhys, y, end)
       else Segment(m, 1024 * map_.dataPhys, x + y, end)
  }

  /** The kernel asked for stacks and clicks of 1024 bytes, and process i gets its bss and stack. */
  predicate Standard(s: Setup, i: nat) { s.click == 1024 && s.chmem && (i == 0 || !s.claim) }

  /**
   * The map that main() makes of a process agrees with the monitor exactly when MapAgreesIff says so; it
   * then covers the process exactly when the clicks set aside do.
   */
  lemma MapCovers(z: Sizes, base: nat)
    requires Sane(z) && Multiple(base, 1024) && base <= LIMIT_MAX
    ensures var o, map_ := Options(1024, true, true), MapOf(z, base);
            && (Agree(map_, Laying(z, base, o)) <==> !z.uzp && HeaderIsFree(z))
            && (Agree(map_, Laying(z, base, o)) ==> (BssEnd(z, base, o) <= 1024 * map_.stackPhys <==> Roomy(z, o)))
  {
    MapAgreesIff(z, base);
  }

  /** A map that agrees with the monitor points at the program. */
  lemma MapPointsAt(m: Bytes, z: Sizes, x: Bytes, y: Bytes, base: nat)
    requires Sane(z) && Multiple(base, 1024) && base <= LIMIT_MAX && !z.uzp && HeaderIsFree(z)
    requires Held(m, z, x, y, base, Options(1024, true, true))
    ensures PointsAt(m, MapOf(z, base), z.sep, x, y, BssEnd(z, base, Options(1024, true, true)))
  {
    MapAgreesIff(z, base);
  }

  /** Process i is program p, mapped by main() from the header saved for it. */
  ghost predicate Mapped(m: Bytes, s: Setup, i: nat, x: Slot, pr: Process, p: Program, aout: nat)
    requires s.click > 0
  {
    && WellFormed(p) && x.item == ItemOf(p) && Sane(x.item.sizes) && aout + 32 * i + 32 <= |m|
    && pr == Laying(x.item.sizes, x.base, OptionsOf(s, i))
    && KernelView(m[aout + 32 * i..aout + 32 * i + 32]) == MapOf(x.item.sizes, x.base)
    && (Standard(s, i) ==> MapRight(x.item.sizes, x.base, pr, OptionsOf(s, i)))
  }

  /** Monitor and kernel agree on a process when they can, and the map then covers it when its clicks do. */
  ghost predicate MapRight(z: Sizes, base: nat, pr: Process, o: Options)
    requires Sane(z) && o.click > 0
  {
    var map_ := MapOf(z, base);
    && (Agree(map_, pr) <==> !z.uzp && HeaderIsFree(z))
    && (Agree(map_, pr) ==> (BssEnd(z, base, o) <= 1024 * map_.stackPhys <==> Roomy(z, o)))
  }

  /** Program p is in memory as process i, byte for byte, and a map that agrees with the monitor points at it. */
  ghost predicate Booted(m: Bytes, s: Setup, i: nat, x: Slot, p: Program)
    requires s.click > 0
  {
    && WellFormed(p) && x.item == ItemOf(p) && Sane(x.item.sizes) && InMemory(m, p, x.base, OptionsOf(s, i))
    && var z := x.item.sizes;
       Standard(s, i) && !z.uzp && HeaderIsFree(z) ==>
         PointsAt(m, MapOf(z, x.base), z.sep, TextOf(p), DataOf(p), BssEnd(z, x.base, OptionsOf(s, i)))
  }

  lemma NotedMeans(m: Bytes, s: Setup, i: nat, x: Slot, pr: Process, p: Program, aout: nat)
    requires s.click > 0 && WellFormed(p) && x.item == ItemOf(p) && Noted(m, s, i, x, pr, aout)
    ensures Mapped(m, s, i, x, pr, p, aout)
  {
    SavedView(Header(p), x.base);
    if Standard(s, i) { MapCovers(x.item.sizes, x.base); }
  }

  /** What is resident is the program, where the kernel believes it to be. */
  lemma ResidentMeans(m: Bytes, s: Setup, i: nat, x: Slot, p: Program)
    requires LegalClick(s.click) && x.vsec > 0 && Comes(s.image, x.vsec - 1, x.item, p)
    requires Multiple(x.base, s.click) && x.base <= LIMIT_MAX && Resident(m, s, i, x)
    ensures Booted(m, s, i, x, p)
  {
    WellFormedBody(p);
    var rest := s.image[512 * x.vsec..];
    var segs := Segments(p.file);
    assert rest == segs + rest[|segs|..];
    PlacedIsInMemory(m, s.image, x.vsec, p, rest[|segs|..], x.base, OptionsOf(s, i));
    var z := x.item.sizes;
    if Standard(s, i) && !z.uzp && HeaderIsFree(z) { MapPointsAt(m, z, TextOf(p), DataOf(p), x.base); }
  }

  /** The processes of the plan are the programs want, mapped, and booted unless a later one is loaded over them. */
  ghost predicate AllBooted(m: Bytes, s: Setup, plan: seq<Slot>, procs: seq<Process>, want: seq<Program>, aout: nat)
    requires s.click > 0
  {
    && |procs| == |plan| == |want|
    && forall i :: 0 <= i < |want| ==>
           && Mapped(m, s, i, plan[i], procs[i], want[i], aout)
           && (LeftAlone(s, plan, i) ==> Booted(m, s, i, plan[i], want[i]))
  }

  lemma SlotMeans(m: Bytes, s: Setup, i: nat, x: Slot, pr: Process, p: Program, aout: nat, alone: bool)
    requires LegalClick(s.click) && x.vsec > 0 && ComesIn(s.image)(x.vsec - 1, x.item, p)
    requires Noted(m, s, i, x, pr, aout) && (alone ==> Resident(m, s, i, x))
    ensures Mapped(m, s, i, x, pr, p, aout)
    ensures alone ==> Booted(m, s, i, x, p)
  {
    assert Comes(s.image, x.vsec - 1, x.item, p);
    NotedMeans(m, s, i, x, pr, p, aout);
    if alone { ResidentMeans(m, s, i, x, p); }
  }

  lemma LaidOutMeans(m: Bytes, s: Setup, plan: seq<Slot>, procs: seq<Process>, want: seq<Program>, aout: nat)
    requires LegalClick(s.click) && Planned(ComesIn(s.image), plan, want) && LaidOut(m, s, plan, procs, aout)
    ensures AllBooted(m, s, plan, procs, want, aout)
  {
    forall i | 0 <= i < |want|
      ensures Mapped(m, s, i, plan[i], procs[i], want[i], aout)
      ensures LeftAlone(s, plan, i) ==> Booted(m, s, i, plan[i], want[i])
    {
      assert ComesIn(s.image)(plan[i].vsec - 1, plan[i].item, want[i]);
      SlotMeans(m, s, i, plan[i], procs[i], want[i], aout, LeftAlone(s, plan, i));
    }
  }

  /**
   * exec_image on an image that make_image wrote: every program with the right label has its header saved for
   * main(), and unless a later one is loaded over it, it is in memory byte for byte, its gaps and bss are zero,
   * and the map that main() makes points at it.
   */
  method ExecImage(mem: array<Byte>, s: Setup, base: nat, aout: nat, ghost ps: seq<Program>)
    returns (ok: bool, procs: seq<Process>)
    requires AllWellFormed(ps) && AllSane(Items(ps)) && s.image == Image(ps) && LegalClick(s.click)
    requires aout + HEADERS <= mem.Length <= LIMIT_MAX && base + s.click <= ADDR_MAX && HighOk(s, aout, mem.Length)
    modifies mem
    ensures ok <==> Loads(s, Items(ps), false, 0, 0, Up(base, s.click), aout)
    ensures ok ==> AllBooted(mem[..], s, Plan(s, Items(ps), 0, 0, Up(base, s.click)), procs,
                             Wanted(ps, s.labelled), aout)
  {
    assert s.image[512 * 0..] == Image(ps);
    ImageFollows(s.image, 0, ps);
    ghost var xs, start := Items(ps), Up(base, s.click);
    ok, procs := LoadImage(mem, s, base, aout, xs);
    if ok {
      PlanIsWanted(s, xs, ps, 0, 0, start, ComesIn(s.image));
      LaidOutMeans(mem[..], s, Plan(s, xs, 0, 0, start), procs, Wanted(ps, s.labelled), aout);
    }
  }
}
