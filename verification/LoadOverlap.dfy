/** When exec_image loads one process over another, and that it does. */
module LoadOverlap {
  import opened Maybe
  import opened BootImage
  import opened Clicks
  import opened SegmentLoader
  import opened ProcessLoader
  import opened ImageLoader
  import opened LoadedImage

  /** Each process starts where the one before it ends, the first at addr. */
  ghost predicate Chained(s: Setup, plan: seq<Slot>, n: nat, addr: nat)
    requires s.click > 0
  {
    && (forall i :: 0 <= i < |plan| ==> Sane(plan[i].item.sizes))
    && (plan != [] ==> plan[0].base == addr)
    && forall i :: 0 < i < |plan| ==>
           plan[i].base == NextAddr(s, n + i - 1, plan[i - 1].item.sizes, plan[i - 1].base)
  }

  lemma ChainedPush(s: Setup, x: Slot, rest: seq<Slot>, n: nat)
    requires s.click > 0 && Sane(x.item.sizes)
    requires Chained(s, rest, n + 1, NextAddr(s, n, x.item.sizes, x.base))
    ensures Chained(s, [x] + rest, n, x.base)
  {
    var plan := [x] + rest;
    forall i | 0 < i < |plan|
      ensures plan[i].base == NextAddr(s, n + i - 1, plan[i - 1].item.sizes, plan[i - 1].base)
    {
      assert plan[i] == rest[i - 1] && (i > 1 ==> plan[i - 1] == rest[i - 2]);
    }
  }

  lemma {:induction false} PlanChained(s: Setup, xs: seq<Item>, vsec: nat, n: nat, addr: nat)
    requires AllSane(xs) && s.click > 0
    ensures Chained(s, Plan(s, xs, vsec, n, addr), n, addr)
    decreases |xs|
  {
    if xs != [] {
      var next := vsec + 1 + Skip(xs[0].sizes);
      if Selected(xs[0].name, s.labelled) {
        var addr' := NextAddr(s, n, xs[0].sizes, addr);
        PlanChained(s, xs[1..], next, n + 1, addr');
        ChainedPush(s, Slot(xs[0], vsec + 1, addr), Plan(s, xs[1..], next, n + 1, addr'), n);
      } else {
        PlanChained(s, xs[1..], next, n, addr);
      }
    }
  }

  /** Memory is handed out upwards from each process on, the kernel apart when the others go high. */
  lemma {:induction false} BasesRise(s: Setup, plan: seq<Slot>, addr: nat, i: nat, j: nat)
    requires s.click > 0 && Chained(s, plan, 0, addr) && i <= j < |plan| && (i > 0 || s.high.None?)
    ensures plan[i].base <= plan[j].base
    decreases j
  {
    if i < j { BasesRise(s, plan, addr, i, j - 1); }
  }

  /** The first process to be loaded, the kernel, ends below the headers. */
  lemma {:induction false} KernelIsLow(s: Setup, xs: seq<Item>, started: bool, vsec: nat, addr: nat, limit: nat)
    requires AllSane(xs) && LegalClick(s.click) && Loads(s, xs, started, vsec, 0, addr, limit)
    ensures var plan := Plan(s, xs, vsec, 0, addr);
            plan != [] ==> Sane(plan[0].item.sizes) && EndOf(s, 0, plan[0]) <= limit
    decreases |xs|
  {
    if xs != [] && !Selected(xs[0].name, s.labelled) {
      KernelIsLow(s, xs[1..], true, vsec + 1 + Skip(xs[0].sizes), addr, limit);
    }
  }

  /** The plan of an image that can be loaded. */
  ghost predicate PlannedFor(s: Setup, xs: seq<Item>, start: nat, aout: nat, plan: seq<Slot>) {
    && LegalClick(s.click) && AllSane(xs) && HighOk(s, aout, LIMIT_MAX)
    && Loads(s, xs, false, 0, 0, start, aout) && plan == Plan(s, xs, 0, 0, start)
  }

  /** Process i has text, data or bss. */
  ghost predicate HasBytes(s: Setup, i: nat, x: Slot)
    requires s.click > 0
  {
    Sane(x.item.sizes) && x.base < EndOf(s, i, x)
  }

  lemma Above(s: Setup, xs: seq<Item>, start: nat, aout: nat, plan: seq<Slot>, i: nat, j: nat)
    requires PlannedFor(s, xs, start, aout, plan) && i < j < |plan|
    ensures Sane(plan[i].item.sizes) && Sane(plan[j].item.sizes) && plan[i].base <= plan[j].base
    ensures i == 0 && s.high.Some? ==> EndOf(s, i, plan[i]) <= plan[j].base
  {
    PlanChained(s, xs, 0, 0, start);
    KernelIsLow(s, xs, false, 0, start, aout);
    BasesRise(s, plan, start, i + 1, j);
  }

  lemma ClearIff(s: Setup, i: nat, x: Slot, j: nat, y: Slot)
    requires s.click > 0 && Sane(x.item.sizes) && Sane(y.item.sizes) && x.base <= y.base
    ensures Clear(s, i, x, j, y) <==> EndOf(s, i, x) <= y.base || !HasBytes(s, j, y)
  {
    if EndOf(s, i, x) > y.base && HasBytes(s, j, y) {
      assert Occupies(s, i, x, y.base) && Occupies(s, j, y, y.base);
    }
  }

  /**
   * Process i stays as it was loaded exactly when the first later process with anything to load starts at or above
   * its end. For the process right after it that means that the clicks set aside for process i cover what is
   * loaded and cleared of it, or that process i is the kernel and the others go to extended memory.
   */
  lemma LeftAloneIff(s: Setup, xs: seq<Item>, start: nat, aout: nat, plan: seq<Slot>, i: nat, k: nat)
    requires PlannedFor(s, xs, start, aout, plan) && i < k <= |plan|
    requires forall j :: i < j < k ==> !HasBytes(s, j, plan[j])
    requires k < |plan| ==> HasBytes(s, k, plan[k])
    ensures forall j :: 0 <= j < |plan| ==> Sane(plan[j].item.sizes)
    ensures LeftAlone(s, plan, i) <==> k < |plan| ==> EndOf(s, i, plan[i]) <= plan[k].base
    ensures k == i + 1 < |plan| ==>
            (LeftAlone(s, plan, i) <==> (i == 0 && s.high.Some?) || Roomy(plan[i].item.sizes, OptionsOf(s, i)))
  {
    PlanChained(s, xs, 0, 0, start);
    forall j | i < j < |plan|
      ensures plan[i].base <= plan[j].base
      ensures Clear(s, i, plan[i], j, plan[j]) <==> EndOf(s, i, plan[i]) <= plan[j].base || !HasBytes(s, j, plan[j])
      ensures k <= j ==> plan[k].base <= plan[j].base
    {
      Above(s, xs, start, aout, plan, i, j);
      ClearIff(s, i, plan[i], j, plan[j]);
      if k <= j { BasesRise(s, plan, start, k, j); }
    }
    if k < |plan| { Above(s, xs, start, aout, plan, i, k); }
  }

  // ---------------------------------------------------------------- it happens

  /** 2048 bytes of data and an a_total of 0: no room set aside for any of it. */
  function ShortHeader(): (h: Bytes)
    ensures |h| == 32
  {
    [1, 3, 0, 16, 32, 0, 0, 0, 0, 0, 0, 0, 0, 8, 0, 0, 0, 0, 0, 0, 0, 0, 0, 0, 0, 0, 0, 0, 0, 0, 0, 0]
  }

  function Short(v: Byte): (p: Program)
    ensures |p.name| == NAME_SIZE && |p.file| == 2080
  {
    Program(Zeros(NAME_SIZE), ShortHeader() + seq(2048, _ => v))
  }

  const shortSizes: Sizes := Sizes(0, 2048, 0, 0, 32, false, false, false)

  predicate ShortHead(h: Bytes) {
    |h| >= 32 && forall i :: 0 <= i < 28 ==> h[i] == ShortHeader()[i]
  }

  lemma ShortFields(h: Bytes)
    requires ShortHead(h)
    ensures !BadMag(h) && SizesOf(h) == shortSizes && h[3] == 16 && !IsNsym(h)
  {
    assert h[0] == 1 && h[1] == 3 && h[2] == 0 && h[3] == 16 && h[4] == 32;
    assert h[8] == 0 && h[9] == 0 && h[10] == 0 && h[11] == 0 && h[12] == 0 && h[13] == 8 && h[14] == 0 && h[15] == 0;
    assert h[16] == 0 && h[17] == 0 && h[18] == 0 && h[19] == 0;
    assert h[24] == 0 && h[25] == 0 && h[26] == 0 && h[27] == 0;
  }

  lemma ShortFile(v: Byte)
    ensures var f := Short(v).file; ShortHead(f) && f[32..] == seq(2048, _ => v)
  {
    var f := Short(v).file;
    assert f[..32] == ShortHeader();
    assert forall i :: 0 <= i < 32 ==> f[i] == f[..32][i];
  }

  lemma ShortWellFormed(v: Byte)
    ensures WellFormed(Short(v)) && ShortHead(Header(Short(v))) && Sane(shortSizes)
    ensures SizesOf(Short(v).file) == shortSizes
  {
    var f := Short(v).file;
    ShortFile(v);
    ShortFields(f);
    assert WellFormed(Short(v));
    var h := Header(Short(v));
    assert forall i :: 0 <= i < 28 ==> h[i] == f[i];
  }

  lemma ShortBody(v: Byte)
    ensures WellFormed(Short(v)) && TextOf(Short(v)) + DataOf(Short(v)) == seq(2048, _ => v)
  {
    ShortWellFormed(v);
    ShortFile(v);
    var b := Body(Short(v).file);
    assert ImageText(Short(v).file) == 0 && b == seq(2048, _ => v);
    assert b[..0] + b[0..2048] == b;
  }

  lemma ShortIs(v: Byte)
    ensures IsShort(Short(v))
  {
    ShortWellFormed(v);
    ShortFields(Header(Short(v)));
  }

  /** On a 386, with clicks of 1024 bytes and K_CHMEM, every sector readable and no label asked for. */
  function Plain(image: Bytes): Setup { Setup(image, {}, None, true, 1024, true, false, None) }

  lemma Exactly(k: nat, c: nat)
    requires c > 0
    ensures Up(k * c, c) == k * c
  {
    assert Times(k, c, k * c);
    MultipleUnique(k * c, Up(k * c, c), k * c, c);
  }

  /** Where such a program goes: it fills two clicks, and none is set aside. */
  lemma ShortLaid(start: nat, o: Options)
    requires o == Options(1024, true, true)
    ensures Sane(shortSizes) && BssEnd(shortSizes, start, o) == start + 2048 && End(shortSizes, start, o) == start
    ensures Skip(shortSizes) == 4 && Sectors(2048) == 4 && Up(2048, 512) == 2048
  {
    Exactly(2, 1024);
    Exactly(0, 1024);
    Exactly(4, 512);
    SectorsAre(2048);
  }

  lemma EntryLength(p: Program)
    requires WellFormed(p) && Sane(SizesOf(Header(p)))
    ensures |Entry(p)| == 512 + 512 * Skip(SizesOf(Header(p)))
  {
    EntrySize(p);
    SkipIsProcSize(Header(p));
  }

  lemma TwoEntries(p: Program, q: Program)
    requires WellFormed(p) && WellFormed(q)
    ensures Image([p, q]) == Entry(p) + Entry(q)
  {
    assert [p, q][1..] == [q] && [q][1..] == [];
    assert Image([q]) == Entry(q);
  }

  predicate ShortItems(xs: seq<Item>) {
    |xs| == 2 && xs[0].sizes == xs[1].sizes == shortSizes && Colon(xs[0].name) < 0 && Colon(xs[1].name) < 0
  }

  /** Two of them, with room below the headers: both go to start. */
  lemma ShortPlan(s: Setup, xs: seq<Item>, start: nat, aout: nat)
    requires s == Plain(s.image) && |s.image| == 5120 && LegalClick(1024) && start + 2560 <= aout
    requires ShortItems(xs)
    ensures AllSane(xs) && Loads(s, xs, false, 0, 0, start, aout)
    ensures Plan(s, xs, 0, 0, start) == [Slot(xs[0], 1, start), Slot(xs[1], 6, start)]
  {
    ShortLaid(start, Options(1024, true, true));
    var ys := xs[1..];
    assert ys == [xs[1]] && ys[1..] == [];
    assert Loads(s, [], false, 10, 2, start, aout);
    assert Loads(s, ys, false, 5, 1, start, aout);
    assert Plan(s, [], 10, 2, start) == [];
    assert Plan(s, ys, 5, 1, start) == [Slot(ys[0], 6, start)];
  }

  /** A program of those sizes, for everyone. */
  ghost predicate IsShort(p: Program) { WellFormed(p) && SizesOf(Header(p)) == shortSizes && Colon(p.name) < 0 }

  /** Two such programs cannot both be in memory at one address, unless they are the same. */
  lemma OneOfThem(m: Bytes, p: Program, q: Program, start: nat, o: Options)
    requires IsShort(p) && IsShort(q) && o == Options(1024, true, true)
    requires InMemory(m, p, start, o) && InMemory(m, q, start, o)
    ensures TextOf(p) + DataOf(p) == TextOf(q) + DataOf(q)
  {
    SizesAre(p);
    SizesAre(q);
    SegmentsAre(p);
    SegmentsAre(q);
  }

  /** The two programs of the plan go to the same address, and the second one stays. */
  ghost predicate Stacked(s: Setup, plan: seq<Slot>)
    requires s.click > 0
  {
    |plan| == 2 && plan[0].base == plan[1].base && !LeftAlone(s, plan, 0) && LeftAlone(s, plan, 1)
  }

  /** No memory holds both programs as they should be. */
  ghost predicate NeverBoth(s: Setup, plan: seq<Slot>, ps: seq<Program>)
    requires s.click > 0 && |plan| == |ps| == 2
  {
    forall m :: Booted(m, s, 1, plan[1], ps[1]) ==> !Booted(m, s, 0, plan[0], ps[0])
  }

  lemma ShortEntry(p: Program)
    requires IsShort(p)
    ensures |Entry(p)| == 2560
  {
    ShortLaid(0, Options(1024, true, true));
    EntryLength(p);
  }

  lemma ShortImage(p: Program, q: Program)
    requires IsShort(p) && IsShort(q)
    ensures |Image([p, q])| == 5120
  {
    TwoEntries(p, q);
    ShortEntry(p);
    ShortEntry(q);
  }

  lemma SameBase(s: Setup, plan: seq<Slot>)
    requires s == Plain(s.image) && |plan| == 2 && plan[0].base == plan[1].base
    requires plan[0].item.sizes == plan[1].item.sizes == shortSizes
    ensures Stacked(s, plan)
  {
    var start := plan[0].base;
    ShortLaid(start, Options(1024, true, true));
    assert Occupies(s, 0, plan[0], start) && Occupies(s, 1, plan[1], start);
    assert !Clear(s, 0, plan[0], 1, plan[1]);
  }

  lemma ShortPlanned(s: Setup, xs: seq<Item>, start: nat, aout: nat) returns (plan: seq<Slot>)
    requires s == Plain(s.image) && |s.image| == 5120 && start + 2560 <= aout
    requires ShortItems(xs)
    ensures PlannedFor(s, xs, start, aout, plan) && Stacked(s, plan)
  {
    ShortPlan(s, xs, start, aout);
    plan := Plan(s, xs, 0, 0, start);
    SameBase(s, plan);
  }

  lemma NotBoth(s: Setup, plan: seq<Slot>, ps: seq<Program>)
    requires s == Plain(s.image) && |plan| == |ps| == 2 && plan[0].base == plan[1].base
    requires IsShort(ps[0]) && IsShort(ps[1])
    requires TextOf(ps[0]) + DataOf(ps[0]) != TextOf(ps[1]) + DataOf(ps[1])
    ensures NeverBoth(s, plan, ps)
  {
    var p, q := ps[0], ps[1];
    forall m | Booted(m, s, 1, plan[1], q) ensures !Booted(m, s, 0, plan[0], p) {
      if Booted(m, s, 0, plan[0], p) { OneOfThem(m, p, q, plan[0].base, Options(1024, true, true)); }
    }
  }

  lemma ShortOf(v: Byte) returns (p: Program)
    ensures IsShort(p) && TextOf(p) + DataOf(p) != [] && (TextOf(p) + DataOf(p))[0] == v
  {
    p := Short(v);
    ShortIs(v);
    ShortBody(v);
  }

  lemma TwoShorts() returns (ps: seq<Program>)
    ensures |ps| == 2 && IsShort(ps[0]) && IsShort(ps[1]) && AllWellFormed(ps) && |Image(ps)| == 5120
    ensures TextOf(ps[0]) + DataOf(ps[0]) != TextOf(ps[1]) + DataOf(ps[1])
    ensures ShortItems(Items(ps))
  {
    var p := ShortOf(1);
    var q := ShortOf(2);
    ps := [p, q];
    ShortImage(p, q);
  }

  /**
   * exec_image can load one program over another: the image of these two can be loaded, the second program
   * goes to the address of the first, wherever that is, and then the first is no longer in memory.
   */
  lemma LoadedOver(start: nat, aout: nat) returns (s: Setup, ps: seq<Program>, plan: seq<Slot>)
    requires start + 2560 <= aout
    ensures AllWellFormed(ps) && s.image == Image(ps) && PlannedFor(s, Items(ps), start, aout, plan)
    ensures Stacked(s, plan)
    ensures |ps| == 2 && NeverBoth(s, plan, ps)
  {
    ps := TwoShorts();
    s := Plain(Image(ps));
    plan := ShortPlanned(s, Items(ps), start, aout);
    NotBoth(s, plan, ps);
  }
}
