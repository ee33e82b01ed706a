/** exec_image, the whole image: every selected program in memory, one after the other. */
module ImageLoader {
  import opened Maybe
  import opened BootImage
  import opened Clicks
  import opened SegmentLoader
  import opened ProcessLoader
  import opened KernelMap

  const PROCESS_MAX: nat := 16
  const HEADERS: nat := 512             // PROCESS_MAX * A_MINHDR

  /** The monitor's side of a load: the image, its unreadable sectors, the label variable, whether
      the processor is a 386, what the kernel asked for, and the extended memory for K_HIGH. */
  datatype Setup = Setup(image: Bytes, bad: set<nat>, labelled: Option<Bytes>, cpu386: bool,
                         click: nat, chmem: bool, claim: bool, high: Option<(nat, nat)>)

  function OptionsOf(s: Setup, n: nat): Options { Options(s.click, s.chmem, n == 0 || !s.claim) }

  /** strchr(name, ':') as an index, or -1. */
  function Colon(name: Bytes): (i: int)
    ensures -1 <= i < |name|
  {
    if name == [] || name[0] == 0 then -1
    else if name[0] == 58 then 0
    else if Colon(name[1..]) < 0 then -1 else Colon(name[1..]) + 1
  }

  /** No label on the program, none asked for, or the same. */
  function Selected(name: Bytes, labelled: Option<Bytes>): bool {
    Colon(name) < 0 || labelled.None? || labelled.value == name[..Colon(name)]
  }

  lemma {:induction false} ColonAt(tag: Bytes, more: Bytes)
    requires forall i :: 0 <= i < |tag| ==> tag[i] != ':' as int && tag[i] != 0
    ensures Colon(tag + [':' as int] + more) == |tag|
  {
    var name := tag + [':' as int] + more;
    if tag != [] {
      ColonAt(tag[1..], more);
      assert name[1..] == tag[1..] + [':' as int] + more;
    }
  }

  lemma {:induction false} NoColon(name: Bytes)
    requires forall i :: 0 <= i < |name| && name[i] == ':' as int ==> exists j :: 0 <= j < i && name[j] == 0
    ensures Colon(name) < 0
  {
    if name != [] && name[0] != 0 {
      forall i | 0 <= i < |name| - 1 && name[1..][i] == ':' as int ensures exists j :: 0 <= j < i && name[1..][j] == 0 {
        var j :| 0 <= j < i + 1 && name[j] == 0;
        assert name[1..][j - 1] == 0;
      }
      NoColon(name[1..]);
    }
  }

  /** A program is for everyone, or for those with the label before its colon, or when no label is asked for. */
  lemma SelectedIs(tag: Bytes, more: Bytes, labelled: Option<Bytes>)
    requires forall i :: 0 <= i < |tag| ==> tag[i] != ':' as int && tag[i] != 0
    ensures Selected(tag + [':' as int] + more, labelled) <==> labelled == None || labelled == Some(tag)
    ensures Selected(tag + [0] + more, labelled) && Selected(tag, labelled)
  {
    ColonAt(tag, more);
    assert (tag + [':' as int] + more)[..|tag|] == tag;
    NoColon(tag);
    var name := tag + [0] + more;
    assert name[|tag|] == 0 && forall i :: 0 <= i < |tag| ==> name[i] == tag[i];
    NoColon(name);
  }

  /** One program of an image, as its header sector describes it. */
  datatype Item = Item(name: Bytes, header: Bytes, sizes: Sizes)

  predicate AllSane(xs: seq<Item>) { forall i :: 0 <= i < |xs| ==> Sane(xs[i].sizes) }

  /** From sector vsec on the image consists of the programs xs. */
  predicate Stored(image: Bytes, vsec: nat, xs: seq<Item>)
    decreases |xs|
  {
    if xs == [] then 512 * vsec == |image|
    else
      && 512 * vsec + 512 <= |image| && Sane(xs[0].sizes)
      && image[512 * vsec..512 * vsec + 64] == xs[0].name
      && image[512 * vsec + 64..512 * vsec + 112] == xs[0].header && SizesOf(xs[0].header) == xs[0].sizes
      && Stored(image, vsec + 1 + Skip(xs[0].sizes), xs[1..])
  }

  // ---------------------------------------------------------------- what a load does

  ghost function NextAddr(s: Setup, n: nat, z: Sizes, addr: nat): nat
    requires Sane(z) && s.click > 0
  {
    if n == 0 && s.high.Some? then s.high.value.0 else End(z, addr, OptionsOf(s, n))
  }

  function NextLimit(s: Setup, n: nat, limit: nat): nat {
    if n == 0 && s.high.Some? then s.high.value.1 else limit
  }

  /** An 8086 cannot run a 386 kernel. */
  predicate Runs(s: Setup, x: Item) { |x.header| > 3 && x.header[3] == 0x10 ==> s.cpu386 }

  /**
   * When the programs xs, from sector vsec on, are loaded as processes n, n+1, ... Reading has started
   * once a program with a wrong label was skipped: the image may not end there.
   */
  ghost predicate Loads(s: Setup, xs: seq<Item>, started: bool, vsec: nat, n: nat, addr: nat, limit: nat)
    requires AllSane(xs) && LegalClick(s.click)
    decreases |xs|
  {
    if xs == [] then !started && n > 0
    else
      var z := xs[0].sizes;
      && (started || n < PROCESS_MAX) && Readable(s.image, s.bad, vsec)
      && if !Selected(xs[0].name, s.labelled) then Loads(s, xs[1..], true, vsec + 1 + Skip(z), n, addr, limit)
         else
           && Runs(s, xs[0]) && Fits(s.image, s.bad, vsec + 1, z, addr, limit, OptionsOf(s, n))
           && Loads(s, xs[1..], false, vsec + 1 + Skip(z), n + 1, NextAddr(s, n, z, addr), NextLimit(s, n, limit))
  }

  /** The clicks set aside for a process cover what is loaded and cleared of it. */
  ghost predicate Roomy(z: Sizes, o: Options)
    requires Sane(z) && o.click > 0
  {
    Up(DataPart(z) + BssPart(z, o), o.click) <= Up(Reserve(z, o), o.click)
  }

  /** A process: its program, its first sector after the header, and its load address. */
  datatype Slot = Slot(item: Item, vsec: nat, base: nat)

  /** Which program goes where. */
  ghost function Plan(s: Setup, xs: seq<Item>, vsec: nat, n: nat, addr: nat): seq<Slot>
    requires AllSane(xs) && s.click > 0
    decreases |xs|
  {
    if xs == [] then []
    else if !Selected(xs[0].name, s.labelled) then Plan(s, xs[1..], vsec + 1 + Skip(xs[0].sizes), n, addr)
    else [Slot(xs[0], vsec + 1, addr)] +
         Plan(s, xs[1..], vsec + 1 + Skip(xs[0].sizes), n + 1, NextAddr(s, n, xs[0].sizes, addr))
  }

  /** a_cpu is A_I80386. */
  predicate For386(h: Bytes) { |h| > 3 && h[3] == 0x10 }

  /** An image that loads has at most PROCESS_MAX programs for us, none of them for a 386 if this is none. */
  lemma {:induction false} LoadsMeans(s: Setup, xs: seq<Item>, started: bool, vsec: nat, n: nat, addr: nat, limit: nat)
    requires AllSane(xs) && LegalClick(s.click) && Loads(s, xs, started, vsec, n, addr, limit)
    requires n <= PROCESS_MAX && (started ==> n < PROCESS_MAX)
    ensures n + |Plan(s, xs, vsec, n, addr)| <= PROCESS_MAX && n + |Plan(s, xs, vsec, n, addr)| > 0
    ensures forall i :: 0 <= i < |xs| && Selected(xs[i].name, s.labelled) && For386(xs[i].header) ==> s.cpu386
    decreases |xs|
  {
    if xs != [] {
      var next := vsec + 1 + Skip(xs[0].sizes);
      assert forall i :: 0 < i < |xs| ==> xs[i] == xs[1..][i - 1];
      if Selected(xs[0].name, s.labelled) {
        LoadsMeans(s, xs[1..], false, next, n + 1, NextAddr(s, n, xs[0].sizes, addr), NextLimit(s, n, limit));
      } else {
        LoadsMeans(s, xs[1..], true, next, n, addr, limit);
      }
    }
  }

  // ---------------------------------------------------------------- the loops

  lemma SkipStep(s: Setup, xs: seq<Item>, rest: seq<Item>, started: bool, vsec: nat, next: nat, n: nat, addr: nat,
                 limit: nat)
    requires AllSane(xs) && LegalClick(s.click) && xs != [] && (started || n < PROCESS_MAX) &&
             Stored(s.image, vsec, xs)
    requires Readable(s.image, s.bad, vsec) && !Selected(xs[0].name, s.labelled)
    requires rest == xs[1..] && next == vsec + 1 + Skip(xs[0].sizes)
    ensures AllSane(rest) && Stored(s.image, next, rest)
    ensures Plan(s, xs, vsec, n, addr) == Plan(s, rest, next, n, addr)
    ensures Loads(s, xs, started, vsec, n, addr, limit) == Loads(s, rest, true, next, n, addr, limit)
  {
  }

  /** Read headers until one has the right label. */
  method NextHeader(s: Setup, vsec0: nat, ghost xs: seq<Item>, ghost n: nat, ghost addr: nat, ghost limit: nat)
    returns (ok: bool, vsec: nat, h: Bytes, ghost todo: seq<Item>, ghost started: bool)
    requires LegalClick(s.click) && AllSane(xs) && xs != [] && n < PROCESS_MAX && Stored(s.image, vsec0, xs)
    ensures !ok ==> !Loads(s, xs, false, vsec0, n, addr, limit)
    ensures ok ==> 0 < |todo| <= |xs| && AllSane(todo) && h == todo[0].header
    ensures ok ==> Stored(s.image, vsec, todo) && Readable(s.image, s.bad, vsec) && Selected(todo[0].name, s.labelled)
    ensures ok ==> Plan(s, xs, vsec0, n, addr) == Plan(s, todo, vsec, n, addr)
    ensures ok ==> Loads(s, xs, false, vsec0, n, addr, limit) == Loads(s, todo, started, vsec, n, addr, limit)
  {
    vsec, todo, ok, started := vsec0, xs, true, false;
    h := [];
    while true
      invariant |todo| <= |xs| && AllSane(todo) && (todo == [] ==> started) && Stored(s.image, vsec, todo)
      invariant Plan(s, xs, vsec0, n, addr) == Plan(s, todo, vsec, n, addr)
      invariant Loads(s, xs, false, vsec0, n, addr, limit) == Loads(s, todo, started, vsec, n, addr, limit)
      decreases |todo|
    {
      if !Readable(s.image, s.bad, vsec) { ok := false; return; }
      h := s.image[512 * vsec + 64..512 * vsec + 112];
      if Selected(s.image[512 * vsec..512 * vsec + 64], s.labelled) { return; }
      var next := vsec + 1 + Skip(SizesOf(h));
      SkipStep(s, todo, todo[1..], started, vsec, next, n, addr, limit);
      vsec, todo, started := next, todo[1..], true;
    }
  }

  // ---------------------------------------------------------------- who is in memory

  /** Where the segments of process i end, its stack not counted. */
  ghost function EndOf(s: Setup, i: nat, x: Slot): nat
    requires Sane(x.item.sizes) && s.click > 0
  {
    BssEnd(x.item.sizes, x.base, OptionsOf(s, i))
  }

  /** What is noted of process i: its header, saved for the kernel, and where its segments went. */
  ghost predicate Noted(m: Bytes, s: Setup, i: nat, x: Slot, p: Process, aout: nat)
    requires s.click > 0
  {
    && Sane(x.item.sizes) && Multiple(x.base, s.click) && x.base <= LIMIT_MAX
    && |x.item.header| >= A_MINHDR && aout + 32 * i + 32 <= |m|
    && p == Laying(x.item.sizes, x.base, OptionsOf(s, i))
    && m[aout + 32 * i..aout + 32 * i + 32] == Saved(x.item.header, x.base)
  }

  /** Process i is in memory where the plan puts it. */
  ghost predicate Resident(m: Bytes, s: Setup, i: nat, x: Slot)
    requires s.click > 0
  {
    Sane(x.item.sizes) && Placed(m, s.image, x.vsec, x.item.sizes, x.base, OptionsOf(s, i))
  }

  ghost predicate Occupies(s: Setup, i: nat, x: Slot, k: int)
    requires Sane(x.item.sizes) && s.click > 0
  {
    x.base <= k < EndOf(s, i, x)
  }

  /** The segments of processes i and j have no byte in common. */
  ghost predicate Clear(s: Setup, i: nat, x: Slot, j: nat, y: Slot)
    requires s.click > 0
  {
    && Sane(x.item.sizes) && Sane(y.item.sizes)
    && forall k :: Occupies(s, i, x, k) ==> !Occupies(s, j, y, k)
  }

  /** No later process is loaded over process i. */
  ghost predicate LeftAlone(s: Setup, plan: seq<Slot>, i: nat)
    requires s.click > 0 && i < |plan|
  {
    forall j :: i < j < |plan| ==> Clear(s, i, plan[i], j, plan[j])
  }

  /** The headers are elsewhere. */
  ghost predicate OffHeaders(s: Setup, i: nat, x: Slot, aout: nat)
    requires s.click > 0
  {
    Sane(x.item.sizes) && (EndOf(s, i, x) <= aout || aout + HEADERS <= x.base)
  }

  ghost predicate AllLoaded(m: Bytes, s: Setup, done: seq<Slot>, procs: seq<Process>, aout: nat)
    requires s.click > 0
  {
    && |done| == |procs| <= PROCESS_MAX
    && (forall i :: 0 <= i < |done| ==> Noted(m, s, i, done[i], procs[i], aout) && OffHeaders(s, i, done[i], aout))
    && (forall i :: 0 <= i < |done| && LeftAlone(s, done, i) ==> Resident(m, s, i, done[i]))
  }

  /** Every process of the plan is noted, and in memory unless a later one is loaded over it. */
  ghost predicate LaidOut(m: Bytes, s: Setup, plan: seq<Slot>, procs: seq<Process>, aout: nat)
    requires s.click > 0
  {
    && |plan| == |procs|
    && forall i :: 0 <= i < |plan| ==>
           Noted(m, s, i, plan[i], procs[i], aout) && (LeftAlone(s, plan, i) ==> Resident(m, s, i, plan[i]))
  }

  lemma NotedFrame(m: Bytes, m': Bytes, s: Setup, i: nat, x: Slot, p: Process, aout: nat)
    requires s.click > 0 && |m| == |m'| && Noted(m, s, i, x, p, aout)
    requires forall j :: aout + 32 * i <= j < aout + 32 * i + 32 ==> m'[j] == m[j]
    ensures Noted(m', s, i, x, p, aout)
  {
    assert m'[aout + 32 * i..aout + 32 * i + 32] == m[aout + 32 * i..aout + 32 * i + 32];
  }

  lemma ResidentFrame(m: Bytes, m': Bytes, s: Setup, i: nat, x: Slot)
    requires s.click > 0 && |m| == |m'| && Resident(m, s, i, x)
    requires forall j :: 0 <= j < |m| && Occupies(s, i, x, j) ==> m'[j] == m[j]
    ensures Resident(m', s, i, x)
  {
    var z, o := x.item.sizes, OptionsOf(s, i);
    var d, end := DataAddr(z, x.base, s.click), BssEnd(z, x.base, o);
    if z.sep { HoldsFrame(m, m', x.base, s.image, 512 * x.vsec, Loaded(z), d, s.click); }
    HoldsFrame(m, m', d, s.image, 512 * DataSector(z, x.vsec), DataPart(z), end, s.click);
  }

  lemma LeftAlonePush(s: Setup, done: seq<Slot>, y: Slot, i: nat)
    requires s.click > 0 && i < |done| && LeftAlone(s, done + [y], i)
    ensures LeftAlone(s, done, i) && Clear(s, i, done[i], |done|, y)
  {
    var done' := done + [y];
    assert forall j :: i < j < |done| ==> done'[j] == done[j] && Clear(s, i, done'[i], j, done'[j]);
    assert done'[|done|] == y && Clear(s, i, done'[i], |done|, done'[|done|]);
  }

  /** What loading the next process y and saving its header changes. */
  ghost predicate OnlyNext(m: Bytes, m': Bytes, s: Setup, n: nat, y: Slot, aout: nat)
    requires s.click > 0
  {
    && |m| == |m'| && Sane(y.item.sizes)
    && forall j :: 0 <= j < |m| && !Occupies(s, n, y, j) && !(aout + 32 * n <= j < aout + 32 * n + 32) ==>
           m'[j] == m[j]
  }

  /** One more process: the earlier ones are still noted, and those it is not loaded over are still in memory. */
  lemma AllPush(m: Bytes, m': Bytes, s: Setup, done: seq<Slot>, procs: seq<Process>, y: Slot, p: Process, aout: nat)
    requires s.click > 0 && AllLoaded(m, s, done, procs, aout) && |done| < PROCESS_MAX
    requires OnlyNext(m, m', s, |done|, y, aout) && OffHeaders(s, |done|, y, aout)
    requires Noted(m', s, |done|, y, p, aout) && Resident(m', s, |done|, y)
    ensures AllLoaded(m', s, done + [y], procs + [p], aout)
  {
    var done', procs' := done + [y], procs + [p];
    forall i | 0 <= i < |done'| ensures Noted(m', s, i, done'[i], procs'[i], aout) && OffHeaders(s, i, done'[i], aout) {
      if i < |done| {
        assert Noted(m, s, i, done[i], procs[i], aout) && OffHeaders(s, i, done[i], aout);
        NotedFrame(m, m', s, i, done[i], procs[i], aout);
      }
    }
    forall i | 0 <= i < |done'| && LeftAlone(s, done', i) ensures Resident(m', s, i, done'[i]) {
      if i < |done| {
        LeftAlonePush(s, done, y, i);
        assert Noted(m, s, i, done[i], procs[i], aout) && OffHeaders(s, i, done[i], aout);
        ResidentFrame(m, m', s, i, done[i]);
      }
    }
  }

  lemma UpMono(a: nat, b: nat, click: nat)
    requires click > 0 && a <= b
    ensures Up(a, click) <= Up(b, click)
  {
    UpTelescopes(a, b - a, click);
  }

  /** The next process starts on a click, not below this one. */
  lemma EndBounds(z: Sizes, addr: nat, o: Options, limit: nat)
    requires Sane(z) && LegalClick(o.click) && Multiple(addr, o.click)
    requires BssEnd(z, addr, o) <= limit <= LIMIT_MAX
    ensures addr <= BssEnd(z, addr, o) && addr <= End(z, addr, o) <= ADDR_MAX && Multiple(End(z, addr, o), o.click)
  {
    if z.sep { MultipleAdd(addr, Up(Loaded(z), o.click), o.click); }
    MultipleAdd(DataAddr(z, addr, o.click), Up(Reserve(z, o), o.click), o.click);
  }

  /** Save the header of process n and load its segments. */
  method LoadOne(mem: array<Byte>, s: Setup, vsec0: nat, h: Bytes, n: nat, addr: nat, limit: nat, aout: nat,
                 ghost x: Item, ghost done: seq<Slot>, ghost procs: seq<Process>)
    returns (ok: bool, vsec: nat, p: Process)
    requires LegalClick(s.click) && |h| >= A_MINHDR && h == x.header && SizesOf(h) == x.sizes && Sane(x.sizes)
    requires n == |done| < PROCESS_MAX && 512 * vsec0 <= |s.image|
    requires aout + HEADERS <= mem.Length && (limit <= aout || aout + HEADERS <= addr)
    requires limit <= mem.Length && limit <= LIMIT_MAX && addr <= ADDR_MAX && Multiple(addr, s.click)
    requires AllLoaded(mem[..], s, done, procs, aout)
    modifies mem
    ensures ok <==> Fits(s.image, s.bad, vsec0, x.sizes, addr, limit, OptionsOf(s, n))
    ensures ok ==> vsec == vsec0 + Skip(x.sizes) && p.end == End(x.sizes, addr, OptionsOf(s, n))
    ensures ok ==> p.end <= ADDR_MAX && Multiple(p.end, s.click) && addr <= p.end
    ensures ok ==> BssEnd(x.sizes, addr, OptionsOf(s, n)) <= limit
    ensures ok ==> AllLoaded(mem[..], s, done + [Slot(x, vsec0, addr)], procs + [p], aout)
  {
    ghost var m0, z, o, y := mem[..], x.sizes, OptionsOf(s, n), Slot(x, vsec0, addr);
    CopyIn(mem, aout + 32 * n, Saved(h, addr));
    ghost var m1 := mem[..];
    assert m1[aout + 32 * n..aout + 32 * n + 32] == Saved(h, addr);
    ok, vsec, p := LoadProcess(mem, s.image, s.bad, vsec0, SizesOf(h), addr, limit, OptionsOf(s, n));
    if ok {
      ghost var m2 := mem[..];
      EndBounds(z, addr, o, limit);
      assert m2[aout + 32 * n..aout + 32 * n + 32] == m1[aout + 32 * n..aout + 32 * n + 32];
      AllPush(m0, m2, s, done, procs, y, p, aout);
    }
  }

  /** Where things stand before process n is read: cur is where it will go. */
  ghost predicate Standing(m: Bytes, s: Setup, done: seq<Slot>, procs: seq<Process>, cur: nat, limit: nat, aout: nat)
    requires s.click > 0
  {
    && AllLoaded(m, s, done, procs, aout)
    && cur <= ADDR_MAX && Multiple(cur, s.click) && limit <= |m| && limit <= LIMIT_MAX
    && (limit <= aout || aout + HEADERS <= cur) && (done == [] ==> limit == aout)
  }

  /** What is left of the image. */
  predicate Left(s: Setup, vsec: nat, todo: seq<Item>) { AllSane(todo) && Stored(s.image, vsec, todo) }

  /** Extended memory for everything but the kernel starts on a click, above the saved headers. */
  ghost predicate HighOk(s: Setup, aout: nat, top: nat) {
    s.high.Some? ==>
      && Multiple(s.high.value.0, s.click) && aout + HEADERS <= s.high.value.0 <= ADDR_MAX
      && s.high.value.1 <= top && s.high.value.1 <= LIMIT_MAX
  }

  /** K_HIGH: everything but the kernel goes to extended memory. */
  lemma Onward(m: Bytes, s: Setup, done: seq<Slot>, procs: seq<Process>, end: nat, limit: nat, addr': nat,
               limit': nat, aout: nat)
    requires s.click > 0 && Standing(m, s, done, procs, end, limit, aout) && HighOk(s, aout, |m|) && |done| > 0
    requires limit' == NextLimit(s, |done| - 1, limit)
    requires addr' == if |done| == 1 && s.high.Some? then s.high.value.0 else end
    ensures Standing(m, s, done, procs, addr', limit', aout)
  {
  }

  lemma FirstLeft(s: Setup, vsec: nat, xs: seq<Item>, x: Item)
    requires xs != [] && Left(s, vsec, xs) && x == xs[0]
    ensures Sane(x.sizes) && 512 * (vsec + 1) <= |s.image|
    ensures |x.header| == EXEC_SIZE && SizesOf(x.header) == x.sizes
  {
  }

  lemma LeftAfter(s: Setup, vsec: nat, next: nat, xs: seq<Item>, rest: seq<Item>)
    requires xs != [] && rest == xs[1..] && Left(s, vsec, xs) && next == vsec + 1 + Skip(xs[0].sizes)
    ensures Left(s, next, rest)
  {
  }

  lemma Shift<T>(a: seq<T>, x: T, b: seq<T>)
    ensures a + ([x] + b) == a + [x] + b
  {
  }

  /** Load the program whose header is h as the next process. */
  method LoadNext(mem: array<Byte>, s: Setup, vsec0: nat, h: Bytes, addr0: nat, limit0: nat, aout: nat,
                  procs0: seq<Process>,
                  ghost x: Item, ghost done0: seq<Slot>)
    returns (ok: bool, vsec: nat, addr: nat, limit: nat, procs: seq<Process>, ghost done: seq<Slot>)
    requires LegalClick(s.click) && aout + HEADERS <= mem.Length && HighOk(s, aout, mem.Length)
    requires Sane(x.sizes) && 512 * vsec0 <= |s.image| && |procs0| < PROCESS_MAX
    requires |h| >= A_MINHDR && h == x.header && SizesOf(h) == x.sizes
    requires Standing(mem[..], s, done0, procs0, addr0, limit0, aout)
    modifies mem
    ensures ok <==> Fits(s.image, s.bad, vsec0, x.sizes, addr0, limit0, OptionsOf(s, |done0|))
    ensures ok ==> vsec == vsec0 + Skip(x.sizes) && addr == NextAddr(s, |done0|, x.sizes, addr0)
    ensures ok ==> limit == NextLimit(s, |done0|, limit0) && done == done0 + [Slot(x, vsec0, addr0)]
    ensures ok ==> Standing(mem[..], s, done, procs, addr, limit, aout)
  {
    var n, p := |procs0|, Process(0, 0, 0, 0);
    addr, limit, procs, done := addr0, limit0, procs0, done0;
    ok, vsec, p := LoadOne(mem, s, vsec0, h, n, addr, limit, aout, x, done, procs);
    if !ok { return; }
    done, procs, addr := done + [Slot(x, vsec0, addr)], procs + [p], p.end;
    if n == 0 && s.high.Some? { addr, limit := s.high.value.0, s.high.value.1; }
    Onward(mem[..], s, done, procs, p.end, limit0, addr, limit, aout);
  }

  /** How far the load has come: the next sector, the processes there are, where the next one goes, and its limit. */
  datatype Place = Place(vsec: nat, done: seq<Slot>, addr: nat, limit: nat)

  /** One program further, if the processor can run it and it fits. */
  ghost function After(s: Setup, x: Item, at: Place): Option<Place>
    requires Sane(x.sizes) && LegalClick(s.click)
  {
    var n := |at.done|;
    if Runs(s, x) && Fits(s.image, s.bad, at.vsec + 1, x.sizes, at.addr, at.limit, OptionsOf(s, n)) then
      Some(Place(at.vsec + 1 + Skip(x.sizes), at.done + [Slot(x, at.vsec + 1, at.addr)],
                 NextAddr(s, n, x.sizes, at.addr), NextLimit(s, n, at.limit)))
    else None
  }

  /** What is left of the plan, and whether it will work out. */
  ghost predicate Pending(s: Setup, plan: seq<Slot>, wanted: bool, todo: seq<Item>, started: bool, at: Place)
    requires AllSane(todo) && LegalClick(s.click)
  {
    && plan == at.done + Plan(s, todo, at.vsec, |at.done|, at.addr)
    && wanted == Loads(s, todo, started, at.vsec, |at.done|, at.addr, at.limit)
  }

  lemma TakeStep(s: Setup, xs: seq<Item>, rest: seq<Item>, started: bool, at: Place, next: Place)
    requires AllSane(xs) && LegalClick(s.click) && xs != [] && rest == xs[1..] && |at.done| < PROCESS_MAX
    requires Readable(s.image, s.bad, at.vsec) && Selected(xs[0].name, s.labelled)
    requires After(s, xs[0], at) == Some(next)
    ensures AllSane(rest)
    ensures at.done + Plan(s, xs, at.vsec, |at.done|, at.addr) ==
            next.done + Plan(s, rest, next.vsec, |next.done|, next.addr)
    ensures Loads(s, xs, started, at.vsec, |at.done|, at.addr, at.limit) ==
            Loads(s, rest, false, next.vsec, |next.done|, next.addr, next.limit)
  {
    Shift(at.done, Slot(xs[0], at.vsec + 1, at.addr), Plan(s, rest, next.vsec, |next.done|, next.addr));
  }

  /** What a program that was loaded or refused means for the plan. */
  lemma PendingAfter(s: Setup, plan: seq<Slot>, wanted: bool, xs: seq<Item>, rest: seq<Item>, started: bool,
                     at: Place, next: Option<Place>)
    requires LegalClick(s.click) && xs != [] && rest == xs[1..] && Left(s, at.vsec, xs) && |at.done| < PROCESS_MAX
    requires Readable(s.image, s.bad, at.vsec) && Selected(xs[0].name, s.labelled)
    requires next == After(s, xs[0], at) && Pending(s, plan, wanted, xs, started, at)
    ensures next.None? ==> !wanted
    ensures next.Some? ==>
            Left(s, next.value.vsec, rest) && Pending(s, plan, wanted, rest, false, next.value)
  {
    if next.Some? {
      LeftAfter(s, at.vsec, next.value.vsec, xs, rest);
      TakeStep(s, xs, rest, started, at, next.value);
    }
  }

  /** Load the program whose header, at sector vsec0, is h, if the processor can run it. */
  method LoadChecked(mem: array<Byte>, s: Setup, vsec0: nat, h: Bytes, addr0: nat, limit0: nat, aout: nat,
                     procs0: seq<Process>,
                     ghost x: Item, ghost done0: seq<Slot>)
    returns (ok: bool, vsec: nat, addr: nat, limit: nat, procs: seq<Process>, ghost done: seq<Slot>)
    requires LegalClick(s.click) && aout + HEADERS <= mem.Length && HighOk(s, aout, mem.Length)
    requires Sane(x.sizes) && 512 * (vsec0 + 1) <= |s.image| && |procs0| < PROCESS_MAX
    requires |h| >= A_MINHDR && h == x.header && SizesOf(h) == x.sizes
    requires Standing(mem[..], s, done0, procs0, addr0, limit0, aout)
    modifies mem
    ensures After(s, x, Place(vsec0, done0, addr0, limit0)) ==
            if ok then Some(Place(vsec, done, addr, limit)) else None
    ensures ok ==> Standing(mem[..], s, done, procs, addr, limit, aout)
    ensures ok ==> done != []
  {
    vsec, addr, limit, procs, done := vsec0, addr0, limit0, procs0, done0;
    ok := h[3] == 0x10 ==> s.cpu386;
    if ok {
      ok, vsec, addr, limit, procs, done := LoadNext(mem, s, vsec0 + 1, h, addr0, limit0, aout, procs0, x, done0);
    }
  }

  /** One turn of the load loop, from the header on. */
  method LoadTurn(mem: array<Byte>, s: Setup, vsec0: nat, h: Bytes, addr0: nat, limit0: nat, aout: nat,
                  procs0: seq<Process>,
                  ghost xs: seq<Item>, ghost rest: seq<Item>, ghost started: bool, ghost done0: seq<Slot>,
                  ghost plan: seq<Slot>, ghost wanted: bool)
    returns (ok: bool, vsec: nat, addr: nat, limit: nat, procs: seq<Process>, ghost done: seq<Slot>)
    requires LegalClick(s.click) && aout + HEADERS <= mem.Length && HighOk(s, aout, mem.Length)
    requires xs != [] && h == xs[0].header && |procs0| < PROCESS_MAX && rest == xs[1..]
    requires Standing(mem[..], s, done0, procs0, addr0, limit0, aout) && Left(s, vsec0, xs)
    requires Readable(s.image, s.bad, vsec0) && Selected(xs[0].name, s.labelled)
    requires Pending(s, plan, wanted, xs, started, Place(vsec0, done0, addr0, limit0))
    modifies mem
    ensures !ok ==> !wanted
    ensures ok ==> Left(s, vsec, rest)
    ensures ok ==> Pending(s, plan, wanted, rest, false, Place(vsec, done, addr, limit))
    ensures ok ==> Standing(mem[..], s, done, procs, addr, limit, aout)
    ensures ok ==> done != []
  {
    ghost var x := xs[0];
    FirstLeft(s, vsec0, xs, x);
    ok, vsec, addr, limit, procs, done := LoadChecked(mem, s, vsec0, h, addr0, limit0, aout, procs0, x, done0);
    PendingAfter(s, plan, wanted, xs, rest, started, Place(vsec0, done0, addr0, limit0),
                 if ok then Some(Place(vsec, done, addr, limit)) else None);
  }

  /** At the end of the image the plan is carried out. */
  lemma AllDone(m: Bytes, s: Setup, plan: seq<Slot>, wanted: bool, todo: seq<Item>, at: Place, procs: seq<Process>,
                aout: nat)
    requires LegalClick(s.click) && Left(s, at.vsec, todo) && 512 * at.vsec >= |s.image|
    requires Pending(s, plan, wanted, todo, false, at) && Standing(m, s, at.done, procs, at.addr, at.limit, aout)
    ensures wanted <==> procs != []
    ensures LaidOut(m, s, plan, procs, aout)
  {
    assert todo == [];
    assert plan == at.done;
  }

  /**
   * The load loop of exec_image: it succeeds exactly when Loads says so, and then every process of the
   * plan has its header saved for the kernel and is in memory, unless a later one was loaded over it.
   */
  method LoadImage(mem: array<Byte>, s: Setup, base: nat, aout: nat, ghost xs: seq<Item>)
    returns (ok: bool, procs: seq<Process>)
    requires LegalClick(s.click) && AllSane(xs) && Stored(s.image, 0, xs)
    requires aout + HEADERS <= mem.Length && aout <= LIMIT_MAX && base + s.click <= ADDR_MAX &&
             HighOk(s, aout, mem.Length)
    modifies mem
    ensures ok <==> Loads(s, xs, false, 0, 0, Up(base, s.click), aout)
    ensures ok ==> LaidOut(mem[..], s, Plan(s, xs, 0, 0, Up(base, s.click)), procs, aout)
  {
    RawClear(mem, aout, HEADERS);
    var vsec: nat, addr: nat, limit: nat := 0, base, aout;
    procs := [];
    ghost var todo, start: nat := xs, Up(base, s.click);
    ghost var done: seq<Slot>, cur: nat := [], start;
    ghost var plan, wanted := Plan(s, xs, 0, 0, start), Loads(s, xs, false, 0, 0, start, aout);
    while 512 * vsec < |s.image|
      invariant cur == (if procs == [] then start else addr) && (procs == [] ==> addr == base)
      invariant Standing(mem[..], s, done, procs, cur, limit, aout) && Left(s, vsec, todo)
      invariant Pending(s, plan, wanted, todo, false, Place(vsec, done, cur, limit))
      decreases |todo|
    {
      if |procs| == PROCESS_MAX { ok := false; return; }
      var h; ghost var at, started;
      ok, vsec, h, at, started := NextHeader(s, vsec, todo, |procs|, cur, limit);
      if !ok { return; }
      if procs == [] { Align32IsUp(base, s.click); addr := Align32(addr, s.click); }
      todo := at[1..];
      ok, vsec, addr, limit, procs, done :=
        LoadTurn(mem, s, vsec, h, addr, limit, aout, procs, at, todo, started, done, plan, wanted);
      if !ok { return; }
      cur := addr;
    }
    ok := procs != [];
    AllDone(mem[..], s, plan, wanted, todo, Place(vsec, done, cur, limit), procs, aout);
  }
}
