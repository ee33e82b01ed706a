/** What the invariant means: the promises of message passing, notification and scheduling. */
module KernelTheorems {
  import opened KernelTypes
  import opened Lists
  import opened WaitGraph
  import opened Rendezvous
  import opened KernelMachine
  import opened KernelSafety
  import opened KernelRuns
  import Q = ReadyQueues

  // ---------------------------------------------------------------- deadlock

  /** In a running kernel a send that does not return ELOCKED never completes a cycle of senders,
      and one that does would have. */
  lemma ElockedIffDeadlock(c: Config, st: State, dst: Pid, ptr: Addr, nb: bool)
    requires Inv(c, st) && dst != st.sched.current
    ensures MiniSend(c, st, st.sched.current, dst, ptr, nb).1 == ELOCKED <==>
            !Acyclic(WaitsFor(Block(st.ipc, st.sched.current, dst, ptr)))
  {
    var caller := st.sched.current;
    LockedIffCycle(WaitsFor(st.ipc), caller, dst);
    assert WaitsFor(Block(st.ipc, caller, dst, ptr)) == WaitsFor(st.ipc)[caller := To(dst)];
  }

  /** The deadlock check covers everything but a process sending to itself:
      a blocking send keeps the senders acyclic iff the destination is another process. */
  lemma BlockingSendAcyclicIff(c: Config, st: State, dst: Pid, ptr: Addr)
    requires Inv(c, st)
    ensures Acyclic(WaitsFor(MiniSend(c, st, st.sched.current, dst, ptr, false).0.ipc)) <==> dst != st.sched.current
  {
    var caller := st.sched.current;
    var g := WaitsFor(st.ipc);
    var n := MiniSend(c, st, caller, dst, ptr, false).0.ipc;
    GroundedIsAcyclic(g);
    if dst == caller {
      SelfSendCycle(g, caller);
      assert WaitsFor(n) == g[caller := To(dst)];
    } else if !Locked(g, caller, dst) {
      if IsWaiting(st.ipc, dst) && Accepts(st.ipc.getFrom[dst], caller) {
        assert WaitsFor(n) == g;
      } else {
        LockedIffCycle(g, caller, dst);
        assert WaitsFor(n) == g[caller := To(dst)];
      }
    }
  }

  // ---------------------------------------------------------------- who may call what

  /** The pointer check: no byte of the message is outside data, gap and stack. */
  lemma PtrOkIff(s: SlotSpec, ptr: Addr)
    requires ptr + MESS_SIZE <= 0x1_0000_0000
    ensures PtrOk(s, ptr) <==>
            forall a :: ptr <= a < ptr + MESS_SIZE ==> s.dataVir <= a / CLICK_SIZE < s.stackVir + s.stackLen
  {
    var last := ptr + MESS_SIZE - 1;
    if PtrOk(s, ptr) {
      forall a | ptr <= a < ptr + MESS_SIZE
        ensures s.dataVir <= a / CLICK_SIZE < s.stackVir + s.stackLen
      {
        assert ptr / CLICK_SIZE <= a / CLICK_SIZE <= last / CLICK_SIZE;
      }
    }
  }

  /** The calls that name a process to send to or to notify. */
  predicate HasDst(fn: nat) { fn == SEND || fn == SENDREC || fn == NOTIFY }

  /** The caller may make the call, its message is its own, and the destination exists, is alive and may be reached. */
  ghost predicate Permitted(c: Config, st: State, fn: nat, t: Target, ptr: Addr)
    requires Ready(c, st)
  {
    var p := st.sched.current;
    && fn in c.Priv(p).trapMask
    && (t.AnyProc? || fn == ECHO || 0 <= t.nr + NR_TASKS < NR_SLOTS)
    && (t.Proc? && t.nr < 0 ==> fn == SENDREC || fn == RECEIVE)
    && (fn != NOTIFY ==> PtrOk(c.slots[p], ptr))
    && (HasDst(fn) ==> IsOkProc(t) && c.slots[Slot(t)].priv in c.Priv(p).ipcTo && st.ipc.flags[Slot(t)] != {SlotFree})
  }

  /** sys_call carries out what is permitted, and for anything else changes nothing and says so. */
  lemma CarriedOutIff(c: Config, st: State, fn: nat, nb: bool, t: Target, ptr: Addr)
    requires Ready(c, st) && Defined(c, st.sched.current, fn, t, ptr)
    requires fn == SEND || fn == RECEIVE || fn == SENDREC || fn == NOTIFY || fn == ECHO
    ensures Screen(c, st, fn, t, ptr) == OK <==> Permitted(c, st, fn, t, ptr)
    ensures !Permitted(c, st, fn, t, ptr) ==>
            && SysCall(c, st, fn, nb, t, ptr).0 == st
            && SysCall(c, st, fn, nb, t, ptr).1 in {ECALLDENIED, EBADSRCDST, EFAULT, EDEADDST}
  {
  }

  // ---------------------------------------------------------------- exactly-once delivery

  function Senders(m: Ipc): set<nat>
    requires |m.flags| == NR_SLOTS
  {
    set p: nat | p < NR_SLOTS && Sending in m.flags[p]
  }

  function Below(n: nat): (s: set<nat>)
    ensures |s| == n && forall t: nat :: t in s <==> t < n
  {
    if n == 0 then {} else Below(n - 1) + {n - 1}
  }

  lemma {:induction false} TicketCount(ds: seq<Delivery>)
    requires forall i, j :: 0 <= i < j < |ds| ==> ds[i].ticket != ds[j].ticket
    ensures |Tickets(ds)| == |ds|
  {
    if ds != [] {
      var rest, d := ds[..|ds| - 1], ds[|ds| - 1];
      TicketCount(rest);
      assert ds == rest + [d];
      assert Tickets(ds) == Tickets(rest) + {d.ticket};
      assert d.ticket !in Tickets(rest);
    }
  }

  ghost function TicketsOf(m: Ipc, ps: set<nat>): set<nat>
    requires |m.log.ticket| == NR_SLOTS && forall p :: p in ps ==> p < NR_SLOTS
  {
    set p | p in ps :: m.log.ticket[p]
  }

  lemma {:induction false} TicketsOfSize(m: Ipc, ps: set<nat>)
    requires |m.log.ticket| == NR_SLOTS && forall p :: p in ps ==> p < NR_SLOTS
    requires forall p, q :: p in ps && q in ps && p != q ==> m.log.ticket[p] != m.log.ticket[q]
    ensures |TicketsOf(m, ps)| == |ps|
    decreases ps
  {
    if p :| p in ps {
      var rest := ps - {p};
      TicketsOfSize(m, rest);
      assert TicketsOf(m, ps) == TicketsOf(m, rest) + {m.log.ticket[p]};
      assert m.log.ticket[p] !in TicketsOf(m, rest);
    } else {
      assert ps == {} && TicketsOf(m, ps) == {};
    }
  }

  /** Accepted sends = deliveries + blocked senders. */
  lemma Conservation(m: Ipc)
    requires MessagesOk(m)
    ensures |m.log.sent| == |m.log.delivered| + |Senders(m)|
  {
    var h := m.log;
    var d, w := Tickets(h.delivered), TicketsOf(m, Senders(m));
    TicketCount(h.delivered);
    forall p, q | p in Senders(m) && q in Senders(m) && p != q
      ensures h.ticket[p] != h.ticket[q]
    {
      assert IsSending(m, p) && IsSending(m, q);
    }
    TicketsOfSize(m, Senders(m));
    forall t: nat | t < |h.sent|
      ensures t in d + w && !(t in d && t in w)
    {
      if t in w {
        var p :| p in Senders(m) && h.ticket[p] == t;
        assert IsSending(m, p);
        assert Queued(m, t);
      }
      if Queued(m, t) { assert h.sent[t].src in Senders(m); }
    }
    forall t | t in d + w
      ensures t < |h.sent|
    {
      if t in d {
        var i :| 0 <= i < |h.delivered| && h.delivered[i].ticket == t;
        assert Matches(h, h.delivered[i]);
      } else {
        var p :| p in Senders(m) && h.ticket[p] == t;
        assert IsSending(m, p);
      }
    }
    assert d + w == Below(|h.sent|);
    assert d !! w;
  }

  // ---------------------------------------------------------------- notifications

  /** A receive from one source finds a pending notification from it iff that one is the lowest of its chunk. */
  lemma {:induction false} FindNoticeFrom(c: Config, ids: set<SysId>, p: Pid, k: nat)
    requires c.Shape() && k <= NR_SYS_CHUNKS
    ensures FindNotice(c, ids, From(p), k).FoundId? <==>
            exists i: SysId :: k <= i / BITCHUNK_BITS && i in ids && c.privs[i].procNr == p && LowestOfChunk(ids, i)
    decreases NR_SYS_CHUNKS - k
  {
    if k < NR_SYS_CHUNKS {
      var lo, end := k * BITCHUNK_BITS, (k + 1) * BITCHUNK_BITS;
      var low := LowestIn(ids, lo, end);
      FindNoticeFrom(c, ids, p, k + 1);
      if low < end && c.privs[low].procNr == p {
        assert LowestOfChunk(ids, low);
      } else {
        forall i: SysId | i / BITCHUNK_BITS == k && i in ids && LowestOfChunk(ids, i)
          ensures i == low
        {
        }
      }
    }
  }

  ghost predicate LowestOfChunk(ids: set<SysId>, i: SysId) {
    forall j: SysId :: j in ids && j / BITCHUNK_BITS == i / BITCHUNK_BITS ==> i <= j
  }

  /** A blocking receive blocks when neither a notification nor a queued message is found. */
  lemma ReceiveBlocks(c: Config, st: State, caller: Pid, src: Peer, ptr: Addr)
    requires KernelOk(c, st) && st.ipc.flags[caller] == {} && !PrivOf(c, st.ipc, caller).busy
    ensures Receiving in MiniReceive(c, st, caller, src, ptr, false).0.ipc.flags[caller] <==>
            && FindNotice(c, PrivOf(c, st.ipc, caller).notify, src, 0) == NotFound
            && FindCaller(st.ipc.callers[caller], src) == |st.ipc.callers[caller]|
  {
  }

  /** A blocking receive from p blocks exactly when no message from p is queued and no notification from it is
      the lowest of its chunk, pending or not. */
  lemma ReceiveFromBlocksIff(c: Config, st: State, caller: Pid, p: Pid, ptr: Addr)
    requires KernelOk(c, st) && st.ipc.flags[caller] == {} && !PrivOf(c, st.ipc, caller).busy
    ensures var ids := PrivOf(c, st.ipc, caller).notify;
            Receiving in MiniReceive(c, st, caller, From(p), ptr, false).0.ipc.flags[caller] <==>
            p !in st.ipc.callers[caller] && !NoticeLeads(c, ids, p)
  {
    ReceiveBlocks(c, st, caller, From(p), ptr);
    FindNoticeFrom(c, PrivOf(c, st.ipc, caller).notify, p, 0);
    FindCallerFrom(st.ipc.callers[caller], p);
  }

  /** A notification from p is pending and the lowest of its chunk. */
  ghost predicate NoticeLeads(c: Config, ids: set<SysId>, p: Pid)
    requires c.Shape()
  {
    exists i: SysId :: i in ids && c.privs[i].procNr == p && LowestOfChunk(ids, i)
  }

  lemma {:induction false} FindCallerFrom(queue: seq<Pid>, p: Pid)
    ensures FindCaller(queue, From(p)) < |queue| <==> p in queue
  {
    if queue != [] { FindCallerFrom(queue[1..], p); }
  }

  // ---------------------------------------------------------------- scheduling

  /** The process restart() picks is at least as urgent as every runnable process,
      so IDLE runs only when nothing else can. */
  lemma MostUrgentRuns(c: Config, st: State, p: Pid)
    requires KernelOk(c, st) && st.ipc.flags[p] == {}
    ensures var run := Resume(st).sched.current;
            st.sched.priority[run] <= st.sched.priority[p] && (run == IDLE ==> p == IDLE)
  {
    var sc := st.sched;
    assert Q.OnQueue(sc, p);
    Q.FirstReadyIsTop(sc.ready, 0);
    assert Q.FirstReady(sc.ready, 0).To?;
    var run := Q.FirstReady(sc.ready, 0).p;
    var q :| 0 <= q < |sc.ready| && sc.ready[q] != [] && sc.ready[q][0] == run
             && forall r :: 0 <= r < q ==> sc.ready[r] == [];
    assert run in sc.ready[q];
  }

  /** Right after the tick that expired it, a process is still runnable. */
  lemma RequeueAfterTick(c: Config, st: State, lost: nat, timeout: nat)
    requires Inv(c, st) && Fires(c, st, lost, timeout)
    ensures var s1 := Step(c, st, Tick(lost, timeout));
            s1.sched.expired == st.sched.current && Inv(c, s1) && s1.ipc.flags[s1.sched.expired] == {}
  {
    FiringKeeps(c, st, lost, timeout);
    ResumeKeeps(c, ClockHandler(c, st, lost, timeout));
  }

  // ---------------------------------------------------------------- a run in which a notification is overtaken

  lemma AddStep(c: Config, order: seq<Pid>, trace: seq<State>, events: seq<Event>, st: State, e: Event)
    returns (trace': seq<State>, events': seq<Event>)
    requires Run(c, order, trace, events) && st == trace[|events|]
    requires Ready(c, st) && Enabled(c, st, e) && Safe(c, st, e) && Obeys(st, e, Owed(c, trace, events, |events|))
    ensures Run(c, order, trace', events') && trace'[|events'|] == Step(c, st, e)
  {
    var s1 := Step(c, st, e);
    trace', events' := trace + [s1], events + [e];
    forall i | 0 <= i < |events'|
      ensures Ready(c, trace'[i]) && Enabled(c, trace'[i], events'[i])
      ensures events'[i].Trap? ==> Safe(c, trace'[i], events'[i])
      ensures Obeys(trace'[i], events'[i], Owed(c, trace', events', i))
      ensures trace'[i + 1] == Step(c, trace'[i], events'[i])
    {
      OwedPrefix(c, trace, events, trace', events', i);
      if i < |events| {
        assert trace'[i] == trace[i] && trace'[i + 1] == trace[i + 1] && events'[i] == events[i];
      } else {
        assert trace'[i] == st && trace'[i + 1] == s1 && events'[i] == e;
      }
    }
  }

  lemma {:induction false} OwedPrefix(c: Config, trace: seq<State>, events: seq<Event>, trace': seq<State>,
                                      events': seq<Event>, k: nat)
    requires c.Shape() && |trace| == |events| + 1 && |trace'| == |events'| + 1 && k <= |events|
    requires trace <= trace' && events <= events'
    ensures Owed(c, trace', events', k) == Owed(c, trace, events, k)
  {
    if k > 0 { OwedPrefix(c, trace, events, trace', events', k - 1); }
  }

  /** What main() leaves besides flags: nothing is queued, pending or used up. */
  lemma {:induction false} BootLoopQuiet(c: Config, order: seq<Pid>)
    requires c.Legal() && forall p: Pid :: p in order ==> c.slots[p].quantum > 0
    ensures var st := BootLoop(c, order);
            && (forall p: Pid :: st.sched.priority[p] == c.slots[p].maxPriority)
            && (forall p: Pid :: st.sched.ticks[p] == c.slots[p].quantum)
            && (forall p: Pid :: st.ipc.callers[p] == [])
            && forall i: SysId :: st.ipc.privs[i] == Priv(false, {}, {}, {})
  {
    if order != [] { BootLoopQuiet(c, order[..|order| - 1]); }
  }

  /** Exactly the processes of live are runnable, no message is queued for them, and no notification but
      those of pend for p. */
  ghost predicate Calm(c: Config, st: State, live: set<Pid>, p: Pid, pend: set<SysId>) {
    && Ready(c, st) && st.sched.next == Nil
    && (forall x: Pid :: st.ipc.flags[x] == {} <==> x in live)
    && (forall x: Pid :: x in live ==> st.sched.priority[x] == c.slots[x].maxPriority && st.ipc.callers[x] == [])
    && (forall x: Pid :: x in live && x != p ==> PrivOf(c, st.ipc, x).notify == {})
    && PrivOf(c, st.ipc, p).notify == pend
  }

  /** x is the most urgent process of live. */
  predicate First(c: Config, live: set<Pid>, x: Pid)
    requires c.Shape()
  {
    x in live && forall y: Pid :: y in live && y != x ==> c.slots[x].maxPriority < c.slots[y].maxPriority
  }

  /** The running process is the most urgent one. */
  lemma CalmRuns(c: Config, st: State, live: set<Pid>, p: Pid, pend: set<SysId>, x: Pid)
    requires Inv(c, st) && Calm(c, st, live, p, pend)
    requires First(c, live, x)
    ensures st.sched.current == x
  {
    MostUrgentRuns(c, st, x);
    assert Resume(st).sched.current == st.sched.current;
  }

  lemma {:induction false} BootLoopFlags(c: Config, order: seq<Pid>)
    requires c.Legal() && HARDWARE !in order
    ensures forall x: Pid :: BootLoop(c, order).ipc.flags[x] == if x in order then {} else {SlotFree}
  {
    if order != [] {
      var rest := order[..|order| - 1];
      BootLoopFlags(c, rest);
      assert order == rest + [order[|order| - 1]];
    }
  }

  lemma BootCalm(c: Config, order: seq<Pid>, live: set<Pid>, p: Pid)
    requires c.Legal() && IDLE in order && HARDWARE !in order && p in order
    requires (forall x: Pid :: x in order ==> c.slots[x].quantum > 0) && forall x: Pid :: x in live <==> x in order
    ensures Calm(c, Boot(c, order), live, p, {})
  {
    BootLoopFlags(c, order);
    BootLoopQuiet(c, order);
  }

  /** The running process may block in receive(ANY). */
  ghost predicate MayReceive(c: Config, x: Pid, ptr: Addr)
    requires c.Shape()
  {
    c.OwnsPriv(x) && RECEIVE in c.Priv(x).trapMask && PtrOk(c.slots[x], ptr)
  }

  /** The running process finds nothing and goes to sleep. */
  lemma TrapSleeps(c: Config, st: State, x: Pid, ptr: Addr)
    requires Ready(c, st) && st.sched.current == x && MayReceive(c, x, ptr) && st.ipc.flags[x] == {}
    requires st.ipc.callers[x] == [] && PrivOf(c, st.ipc, x).notify == {}
    ensures var e, s1 := Trap(RECEIVE, false, AnyProc, ptr), st.(ipc := SetBusy(c, st.ipc, x, false));
            && Enabled(c, st, e) && Safe(c, st, e)
            && Step(c, st, e) == Resume(Goto(c, s1, Wait(s1.ipc, x, Any, ptr), x))
  {
    FindNoticeAny(c, {}, 0);
  }

  lemma SleepsCalm(c: Config, st: State, live: set<Pid>, p: Pid, pend: set<SysId>, x: Pid, ptr: Addr)
    requires Calm(c, st, live, p, pend) && x != p && c.OwnsPriv(x) && x in live
    ensures var s1 := st.(ipc := SetBusy(c, st.ipc, x, false));
            Calm(c, Resume(Goto(c, s1, Wait(s1.ipc, x, Any, ptr), x)), live - {x}, p, pend)
  {
  }

  lemma CalmSleeps(c: Config, st: State, live: set<Pid>, p: Pid, pend: set<SysId>, x: Pid, ptr: Addr)
    requires Inv(c, st) && Calm(c, st, live, p, pend) && st.sched.current == x && x != p && MayReceive(c, x, ptr)
    ensures var e := Trap(RECEIVE, false, AnyProc, ptr);
            Enabled(c, st, e) && Safe(c, st, e) && Calm(c, Step(c, st, e), live - {x}, p, pend)
  {
    TrapSleeps(c, st, x, ptr);
    SleepsCalm(c, st, live, p, pend, x, ptr);
  }

  /** The running process x may notify p. */
  predicate MayNotify(c: Config, x: Pid, p: Pid)
    requires c.Shape()
  {
    NOTIFY in c.Priv(x).trapMask && c.slots[p].priv in c.Priv(x).ipcTo
  }

  lemma CalmNotifies(c: Config, st: State, live: set<Pid>, p: Pid, pend: set<SysId>, x: Pid)
    requires Calm(c, st, live, p, pend) && st.sched.current == x && p in live && !IsKernel(p) && c.OwnsPriv(p)
    requires MayNotify(c, x, p)
    ensures var e := Trap(NOTIFY, false, Proc(p - NR_TASKS), 0);
            Enabled(c, st, e) && Safe(c, st, e) && Calm(c, Step(c, st, e), live, p, pend + {c.slots[x].priv})
  {
    var s1 := MiniNotify(c, st, x, p);
    assert s1 == st.(ipc := Pend(c, st.ipc, x, p));
    assert Step(c, st, Trap(NOTIFY, false, Proc(p - NR_TASKS), 0)) == Resume(s1) == s1;
  }

  /** A driver a, a driver b and a server p that take turns in this order: each may receive, and a and b may
      notify p. The structure of a has a lower number than that of b. */
  ghost predicate Cast(c: Config, a: Pid, b: Pid, p: Pid, ptr: Addr) {
    && Standard(c) && !IsKernel(a) && !IsKernel(b) && !IsKernel(p)
    && c.slots[a].maxPriority < c.slots[b].maxPriority < c.slots[p].maxPriority
    && (forall x: Pid :: c.slots[x].quantum > 0)
    && MayReceive(c, CLOCK, ptr) && MayReceive(c, a, ptr) && MayReceive(c, b, ptr) && MayReceive(c, p, ptr)
    && MayNotify(c, a, p) && MayNotify(c, b, p)
    && c.Identifies(b) && c.slots[a].priv < c.slots[b].priv < BITCHUNK_BITS
  }

  /** A table with such processes: every system process has its own structure and a queue by its number. */
  function SampleConfig(): Config {
    Config(seq(NR_SLOTS, i requires 0 <= i < NR_SLOTS =>
             SlotSpec(if i < 15 then i + 1 else 0, if i == IDLE then IDLE_Q else if i < NR_TASKS then 0
                      else if i < 10 then i - 3 else 7, 8, 0, 0, 1)),
           seq(NR_SYS_PROCS, i requires 0 <= i < NR_SYS_PROCS =>
             var p := if 1 <= i <= 15 then i - 1 else NR_SLOTS - 1;
             PrivSpec(p, i == 0, p == IDLE || p >= NR_TASKS,
                      if p == IDLE || p == HARDWARE then {} else {RECEIVE, NOTIFY}, {8})))
  }

  lemma CastExists()
    ensures Cast(SampleConfig(), 5, 6, 7, 0)
  {
  }

  /** The run so far, its last state, and what is going on there. */
  ghost predicate Underway(c: Config, order: seq<Pid>, trace: seq<State>, events: seq<Event>, live: set<Pid>, p: Pid,
                           pend: set<SysId>)
  {
    Run(c, order, trace, events) && Calm(c, trace[|events|], live, p, pend)
  }

  lemma RunSleeps(c: Config, order: seq<Pid>, trace: seq<State>, events: seq<Event>, live: set<Pid>, p: Pid,
                  pend: set<SysId>, x: Pid, ptr: Addr)
    returns (trace': seq<State>, events': seq<Event>)
    requires Underway(c, order, trace, events, live, p, pend) && x != p && MayReceive(c, x, ptr)
    requires First(c, live, x)
    requires x == CLOCK ==> events == []
    ensures Underway(c, order, trace', events', live - {x}, p, pend)
  {
    var st := trace[|events|];
    RunKeepsInv(c, order, trace, events, |events|);
    CalmRuns(c, st, live, p, pend, x);
    CalmSleeps(c, st, live, p, pend, x, ptr);
    trace', events' := AddStep(c, order, trace, events, st, Trap(RECEIVE, false, AnyProc, ptr));
  }

  lemma RunNotifies(c: Config, order: seq<Pid>, trace: seq<State>, events: seq<Event>, live: set<Pid>, p: Pid,
                    pend: set<SysId>, x: Pid)
    returns (trace': seq<State>, events': seq<Event>)
    requires Underway(c, order, trace, events, live, p, pend) && p in live && MayNotify(c, x, p)
    requires !IsKernel(x) && !IsKernel(p) && c.OwnsPriv(p)
    requires First(c, live, x)
    ensures Underway(c, order, trace', events', live, p, pend + {c.slots[x].priv})
  {
    var st := trace[|events|];
    RunKeepsInv(c, order, trace, events, |events|);
    CalmRuns(c, st, live, p, pend, x);
    CalmNotifies(c, st, live, p, pend, x);
    trace', events' := AddStep(c, order, trace, events, st, Trap(NOTIFY, false, Proc(p - NR_TASKS), 0));
  }

  lemma TrapReceives(c: Config, st: State, b: Pid, p: Pid, ptr: Addr)
    requires Ready(c, st) && st.sched.current == p && MayReceive(c, p, ptr)
    ensures var e, s1 := Trap(RECEIVE, false, Proc(b - NR_TASKS), ptr), st.(ipc := SetBusy(c, st.ipc, p, false));
            && Enabled(c, st, e) && Safe(c, st, e)
            && Step(c, st, e).ipc == MiniReceive(c, s1, p, From(b), ptr, false).0.ipc
  {
  }

  /** The running process p waits for b, whose notification does not lead its chunk. */
  lemma ReceiveRunning(c: Config, st: State, b: Pid, p: Pid, ptr: Addr)
    requires Inv(c, st) && st.sched.current == p && st.ipc.callers[p] == [] && MayReceive(c, p, ptr)
    requires !NoticeLeads(c, PrivOf(c, st.ipc, p).notify, b)
    ensures var e := Trap(RECEIVE, false, Proc(b - NR_TASKS), ptr);
            && Enabled(c, st, e) && Safe(c, st, e) && Shape(Step(c, st, e).ipc)
            && Receiving in Step(c, st, e).ipc.flags[p] && Step(c, st, e).ipc.getFrom[p] == From(b)
            && PrivOf(c, Step(c, st, e).ipc, p).notify == PrivOf(c, st.ipc, p).notify
  {
    TrapReceives(c, st, b, p, ptr);
    BusyKeeps(c, st, false);
    ReceiveFromBlocksIff(c, st.(ipc := SetBusy(c, st.ipc, p, false)), p, b, ptr);
  }

  /** x notifies p and goes to sleep. */
  lemma RunTurn(c: Config, order: seq<Pid>, trace: seq<State>, events: seq<Event>, live: set<Pid>, p: Pid,
                pend: set<SysId>, x: Pid, ptr: Addr, live': set<Pid>, pend': set<SysId>)
    returns (trace': seq<State>, events': seq<Event>)
    requires Underway(c, order, trace, events, live, p, pend) && p in live && First(c, live, x)
    requires MayNotify(c, x, p) && MayReceive(c, x, ptr)
    requires x != p && !IsKernel(x) && !IsKernel(p) && c.OwnsPriv(p)
    requires live' == live - {x} && pend' == pend + {c.slots[x].priv}
    ensures Underway(c, order, trace', events', live', p, pend')
  {
    trace', events' := RunNotifies(c, order, trace, events, live, p, pend, x);
    trace', events' := RunSleeps(c, order, trace', events', live, p, pend', x, ptr);
  }

  lemma CastOrder(c: Config, a: Pid, b: Pid, p: Pid, ptr: Addr)
    requires Cast(c, a, b, p, ptr)
    ensures First(c, {IDLE, CLOCK, a, b, p}, CLOCK) && {IDLE, CLOCK, a, b, p} - {CLOCK} == {IDLE, a, b, p}
    ensures First(c, {IDLE, a, b, p}, a) && {IDLE, a, b, p} - {a} == {IDLE, b, p}
    ensures First(c, {IDLE, b, p}, b) && {IDLE, b, p} - {b} == {IDLE, p}
    ensures First(c, {IDLE, p}, p)
  {
  }

  /** Everything is booted and CLOCK has gone to sleep. */
  lemma ClockFirst(c: Config, a: Pid, b: Pid, p: Pid, ptr: Addr) returns (trace: seq<State>, events: seq<Event>)
    requires Cast(c, a, b, p, ptr)
    ensures Underway(c, [IDLE, CLOCK, a, b, p], trace, events, {IDLE, a, b, p}, p, {})
  {
    var order: seq<Pid>, live: set<Pid> := [IDLE, CLOCK, a, b, p], {IDLE, CLOCK, a, b, p};
    CastOrder(c, a, b, p, ptr);
    BootCalm(c, order, live, p);
    RunStarts(c, order);
    trace, events := RunSleeps(c, order, [Boot(c, order)], [], live, p, {}, CLOCK, ptr);
  }

  /** a and b notify p and go to sleep in turn: both notifications are pending and p runs. */
  lemma TwoNotices(c: Config, a: Pid, b: Pid, p: Pid, ptr: Addr) returns (trace: seq<State>, events: seq<Event>)
    requires Cast(c, a, b, p, ptr)
    ensures Underway(c, [IDLE, CLOCK, a, b, p], trace, events, {IDLE, p}, p, {c.slots[a].priv, c.slots[b].priv})
  {
    var order: seq<Pid> := [IDLE, CLOCK, a, b, p];
    var ia: SysId, ib: SysId := c.slots[a].priv, c.slots[b].priv;
    CastOrder(c, a, b, p, ptr);
    trace, events := ClockFirst(c, a, b, p, ptr);
    trace, events := RunTurn(c, order, trace, events, {IDLE, a, b, p}, p, {}, a, ptr, {IDLE, b, p}, {ia});
    trace, events := RunTurn(c, order, trace, events, {IDLE, b, p}, p, {ia}, b, ptr, {IDLE, p}, {ia, ib});
  }

  lemma Hidden(c: Config, a: Pid, b: Pid)
    requires c.Shape() && c.Identifies(b) && c.slots[a].priv < c.slots[b].priv < BITCHUNK_BITS
    ensures !NoticeLeads(c, {c.slots[a].priv, c.slots[b].priv}, b)
  {
    var ids: set<SysId> := {c.slots[a].priv, c.slots[b].priv};
    assert c.slots[a].priv in ids && c.slots[a].priv / BITCHUNK_BITS == 0;
    assert !LowestOfChunk(ids, c.slots[b].priv);
  }

  /** A run at whose end p sleeps in a receive from b although the notification of b is pending: that of a, with a
      lower number, hides it. */
  lemma NoticeOvertaken(c: Config, a: Pid, b: Pid, p: Pid, ptr: Addr) returns (trace: seq<State>, events: seq<Event>)
    requires Cast(c, a, b, p, ptr)
    ensures Run(c, [IDLE, CLOCK, a, b, p], trace, events)
    ensures var m := trace[|events|].ipc;
            && Shape(m) && Receiving in m.flags[p] && m.getFrom[p] == From(b)
            && c.slots[b].priv in PrivOf(c, m, p).notify
  {
    var order: seq<Pid> := [IDLE, CLOCK, a, b, p];
    trace, events := TwoNotices(c, a, b, p, ptr);
    var st := trace[|events|];
    RunKeepsInv(c, order, trace, events, |events|);
    CastOrder(c, a, b, p, ptr);
    CalmRuns(c, st, {IDLE, p}, p, {c.slots[a].priv, c.slots[b].priv}, p);
    Hidden(c, a, b);
    ReceiveRunning(c, st, b, p, ptr);
    trace, events := AddStep(c, order, trace, events, st, Trap(RECEIVE, false, Proc(b - NR_TASKS), ptr));
  }
}
