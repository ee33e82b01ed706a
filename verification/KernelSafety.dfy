/** The global invariant of the kernel, kept by exactly the safe steps. */
module KernelSafety {
  import opened KernelTypes
  import opened Lists
  import opened WaitGraph
  import opened Rendezvous
  import opened RendezvousProofs
  import opened KernelMachine
  import Q = ReadyQueues

  /** A process is queued iff it has no flag set, and the head of the most urgent queue is chosen. */
  ghost predicate QueuedIffRunnable(c: Config, flags: seq<Flags>, sc: Q.Sched) {
    && c.Legal() && |flags| == NR_SLOTS
    && Q.QueuesOk(sc) && Q.PrioritiesOk(c, sc) && Q.ChoosesTop(sc)
    && forall p: Pid :: Q.OnQueue(sc, p) <==> flags[p] == {}
  }

  ghost predicate SchedOk(c: Config, flags: seq<Flags>, sc: Q.Sched) {
    QueuedIffRunnable(c, flags, sc) && flags[IDLE] == {}
  }

  /** SIGNALED is set exactly while signals wait for PM, and then the process is held by SIG_PENDING too. */
  ghost predicate SignalsOk(m: Ipc)
    requires Shape(m)
  {
    forall p: Pid :: && (m.signals[p] != {} <==> Signaled in m.flags[p])
                     && (Signaled in m.flags[p] ==> SigPending in m.flags[p])
  }

  ghost predicate KernelOk(c: Config, st: State) {
    && IpcOk(c, st.ipc)
    && SignalsOk(st.ipc)
    && SchedOk(c, st.ipc.flags, st.sched)
  }

  /** The invariant between steps: moreover the running process is runnable. */
  ghost predicate Inv(c: Config, st: State) {
    KernelOk(c, st) && st.ipc.flags[st.sched.current] == {}
  }

  // ---------------------------------------------------------------- scheduling

  lemma ReflagKeeps(c: Config, flags: seq<Flags>, sc: Q.Sched, p: Pid, f: Flags)
    requires QueuedIffRunnable(c, flags, sc)
    ensures QueuedIffRunnable(c, flags[p := f], Reflag(c, sc, p, flags[p], f))
    ensures Reflag(c, sc, p, flags[p], f).current == sc.current
  {
    if flags[p] == {} && f != {} {
      Q.DequeueKeeps(c, sc, p);
    } else if flags[p] != {} && f == {} {
      Q.EnqueueKeeps(c, sc, p);
    }
  }

  lemma GotoKeeps(c: Config, st: State, n: Ipc, p: Pid)
    requires KernelOk(c, st) && IpcOk(c, n) && SignalsOk(n)
    requires n.flags == st.ipc.flags[p := n.flags[p]] && (p == IDLE ==> n.flags[p] == {})
    ensures KernelOk(c, Goto(c, st, n, p))
    ensures Goto(c, st, n, p).sched.current == st.sched.current
  {
    ReflagKeeps(c, st.ipc.flags, st.sched, p, n.flags[p]);
  }

  /** restart() always finds a runnable process, because IDLE is always queued. */
  lemma ResumeKeeps(c: Config, st: State)
    requires KernelOk(c, st)
    ensures Inv(c, Resume(st))
  {
    var sc := st.sched;
    assert Q.OnQueue(sc, IDLE);
    Q.FirstReadyIsTop(sc.ready, 0);
    assert Q.FirstReady(sc.ready, 0).To?;
    var p := Q.FirstReady(sc.ready, 0).p;
    var q :| 0 <= q < |sc.ready| && sc.ready[q] != [] && sc.ready[q][0] == p;
    assert p in sc.ready[q];
    assert Q.OnQueue(sc, p);
  }

  // ---------------------------------------------------------------- the message calls

  lemma HandKeeps(c: Config, st: State, caller: Pid, dst: Pid, ptr: Addr)
    requires KernelOk(c, st) && st.ipc.flags[caller] == {} && IsWaiting(st.ipc, dst)
    ensures var s1 := Goto(c, st, Deliver(st.ipc, caller, dst, ptr), dst);
            KernelOk(c, s1) && s1.sched.current == st.sched.current && s1.ipc.flags[caller] == {}
  {
    DeliverKeeps(c, st.ipc, caller, dst, ptr);
    GotoKeeps(c, st, Deliver(st.ipc, caller, dst, ptr), dst);
  }

  lemma ParkKeeps(c: Config, st: State, caller: Pid, dst: Pid, ptr: Addr)
    requires KernelOk(c, st) && st.ipc.flags[caller] == {} && caller != dst && caller != IDLE
    requires !Locked(WaitsFor(st.ipc), caller, dst)
    requires !(IsWaiting(st.ipc, dst) && Accepts(st.ipc.getFrom[dst], caller))
    ensures var s1 := Goto(c, st, Block(st.ipc, caller, dst, ptr), caller);
            KernelOk(c, s1) && s1.sched.current == st.sched.current && InSend(s1.ipc, caller, dst, ptr)
  {
    BlockKeeps(c, st.ipc, caller, dst, ptr);
    GotoKeeps(c, st, Block(st.ipc, caller, dst, ptr), caller);
  }

  /** A process that waits for itself is a cycle of senders. */
  lemma SelfSendBreaks(c: Config, st: State, p: Pid)
    requires Shape(st.ipc) && IsSending(st.ipc, p) && st.ipc.sendTo[p] == p
    ensures !KernelOk(c, st)
  {
    var g := WaitsFor(st.ipc);
    SelfSendCycle(g[p := Nil], p);
    assert g[p := Nil][p := To(p)] == g;
    if Grounded(g) { GroundedIsAcyclic(g); }
  }

  /** mini_send keeps the invariant exactly when it does not block its caller on itself. */
  lemma MiniSendKeepsIff(c: Config, st: State, caller: Pid, dst: Pid, ptr: Addr, nb: bool)
    requires KernelOk(c, st) && st.ipc.flags[caller] == {} && (nb || caller != IDLE)
    ensures var (s1, r) := MiniSend(c, st, caller, dst, ptr, nb);
            && (KernelOk(c, s1) <==> nb || caller != dst)
            && Ready(c, s1) && s1.sched.current == st.sched.current
            && (nb ==> s1.ipc.flags[caller] == {})
            && (s1.ipc.flags[caller] == {} || InSend(s1.ipc, caller, dst, ptr))
            && (!nb && caller == dst ==> r == OK && InSend(s1.ipc, caller, dst, ptr))
  {
    SelfSendCycle(WaitsFor(st.ipc), caller);
    if Locked(WaitsFor(st.ipc), caller, dst) {
    } else if IsWaiting(st.ipc, dst) && Accepts(st.ipc.getFrom[dst], caller) {
      HandKeeps(c, st, caller, dst, ptr);
    } else if !nb {
      if caller == dst {
        ReflagKeeps(c, st.ipc.flags, st.sched, caller, {Sending});
        SelfSendBreaks(c, MiniSend(c, st, caller, dst, ptr, nb).0, caller);
      } else {
        ParkKeeps(c, st, caller, dst, ptr);
      }
    }
  }

  /** The send half of a SENDREC has just blocked. */
  ghost predicate InSend(m: Ipc, caller: Pid, dst: Pid, ptr: Addr)
    requires Shape(m)
  {
    m.flags[caller] == {Sending} && m.sendTo[caller] == dst && m.messBuf[caller] == ptr
  }

  /** For ANY the scan finds the least pending id, so it fails only on an empty map. */
  lemma {:induction false} FindNoticeAny(c: Config, ids: set<SysId>, k: nat)
    requires c.Shape() && k <= NR_SYS_CHUNKS
    requires forall j: SysId :: j in ids ==> k * BITCHUNK_BITS <= j
    ensures var r := FindNotice(c, ids, Any, k);
            if r.FoundId? then forall j: SysId :: j in ids ==> r.id <= j else ids == {}
    decreases NR_SYS_CHUNKS - k
  {
    if k < NR_SYS_CHUNKS {
      var end := (k + 1) * BITCHUNK_BITS;
      if LowestIn(ids, k * BITCHUNK_BITS, end) == end { FindNoticeAny(c, ids, k + 1); }
    }
  }

  lemma TakeNoticeKeeps(c: Config, st: State, caller: Pid, id: SysId, ptr: Addr)
    requires KernelOk(c, st) && st.ipc.flags[caller] == {} && id in PrivOf(c, st.ipc, caller).notify
    ensures KernelOk(c, st.(ipc := PostNotice(c, Unpend(c, st.ipc, caller, id), c.privs[id].procNr, caller, ptr,
            st.realtime)))
  {
    TakeKeeps(c, st.ipc, caller, id, ptr, st.realtime);
  }

  lemma TakeQueuedKeeps(c: Config, st: State, caller: Pid, i: nat, ptr: Addr)
    requires KernelOk(c, st) && st.ipc.flags[caller] == {} && i < |st.ipc.callers[caller]|
    ensures var s1 := Goto(c, st, Accept(st.ipc, caller, i, ptr), st.ipc.callers[caller][i]);
            KernelOk(c, s1) && s1.sched.current == st.sched.current
  {
    var x := st.ipc.callers[caller][i];
    assert x in st.ipc.callers[caller];
    AcceptKeeps(c, st.ipc, caller, i, ptr);
    GotoKeeps(c, st, Accept(st.ipc, caller, i, ptr), x);
  }

  lemma SleepKeeps(c: Config, st: State, caller: Pid, src: Peer, ptr: Addr)
    requires KernelOk(c, st) && caller != IDLE
    requires || (src.From? && InSend(st.ipc, caller, src.p, ptr))
             || (st.ipc.flags[caller] == {} && FindCaller(st.ipc.callers[caller], src) == |st.ipc.callers[caller]|
                 && (src == Any && c.OwnsPriv(caller) ==>
                       PrivOf(c, st.ipc, caller).notify == {} && !PrivOf(c, st.ipc, caller).busy))
    ensures var s1 := Goto(c, st, Wait(st.ipc, caller, src, ptr), caller);
            KernelOk(c, s1) && s1.sched.current == st.sched.current
  {
    WaitKeeps(c, st.ipc, caller, src, ptr);
    GotoKeeps(c, st, Wait(st.ipc, caller, src, ptr), caller);
  }

  lemma MiniReceiveKeeps(c: Config, st: State, caller: Pid, src: Peer, ptr: Addr, nb: bool)
    requires KernelOk(c, st) && caller != IDLE
    requires st.ipc.flags[caller] == {} || (src.From? && InSend(st.ipc, caller, src.p, ptr))
    requires src == Any ==> !PrivOf(c, st.ipc, caller).busy
    ensures var s1 := MiniReceive(c, st, caller, src, ptr, nb).0;
            KernelOk(c, s1) && s1.sched.current == st.sched.current
  {
    var m := st.ipc;
    var note := if IsSending(m, caller) || PrivOf(c, m, caller).busy then NotFound
                else FindNotice(c, PrivOf(c, m, caller).notify, src, 0);
    var i := FindCaller(m.callers[caller], src);
    if note.FoundId? {
      TakeNoticeKeeps(c, st, caller, note.id, ptr);
    } else if !IsSending(m, caller) && i < |m.callers[caller]| {
      TakeQueuedKeeps(c, st, caller, i, ptr);
    } else if !nb {
      FindNoticeAny(c, PrivOf(c, m, caller).notify, 0);
      SleepKeeps(c, st, caller, src, ptr);
    }
  }

  /** KernelOk, except that src's bits for dst may not have been announced yet. */
  ghost predicate AwaitingNotice(c: Config, st: State, src: Pid, dst: Pid) {
    && c.Shape() && OkBut(c, st.ipc, c.slots[dst].priv, src)
    && SignalsOk(st.ipc)
    && SchedOk(c, st.ipc.flags, st.sched)
  }

  lemma MiniNotifyKeeps(c: Config, st: State, src: Pid, dst: Pid)
    requires AwaitingNotice(c, st, src, dst)
    ensures var s1 := MiniNotify(c, st, src, dst);
            && KernelOk(c, s1) && s1.sched.current == st.sched.current
            && forall p: Pid :: st.ipc.flags[p] == {} ==> s1.ipc.flags[p] == {}
  {
    var m := st.ipc;
    if IsWaiting(m, dst) && !PrivOf(c, m, dst).busy && Accepts(m.getFrom[dst], src) {
      var n := Unwait(PostNotice(c, m, src, dst, m.messBuf[dst], st.realtime), dst);
      NotifyNowKeeps(c, m, src, dst, st.realtime);
      ReflagKeeps(c, m.flags, st.sched, dst, n.flags[dst]);
    } else {
      PendKeeps(c, m, src, dst);
    }
  }

  lemma NotifyKeeps(c: Config, st: State, src: Pid, dst: Pid)
    requires KernelOk(c, st)
    ensures var s1 := MiniNotify(c, st, src, dst);
            && KernelOk(c, s1) && s1.sched.current == st.sched.current
            && forall p: Pid :: st.ipc.flags[p] == {} ==> s1.ipc.flags[p] == {}
  {
    MiniNotifyKeeps(c, st, src, dst);
  }

  lemma BusyKeeps(c: Config, st: State, b: bool)
    requires Inv(c, st)
    ensures Inv(c, st.(ipc := SetBusy(c, st.ipc, st.sched.current, b)))
  {
    SetBusyKeeps(c, st.ipc, st.sched.current, b);
  }

  /** SENDREC keeps the invariant exactly when it does not block its caller on itself. */
  lemma SendRecKeepsIff(c: Config, st: State, dst: Pid, ptr: Addr, nb: bool)
    requires Inv(c, st) && st.sched.current != IDLE
    ensures var (s1, r) := MiniSend(c, st, st.sched.current, dst, ptr, nb);
            && Ready(c, s1)
            && var s2 := if r != OK then s1 else MiniReceive(c, s1, st.sched.current, From(dst), ptr, nb).0;
               (KernelOk(c, s2) <==> nb || st.sched.current != dst) && s2.sched.current == st.sched.current
  {
    var caller := st.sched.current;
    MiniSendKeepsIff(c, st, caller, dst, ptr, nb);
    var (s1, r) := MiniSend(c, st, caller, dst, ptr, nb);
    if nb || caller != dst {
      if r == OK { MiniReceiveKeeps(c, s1, caller, From(dst), ptr, nb); }
    } else {
      SelfSendBreaks(c, MiniReceive(c, s1, caller, From(dst), ptr, nb).0, caller);
    }
  }

  lemma EchoKeeps(c: Config, st: State, ptr: Addr, msg: Message)
    requires Inv(c, st)
    ensures Inv(c, st.(ipc := st.ipc.(mem := Write(st.ipc.mem, st.sched.current, ptr, msg))))
  {
    OtherKeeps(c, st.ipc, st.ipc.(mem := Write(st.ipc.mem, st.sched.current, ptr, msg)));
  }

  /** A trap keeps the invariant exactly when it is refused or does not block its caller on itself. */
  lemma SysCallKeepsIff(c: Config, st: State, fn: nat, nb: bool, t: Target, ptr: Addr)
    requires Inv(c, st) && Defined(c, st.sched.current, fn, t, ptr)
    ensures KernelOk(c, SysCall(c, st, fn, nb, t, ptr).0) <==>
            (Screen(c, st, fn, t, ptr) == OK ==> !BlocksOnSelf(st, fn, nb, t))
    ensures SysCall(c, st, fn, nb, t, ptr).0.sched.current == st.sched.current
  {
    var caller := st.sched.current;
    if Screen(c, st, fn, t, ptr) == OK {
      assert caller != IDLE;
      if fn == SENDREC {
        BusyKeeps(c, st, true);
        SendRecKeepsIff(c, st.(ipc := SetBusy(c, st.ipc, caller, true)), Slot(t), ptr, nb);
      } else if fn == SEND {
        MiniSendKeepsIff(c, st, caller, Slot(t), ptr, nb);
      } else {
        PerformKeeps(c, st, fn, nb, t, ptr);
      }
    }
  }

  lemma PerformKeeps(c: Config, st: State, fn: nat, nb: bool, t: Target, ptr: Addr)
    requires Inv(c, st) && st.sched.current != IDLE && fn != SEND && fn != SENDREC
    requires (ChecksDst(fn) ==> IsOkProc(t)) && (IsOkProc(t) || t.AnyProc? || fn == ECHO)
    ensures KernelOk(c, Perform(c, st, fn, nb, t, ptr).0)
    ensures Perform(c, st, fn, nb, t, ptr).0.sched.current == st.sched.current
  {
    var caller := st.sched.current;
    if fn == RECEIVE {
      BusyKeeps(c, st, false);
      MiniReceiveKeeps(c, st.(ipc := SetBusy(c, st.ipc, caller, false)), caller, Wanted(t), ptr, nb);
    } else if fn == NOTIFY {
      NotifyKeeps(c, st, caller, Slot(t));
    } else if fn == ECHO {
      EchoKeeps(c, st, ptr, Message(caller, Read(st.ipc.mem, caller, ptr).payload));
    }
  }

  // ---------------------------------------------------------------- signals, interrupts, clock

  lemma RaiseNotifyKeeps(c: Config, st: State, src: Pid, dst: Pid, bit: nat)
    requires KernelOk(c, st) && (src == SYSTEM || src == HARDWARE)
    ensures var s1 := MiniNotify(c, st.(ipc := Raise(c, st.ipc, src, dst, bit)), src, dst);
            && KernelOk(c, s1) && s1.sched.current == st.sched.current
            && forall p: Pid :: st.ipc.flags[p] == {} ==> s1.ipc.flags[p] == {}
  {
    RaiseKeeps(c, st.ipc, src, dst, bit);
    MiniNotifyKeeps(c, st.(ipc := Raise(c, st.ipc, src, dst, bit)), src, dst);
  }

  lemma CauseSigKeeps(c: Config, st: State, p: Pid, sig: nat)
    requires KernelOk(c, st) && !IsKernel(p)
    ensures var s1 := CauseSig(c, st, p, sig);
            && KernelOk(c, s1) && s1.sched.current == st.sched.current
            && forall x: Pid :: x != p && st.ipc.flags[x] == {} ==> s1.ipc.flags[x] == {}
  {
    var m := st.ipc;
    if sig !in m.signals[p] {
      var m1 := m.(signals := m.signals[p := m.signals[p] + {sig}]);
      if Signaled in m.flags[p] {
        OtherKeeps(c, m, m1);
      } else {
        var m2 := Held(m, p, sig);
        OtherKeeps(c, m, m2);
        GotoKeeps(c, st, m2, p);
        RaiseNotifyKeeps(c, Goto(c, st, m2, p), SYSTEM, PM, SIGKSIG);
      }
    }
  }

  lemma GetKsigKeeps(c: Config, st: State)
    requires KernelOk(c, st)
    ensures var s1 := GetKsig(st);
            && KernelOk(c, s1) && s1.sched == st.sched
            && forall x: Pid :: st.ipc.flags[x] == {} ==> s1.ipc.flags[x] == {}
  {
    OtherKeeps(c, st.ipc, GetKsig(st).ipc);
    var p := FindSignaled(st.ipc.flags, NR_TASKS);
    assert p < NR_SLOTS ==> SigPending in GetKsig(st).ipc.flags[p];
  }

  lemma EndKsigKeeps(c: Config, st: State, p: Pid)
    requires KernelOk(c, st)
    ensures var s1 := EndKsig(c, st, p);
            && KernelOk(c, s1) && s1.sched.current == st.sched.current
            && forall x: Pid :: st.ipc.flags[x] == {} ==> s1.ipc.flags[x] == {}
  {
    var m := st.ipc;
    if SigPending in m.flags[p] && Signaled !in m.flags[p] {
      var n := m.(flags := m.flags[p := m.flags[p] - {SigPending}]);
      OtherKeeps(c, m, n);
      GotoKeeps(c, st, n, p);
    }
  }

  /** Charging ticks moves no process between queues. */
  lemma ChargeKeeps(c: Config, st: State, ticks: seq<int>, now: nat, x: Pid)
    requires KernelOk(c, st) && |ticks| == NR_SLOTS
    ensures KernelOk(c, st.(realtime := now, sched := st.sched.(ticks := ticks, expired := x)))
  {
    var sc := st.sched.(ticks := ticks, expired := x);
    assert forall p: Pid :: Q.OnQueue(sc, p) == Q.OnQueue(st.sched, p);
  }

  /** The clock interrupt wakes CLOCK: a timer is due, or the quantum is used up. */
  predicate Fires(c: Config, st: State, lost: nat, timeout: nat)
    requires c.Shape() && Q.Shape(st.sched)
  {
    timeout <= st.realtime + lost + 1 || Charge(c, st.sched, lost + 1)[st.sched.current] <= 0
  }

  lemma FiringKeeps(c: Config, st: State, lost: nat, timeout: nat)
    requires KernelOk(c, st) && Fires(c, st, lost, timeout)
    ensures KernelOk(c, ClockHandler(c, st, lost, timeout))
    ensures ClockHandler(c, st, lost, timeout).sched.expired == st.sched.current
    ensures forall p: Pid :: st.ipc.flags[p] == {} ==> ClockHandler(c, st, lost, timeout).ipc.flags[p] == {}
  {
    var ticks, now := Charge(c, st.sched, lost + 1), st.realtime + lost + 1;
    var s1 := st.(realtime := now, sched := st.sched.(ticks := ticks, expired := st.sched.current));
    ChargeKeeps(c, st, ticks, now, st.sched.current);
    assert ClockHandler(c, st, lost, timeout) == MiniNotify(c, s1, HARDWARE, CLOCK);
    NotifyKeeps(c, s1, HARDWARE, CLOCK);
  }

  lemma TickingKeeps(c: Config, st: State, lost: nat, timeout: nat)
    requires KernelOk(c, st) && !Fires(c, st, lost, timeout)
    ensures KernelOk(c, ClockHandler(c, st, lost, timeout))
  {
    ChargeKeeps(c, st, Charge(c, st.sched, lost + 1), st.realtime + lost + 1, st.sched.expired);
  }

  lemma ClockHandlerKeeps(c: Config, st: State, lost: nat, timeout: nat)
    requires KernelOk(c, st)
    ensures KernelOk(c, ClockHandler(c, st, lost, timeout))
  {
    if Fires(c, st, lost, timeout) { FiringKeeps(c, st, lost, timeout); } else { TickingKeeps(c, st, lost, timeout); }
  }

  /** do_clocktick keeps the queues consistent exactly when the expired process it requeues is still runnable. */
  lemma DoClocktickKeepsIff(c: Config, st: State)
    requires KernelOk(c, st)
    ensures KernelOk(c, DoClocktick(c, st)) <==>
            (QuantumUsed(c, st.sched) ==> st.ipc.flags[st.sched.expired] == {})
    ensures DoClocktick(c, st).sched.current == st.sched.current && DoClocktick(c, st).ipc == st.ipc
  {
    if QuantumUsed(c, st.sched) {
      var x := st.sched.expired;
      Q.DequeueKeeps(c, st.sched, x);
      Q.EnqueueKeeps(c, Q.Dequeue(c, st.sched, x), x);
      assert Q.OnQueue(DoClocktick(c, st).sched, x);
    }
  }

  // ---------------------------------------------------------------- whole runs

  /** A step keeps the invariant exactly when it is safe. */
  lemma StepKeepsIff(c: Config, st: State, e: Event)
    requires Inv(c, st) && Enabled(c, st, e)
    ensures Inv(c, Step(c, st, e)) <==> Safe(c, st, e)
  {
    var p := st.sched.current;
    match e
    case Trap(fn, nb, t, ptr) => TrapKeepsIff(c, st, fn, nb, t, ptr);
    case Interrupt(dst, bit) =>
      RaiseNotifyKeeps(c, st, HARDWARE, dst, bit);
      ResumeKeeps(c, HardInt(c, st, dst, bit));
    case Tick(lost, timeout) =>
      ClockHandlerKeeps(c, st, lost, timeout);
      ResumeKeeps(c, ClockHandler(c, st, lost, timeout));
    case Fault(sig) =>
      CauseSigKeeps(c, st, p, sig);
      ResumeKeeps(c, CauseSig(c, st, p, sig));
    case _ => TaskStepKeepsIff(c, st, e);
  }

  lemma TrapKeepsIff(c: Config, st: State, fn: nat, nb: bool, t: Target, ptr: Addr)
    requires Inv(c, st) && Defined(c, st.sched.current, fn, t, ptr)
    ensures Inv(c, Resume(SysCall(c, st, fn, nb, t, ptr).0)) <==>
            (Screen(c, st, fn, t, ptr) == OK ==> !BlocksOnSelf(st, fn, nb, t))
  {
    var s1 := SysCall(c, st, fn, nb, t, ptr).0;
    SysCallKeepsIff(c, st, fn, nb, t, ptr);
    if KernelOk(c, s1) { ResumeKeeps(c, s1); }
  }

  /** The steps that happen while a task is running. */
  lemma TaskStepKeepsIff(c: Config, st: State, e: Event)
    requires Inv(c, st) && Enabled(c, st, e) && !e.Trap? && !e.Interrupt? && !e.Tick? && !e.Fault?
    ensures Inv(c, Step(c, st, e)) <==> Safe(c, st, e)
  {
    match e
    case Signal(x, sig) => CauseSigKeeps(c, st, x, sig);
    case TaskNotify(src, dst) => NotifyKeeps(c, st, src, dst);
    case TaskSend(dst, ptr) => MiniSendKeepsIff(c, st, st.sched.current, dst, ptr, true);
    case TaskSendSig(dst, sig) => RaiseNotifyKeeps(c, st, SYSTEM, dst, sig);
    case TakeSignals => GetKsigKeeps(c, st);
    case EndSignals(x) => EndKsigKeeps(c, st, x);
    case Requeue => DoClocktickKeepsIff(c, st);
    case Compute(ptr, msg) => EchoKeeps(c, st, ptr, msg);
  }

  /** The process table as main() clears it, and the state after it has announced the processes of order. */
  function Cleared(c: Config): State
    requires c.Shape()
  {
    State(Ipc(seq(NR_SLOTS, _ => {SlotFree}), seq(NR_SLOTS, _ => Any), seq(NR_SLOTS, _ => IDLE),
              seq(NR_SLOTS, _ => 0), seq(NR_SLOTS, _ => []), seq(NR_SLOTS, _ => {}),
              seq(NR_SYS_PROCS, _ => Priv(false, {}, {}, {})), seq(NR_SLOTS, _ => map[]),
              History([], [], seq(NR_SLOTS, _ => 0), [])),
          Q.Sched(seq(NR_SLOTS, p requires 0 <= p < NR_SLOTS => c.slots[p].maxPriority),
                  seq(NR_SLOTS, p requires 0 <= p < NR_SLOTS => c.slots[p].quantum),
                  seq(NR_SCHED_QUEUES, _ => []), Nil, IDLE, IDLE, Nil, IDLE),
          0)
  }

  ghost function Announce(c: Config, st: State, p: Pid): State
    requires Ready(c, st)
  {
    Goto(c, st, st.ipc.(flags := st.ipc.flags[p := if p == HARDWARE then {NoMap} else {}]), p)
  }

  ghost function BootLoop(c: Config, order: seq<Pid>): (st: State)
    requires c.Legal()
    ensures Shape(st.ipc) && Q.Shape(st.sched)
  {
    if order == [] then Cleared(c)
    else
      GotoShape(c);
      Announce(c, BootLoop(c, order[..|order| - 1]), order[|order| - 1])
  }

  /** main(): announce every process of the boot image, bill IDLE, restart(). */
  ghost function Boot(c: Config, order: seq<Pid>): State
    requires c.Legal()
  {
    var st := BootLoop(c, order);
    Resume(st.(sched := st.sched.(bill := IDLE)))
  }

  /** What holds while main() is still announcing processes. */
  ghost predicate Booting(c: Config, st: State) {
    && IpcOk(c, st.ipc) && SignalsOk(st.ipc) && QueuedIffRunnable(c, st.ipc.flags, st.sched)
    && forall p: Pid :: st.ipc.flags[p] <= {SlotFree, NoMap}
  }

  lemma ClearedOk(c: Config)
    requires c.Legal()
    ensures Booting(c, Cleared(c))
  {
    var st := Cleared(c);
    var g := WaitsFor(st.ipc);
    forall p: Pid ensures EndsSomewhere(g, p) {
      assert g[p] == Nil;
      assert Ends(g, p, 0);
    }
    Q.FirstReadyIsTop(st.sched.ready, 0);
  }

  lemma AnnounceKeeps(c: Config, st: State, p: Pid)
    requires c.Legal() && Booting(c, st)
    ensures Booting(c, Announce(c, st, p))
  {
    var f: Flags := if p == HARDWARE then {NoMap} else {};
    OtherKeeps(c, st.ipc, st.ipc.(flags := st.ipc.flags[p := f]));
    ReflagKeeps(c, st.ipc.flags, st.sched, p, f);
  }

  lemma {:induction false} BootLoopKeeps(c: Config, order: seq<Pid>)
    requires c.Legal()
    ensures Booting(c, BootLoop(c, order))
    ensures forall p: Pid :: p in order && p != HARDWARE ==> BootLoop(c, order).ipc.flags[p] == {}
  {
    if order == [] {
      ClearedOk(c);
    } else {
      var rest, p := order[..|order| - 1], order[|order| - 1];
      BootLoopKeeps(c, rest);
      AnnounceKeeps(c, BootLoop(c, rest), p);
      assert forall x: Pid :: x in order ==> x == p || x in rest;
    }
  }

  /** A process not yet announced is still a free slot on no queue. */
  lemma {:induction false} BootLoopFresh(c: Config, order: seq<Pid>, p: Pid)
    requires c.Legal() && p !in order
    ensures BootLoop(c, order).ipc.flags[p] == {SlotFree} && !Q.OnQueue(BootLoop(c, order).sched, p)
  {
    if order != [] { BootLoopFresh(c, order[..|order| - 1], p); }
    BootLoopKeeps(c, order);
  }

  lemma BootLoopStep(c: Config, order: seq<Pid>, i: nat)
    requires c.Legal() && Distinct(order) && i < |order|
    ensures var st := BootLoop(c, order[..i]);
            && BootLoop(c, order[..i + 1]) == Announce(c, st, order[i])
            && st.ipc.flags[order[i]] == {SlotFree} && !Q.OnQueue(st.sched, order[i])
  {
    assert order[..i + 1][..i] == order[..i];
    BootLoopFresh(c, order[..i], order[i]);
  }

  lemma BootOk(c: Config, order: seq<Pid>)
    requires c.Legal() && IDLE in order
    ensures Inv(c, Boot(c, order))
  {
    BootLoopKeeps(c, order);
    var st := BootLoop(c, order);
    BilledOk(c, st, IDLE);
    ResumeKeeps(c, st.(sched := st.sched.(bill := IDLE)));
  }

  lemma BilledOk(c: Config, st: State, p: Pid)
    requires KernelOk(c, st)
    ensures KernelOk(c, st.(sched := st.sched.(bill := p)))
  {
    var sc := st.sched.(bill := p);
    assert forall x: Pid :: Q.OnQueue(sc, x) == Q.OnQueue(st.sched, x);
  }
}
