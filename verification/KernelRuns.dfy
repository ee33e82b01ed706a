/** Whole runs of the kernel, with the clock task keeping to its program. */
module KernelRuns {
  import opened KernelTypes
  import opened Lists
  import opened WaitGraph
  import opened Rendezvous
  import opened RendezvousProofs
  import opened KernelMachine
  import opened KernelSafety
  import Q = ReadyQueues

  /** What the image table says of tasks and others: tasks are in the most urgent queue and never preempted. */
  ghost predicate Standard(c: Config) {
    && c.Legal() && c.OwnsPriv(CLOCK)
    && c.slots[CLOCK].maxPriority == 0 && (forall p: Pid :: !IsKernel(p) ==> c.slots[p].maxPriority > 0)
    && !c.Priv(CLOCK).preemptible && !c.Priv(SYSTEM).preemptible && !c.Priv(HARDWARE).preemptible
    && c.Priv(HARDWARE).trapMask == {}
  }

  // ---------------------------------------------------------------- the program of CLOCK

  /** The entry of the log that says that CLOCK has received HARD_INT. */
  predicate IsHardInt(c: Config, e: ArgEvent)
    requires c.Shape()
  {
    e.Reported? && e.id == c.slots[CLOCK].priv && e.src == HARDWARE
  }

  /** Between the two logs CLOCK has received HARD_INT. */
  ghost predicate Told(c: Config, args: seq<ArgEvent>, args': seq<ArgEvent>)
    requires c.Shape()
  {
    exists k :: |args| <= k < |args'| && IsHardInt(c, args'[k])
  }

  /** After k steps CLOCK has received HARD_INT and has not called do_clocktick yet. */
  ghost predicate Owed(c: Config, trace: seq<State>, events: seq<Event>, k: nat)
    requires c.Shape() && k <= |events| && |trace| == |events| + 1
  {
    k > 0 && Owes(c, Owed(c, trace, events, k - 1), trace[k - 1], events[k - 1], trace[k])
  }

  ghost predicate Owes(c: Config, owed: bool, st: State, e: Event, st': State)
    requires c.Shape()
  {
    !e.Requeue? && (owed || Told(c, st.ipc.log.args, st'.ipc.log.args))
  }

  /** clock_task: on HARD_INT call do_clocktick first, go back to receive(ANY) after whatever is left to do. */
  predicate Obeys(st: State, e: Event, owed: bool) {
    st.sched.current == CLOCK ==>
      match e
      case Trap(fn, nb, t, _) => !owed && fn == RECEIVE && !nb && t.AnyProc?
      case Requeue => owed
      case Interrupt(_, _) => true
      case Tick(_, _) => true
      case Compute(_, _) => true
      case _ => !owed
  }

  // ---------------------------------------------------------------- the invariant

  /** The process that do_clocktick would requeue can be preempted. */
  predicate Preempts(c: Config, st: State) requires c.Shape() { c.Priv(st.sched.expired).preemptible }

  ghost predicate ClockOk(c: Config, st: State, owed: bool) {
    && Ready(c, st) && st.sched.priority[CLOCK] == 0
    // CLOCK runs, or sleeps in receive(ANY)
    && (st.ipc.flags[CLOCK] == {} || (st.ipc.flags[CLOCK] == {Receiving} && st.ipc.getFrom[CLOCK] == Any))
    // only a task is interrupted while another process is already chosen
    && (!InTask(st) ==> st.sched.next == Nil)
    // a HARD_INT that CLOCK has not received is about a task
    && (c.slots[HARDWARE].priv in PrivOf(c, st.ipc, CLOCK).notify ==> !Preempts(c, st))
    && (owed ==> st.ipc.flags[CLOCK] == {})
    // one about another process is being handled: CLOCK has just been started
    && (owed && Preempts(c, st) ==>
          st.ipc.flags[st.sched.expired] == {} && st.sched.current == CLOCK && st.sched.next == Nil)
  }

  ghost predicate RunInv(c: Config, st: State, owed: bool) {
    Inv(c, st) && ClockOk(c, st, owed)
  }

  // ---------------------------------------------------------------- what leaves CLOCK alone

  /** What is pending for CLOCK from HARDWARE. */
  predicate HardIntPends(c: Config, m: Ipc)
    requires c.Shape() && |m.privs| == NR_SYS_PROCS
  {
    c.slots[HARDWARE].priv in PrivOf(c, m, CLOCK).notify
  }

  /** n is m but for changes that CLOCK notices at most by a message: it is not told of an interrupt. */
  ghost predicate Spares(c: Config, m: Ipc, n: Ipc)
    requires c.Shape() && Shape(m) && Shape(n)
  {
    && n.flags[CLOCK] <= m.flags[CLOCK] && n.getFrom[CLOCK] == m.getFrom[CLOCK]
    && (HardIntPends(c, n) ==> HardIntPends(c, m))
    && m.log.args <= n.log.args && !Told(c, m.log.args, n.log.args)
  }

  /** The same for the queues. */
  predicate Same(sc: Q.Sched, t: Q.Sched)
    requires |sc.priority| == |t.priority| == NR_SLOTS
  {
    t.priority[CLOCK] == sc.priority[CLOCK] && t.expired == sc.expired && t.current == sc.current
  }

  ghost predicate Aside(c: Config, st: State, s1: State)
    requires Ready(c, st)
  {
    Ready(c, s1) && Spares(c, st.ipc, s1.ipc) && Same(st.sched, s1.sched)
  }

  lemma AsideTwice(c: Config, st: State, s1: State, s2: State)
    requires Ready(c, st) && Aside(c, st, s1) && Aside(c, s1, s2)
    ensures Aside(c, st, s2)
  {
    var a, b, d := st.ipc.log.args, s1.ipc.log.args, s2.ipc.log.args;
    forall k | |a| <= k < |d| ensures !IsHardInt(c, d[k]) {
      if k < |b| { assert d[k] == b[k]; }
    }
  }

  lemma ReflagSame(c: Config, sc: Q.Sched, p: Pid, f: Flags, g: Flags)
    requires c.Legal() && Q.Shape(sc)
    ensures var t := Reflag(c, sc, p, f, g); Q.Shape(t) && Same(sc, t)
  {
    Q.NewPriorityInRange(c, sc, p);
  }

  lemma GotoAside(c: Config, st: State, n: Ipc, p: Pid)
    requires Ready(c, st) && Shape(n) && Spares(c, st.ipc, n)
    ensures Aside(c, st, Goto(c, st, n, p))
  {
    ReflagSame(c, st.sched, p, st.ipc.flags[p], n.flags[p]);
  }

  lemma SendAside(c: Config, st: State, caller: Pid, dst: Pid, ptr: Addr, nb: bool)
    requires Ready(c, st) && (nb || caller != CLOCK)
    ensures Aside(c, st, MiniSend(c, st, caller, dst, ptr, nb).0)
  {
    GotoAside(c, st, Deliver(st.ipc, caller, dst, ptr), dst);
    if caller != CLOCK { GotoAside(c, st, Block(st.ipc, caller, dst, ptr), caller); }
  }

  lemma TakeAside(c: Config, st: State, caller: Pid, id: SysId, ptr: Addr)
    requires Standard(c) && Ready(c, st) && caller != CLOCK
    ensures Aside(c, st, st.(ipc := PostNotice(c, Unpend(c, st.ipc, caller, id), c.privs[id].procNr, caller, ptr,
                                               st.realtime)))
  {
    assert c.slots[caller].priv != c.slots[CLOCK].priv;
  }

  lemma AcceptAside(c: Config, st: State, caller: Pid, i: nat, ptr: Addr)
    requires Ready(c, st) && IpcOk(c, st.ipc) && st.ipc.flags[CLOCK] <= {Receiving} && i < |st.ipc.callers[caller]|
    ensures Aside(c, st, Goto(c, st, Accept(st.ipc, caller, i, ptr), st.ipc.callers[caller][i]))
  {
    GotoAside(c, st, Accept(st.ipc, caller, i, ptr), st.ipc.callers[caller][i]);
  }

  lemma WaitAside(c: Config, st: State, caller: Pid, src: Peer, ptr: Addr)
    requires Ready(c, st) && caller != CLOCK
    ensures Aside(c, st, Goto(c, st, Wait(st.ipc, caller, src, ptr), caller))
  {
    GotoAside(c, st, Wait(st.ipc, caller, src, ptr), caller);
  }

  lemma ReceiveAside(c: Config, st: State, caller: Pid, src: Peer, ptr: Addr, nb: bool)
    requires Standard(c) && Ready(c, st) && IpcOk(c, st.ipc) && caller != CLOCK && st.ipc.flags[CLOCK] <= {Receiving}
    ensures Aside(c, st, MiniReceive(c, st, caller, src, ptr, nb).0)
  {
    var m := st.ipc;
    var i := FindCaller(m.callers[caller], src);
    var note := if IsSending(m, caller) || PrivOf(c, m, caller).busy then NotFound
                else FindNotice(c, PrivOf(c, m, caller).notify, src, 0);
    if note.FoundId? {
      TakeAside(c, st, caller, note.id, ptr);
    } else if !IsSending(m, caller) && i < |m.callers[caller]| {
      AcceptAside(c, st, caller, i, ptr);
    } else if !nb {
      WaitAside(c, st, caller, src, ptr);
    }
  }

  lemma NotifyAside(c: Config, st: State, src: Pid, dst: Pid)
    requires Standard(c) && Ready(c, st) && (src != HARDWARE || dst != CLOCK)
    ensures Aside(c, st, MiniNotify(c, st, src, dst))
  {
    var m := st.ipc;
    if dst != CLOCK { assert c.slots[dst].priv != c.slots[CLOCK].priv; }
    if src != HARDWARE { assert c.slots[src].priv != c.slots[HARDWARE].priv; }
    GotoAside(c, st, Unwait(PostNotice(c, m, src, dst, m.messBuf[dst], st.realtime), dst), dst);
  }

  lemma RaiseAside(c: Config, st: State, src: Pid, dst: Pid, bit: nat)
    requires Standard(c) && Ready(c, st)
    ensures Aside(c, st, st.(ipc := Raise(c, st.ipc, src, dst, bit)))
  {
  }

  lemma RaiseNotifyAside(c: Config, st: State, src: Pid, dst: Pid, bit: nat)
    requires Standard(c) && Ready(c, st) && (src != HARDWARE || dst != CLOCK)
    ensures Aside(c, st, MiniNotify(c, st.(ipc := Raise(c, st.ipc, src, dst, bit)), src, dst))
  {
    var s1 := st.(ipc := Raise(c, st.ipc, src, dst, bit));
    RaiseAside(c, st, src, dst, bit);
    NotifyAside(c, s1, src, dst);
    AsideTwice(c, st, s1, MiniNotify(c, s1, src, dst));
  }

  lemma CauseSigAside(c: Config, st: State, p: Pid, sig: nat)
    requires Standard(c) && Ready(c, st) && !IsKernel(p)
    ensures Aside(c, st, CauseSig(c, st, p, sig))
  {
    var m := st.ipc;
    if sig !in m.signals[p] && Signaled !in m.flags[p] {
      var s1 := Goto(c, st, KernelMachine.Held(m, p, sig), p);
      GotoAside(c, st, KernelMachine.Held(m, p, sig), p);
      RaiseNotifyAside(c, s1, SYSTEM, PM, SIGKSIG);
      AsideTwice(c, st, s1, CauseSig(c, st, p, sig));
    }
  }

  lemma EndKsigAside(c: Config, st: State, p: Pid)
    requires Ready(c, st)
    ensures Aside(c, st, EndKsig(c, st, p))
  {
    var m := st.ipc;
    GotoAside(c, st, m.(flags := m.flags[p := m.flags[p] - {SigPending}]), p);
  }

  lemma BusyAside(c: Config, st: State, p: Pid, b: bool)
    requires Ready(c, st)
    ensures Aside(c, st, st.(ipc := SetBusy(c, st.ipc, p, b)))
  {
  }

  /** SENDREC of another process than CLOCK. */
  lemma SendRecAside(c: Config, st: State, dst: Pid, ptr: Addr, nb: bool)
    requires Standard(c) && Inv(c, st) && st.sched.current != IDLE && st.sched.current != CLOCK
    requires (nb || st.sched.current != dst) && st.ipc.flags[CLOCK] <= {Receiving}
    ensures var (s1, r) := MiniSend(c, st, st.sched.current, dst, ptr, nb);
            && Aside(c, st, s1)
            && (r == OK ==> Aside(c, st, MiniReceive(c, s1, st.sched.current, From(dst), ptr, nb).0))
  {
    var caller := st.sched.current;
    var (s1, r) := MiniSend(c, st, caller, dst, ptr, nb);
    SendAside(c, st, caller, dst, ptr, nb);
    MiniSendKeepsIff(c, st, caller, dst, ptr, nb);
    if r == OK {
      ReceiveAside(c, s1, caller, From(dst), ptr, nb);
      AsideTwice(c, st, s1, MiniReceive(c, s1, caller, From(dst), ptr, nb).0);
    }
  }

  lemma SendRecCallAside(c: Config, st: State, nb: bool, t: Target, ptr: Addr)
    requires Standard(c) && Inv(c, st) && st.ipc.flags[CLOCK] <= {Receiving}
    requires st.sched.current != IDLE && st.sched.current != CLOCK && IsOkProc(t) && !BlocksOnSelf(st, SENDREC, nb, t)
    ensures Aside(c, st, Perform(c, st, SENDREC, nb, t, ptr).0)
  {
    var busy := st.(ipc := SetBusy(c, st.ipc, st.sched.current, true));
    BusyAside(c, st, st.sched.current, true);
    BusyKeeps(c, st, true);
    SendRecAside(c, busy, Slot(t), ptr, nb);
    AsideTwice(c, st, busy, Perform(c, st, SENDREC, nb, t, ptr).0);
  }

  lemma ReceiveCallAside(c: Config, st: State, nb: bool, t: Target, ptr: Addr)
    requires Standard(c) && Inv(c, st) && st.ipc.flags[CLOCK] <= {Receiving}
    requires st.sched.current != CLOCK && (IsOkProc(t) || t.AnyProc?)
    ensures Aside(c, st, Perform(c, st, RECEIVE, nb, t, ptr).0)
  {
    var busy := st.(ipc := SetBusy(c, st.ipc, st.sched.current, false));
    BusyAside(c, st, st.sched.current, false);
    BusyKeeps(c, st, false);
    ReceiveAside(c, busy, st.sched.current, Wanted(t), ptr, nb);
    AsideTwice(c, st, busy, MiniReceive(c, busy, st.sched.current, Wanted(t), ptr, nb).0);
  }

  /** A call that is carried out for another process than CLOCK. */
  lemma PerformAside(c: Config, st: State, fn: nat, nb: bool, t: Target, ptr: Addr)
    requires Standard(c) && Inv(c, st) && st.ipc.flags[CLOCK] <= {Receiving}
    requires st.sched.current != IDLE && st.sched.current != CLOCK && st.sched.current != HARDWARE
    requires (ChecksDst(fn) ==> IsOkProc(t)) && (IsOkProc(t) || t.AnyProc? || fn == ECHO)
    requires !BlocksOnSelf(st, fn, nb, t)
    ensures Aside(c, st, Perform(c, st, fn, nb, t, ptr).0)
  {
    if fn == SENDREC {
      SendRecCallAside(c, st, nb, t, ptr);
    } else if fn == RECEIVE {
      ReceiveCallAside(c, st, nb, t, ptr);
    } else if fn == SEND {
      SendAside(c, st, st.sched.current, Slot(t), ptr, nb);
    } else if fn == NOTIFY {
      NotifyAside(c, st, st.sched.current, Slot(t));
    }
  }

  lemma SysCallAside(c: Config, st: State, fn: nat, nb: bool, t: Target, ptr: Addr)
    requires Standard(c) && Inv(c, st) && st.ipc.flags[CLOCK] <= {Receiving} && st.sched.current != CLOCK
    requires Defined(c, st.sched.current, fn, t, ptr)
    requires Screen(c, st, fn, t, ptr) == OK ==> !BlocksOnSelf(st, fn, nb, t)
    ensures Aside(c, st, SysCall(c, st, fn, nb, t, ptr).0)
  {
    if Screen(c, st, fn, t, ptr) == OK { PerformAside(c, st, fn, nb, t, ptr); }
  }

  // ---------------------------------------------------------------- the steps that concern CLOCK

  /** With no HARD_INT about a preemptible process being handled, restart() may go anywhere. */
  lemma AsideResumes(c: Config, st: State, s1: State, owed: bool)
    requires Standard(c) && RunInv(c, st, owed) && Aside(c, st, s1) && (owed ==> !Preempts(c, st))
    ensures ClockOk(c, Resume(s1), owed)
  {
  }

  lemma AsideStays(c: Config, st: State, s1: State, owed: bool)
    requires Standard(c) && RunInv(c, st, owed) && Aside(c, st, s1) && InTask(st) && (owed ==> !Preempts(c, st))
    ensures ClockOk(c, s1, owed)
  {
  }

  /** A process of a less urgent queue gets ready while CLOCK is running: CLOCK goes on. */
  lemma WakeBelow(c: Config, sc: Q.Sched, p: Pid)
    requires Standard(c) && Q.QueuesOk(sc) && Q.PrioritiesOk(c, sc) && Q.ChoosesTop(sc) && Q.OnQueue(sc, CLOCK)
    requires sc.priority[CLOCK] == 0 && sc.current == CLOCK && sc.next == Nil && !IsKernel(p)
    ensures Q.Restart(Q.Enqueue(c, sc, p)).current == CLOCK
  {
    Q.PolicyKeeps(c, sc, p);
    assert Q.FirstReady(sc.ready, 0) == To(sc.ready[0][0]);
  }

  lemma EnqueuedFirst(c: Config, sc: Q.Sched, p: Pid)
    requires c.Legal() && Q.Shape(sc) && IsKernel(p) && sc.priority[p] == 0 && sc.ready[0] == []
    ensures Q.Enqueue(c, sc, p).next == To(p)
  {
    Q.NewPriorityInRange(c, sc, p);
    assert Q.Enqueue(c, sc, p).ready[0] == [p];
  }

  /** An interrupt for a driver while CLOCK is running. */
  lemma HardIntStays(c: Config, st: State, dst: Pid, bit: nat)
    requires Standard(c) && Inv(c, st) && !IsKernel(dst)
    requires st.sched.priority[CLOCK] == 0 && st.sched.current == CLOCK && st.sched.next == Nil
    ensures var s1 := Resume(HardInt(c, st, dst, bit)); s1.sched.current == CLOCK && s1.sched.next == Nil
  {
    if st.ipc.flags[dst] != {} { WakeBelow(c, st.sched, dst); }
  }

  lemma InterruptKeeps(c: Config, st: State, owed: bool, dst: Pid, bit: nat)
    requires Standard(c) && RunInv(c, st, owed) && !IsKernel(dst)
    ensures var s1 := Resume(HardInt(c, st, dst, bit));
            ClockOk(c, s1, owed) && !Told(c, st.ipc.log.args, s1.ipc.log.args)
  {
    RaiseNotifyAside(c, st, HARDWARE, dst, bit);
    RaiseNotifyKeeps(c, st, HARDWARE, dst, bit);
    if owed && Preempts(c, st) {
      HardIntStays(c, st, dst, bit);
    } else {
      AsideResumes(c, st, HardInt(c, st, dst, bit), owed);
    }
  }

  lemma TopQueue(sc: Q.Sched, p: Pid)
    requires Q.QueuesOk(sc) && Q.FirstReady(sc.ready, 0) == To(p)
    ensures sc.ready[0] == [] || sc.priority[p] == 0
  {
    if sc.ready[0] != [] { assert p in sc.ready[0]; }
  }

  /** A process that can be preempted runs only while CLOCK sleeps, with nothing pending. */
  lemma ClockSleeps(c: Config, st: State, owed: bool)
    requires Standard(c) && RunInv(c, st, owed) && c.Priv(st.sched.current).preemptible
    ensures !owed && st.ipc.flags[CLOCK] == {Receiving} && st.ipc.getFrom[CLOCK] == Any && st.sched.ready[0] == []
    ensures PrivOf(c, st.ipc, CLOCK).notify == {} && !PrivOf(c, st.ipc, CLOCK).busy
  {
    var sc := st.sched;
    assert Q.OnQueue(sc, sc.current) && sc.next == Nil;
    Q.FirstReadyIsTop(sc.ready, 0);
    TopQueue(sc, sc.current);
    assert Q.OnQueue(sc, CLOCK) <==> st.ipc.flags[CLOCK] == {};
  }

  /** What a notification from HARDWARE does to CLOCK. */
  lemma ClockNotified(c: Config, st: State)
    requires Standard(c) && Ready(c, st)
    ensures var s1 := MiniNotify(c, st, HARDWARE, CLOCK);
            && Ready(c, s1) && Same(st.sched, s1.sched)
            && s1.ipc.flags[CLOCK] <= st.ipc.flags[CLOCK] && s1.ipc.getFrom[CLOCK] == st.ipc.getFrom[CLOCK]
            && (Told(c, st.ipc.log.args, s1.ipc.log.args) ==> Receiving !in s1.ipc.flags[CLOCK])
  {
    ReflagSame(c, st.sched, CLOCK, st.ipc.flags[CLOCK], st.ipc.flags[CLOCK] - {Receiving});
  }

  /** What a clock interrupt that wakes CLOCK does to it. */
  lemma Woken(c: Config, st: State, lost: nat, timeout: nat)
    requires Standard(c) && KernelOk(c, st) && Fires(c, st, lost, timeout)
    ensures var s1 := ClockHandler(c, st, lost, timeout);
            && Ready(c, s1) && s1.sched.priority[CLOCK] == st.sched.priority[CLOCK]
            && s1.sched.expired == s1.sched.current == st.sched.current
            && s1.ipc.flags[CLOCK] <= st.ipc.flags[CLOCK] && s1.ipc.getFrom[CLOCK] == st.ipc.getFrom[CLOCK]
            && (Told(c, st.ipc.log.args, s1.ipc.log.args) ==> Receiving !in s1.ipc.flags[CLOCK])
  {
    var ticks, now := Charge(c, st.sched, lost + 1), st.realtime + lost + 1;
    var s1 := st.(realtime := now, sched := st.sched.(ticks := ticks, expired := st.sched.current));
    ClockNotified(c, s1);
    assert ClockHandler(c, st, lost, timeout) == MiniNotify(c, s1, HARDWARE, CLOCK);
  }

  /** A sleeping CLOCK is told at once, and goes to the head of the most urgent queue. */
  lemma WokenFirst(c: Config, st: State, lost: nat, timeout: nat)
    requires Standard(c) && KernelOk(c, st) && Fires(c, st, lost, timeout) && st.sched.priority[CLOCK] == 0
    requires st.ipc.flags[CLOCK] == {Receiving} && st.ipc.getFrom[CLOCK] == Any && st.sched.ready[0] == []
    requires PrivOf(c, st.ipc, CLOCK).notify == {} && !PrivOf(c, st.ipc, CLOCK).busy
    ensures var s1 := ClockHandler(c, st, lost, timeout);
            && s1.ipc.flags[CLOCK] == {} && PrivOf(c, s1.ipc, CLOCK).notify == {} && s1.sched.next == To(CLOCK)
  {
    var ticks, now := Charge(c, st.sched, lost + 1), st.realtime + lost + 1;
    var s1 := st.(realtime := now, sched := st.sched.(ticks := ticks, expired := st.sched.current));
    assert ClockHandler(c, st, lost, timeout) == MiniNotify(c, s1, HARDWARE, CLOCK);
    EnqueuedFirst(c, s1.sched, CLOCK);
  }

  /** The tick that charges a preemptible process and fires starts CLOCK at once. */
  lemma FiringStarts(c: Config, st: State, owed: bool, lost: nat, timeout: nat)
    requires Standard(c) && RunInv(c, st, owed) && Fires(c, st, lost, timeout) && c.Priv(st.sched.current).preemptible
    ensures ClockOk(c, Resume(ClockHandler(c, st, lost, timeout)), true)
  {
    ClockSleeps(c, st, owed);
    Woken(c, st, lost, timeout);
    WokenFirst(c, st, lost, timeout);
    FiringKeeps(c, st, lost, timeout);
  }

  /** One that fires while a task is running says so, or leaves a notice. */
  lemma FiringInTask(c: Config, st: State, owed: bool, lost: nat, timeout: nat)
    requires Standard(c) && RunInv(c, st, owed) && Fires(c, st, lost, timeout)
    requires !c.Priv(st.sched.current).preemptible
    ensures var s1 := Resume(ClockHandler(c, st, lost, timeout));
            ClockOk(c, s1, owed || Told(c, st.ipc.log.args, s1.ipc.log.args))
  {
    Woken(c, st, lost, timeout);
  }

  lemma TickKeeps(c: Config, st: State, owed: bool, lost: nat, timeout: nat)
    requires Standard(c) && RunInv(c, st, owed)
    ensures var s1 := Resume(ClockHandler(c, st, lost, timeout));
            ClockOk(c, s1, owed || Told(c, st.ipc.log.args, s1.ipc.log.args))
  {
    if Fires(c, st, lost, timeout) {
      if c.Priv(st.sched.current).preemptible {
        FiringStarts(c, st, owed, lost, timeout);
      } else {
        FiringInTask(c, st, owed, lost, timeout);
      }
    }
  }

  /** CLOCK takes a pending notification: if that is HARD_INT, it is about a task. */
  lemma ClockTakes(c: Config, st: State, id: SysId, ptr: Addr)
    requires Standard(c) && RunInv(c, st, false) && st.ipc.flags[CLOCK] == {} && id in PrivOf(c, st.ipc, CLOCK).notify
    ensures var s1 := st.(ipc := PostNotice(c, Unpend(c, st.ipc, CLOCK, id), c.privs[id].procNr, CLOCK, ptr,
                                            st.realtime));
            ClockOk(c, Resume(s1), Told(c, st.ipc.log.args, s1.ipc.log.args))
  {
  }

  lemma ClockSleepsAgain(c: Config, st: State, ptr: Addr)
    requires Standard(c) && RunInv(c, st, false) && st.ipc.flags[CLOCK] == {}
    ensures ClockOk(c, Resume(Goto(c, st, Wait(st.ipc, CLOCK, Any, ptr), CLOCK)), false)
  {
    ReflagSame(c, st.sched, CLOCK, {}, {Receiving});
  }

  lemma ClockAccepts(c: Config, st: State, i: nat, ptr: Addr)
    requires Standard(c) && RunInv(c, st, false) && st.ipc.flags[CLOCK] == {} && i < |st.ipc.callers[CLOCK]|
    ensures var s1 := Goto(c, st, Accept(st.ipc, CLOCK, i, ptr), st.ipc.callers[CLOCK][i]);
            ClockOk(c, Resume(s1), false) && !Told(c, st.ipc.log.args, s1.ipc.log.args)
  {
    AcceptAside(c, st, CLOCK, i, ptr);
    AsideResumes(c, st, Goto(c, st, Accept(st.ipc, CLOCK, i, ptr), st.ipc.callers[CLOCK][i]), false);
  }

  lemma ClockReceives(c: Config, st: State, ptr: Addr)
    requires Standard(c) && RunInv(c, st, false) && st.sched.current == CLOCK && !PrivOf(c, st.ipc, CLOCK).busy
    ensures var s1 := MiniReceive(c, st, CLOCK, Any, ptr, false).0;
            ClockOk(c, Resume(s1), Told(c, st.ipc.log.args, s1.ipc.log.args))
  {
    var note, i := FindNotice(c, PrivOf(c, st.ipc, CLOCK).notify, Any, 0), FindCaller(st.ipc.callers[CLOCK], Any);
    if note.FoundId? {
      ClockTakes(c, st, note.id, ptr);
    } else if i < |st.ipc.callers[CLOCK]| {
      ClockAccepts(c, st, i, ptr);
    } else {
      ClockSleepsAgain(c, st, ptr);
    }
  }

  lemma ClockTraps(c: Config, st: State, ptr: Addr)
    requires Standard(c) && RunInv(c, st, false) && st.sched.current == CLOCK
    ensures var s1 := Resume(SysCall(c, st, RECEIVE, false, AnyProc, ptr).0);
            ClockOk(c, s1, Told(c, st.ipc.log.args, s1.ipc.log.args))
  {
    if Screen(c, st, RECEIVE, AnyProc, ptr) == OK {
      BusyAside(c, st, CLOCK, false);
      BusyKeeps(c, st, false);
      ClockReceives(c, st.(ipc := SetBusy(c, st.ipc, CLOCK, false)), ptr);
    }
  }

  /** do_clocktick in its place: the process it requeues is still runnable. */
  lemma RequeueIsSafe(c: Config, st: State)
    requires RunInv(c, st, true)
    ensures QuantumUsed(c, st.sched) ==> st.ipc.flags[st.sched.expired] == {}
  {
  }

  lemma RequeueKeeps(c: Config, st: State)
    requires Standard(c) && RunInv(c, st, true) && st.sched.current == CLOCK
    ensures ClockOk(c, DoClocktick(c, st), false)
  {
    RequeueIsSafe(c, st);
    DoClocktickKeepsIff(c, st);
    if QuantumUsed(c, st.sched) {
      ReflagSame(c, st.sched, st.sched.expired, {}, {Receiving});
      ReflagSame(c, Q.Dequeue(c, st.sched, st.sched.expired), st.sched.expired, {Receiving}, {});
    }
  }

  // ---------------------------------------------------------------- runs

  /** A trap of another process than CLOCK. */
  lemma TrapAside(c: Config, st: State, owed: bool, e: Event)
    requires Standard(c) && RunInv(c, st, owed) && e.Trap? && Enabled(c, st, e) && Safe(c, st, e)
    requires st.sched.current != CLOCK
    ensures ClockOk(c, Step(c, st, e), owed) && !Told(c, st.ipc.log.args, Step(c, st, e).ipc.log.args)
  {
    SysCallAside(c, st, e.fn, e.nonBlocking, e.target, e.ptr);
    AsideResumes(c, st, SysCall(c, st, e.fn, e.nonBlocking, e.target, e.ptr).0, owed);
  }

  /** A step of a task, but for the requeue. */
  lemma TaskAside(c: Config, st: State, e: Event)
    requires Standard(c) && Inv(c, st) && Enabled(c, st, e)
    requires !e.Trap? && !e.Interrupt? && !e.Tick? && !e.Fault? && !e.Requeue? && !e.Compute?
    ensures Aside(c, st, Step(c, st, e))
  {
    match e
    case Signal(x, sig) => CauseSigAside(c, st, x, sig);
    case TaskNotify(src, dst) => NotifyAside(c, st, src, dst);
    case TaskSend(dst, ptr) => SendAside(c, st, st.sched.current, dst, ptr, true);
    case TaskSendSig(dst, sig) => RaiseNotifyAside(c, st, SYSTEM, dst, sig);
    case TakeSignals => GetKsigAside(c, st);
    case EndSignals(x) => EndKsigAside(c, st, x);
  }

  lemma GetKsigAside(c: Config, st: State)
    requires Ready(c, st)
    ensures Aside(c, st, GetKsig(st))
  {
  }

  lemma FaultKeeps(c: Config, st: State, owed: bool, sig: nat)
    requires Standard(c) && RunInv(c, st, owed) && !IsKernel(st.sched.current)
    ensures var s1 := Resume(CauseSig(c, st, st.sched.current, sig));
            ClockOk(c, s1, owed) && !Told(c, st.ipc.log.args, s1.ipc.log.args)
  {
    CauseSigAside(c, st, st.sched.current, sig);
    AsideResumes(c, st, CauseSig(c, st, st.sched.current, sig), owed);
  }

  /** Every step that CLOCK's program allows keeps what the clock relies on. */
  lemma ClockKeeps(c: Config, st: State, owed: bool, e: Event)
    requires Standard(c) && RunInv(c, st, owed)
    requires Enabled(c, st, e) && (e.Trap? ==> Safe(c, st, e)) && Obeys(st, e, owed)
    ensures ClockOk(c, Step(c, st, e), Owes(c, owed, st, e, Step(c, st, e)))
  {
    match e
    case Trap(_, _, _, ptr) =>
      if st.sched.current == CLOCK { ClockTraps(c, st, ptr); } else { TrapAside(c, st, owed, e); }
    case Interrupt(dst, bit) => InterruptKeeps(c, st, owed, dst, bit);
    case Tick(lost, timeout) => TickKeeps(c, st, owed, lost, timeout);
    case Fault(sig) => FaultKeeps(c, st, owed, sig);
    case Requeue => RequeueKeeps(c, st);
    case Compute(_, _) =>
    case _ =>
      TaskAside(c, st, e);
      AsideStays(c, st, Step(c, st, e), owed);
  }

  lemma RunStep(c: Config, st: State, owed: bool, e: Event)
    requires Standard(c) && RunInv(c, st, owed)
    requires Enabled(c, st, e) && (e.Trap? ==> Safe(c, st, e)) && Obeys(st, e, owed)
    ensures Safe(c, st, e)
    ensures RunInv(c, Step(c, st, e), Owes(c, owed, st, e, Step(c, st, e)))
  {
    if e.Requeue? { RequeueIsSafe(c, st); }
    StepKeepsIff(c, st, e);
    ClockKeeps(c, st, owed, e);
  }

  /**
   * A run: boot with IDLE and CLOCK in the image, then any enabled steps, as long as CLOCK keeps to its
   * program and no process blocks in a send to itself.
   */
  ghost predicate Run(c: Config, order: seq<Pid>, trace: seq<State>, events: seq<Event>) {
    && Standard(c) && IDLE in order && CLOCK in order
    && |trace| == |events| + 1 && trace[0] == Boot(c, order)
    && forall i :: 0 <= i < |events| ==>
         && Ready(c, trace[i]) && Enabled(c, trace[i], events[i])
         && (events[i].Trap? ==> Safe(c, trace[i], events[i]))
         && Obeys(trace[i], events[i], Owed(c, trace, events, i))
         && trace[i + 1] == Step(c, trace[i], events[i])
  }

  lemma RunStarts(c: Config, order: seq<Pid>)
    requires Standard(c) && IDLE in order && CLOCK in order
    ensures Run(c, order, [Boot(c, order)], [])
  {
  }

  lemma {:induction false} BootLoopClock(c: Config, order: seq<Pid>)
    requires Standard(c)
    ensures var st := BootLoop(c, order);
            && st.sched.priority[CLOCK] == 0 && st.sched.expired == IDLE
            && forall i: SysId :: st.ipc.privs[i] == Priv(false, {}, {}, {})
  {
    if order != [] {
      var rest, p := order[..|order| - 1], order[|order| - 1];
      BootLoopClock(c, rest);
      ReflagSame(c, BootLoop(c, rest).sched, p, BootLoop(c, rest).ipc.flags[p], if p == HARDWARE then {NoMap} else {});
    }
  }

  lemma BootClockOk(c: Config, order: seq<Pid>)
    requires Standard(c) && IDLE in order && CLOCK in order
    ensures ClockOk(c, Boot(c, order), false)
  {
    BootOk(c, order);
    BootLoopClock(c, order);
    BootLoopKeeps(c, order);
  }

  /** Every state of every run satisfies the invariant. */
  lemma {:induction false} RunIsSafe(c: Config, order: seq<Pid>, trace: seq<State>, events: seq<Event>, k: nat)
    requires Run(c, order, trace, events) && k < |trace|
    ensures RunInv(c, trace[k], Owed(c, trace, events, k))
    decreases k
  {
    if k == 0 {
      BootOk(c, order);
      BootClockOk(c, order);
    } else {
      RunIsSafe(c, order, trace, events, k - 1);
      RunStep(c, trace[k - 1], Owed(c, trace, events, k - 1), events[k - 1]);
    }
  }

  lemma RunKeepsInv(c: Config, order: seq<Pid>, trace: seq<State>, events: seq<Event>, k: nat)
    requires Run(c, order, trace, events) && k < |trace|
    ensures Inv(c, trace[k])
  {
    RunIsSafe(c, order, trace, events, k);
  }

  /** Whenever CLOCK comes to do_clocktick, the process it is to requeue is still runnable. */
  lemma EveryRequeueIsSafe(c: Config, order: seq<Pid>, trace: seq<State>, events: seq<Event>, k: nat)
    requires Run(c, order, trace, events) && k < |events| && events[k].Requeue?
    ensures Safe(c, trace[k], events[k])
  {
    RunIsSafe(c, order, trace, events, k);
    RequeueIsSafe(c, trace[k]);
  }
}
