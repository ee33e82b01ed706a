/** What one step of the kernel does to notifications and signals. */
module NoticeSteps {
  import opened KernelTypes
  import opened WaitGraph
  import opened Rendezvous
  import opened KernelMachine
  import opened KernelSafety
  import opened MessageSteps
  import Q = ReadyQueues

  // ---------------------------------------------------------------- notifications and signals

  /** In going from m to n the bits of raised were raised and nothing else; no pending notification was lost but by
      being handed out, and one that woke its receiver found SENDREC_BUSY off. */
  ghost predicate Announces(c: Config, m: Ipc, n: Ipc, raised: seq<ArgEvent>, taker: Link)
    requires c.Shape() && Shape(m) && Shape(n)
  {
    var hand := Newest(m.log, n.log, 0);
    && m.log.args + raised <= n.log.args && |n.log.args| <= |m.log.args| + |raised| + 1
    && (|n.log.args| > |m.log.args| + |raised| ==> hand.Hands? && hand.notice)
    && (forall i: SysId, k: SysId :: k in m.privs[i].notify && k !in n.privs[i].notify ==>
          hand.Hands? && hand.notice && c.slots[hand.to].priv == i && hand.msg.source == c.privs[k].procNr)
    && (hand.Hands? && hand.notice && taker != To(hand.to) ==> !PrivOf(c, m, hand.to).busy)
  }

  /** dst has been notified by src, or will be. */
  ghost predicate Notified(c: Config, m: Ipc, n: Ipc, src: Pid, dst: Pid)
    requires c.Shape() && Shape(m) && Shape(n)
  {
    var hand := Newest(m.log, n.log, 0);
    || (hand.Hands? && hand.notice && hand.to == dst && hand.msg.source == src)
    || c.slots[src].priv in PrivOf(c, n, dst).notify
  }

  lemma NotifyAnnounces(c: Config, st: State, src: Pid, dst: Pid)
    requires Ready(c, st)
    ensures var n := MiniNotify(c, st, src, dst).ipc;
            Announces(c, st.ipc, n, [], Nil) && Notified(c, st.ipc, n, src, dst)
  {
  }

  lemma RaiseNotifyAnnounces(c: Config, st: State, src: Pid, dst: Pid, bit: nat)
    requires Ready(c, st)
    ensures var n := MiniNotify(c, st.(ipc := Raise(c, st.ipc, src, dst, bit)), src, dst).ipc;
            && Announces(c, st.ipc, n, [Raised(c.slots[dst].priv, src, bit)], Nil)
            && Notified(c, st.ipc, n, src, dst)
  {
  }

  lemma SendAnnounces(c: Config, st: State, caller: Pid, dst: Pid, ptr: Addr, nb: bool)
    requires Ready(c, st)
    ensures Announces(c, st.ipc, MiniSend(c, st, caller, dst, ptr, nb).0.ipc, [], Nil)
  {
  }

  lemma ReceiveAnnounces(c: Config, st: State, caller: Pid, src: Peer, ptr: Addr, nb: bool)
    requires Ready(c, st)
    ensures Announces(c, st.ipc, MiniReceive(c, st, caller, src, ptr, nb).0.ipc, [], To(caller))
  {
  }

  lemma CauseSigAnnounces(c: Config, st: State, p: Pid, sig: nat)
    requires Ready(c, st)
    ensures var n := CauseSig(c, st, p, sig).ipc;
            var first := sig !in st.ipc.signals[p] && Signaled !in st.ipc.flags[p];
            && Announces(c, st.ipc, n, if first then [Raised(c.slots[PM].priv, SYSTEM, SIGKSIG)] else [], Nil)
            && (first ==> Notified(c, st.ipc, n, SYSTEM, PM))
            && n.signals == st.ipc.signals[p := st.ipc.signals[p] + {sig}]
            && (sig !in st.ipc.signals[p] ==> Signaled in n.flags[p])
  {
    if sig in st.ipc.signals[p] {
      assert st.ipc.signals[p] + {sig} == st.ipc.signals[p];
    } else if Signaled !in st.ipc.flags[p] {
      GotoShape(c);
      RaiseNotifyAnnounces(c, Goto(c, st, Held(st.ipc, p, sig), p), SYSTEM, PM, SIGKSIG);
    }
  }

  /** The bits that a step raises. */
  ghost function RaisedBy(c: Config, st: State, e: Event): seq<ArgEvent>
    requires Ready(c, st)
  {
    var p := if e.Signal? then e.p else st.sched.current;
    match e
    case Interrupt(dst, bit) => [Raised(c.slots[dst].priv, HARDWARE, bit)]
    case TaskSendSig(dst, sig) => [Raised(c.slots[dst].priv, SYSTEM, sig)]
    case Signal(_, sig) => FirstSignal(c, st.ipc, p, sig)
    case Fault(sig) => FirstSignal(c, st.ipc, p, sig)
    case _ => []
  }

  /** PM is sent SIGKSIG when a process gets its first pending signal. */
  ghost function FirstSignal(c: Config, m: Ipc, p: Pid, sig: nat): seq<ArgEvent>
    requires c.Shape() && Shape(m)
  {
    if sig !in m.signals[p] && Signaled !in m.flags[p] then [Raised(c.slots[PM].priv, SYSTEM, SIGKSIG)] else []
  }

  lemma SendRecAnnounces(c: Config, st: State, nb: bool, t: Target, ptr: Addr)
    requires Tidy(c, st) && IsOkProc(t)
    ensures var n := Perform(c, st, SENDREC, nb, t, ptr).0.ipc; Shape(n) && Announces(c, st.ipc, n, [], Nil)
  {
    var busy, caller := st.(ipc := SetBusy(c, st.ipc, st.sched.current, true)), st.sched.current;
    BusyTidy(c, st, true);
    SendAnnounces(c, busy, caller, Slot(t), ptr, nb);
    SendLogged(c, busy, caller, Slot(t), ptr, nb);
    if MiniSend(c, busy, caller, Slot(t), ptr, nb).1 == OK { ReplyAwaited(c, busy, caller, Slot(t), ptr, nb); }
  }

  lemma ReceiveCallAnnounces(c: Config, st: State, nb: bool, t: Target, ptr: Addr)
    requires Tidy(c, st) && (IsOkProc(t) || t.AnyProc?)
    ensures var n := Perform(c, st, RECEIVE, nb, t, ptr).0.ipc;
            Shape(n) && Announces(c, st.ipc, n, [], To(st.sched.current))
  {
    var busy := st.(ipc := SetBusy(c, st.ipc, st.sched.current, false));
    ReceiveAnnounces(c, busy, st.sched.current, Wanted(t), ptr, nb);
  }

  /** Every bit is raised, every notification sent and none lost, as the step asks. */
  ghost predicate Notifies(c: Config, st: State, e: Event, st': State)
    requires Ready(c, st) && Enabled(c, st, e)
  {
    var m, n, p := st.ipc, st'.ipc, st.sched.current;
    && Shape(n) && Announces(c, m, n, RaisedBy(c, st, e), Taker(st, e))
    && match e
       case Trap(fn, _, t, ptr) =>
         fn == NOTIFY && Screen(c, st, fn, t, ptr) == OK ==> Notified(c, m, n, p, Slot(t))
       case Interrupt(dst, _) => Notified(c, m, n, HARDWARE, dst)
       case Tick(lost, timeout) => Fires(c, st, lost, timeout) ==> Notified(c, m, n, HARDWARE, CLOCK)
       case TaskNotify(src, dst) => Notified(c, m, n, src, dst)
       case TaskSendSig(dst, _) => Notified(c, m, n, SYSTEM, dst)
       case Signal(_, _) => RaisedBy(c, st, e) != [] ==> Notified(c, m, n, SYSTEM, PM)
       case Fault(_) => RaisedBy(c, st, e) != [] ==> Notified(c, m, n, SYSTEM, PM)
       case _ => true
  }

  lemma NothingAnnounced(c: Config, m: Ipc, n: Ipc, taker: Link)
    requires c.Shape() && Shape(m) && Shape(n) && n.privs == m.privs && n.log == m.log
    ensures Announces(c, m, n, [], taker)
  {
  }

  lemma TrapNotifies(c: Config, st: State, e: Event)
    requires Tidy(c, st) && Enabled(c, st, e) && e.Trap?
    ensures Notifies(c, st, e, Step(c, st, e))
  {
    if Screen(c, st, e.fn, e.target, e.ptr) != OK {
      NothingAnnounced(c, st.ipc, st.ipc, Taker(st, e));
    } else if e.fn == SENDREC {
      SendRecAnnounces(c, st, e.nonBlocking, e.target, e.ptr);
    } else if e.fn == SEND {
      SendAnnounces(c, st, st.sched.current, Slot(e.target), e.ptr, e.nonBlocking);
    } else if e.fn == RECEIVE {
      ReceiveCallAnnounces(c, st, e.nonBlocking, e.target, e.ptr);
    } else if e.fn == NOTIFY {
      NotifyAnnounces(c, st, st.sched.current, Slot(e.target));
    } else {
      NothingAnnounced(c, st.ipc, Step(c, st, e).ipc, Nil);
    }
  }

  lemma TickNotifies(c: Config, st: State, lost: nat, timeout: nat)
    requires Ready(c, st)
    ensures var n := ClockHandler(c, st, lost, timeout).ipc;
            && Shape(n) && Announces(c, st.ipc, n, [], Nil)
            && (Fires(c, st, lost, timeout) ==> Notified(c, st.ipc, n, HARDWARE, CLOCK))
  {
    var sc, now := st.sched, st.realtime + lost + 1;
    NotifyAnnounces(c, st.(realtime := now, sched := sc.(ticks := Charge(c, sc, lost + 1), expired := sc.current)),
                    HARDWARE, CLOCK);
    NothingAnnounced(c, st.ipc, st.ipc, Nil);
  }

  lemma InterruptNotifies(c: Config, st: State, e: Event)
    requires Tidy(c, st) && Enabled(c, st, e) && (e.Interrupt? || e.Tick? || e.Fault? || e.Signal?)
    ensures Notifies(c, st, e, Step(c, st, e))
  {
    match e
    case Interrupt(dst, bit) => RaiseNotifyAnnounces(c, st, HARDWARE, dst, bit);
    case Tick(lost, timeout) => TickNotifies(c, st, lost, timeout);
    case Fault(sig) => CauseSigAnnounces(c, st, st.sched.current, sig);
    case Signal(x, sig) => CauseSigAnnounces(c, st, x, sig);
  }

  lemma StepNotifies(c: Config, st: State, e: Event)
    requires Tidy(c, st) && Enabled(c, st, e)
    ensures Notifies(c, st, e, Step(c, st, e))
  {
    match e
    case Trap(_, _, _, _) => TrapNotifies(c, st, e);
    case TaskNotify(src, dst) => NotifyAnnounces(c, st, src, dst);
    case TaskSend(dst, ptr) => SendAnnounces(c, st, st.sched.current, dst, ptr, true);
    case TaskSendSig(dst, sig) => RaiseNotifyAnnounces(c, st, SYSTEM, dst, sig);
    case TakeSignals => NothingAnnounced(c, st.ipc, Step(c, st, e).ipc, Nil);
    case EndSignals(x) => NothingAnnounced(c, st.ipc, Step(c, st, e).ipc, Nil);
    case Requeue => NothingAnnounced(c, st.ipc, Step(c, st, e).ipc, Nil);
    case Compute(_, _) => NothingAnnounced(c, st.ipc, Step(c, st, e).ipc, Nil);
    case _ => InterruptNotifies(c, st, e);
  }

  // ---------------------------------------------------------------- signals

  const IpcFlags: Flags := {Sending, Receiving}

  /** Nobody's signals change, and no flag but SENDING and RECEIVING. */
  ghost predicate NoSignals(m: Ipc, n: Ipc)
    requires Shape(m) && Shape(n)
  {
    n.signals == m.signals && forall q: Pid :: n.flags[q] - IpcFlags == m.flags[q] - IpcFlags
  }

  /** The same for all but p. */
  ghost predicate SignalsOf(m: Ipc, n: Ipc, p: Pid)
    requires Shape(m) && Shape(n)
  {
    && n.signals == m.signals[p := n.signals[p]]
    && forall q: Pid :: q != p ==> n.flags[q] - IpcFlags == m.flags[q] - IpcFlags
  }

  /** A signal is added to those of its process, which is held for PM; SYS_GETKSIG takes all signals of one process;
      SYS_ENDKSIG lets a process go on that got no new signal. */
  ghost predicate SignalSteps(st: State, e: Event, st': State)
    requires Shape(st.ipc) && Shape(st'.ipc)
  {
    var m, n := st.ipc, st'.ipc;
    match e
    case Signal(p, sig) => SignalsOf(m, n, p) && n.signals[p] == m.signals[p] + {sig}
    case Fault(sig) => var p := st.sched.current; SignalsOf(m, n, p) && n.signals[p] == m.signals[p] + {sig}
    case TakeSignals =>
      (match SignaledProc(m.flags)
       case Nil => NoSignals(m, n)
       case To(p) => SignalsOf(m, n, p) && n.signals[p] == {} && n.flags[p] == m.flags[p] - {Signaled})
    case EndSignals(p) =>
      && SignalsOf(m, n, p) && n.signals == m.signals
      && n.flags[p] == if Signaled in m.flags[p] then m.flags[p] else m.flags[p] - {SigPending}
    case _ => NoSignals(m, n)
  }

  lemma NotifyNoSignals(c: Config, st: State, src: Pid, dst: Pid)
    requires Ready(c, st)
    ensures NoSignals(st.ipc, MiniNotify(c, st, src, dst).ipc)
  {
  }

  lemma SendNoSignals(c: Config, st: State, caller: Pid, dst: Pid, ptr: Addr, nb: bool)
    requires Ready(c, st)
    ensures NoSignals(st.ipc, MiniSend(c, st, caller, dst, ptr, nb).0.ipc)
  {
  }

  lemma ReceiveNoSignals(c: Config, st: State, caller: Pid, src: Peer, ptr: Addr, nb: bool)
    requires Ready(c, st)
    ensures NoSignals(st.ipc, MiniReceive(c, st, caller, src, ptr, nb).0.ipc)
  {
  }

  lemma CauseSigSignals(c: Config, st: State, p: Pid, sig: nat)
    requires Ready(c, st)
    ensures SignalsOf(st.ipc, CauseSig(c, st, p, sig).ipc, p)
    ensures CauseSig(c, st, p, sig).ipc.signals[p] == st.ipc.signals[p] + {sig}
  {
    var m := st.ipc;
    if sig !in m.signals[p] && Signaled !in m.flags[p] {
      GotoShape(c);
      var s1 := Goto(c, st, Held(m, p, sig), p);
      NotifyNoSignals(c, s1.(ipc := Raise(c, s1.ipc, SYSTEM, PM, SIGKSIG)), SYSTEM, PM);
    }
  }

  lemma SendRecNoSignals(c: Config, st: State, nb: bool, t: Target, ptr: Addr)
    requires Ready(c, st) && IsOkProc(t)
    ensures var n := Perform(c, st, SENDREC, nb, t, ptr).0.ipc; Shape(n) && NoSignals(st.ipc, n)
  {
    GotoShape(c);
    var busy, caller := st.(ipc := SetBusy(c, st.ipc, st.sched.current, true)), st.sched.current;
    SendNoSignals(c, busy, caller, Slot(t), ptr, nb);
    ReceiveNoSignals(c, MiniSend(c, busy, caller, Slot(t), ptr, nb).0, caller, From(Slot(t)), ptr, nb);
  }

  lemma TrapNoSignals(c: Config, st: State, fn: nat, nb: bool, t: Target, ptr: Addr)
    requires Ready(c, st) && Defined(c, st.sched.current, fn, t, ptr)
    ensures var n := SysCall(c, st, fn, nb, t, ptr).0.ipc; Shape(n) && NoSignals(st.ipc, n)
  {
    var caller := st.sched.current;
    if Screen(c, st, fn, t, ptr) == OK {
      if fn == SENDREC {
        SendRecNoSignals(c, st, nb, t, ptr);
      } else if fn == SEND {
        SendNoSignals(c, st, caller, Slot(t), ptr, nb);
      } else if fn == RECEIVE {
        ReceiveCallNoSignals(c, st, nb, t, ptr);
      } else if fn == NOTIFY {
        NotifyNoSignals(c, st, caller, Slot(t));
      }
    }
  }

  lemma ReceiveCallNoSignals(c: Config, st: State, nb: bool, t: Target, ptr: Addr)
    requires Ready(c, st) && (IsOkProc(t) || t.AnyProc?)
    ensures var n := Perform(c, st, RECEIVE, nb, t, ptr).0.ipc; Shape(n) && NoSignals(st.ipc, n)
  {
    var busy, caller := st.(ipc := SetBusy(c, st.ipc, st.sched.current, false)), st.sched.current;
    ReceiveNoSignals(c, busy, caller, Wanted(t), ptr, nb);
  }

  lemma TickNoSignals(c: Config, st: State, lost: nat, timeout: nat)
    requires Ready(c, st)
    ensures NoSignals(st.ipc, ClockHandler(c, st, lost, timeout).ipc)
  {
    var sc, now := st.sched, st.realtime + lost + 1;
    NotifyNoSignals(c, st.(realtime := now, sched := sc.(ticks := Charge(c, sc, lost + 1), expired := sc.current)),
                    HARDWARE, CLOCK);
  }

  lemma RaiseNoSignals(c: Config, st: State, src: Pid, dst: Pid, bit: nat)
    requires Ready(c, st)
    ensures NoSignals(st.ipc, MiniNotify(c, st.(ipc := Raise(c, st.ipc, src, dst, bit)), src, dst).ipc)
  {
    NotifyNoSignals(c, st.(ipc := Raise(c, st.ipc, src, dst, bit)), src, dst);
  }

  lemma KsigSignals(c: Config, st: State, e: Event)
    requires Ready(c, st) && Enabled(c, st, e) && (e.TakeSignals? || e.EndSignals?)
    ensures Shape(Step(c, st, e).ipc) && SignalSteps(st, e, Step(c, st, e))
  {
  }

  predicate AboutSignals(e: Event) { e.Signal? || e.Fault? || e.TakeSignals? || e.EndSignals? }

  lemma OtherNoSignals(c: Config, st: State, e: Event)
    requires Ready(c, st) && Enabled(c, st, e) && !AboutSignals(e)
    ensures Shape(Step(c, st, e).ipc) && NoSignals(st.ipc, Step(c, st, e).ipc)
  {
    match e
    case Trap(fn, nb, t, ptr) => TrapNoSignals(c, st, fn, nb, t, ptr);
    case Interrupt(dst, bit) => RaiseNoSignals(c, st, HARDWARE, dst, bit);
    case Tick(lost, timeout) => TickNoSignals(c, st, lost, timeout);
    case TaskNotify(src, dst) => NotifyNoSignals(c, st, src, dst);
    case TaskSend(dst, ptr) => SendNoSignals(c, st, st.sched.current, dst, ptr, true);
    case TaskSendSig(dst, sig) => RaiseNoSignals(c, st, SYSTEM, dst, sig);
    case Requeue =>
    case Compute(_, _) =>
  }

  /** Every step changes the signals, and the flags that go with them, as it says. */
  lemma StepSignals(c: Config, st: State, e: Event)
    requires Ready(c, st) && Enabled(c, st, e)
    ensures Shape(Step(c, st, e).ipc) && SignalSteps(st, e, Step(c, st, e))
  {
    match e
    case Fault(sig) => CauseSigSignals(c, st, st.sched.current, sig);
    case Signal(x, sig) => CauseSigSignals(c, st, x, sig);
    case TakeSignals => KsigSignals(c, st, e);
    case EndSignals(x) => KsigSignals(c, st, e);
    case _ => OtherNoSignals(c, st, e);
  }
}
