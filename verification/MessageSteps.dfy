/** What one step of the kernel hands to whom: the memory of the processes against the log. */
module MessageSteps {
  import opened KernelTypes
  import opened Lists
  import opened WaitGraph
  import opened Rendezvous
  import opened RendezvousProofs
  import opened KernelMachine
  import opened KernelSafety
  import Q = ReadyQueues

  // ---------------------------------------------------------------- what the log says

  /** A message or a notification that a process gets. */
  datatype Handout = Nobody | Hands(to: Pid, msg: Message, notice: bool)

  /** What the log h' has on top of h. */
  function Newest(h: History, h': History, now: nat): Handout {
    if |h'.delivered| > |h.delivered| then
      var d := h'.delivered[|h'.delivered| - 1];
      Hands(d.to, d.msg, false)
    else if |h'.args| > |h.args| && h'.args[|h'.args| - 1].Reported? then
      var e := h'.args[|h'.args| - 1];
      Hands(e.to, Message(e.src, Notice(now, Carried(e.src, e.bits))), true)
    else Nobody
  }

  /** Nothing is taken back, and at most one message or notification is new. */
  ghost predicate OneEntry(h: History, h': History) {
    && h.delivered <= h'.delivered && |h'.delivered| <= |h.delivered| + 1 && h.args <= h'.args
    && forall k :: |h.args| <= k < |h'.args| && (|h'.delivered| > |h.delivered| || k < |h'.args| - 1) ==>
           h'.args[k].Raised?
  }

  // ---------------------------------------------------------------- what memory says

  ghost predicate SameMemory(mem: Memory, mem': Memory)
    requires |mem| == |mem'| == NR_SLOTS
  {
    forall p: Pid, a: Addr :: Read(mem', p, a) == Read(mem, p, a)
  }

  /** msg is at address a of p, and nothing else has changed. */
  ghost predicate OnlyAt(mem: Memory, mem': Memory, p: Pid, a: Addr, msg: Message)
    requires |mem| == |mem'| == NR_SLOTS
  {
    Read(mem', p, a) == msg && forall q: Pid, b: Addr :: q != p || b != a ==> Read(mem', q, b) == Read(mem, q, b)
  }

  /** q no longer waits for a message. */
  predicate Awake(m: Ipc, n: Ipc, q: Pid)
    requires |m.flags| == |n.flags| == NR_SLOTS
  {
    IsWaiting(m, q) && Receiving !in n.flags[q]
  }

  /** What the log says was handed out is in the memory of the one that got it, and nothing else has changed there.
      It is the taker, who gave address ptr for it, or a process that was waiting for it, and wakes up. */
  ghost predicate Effect(m: Ipc, n: Ipc, now: nat, taker: Link, ptr: Addr)
    requires Shape(m) && Shape(n)
  {
    && OneEntry(m.log, n.log)
    && match Newest(m.log, n.log, now)
       case Nobody => SameMemory(m.mem, n.mem) && forall q: Pid :: !Awake(m, n, q)
       case Hands(p, msg, _) =>
         && OnlyAt(m.mem, n.mem, p, if taker == To(p) then ptr else m.messBuf[p], msg)
         && (taker == To(p) || (Awake(m, n, p) && Accepts(m.getFrom[p], msg.source)))
         && forall q: Pid :: q != p ==> !Awake(m, n, q)
  }

  // ---------------------------------------------------------------- the message calls

  lemma DeliverEffect(m: Ipc, caller: Pid, dst: Pid, ptr: Addr, now: nat)
    requires Shape(m) && IsWaiting(m, dst) && Accepts(m.getFrom[dst], caller)
    ensures Effect(m, Deliver(m, caller, dst, ptr), now, Nil, 0)
  {
  }

  lemma SendEffect(c: Config, st: State, caller: Pid, dst: Pid, ptr: Addr, nb: bool, now: nat)
    requires Ready(c, st) && st.ipc.flags[caller] == {}
    ensures Effect(st.ipc, MiniSend(c, st, caller, dst, ptr, nb).0.ipc, now, Nil, 0)
  {
    if IsWaiting(st.ipc, dst) && Accepts(st.ipc.getFrom[dst], caller) {
      DeliverEffect(st.ipc, caller, dst, ptr, now);
    }
  }

  lemma TakeEffect(c: Config, m: Ipc, caller: Pid, id: SysId, ptr: Addr, now: nat)
    requires c.Shape() && Shape(m)
    ensures var n := PostNotice(c, Unpend(c, m, caller, id), c.privs[id].procNr, caller, ptr, now);
            && Effect(m, n, now, To(caller), ptr)
            && Newest(m.log, n.log, now).Hands? && Newest(m.log, n.log, now).to == caller
            && Newest(m.log, n.log, now).msg.source == c.privs[id].procNr
  {
  }

  lemma AcceptEffect(m: Ipc, caller: Pid, i: nat, ptr: Addr, now: nat)
    requires Shape(m) && i < |m.callers[caller]|
    ensures var n := Accept(m, caller, i, ptr);
            && Effect(m, n, now, To(caller), ptr)
            && Newest(m.log, n.log, now).Hands? && Newest(m.log, n.log, now).to == caller
            && Newest(m.log, n.log, now).msg.source == m.callers[caller][i]
  {
  }

  /** A receive that returns OK has its message, from a source it asked for, or sleeps. */
  lemma ReceiveEffect(c: Config, st: State, caller: Pid, src: Peer, ptr: Addr, nb: bool)
    requires Ready(c, st) && Receiving !in st.ipc.flags[caller]
    ensures var (s1, r) := MiniReceive(c, st, caller, src, ptr, nb);
            var hand := Newest(st.ipc.log, s1.ipc.log, st.realtime);
            && Shape(s1.ipc) && Effect(st.ipc, s1.ipc, st.realtime, To(caller), ptr)
            && (r == OK <==> hand.Hands? || Receiving in s1.ipc.flags[caller])
            && (hand.Hands? ==>
                  hand.to == caller && Accepts(src, hand.msg.source) && Receiving !in s1.ipc.flags[caller])
  {
    var m := st.ipc;
    var note := if IsSending(m, caller) || PrivOf(c, m, caller).busy then NotFound
                else FindNotice(c, PrivOf(c, m, caller).notify, src, 0);
    var i := FindCaller(m.callers[caller], src);
    if note.FoundId? {
      TakeEffect(c, m, caller, note.id, ptr, st.realtime);
    } else if !IsSending(m, caller) && i < |m.callers[caller]| {
      AcceptEffect(m, caller, i, ptr, st.realtime);
    }
  }

  lemma NotifyEffect(c: Config, st: State, src: Pid, dst: Pid)
    requires Ready(c, st)
    ensures Effect(st.ipc, MiniNotify(c, st, src, dst).ipc, st.realtime, Nil, 0)
  {
  }

  // ---------------------------------------------------------------- one after the other

  /** What the two-state promises need of the state before the step. */
  ghost predicate Tidy(c: Config, st: State) {
    Ready(c, st) && QueuesOk(st.ipc) && st.ipc.flags[st.sched.current] == {}
  }

  lemma BusyTidy(c: Config, st: State, b: bool)
    requires Tidy(c, st)
    ensures Tidy(c, st.(ipc := SetBusy(c, st.ipc, st.sched.current, b)))
  {
    var n := SetBusy(c, st.ipc, st.sched.current, b);
    assert forall x: Pid :: IsSending(n, x) == IsSending(st.ipc, x);
    assert QueuesOk(n);
  }

  /** Nothing is handed out: bits may be raised, and flags other than RECEIVING and SENDING change. */
  ghost predicate Silent(m: Ipc, n: Ipc)
    requires Shape(m) && Shape(n)
  {
    && n.mem == m.mem && n.messBuf == m.messBuf && n.getFrom == m.getFrom && n.log.delivered == m.log.delivered
    && m.log.args <= n.log.args && (forall k :: |m.log.args| <= k < |n.log.args| ==> n.log.args[k].Raised?)
    && forall q: Pid :: IsWaiting(n, q) == IsWaiting(m, q) && (Receiving in n.flags[q] <==> Receiving in m.flags[q])
  }

  lemma SilentFirst(m: Ipc, m1: Ipc, n: Ipc, now: nat, taker: Link, ptr: Addr)
    requires Shape(m) && Shape(m1) && Shape(n) && Silent(m, m1) && Effect(m1, n, now, taker, ptr)
    ensures Effect(m, n, now, taker, ptr)
  {
    var a, b, d := m.log.args, m1.log.args, n.log.args;
    assert forall k :: |a| <= k < |b| ==> d[k] == b[k];
    assert Newest(m.log, n.log, now) == Newest(m1.log, n.log, now);
    assert forall q: Pid :: Awake(m, n, q) == Awake(m1, n, q);
  }

  /** Going to sleep afterwards changes nothing. */
  lemma SleepLast(m: Ipc, n: Ipc, n': Ipc, now: nat, taker: Link, ptr: Addr)
    requires Shape(m) && Shape(n) && Shape(n') && Effect(m, n, now, taker, ptr)
    requires n'.mem == n.mem && n'.log == n.log
    requires forall q: Pid :: IsWaiting(m, q) ==> (Receiving in n'.flags[q] <==> Receiving in n.flags[q])
    ensures Effect(m, n', now, taker, ptr)
  {
    assert forall q: Pid :: Awake(m, n', q) == Awake(m, n, q);
  }

  lemma RaiseNotifyEffect(c: Config, st: State, src: Pid, dst: Pid, bit: nat)
    requires Ready(c, st)
    ensures var s1 := MiniNotify(c, st.(ipc := Raise(c, st.ipc, src, dst, bit)), src, dst);
            Shape(s1.ipc) && Effect(st.ipc, s1.ipc, st.realtime, Nil, 0)
  {
    var s1 := st.(ipc := Raise(c, st.ipc, src, dst, bit));
    NotifyEffect(c, s1, src, dst);
    SilentFirst(st.ipc, s1.ipc, MiniNotify(c, s1, src, dst).ipc, st.realtime, Nil, 0);
  }

  lemma CauseSigEffect(c: Config, st: State, p: Pid, sig: nat)
    requires Ready(c, st)
    ensures var s1 := CauseSig(c, st, p, sig); Shape(s1.ipc) && Effect(st.ipc, s1.ipc, st.realtime, Nil, 0)
  {
    var m := st.ipc;
    if sig !in m.signals[p] && Signaled !in m.flags[p] {
      GotoShape(c);
      var s1 := Goto(c, st, Held(m, p, sig), p);
      RaiseNotifyEffect(c, s1, SYSTEM, PM, SIGKSIG);
      SilentFirst(m, s1.ipc, CauseSig(c, st, p, sig).ipc, st.realtime, Nil, 0);
    }
  }

  lemma NoneQueued(m: Ipc, x: Pid, d: Pid)
    requires QueuesOk(m) && !IsSending(m, x)
    ensures FindCaller(m.callers[d], From(x)) == |m.callers[d]|
  {
    assert x !in m.callers[d];
  }

  /** After a send that went through, the receive half of SENDREC finds nothing and sleeps, or may not. */
  lemma ReplyAwaited(c: Config, st: State, caller: Pid, dst: Pid, ptr: Addr, nb: bool)
    requires Ready(c, st) && QueuesOk(st.ipc) && st.ipc.flags[caller] == {} && PrivOf(c, st.ipc, caller).busy
    requires MiniSend(c, st, caller, dst, ptr, nb).1 == OK
    ensures var s1 := MiniSend(c, st, caller, dst, ptr, nb).0;
            && Ready(c, s1)
            && MiniReceive(c, s1, caller, From(dst), ptr, nb) ==
               if nb then (s1, ENOTREADY) else (Goto(c, s1, Wait(s1.ipc, caller, From(dst), ptr), caller), OK)
  {
    GotoShape(c);
    if IsWaiting(st.ipc, dst) { NoneQueued(st.ipc, dst, caller); }
  }

  /** SENDREC hands its message over at most. */
  lemma SendRecEffect(c: Config, st: State, caller: Pid, dst: Pid, ptr: Addr, nb: bool)
    requires Ready(c, st) && QueuesOk(st.ipc) && st.ipc.flags[caller] == {} && PrivOf(c, st.ipc, caller).busy
    ensures var (s1, r) := MiniSend(c, st, caller, dst, ptr, nb);
            && Ready(c, s1) && Effect(st.ipc, s1.ipc, st.realtime, Nil, 0)
            && var s2 := MiniReceive(c, s1, caller, From(dst), ptr, nb).0;
               r == OK ==> Shape(s2.ipc) && Effect(st.ipc, s2.ipc, st.realtime, Nil, 0)
  {
    GotoShape(c);
    var (s1, r) := MiniSend(c, st, caller, dst, ptr, nb);
    SendEffect(c, st, caller, dst, ptr, nb, st.realtime);
    if r == OK {
      ReplyAwaited(c, st, caller, dst, ptr, nb);
      if !nb { SleepLast(st.ipc, s1.ipc, Wait(s1.ipc, caller, From(dst), ptr), st.realtime, Nil, 0); }
    }
  }

  // ---------------------------------------------------------------- the copies of a step

  /** The step is a process writing to its own memory. */
  ghost predicate WritesOwn(c: Config, st: State, e: Event)
    requires Ready(c, st) && Enabled(c, st, e)
  {
    e.Compute? || (e.Trap? && e.fn == ECHO && Screen(c, st, e.fn, e.target, e.ptr) == OK)
  }

  /** The running process takes its message itself only in a receive. */
  function Taker(st: State, e: Event): Link { if e.Trap? && e.fn == RECEIVE then To(st.sched.current) else Nil }

  function PtrOf(e: Event): Addr { if e.Trap? then e.ptr else 0 }

  /** Memory changes as the log says: by the one message or notification that is handed out, or where the running
      process writes. */
  ghost predicate Copies(c: Config, st: State, e: Event, st': State)
    requires Ready(c, st) && Enabled(c, st, e) && Shape(st'.ipc)
  {
    var m, n, p := st.ipc, st'.ipc, st.sched.current;
    if WritesOwn(c, st, e) then
      && n.log == m.log
      && OnlyAt(m.mem, n.mem, p, e.ptr, if e.Compute? then e.msg else Message(p, Read(m.mem, p, e.ptr).payload))
    else Effect(m, n, st'.realtime, Taker(st, e), PtrOf(e))
  }

  lemma SendRecCall(c: Config, st: State, nb: bool, t: Target, ptr: Addr)
    requires Tidy(c, st) && IsOkProc(t)
    ensures var n := Perform(c, st, SENDREC, nb, t, ptr).0.ipc; Shape(n) && Effect(st.ipc, n, st.realtime, Nil, 0)
  {
    var busy := st.(ipc := SetBusy(c, st.ipc, st.sched.current, true));
    BusyTidy(c, st, true);
    SendRecEffect(c, busy, st.sched.current, Slot(t), ptr, nb);
    SilentFirst(st.ipc, busy.ipc, Perform(c, st, SENDREC, nb, t, ptr).0.ipc, st.realtime, Nil, 0);
  }

  lemma ReceiveCall(c: Config, st: State, nb: bool, t: Target, ptr: Addr)
    requires Tidy(c, st) && (IsOkProc(t) || t.AnyProc?)
    ensures var n := Perform(c, st, RECEIVE, nb, t, ptr).0.ipc;
            Shape(n) && Effect(st.ipc, n, st.realtime, To(st.sched.current), ptr)
  {
    var busy := st.(ipc := SetBusy(c, st.ipc, st.sched.current, false));
    ReceiveEffect(c, busy, st.sched.current, Wanted(t), ptr, nb);
    SilentFirst(st.ipc, busy.ipc, MiniReceive(c, busy, st.sched.current, Wanted(t), ptr, nb).0.ipc, st.realtime,
                To(st.sched.current), ptr);
  }

  lemma NilPtr(m: Ipc, n: Ipc, now: nat, ptr: Addr)
    requires Shape(m) && Shape(n) && Effect(m, n, now, Nil, 0)
    ensures Effect(m, n, now, Nil, ptr)
  {
  }

  lemma PerformEffect(c: Config, st: State, fn: nat, nb: bool, t: Target, ptr: Addr)
    requires Tidy(c, st) && fn != ECHO && (ChecksDst(fn) ==> IsOkProc(t)) && (IsOkProc(t) || t.AnyProc?)
    ensures var n, p := Perform(c, st, fn, nb, t, ptr).0.ipc, st.sched.current;
            Shape(n) && Effect(st.ipc, n, st.realtime, if fn == RECEIVE then To(p) else Nil, ptr)
  {
    var caller := st.sched.current;
    if fn == RECEIVE {
      ReceiveCall(c, st, nb, t, ptr);
    } else {
      if fn == SENDREC {
        SendRecCall(c, st, nb, t, ptr);
      } else if fn == SEND {
        SendEffect(c, st, caller, Slot(t), ptr, nb, st.realtime);
      } else if fn == NOTIFY {
        NotifyEffect(c, st, caller, Slot(t));
      }
      NilPtr(st.ipc, Perform(c, st, fn, nb, t, ptr).0.ipc, st.realtime, ptr);
    }
  }

  lemma Unchanged(m: Ipc, now: nat, taker: Link, ptr: Addr)
    requires Shape(m)
    ensures Effect(m, m, now, taker, ptr)
  {
  }

  lemma TrapCopies(c: Config, st: State, fn: nat, nb: bool, t: Target, ptr: Addr)
    requires Tidy(c, st) && Enabled(c, st, Trap(fn, nb, t, ptr)) && !WritesOwn(c, st, Trap(fn, nb, t, ptr))
    ensures var n, p := SysCall(c, st, fn, nb, t, ptr).0.ipc, st.sched.current;
            Shape(n) && Effect(st.ipc, n, st.realtime, if fn == RECEIVE then To(p) else Nil, ptr)
  {
    if Screen(c, st, fn, t, ptr) == OK {
      PerformEffect(c, st, fn, nb, t, ptr);
    } else {
      Unchanged(st.ipc, st.realtime, if fn == RECEIVE then To(st.sched.current) else Nil, ptr);
    }
  }

  lemma TickEffect(c: Config, st: State, lost: nat, timeout: nat)
    requires Ready(c, st)
    ensures var s1 := ClockHandler(c, st, lost, timeout);
            Shape(s1.ipc) && Effect(st.ipc, s1.ipc, s1.realtime, Nil, 0)
  {
    var sc, now := st.sched, st.realtime + lost + 1;
    var ticks := Charge(c, sc, lost + 1);
    NotifyEffect(c, st.(realtime := now, sched := sc.(ticks := ticks, expired := sc.current)), HARDWARE, CLOCK);
    Unchanged(st.ipc, now, Nil, 0);
  }

  lemma GetKsigEffect(st: State)
    requires Shape(st.ipc)
    ensures Effect(st.ipc, GetKsig(st).ipc, st.realtime, Nil, 0)
  {
  }

  lemma EndKsigEffect(c: Config, st: State, p: Pid)
    requires Ready(c, st)
    ensures Effect(st.ipc, EndKsig(c, st, p).ipc, st.realtime, Nil, 0)
  {
  }

  lemma InterruptEffect(c: Config, st: State, e: Event)
    requires Tidy(c, st) && Enabled(c, st, e) && (e.Interrupt? || e.Tick? || e.Fault? || e.Signal?)
    ensures var s1 := Step(c, st, e); Shape(s1.ipc) && Effect(st.ipc, s1.ipc, s1.realtime, Nil, 0)
  {
    match e
    case Interrupt(dst, bit) => RaiseNotifyEffect(c, st, HARDWARE, dst, bit);
    case Tick(lost, timeout) => TickEffect(c, st, lost, timeout);
    case Fault(sig) => CauseSigEffect(c, st, st.sched.current, sig);
    case Signal(x, sig) => CauseSigEffect(c, st, x, sig);
  }

  /** Every step that is no trap and no write of the running process. */
  lemma OtherEffect(c: Config, st: State, e: Event)
    requires Tidy(c, st) && Enabled(c, st, e) && !e.Trap? && !e.Compute?
    ensures var s1 := Step(c, st, e); Shape(s1.ipc) && Effect(st.ipc, s1.ipc, s1.realtime, Nil, 0)
  {
    match e
    case TaskNotify(src, dst) => NotifyEffect(c, st, src, dst);
    case TaskSend(dst, ptr) => SendEffect(c, st, st.sched.current, dst, ptr, true, st.realtime);
    case TaskSendSig(dst, sig) => RaiseNotifyEffect(c, st, SYSTEM, dst, sig);
    case TakeSignals => GetKsigEffect(st);
    case EndSignals(x) => EndKsigEffect(c, st, x);
    case Requeue => Unchanged(st.ipc, st.realtime, Nil, 0);
    case _ => InterruptEffect(c, st, e);
  }

  lemma OwnCopies(c: Config, st: State, e: Event)
    requires Ready(c, st) && Enabled(c, st, e) && WritesOwn(c, st, e)
    ensures Shape(Step(c, st, e).ipc) && Copies(c, st, e, Step(c, st, e))
  {
  }

  lemma TrapStepCopies(c: Config, st: State, e: Event)
    requires Tidy(c, st) && Enabled(c, st, e) && e.Trap? && !WritesOwn(c, st, e)
    ensures Shape(Step(c, st, e).ipc) && Copies(c, st, e, Step(c, st, e))
  {
    TrapCopies(c, st, e.fn, e.nonBlocking, e.target, e.ptr);
  }

  lemma OtherCopies(c: Config, st: State, e: Event)
    requires Tidy(c, st) && Enabled(c, st, e) && !e.Trap? && !e.Compute?
    ensures Shape(Step(c, st, e).ipc) && Copies(c, st, e, Step(c, st, e))
  {
    OtherEffect(c, st, e);
  }

  /** Every step copies exactly what its log entry says, to where the receiver asked for it, and nothing else. */
  lemma StepCopies(c: Config, st: State, e: Event)
    requires Tidy(c, st) && Enabled(c, st, e)
    ensures Shape(Step(c, st, e).ipc) && Copies(c, st, e, Step(c, st, e))
  {
    if WritesOwn(c, st, e) {
      OwnCopies(c, st, e);
    } else if e.Trap? {
      TrapStepCopies(c, st, e);
    } else {
      OtherCopies(c, st, e);
    }
  }

  // ---------------------------------------------------------------- sends

  /** mini_send accepts a message exactly when it returns OK, and what it accepts is what the caller has at ptr. */
  lemma SendLogged(c: Config, st: State, caller: Pid, dst: Pid, ptr: Addr, nb: bool)
    requires Ready(c, st) && st.ipc.flags[caller] == {}
    ensures var (s1, r) := MiniSend(c, st, caller, dst, ptr, nb);
            var m, n, meets := st.ipc, s1.ipc, IsWaiting(st.ipc, dst) && Accepts(st.ipc.getFrom[dst], caller);
            && (r == ELOCKED <==> Locked(WaitsFor(m), caller, dst))
            && (r == ENOTREADY <==> !Locked(WaitsFor(m), caller, dst) && !meets && nb)
            && (r == OK || r == ELOCKED || r == ENOTREADY) && (r != OK ==> s1 == st)
            && (r == OK ==>
                  && n.log.sent == m.log.sent + [Sent(caller, dst, Read(m.mem, caller, ptr).payload)]
                  && (meets <==> n.flags[caller] == {}) && (!meets ==> n.callers[dst] == m.callers[dst] + [caller]))
  {
  }

  predicate IsSend(e: Event) { e.TaskSend? || (e.Trap? && (e.fn == SEND || e.fn == SENDREC) && IsOkProc(e.target)) }

  function Addressee(e: Event): Pid requires IsSend(e) { if e.Trap? then Slot(e.target) else e.to }

  /** At most one send is accepted, from the running process to the one it names, of what it has at the address it
      gives. */
  ghost predicate Sends(st: State, e: Event, st': State)
    requires Shape(st.ipc)
  {
    var m, n, p := st.ipc, st'.ipc, st.sched.current;
    n.log.sent == m.log.sent ||
      (IsSend(e) && n.log.sent == m.log.sent + [Sent(p, Addressee(e), Read(m.mem, p, e.ptr).payload)])
  }

  // ---------------------------------------------------------------- who waits for whom, and where

  /** A process that blocks does so as it asked; whom the others wait for, and where, stays as it is. */
  ghost predicate Parks(st: State, e: Event, st': State)
    requires Shape(st.ipc) && Shape(st'.ipc)
  {
    var m, n, p := st.ipc, st'.ipc, st.sched.current;
    && (forall q: Pid :: q != p || !e.Trap? ==>
          n.messBuf[q] == m.messBuf[q] && n.getFrom[q] == m.getFrom[q] && n.sendTo[q] == m.sendTo[q])
    && (e.Trap? && IsSending(n, p) ==> IsSend(e) && n.messBuf[p] == e.ptr && n.sendTo[p] == Addressee(e))
    && (e.Trap? && Receiving in n.flags[p] ==>
          (IsOkProc(e.target) || e.target.AnyProc?) && n.messBuf[p] == e.ptr && n.getFrom[p] == Wanted(e.target))
  }

  /** SENDREC_BUSY is set by SENDREC and cleared by RECEIVE, both if they are carried out. */
  ghost predicate Busy(c: Config, st: State, e: Event, st': State)
    requires Ready(c, st) && Enabled(c, st, e) && Shape(st'.ipc)
  {
    var done := e.Trap? && Screen(c, st, e.fn, e.target, e.ptr) == OK;
    forall i: SysId :: st'.ipc.privs[i].busy ==
      if done && e.fn == SENDREC && i == c.slots[st.sched.current].priv then true
      else if done && e.fn == RECEIVE && i == c.slots[st.sched.current].priv then false
      else st.ipc.privs[i].busy
  }

  /** No send is accepted, nobody blocks, and SENDREC_BUSY stays. */
  ghost predicate Still(m: Ipc, n: Ipc)
    requires Shape(m) && Shape(n)
  {
    && n.log.sent == m.log.sent && n.messBuf == m.messBuf && n.getFrom == m.getFrom && n.sendTo == m.sendTo
    && (forall q: Pid :: (Sending in n.flags[q] ==> Sending in m.flags[q]) &&
                         (Receiving in n.flags[q] ==> Receiving in m.flags[q]))
    && forall i: SysId :: n.privs[i].busy == m.privs[i].busy
  }

  lemma NotifyStill(c: Config, st: State, src: Pid, dst: Pid)
    requires Ready(c, st)
    ensures Still(st.ipc, MiniNotify(c, st, src, dst).ipc)
  {
  }

  lemma RaiseNotifyStill(c: Config, st: State, src: Pid, dst: Pid, bit: nat)
    requires Ready(c, st)
    ensures Still(st.ipc, MiniNotify(c, st.(ipc := Raise(c, st.ipc, src, dst, bit)), src, dst).ipc)
  {
    var s1 := st.(ipc := Raise(c, st.ipc, src, dst, bit));
    assert Still(st.ipc, s1.ipc);
    NotifyStill(c, s1, src, dst);
  }

  lemma CauseSigStill(c: Config, st: State, p: Pid, sig: nat)
    requires Ready(c, st)
    ensures Still(st.ipc, CauseSig(c, st, p, sig).ipc)
  {
    GotoShape(c);
    var m := st.ipc;
    var s1 := Goto(c, st, Held(m, p, sig), p);
    assert Still(m, s1.ipc);
    RaiseNotifyStill(c, s1, SYSTEM, PM, SIGKSIG);
  }

  lemma TickStill(c: Config, st: State, lost: nat, timeout: nat)
    requires Ready(c, st)
    ensures Still(st.ipc, ClockHandler(c, st, lost, timeout).ipc)
  {
    var sc, now := st.sched, st.realtime + lost + 1;
    NotifyStill(c, st.(realtime := now, sched := sc.(ticks := Charge(c, sc, lost + 1), expired := sc.current)),
                HARDWARE, CLOCK);
  }

  lemma InterruptStill(c: Config, st: State, e: Event)
    requires Tidy(c, st) && Enabled(c, st, e) && (e.Interrupt? || e.Tick? || e.Fault? || e.Signal?)
    ensures Shape(Step(c, st, e).ipc) && Still(st.ipc, Step(c, st, e).ipc)
  {
    match e
    case Interrupt(dst, bit) => RaiseNotifyStill(c, st, HARDWARE, dst, bit);
    case Tick(lost, timeout) => TickStill(c, st, lost, timeout);
    case Fault(sig) => CauseSigStill(c, st, st.sched.current, sig);
    case Signal(x, sig) => CauseSigStill(c, st, x, sig);
  }

  lemma OtherStill(c: Config, st: State, e: Event)
    requires Tidy(c, st) && Enabled(c, st, e) && !e.Trap? && !e.TaskSend?
    ensures Shape(Step(c, st, e).ipc) && Still(st.ipc, Step(c, st, e).ipc)
  {
    match e
    case TaskNotify(src, dst) => NotifyStill(c, st, src, dst);
    case TaskSendSig(dst, sig) => RaiseNotifyStill(c, st, SYSTEM, dst, sig);
    case TakeSignals => KsigStill(c, st, 0);
    case EndSignals(x) => KsigStill(c, st, x);
    case Requeue =>
    case Compute(_, _) =>
    case _ => InterruptStill(c, st, e);
  }

  lemma KsigStill(c: Config, st: State, p: Pid)
    requires Ready(c, st)
    ensures Still(st.ipc, GetKsig(st).ipc) && Still(st.ipc, EndKsig(c, st, p).ipc)
  {
  }

  /** The three promises in one. */
  ghost predicate Asked(c: Config, st: State, e: Event, st': State)
    requires Ready(c, st) && Enabled(c, st, e)
  {
    Shape(st'.ipc) && Sends(st, e, st') && Parks(st, e, st') && Busy(c, st, e, st')
  }

  lemma StillAsked(c: Config, st: State, e: Event, st': State)
    requires Tidy(c, st) && Enabled(c, st, e) && Shape(st'.ipc) && Still(st.ipc, st'.ipc)
    requires e.Trap? && (e.fn == RECEIVE || e.fn == SENDREC) ==> Screen(c, st, e.fn, e.target, e.ptr) != OK
    ensures Asked(c, st, e, st')
  {
  }

  lemma TaskSendAsked(c: Config, st: State, dst: Pid, ptr: Addr)
    requires Tidy(c, st) && InTask(st)
    ensures var e := TaskSend(dst, ptr); Asked(c, st, e, Step(c, st, e))
  {
    SendLogged(c, st, st.sched.current, dst, ptr, true);
  }

  lemma SendAsked(c: Config, st: State, e: Event)
    requires Tidy(c, st) && Enabled(c, st, e) && e.Trap? && e.fn == SEND && Screen(c, st, SEND, e.target, e.ptr) == OK
    ensures Asked(c, st, e, Step(c, st, e))
  {
    SendLogged(c, st, st.sched.current, Slot(e.target), e.ptr, e.nonBlocking);
  }

  lemma ReceiveAsked(c: Config, st: State, e: Event)
    requires Tidy(c, st) && Enabled(c, st, e) && e.Trap? && e.fn == RECEIVE
    requires Screen(c, st, RECEIVE, e.target, e.ptr) == OK
    ensures Asked(c, st, e, Step(c, st, e))
  {
    var s1 := st.(ipc := SetBusy(c, st.ipc, st.sched.current, false));
    ReceivePlaces(c, s1, st.sched.current, Wanted(e.target), e.ptr, e.nonBlocking);
  }

  lemma ReceivePlaces(c: Config, st: State, caller: Pid, src: Peer, ptr: Addr, nb: bool)
    requires Ready(c, st) && st.ipc.flags[caller] == {}
    ensures var m, n := st.ipc, MiniReceive(c, st, caller, src, ptr, nb).0.ipc;
            && Shape(n) && n.log.sent == m.log.sent && n.sendTo == m.sendTo && !IsSending(n, caller)
            && (forall q: Pid :: q != caller ==> n.messBuf[q] == m.messBuf[q] && n.getFrom[q] == m.getFrom[q])
            && (Receiving in n.flags[caller] ==> n.messBuf[caller] == ptr && n.getFrom[caller] == src)
            && forall i: SysId :: n.privs[i].busy == m.privs[i].busy
  {
  }

  lemma SendRecAsked(c: Config, st: State, e: Event)
    requires Tidy(c, st) && Enabled(c, st, e) && e.Trap? && e.fn == SENDREC
    requires Screen(c, st, SENDREC, e.target, e.ptr) == OK
    ensures Asked(c, st, e, Step(c, st, e))
  {
    var busy, dst := st.(ipc := SetBusy(c, st.ipc, st.sched.current, true)), Slot(e.target);
    BusyTidy(c, st, true);
    SendLogged(c, busy, st.sched.current, dst, e.ptr, e.nonBlocking);
    if MiniSend(c, busy, st.sched.current, dst, e.ptr, e.nonBlocking).1 == OK {
      ReplyAwaited(c, busy, st.sched.current, dst, e.ptr, e.nonBlocking);
    }
  }

  lemma TrapAsked(c: Config, st: State, e: Event)
    requires Tidy(c, st) && Enabled(c, st, e) && e.Trap?
    ensures Asked(c, st, e, Step(c, st, e))
  {
    if Screen(c, st, e.fn, e.target, e.ptr) == OK {
      if e.fn == SENDREC {
        SendRecAsked(c, st, e);
      } else if e.fn == SEND {
        SendAsked(c, st, e);
      } else if e.fn == RECEIVE {
        ReceiveAsked(c, st, e);
      } else {
        if e.fn == NOTIFY { NotifyStill(c, st, st.sched.current, Slot(e.target)); }
        StillAsked(c, st, e, Step(c, st, e));
      }
    } else {
      StillAsked(c, st, e, Step(c, st, e));
    }
  }

  /** Every step accepts the send, blocks the process and sets SENDREC_BUSY as the running process asked. */
  lemma StepAsked(c: Config, st: State, e: Event)
    requires Tidy(c, st) && Enabled(c, st, e)
    ensures Asked(c, st, e, Step(c, st, e))
  {
    if e.Trap? {
      TrapAsked(c, st, e);
    } else if e.TaskSend? {
      TaskSendAsked(c, st, e.to, e.ptr);
    } else {
      OtherStill(c, st, e);
      StillAsked(c, st, e, Step(c, st, e));
    }
  }
}
