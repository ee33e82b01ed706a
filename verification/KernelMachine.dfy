/** The kernel as a state machine: system calls, notifications, signals and clock work as atomic steps. */
module KernelMachine {
  import opened KernelTypes
  import opened Lists
  import opened WaitGraph
  import opened Rendezvous
  import Q = ReadyQueues

  datatype State = State(ipc: Ipc, sched: Q.Sched, realtime: nat)

  datatype Result = OK | ECALLDENIED | EBADSRCDST | EFAULT | EDEADDST | ELOCKED | ENOTREADY | EBADCALL

  // System call numbers (kernel/ipc.h); the checks depend on their bits.
  const SEND: nat := 1
  const RECEIVE: nat := 2
  const SENDREC: nat := 3
  const NOTIFY: nat := 4
  const ECHO: nat := 8

  const SIGKSIG: nat := 19
  const CLICK_SIZE: nat := 1024
  const MESS_SIZE: nat := 36
  const NR_SYS_CHUNKS: nat := 2

  /** CHECK_PTR is 0x0B, CHECK_DST is 0x05. */
  predicate ChecksPtr(fn: nat) { fn % 2 == 1 || fn / 2 % 2 == 1 || fn / 8 % 2 == 1 }
  predicate ChecksDst(fn: nat) { fn % 2 == 1 || fn / 4 % 2 == 1 }

  /** The src_dst argument of a trap: ANY or any other number. */
  datatype Target = AnyProc | Proc(nr: int)

  predicate IsOkProc(t: Target) { t.Proc? && 0 <= t.nr + NR_TASKS < NR_SLOTS }

  function Slot(t: Target): Pid
    requires IsOkProc(t)
  {
    t.nr + NR_TASKS
  }

  function Wanted(t: Target): Peer
    requires IsOkProc(t) || t.AnyProc?
  {
    if t.AnyProc? then Any else From(Slot(t))
  }

  /** The message lies in the caller's data, gap or stack; addresses are 32 bits wide. */
  predicate PtrOk(s: SlotSpec, ptr: Addr) {
    var vlo := ptr / CLICK_SIZE;
    var vhi := (ptr + MESS_SIZE - 1) % 0x1_0000_0000 / CLICK_SIZE;
    s.dataVir <= vlo <= vhi < s.stackVir + s.stackLen
  }

  // ---------------------------------------------------------------- scheduling side of a flag change

  /** dequeue when the first flag is set, enqueue when the last is cleared. */
  function Reflag(c: Config, sc: Q.Sched, p: Pid, was: Flags, now: Flags): Q.Sched
    requires c.Legal() && Q.Shape(sc)
  {
    if was == {} && now != {} then Q.Dequeue(c, sc, p)
    else if was != {} && now == {} then Q.Enqueue(c, sc, p)
    else sc
  }

  /** Move to message state n, in which only p's flags may differ. */
  function Goto(c: Config, st: State, n: Ipc, p: Pid): State
    requires c.Legal() && Q.Shape(st.sched) && Shape(st.ipc) && Shape(n)
  {
    st.(ipc := n, sched := Reflag(c, st.sched, p, st.ipc.flags[p], n.flags[p]))
  }

  ghost predicate Ready(c: Config, st: State) {
    c.Legal() && Shape(st.ipc) && Q.Shape(st.sched)
  }

  // ---------------------------------------------------------------- mini_send, mini_receive, mini_notify

  ghost function MiniSend(c: Config, st: State, caller: Pid, dst: Pid, ptr: Addr, nonBlocking: bool): (State, Result)
    requires Ready(c, st)
  {
    if Locked(WaitsFor(st.ipc), caller, dst) then (st, ELOCKED)
    else if IsWaiting(st.ipc, dst) && Accepts(st.ipc.getFrom[dst], caller) then
      (Goto(c, st, Deliver(st.ipc, caller, dst, ptr), dst), OK)
    else if !nonBlocking then (Goto(c, st, Block(st.ipc, caller, dst, ptr), caller), OK)
    else (st, ENOTREADY)
  }

  /** Least member of ids in [lo, hi), or hi. */
  function LowestIn(ids: set<SysId>, lo: nat, hi: nat): (i: nat)
    requires lo <= hi <= NR_SYS_PROCS
    ensures lo <= i <= hi && (i < hi ==> i in ids)
    ensures forall j: SysId :: lo <= j < i ==> j !in ids
    decreases hi - lo
  {
    if lo == hi || lo in ids then lo else LowestIn(ids, lo + 1, hi)
  }

  datatype Found = NotFound | FoundId(id: SysId)

  /** The scan of s_notify_pending from chunk k: only the lowest bit of each chunk is looked at. */
  function FindNotice(c: Config, ids: set<SysId>, src: Peer, k: nat): (r: Found)
    requires c.Shape() && k <= NR_SYS_CHUNKS
    ensures r.FoundId? ==> r.id in ids && Accepts(src, c.privs[r.id].procNr)
    decreases NR_SYS_CHUNKS - k
  {
    if k == NR_SYS_CHUNKS then NotFound
    else
      var end := (k + 1) * BITCHUNK_BITS;
      var i := LowestIn(ids, k * BITCHUNK_BITS, end);
      if i < end && Accepts(src, c.privs[i].procNr) then FoundId(i)
      else FindNotice(c, ids, src, k + 1)
  }

  function MiniReceive(c: Config, st: State, caller: Pid, src: Peer, ptr: Addr, nonBlocking: bool): (State, Result)
    requires Ready(c, st)
  {
    var m := st.ipc;
    var sending := IsSending(m, caller);
    var note := if sending || PrivOf(c, m, caller).busy then NotFound
                else FindNotice(c, PrivOf(c, m, caller).notify, src, 0);
    var i := FindCaller(m.callers[caller], src);
    if note.FoundId? then
      var n := PostNotice(c, Unpend(c, m, caller, note.id), c.privs[note.id].procNr, caller, ptr, st.realtime);
      (st.(ipc := n), OK)
    else if !sending && i < |m.callers[caller]| then
      (Goto(c, st, Accept(m, caller, i, ptr), m.callers[caller][i]), OK)
    else if !nonBlocking then (Goto(c, st, Wait(m, caller, src, ptr), caller), OK)
    else (st, ENOTREADY)
  }

  function MiniNotify(c: Config, st: State, src: Pid, dst: Pid): State
    requires Ready(c, st)
  {
    var m := st.ipc;
    if IsWaiting(m, dst) && !PrivOf(c, m, dst).busy && Accepts(m.getFrom[dst], src) then
      Goto(c, st, Unwait(PostNotice(c, m, src, dst, m.messBuf[dst], st.realtime), dst), dst)
    else st.(ipc := Pend(c, m, src, dst))
  }

  // ---------------------------------------------------------------- sys_call

  /** sys_call does not come to look up a destination ANY, which has no table entry. */
  predicate Defined(c: Config, caller: Pid, fn: nat, t: Target, ptr: Addr)
    requires c.Shape()
  {
    t.AnyProc? && ChecksDst(fn) && fn in c.Priv(caller).trapMask ==> ChecksPtr(fn) && !PtrOk(c.slots[caller], ptr)
  }

  /** The checks at the head of sys_call; OK means the call is carried out. */
  function Screen(c: Config, st: State, fn: nat, t: Target, ptr: Addr): Result
    requires Ready(c, st) && Defined(c, st.sched.current, fn, t, ptr)
  {
    var caller := st.sched.current;
    if fn !in c.Priv(caller).trapMask || (t.Proc? && t.nr < 0 && fn != SENDREC && fn != RECEIVE) then ECALLDENIED
    else if !(IsOkProc(t) || t.AnyProc? || fn == ECHO) then EBADSRCDST
    else if ChecksPtr(fn) && !PtrOk(c.slots[caller], ptr) then EFAULT
    else if ChecksDst(fn) && c.slots[Slot(t)].priv !in c.Priv(caller).ipcTo then ECALLDENIED
    else if ChecksDst(fn) && st.ipc.flags[Slot(t)] == {SlotFree} then EDEADDST
    else OK
  }

  /** The switch of sys_call. */
  ghost function Perform(c: Config, st: State, fn: nat, nonBlocking: bool, t: Target, ptr: Addr): (State, Result)
    requires Ready(c, st) && (ChecksDst(fn) ==> IsOkProc(t)) && (IsOkProc(t) || t.AnyProc? || fn == ECHO)
  {
    var caller := st.sched.current;
    if fn == SENDREC then
      var (s1, r) := MiniSend(c, st.(ipc := SetBusy(c, st.ipc, caller, true)), caller, Slot(t), ptr, nonBlocking);
      GotoShape(c);
      if r != OK then (s1, r) else MiniReceive(c, s1, caller, From(Slot(t)), ptr, nonBlocking)
    else if fn == SEND then MiniSend(c, st, caller, Slot(t), ptr, nonBlocking)
    else if fn == RECEIVE then
      MiniReceive(c, st.(ipc := SetBusy(c, st.ipc, caller, false)), caller, Wanted(t), ptr, nonBlocking)
    else if fn == NOTIFY then (MiniNotify(c, st, caller, Slot(t)), OK)
    else if fn == ECHO then
      var m := st.ipc;
      (st.(ipc := m.(mem := Write(m.mem, caller, ptr, Message(caller, Read(m.mem, caller, ptr).payload)))), OK)
    else (st, EBADCALL)
  }

  ghost function SysCall(c: Config, st: State, fn: nat, nonBlocking: bool, t: Target, ptr: Addr): (State, Result)
    requires Ready(c, st) && Defined(c, st.sched.current, fn, t, ptr)
  {
    var screen := Screen(c, st, fn, t, ptr);
    if screen != OK then (st, screen) else Perform(c, st, fn, nonBlocking, t, ptr)
  }

  lemma GotoShape(c: Config)
    requires c.Legal()
    ensures forall sc: Q.Sched, p: Pid, f: Flags, g: Flags {:trigger Reflag(c, sc, p, f, g)} ::
      Q.Shape(sc) ==> Q.Shape(Reflag(c, sc, p, f, g))
  {
    forall sc: Q.Sched, p: Pid, f: Flags, g: Flags | Q.Shape(sc)
      ensures Q.Shape(Reflag(c, sc, p, f, g))
    {
      Q.NewPriorityInRange(c, sc, p);
    }
  }

  // ---------------------------------------------------------------- signals, interrupts, clock

  function SendSig(c: Config, st: State, dst: Pid, sig: nat): State
    requires Ready(c, st)
  {
    MiniNotify(c, st.(ipc := Raise(c, st.ipc, SYSTEM, dst, sig)), SYSTEM, dst)
  }

  /** p has its first pending signal and stops for PM. */
  function Held(m: Ipc, p: Pid, sig: nat): Ipc
    requires Shape(m)
  {
    m.(signals := m.signals[p := m.signals[p] + {sig}], flags := m.flags[p := m.flags[p] + {Signaled, SigPending}])
  }

  function CauseSig(c: Config, st: State, p: Pid, sig: nat): State
    requires Ready(c, st)
  {
    var m := st.ipc;
    if sig in m.signals[p] then st
    else
      var m1 := m.(signals := m.signals[p := m.signals[p] + {sig}]);
      if Signaled in m.flags[p] then st.(ipc := m1)
      else
        GotoShape(c);
        SendSig(c, Goto(c, st, Held(m, p, sig), p), PM, SIGKSIG)
  }

  /** First user slot at or after p with SIGNALED set, or NR_SLOTS. */
  function FindSignaled(flags: seq<Flags>, p: nat): (r: nat)
    requires |flags| == NR_SLOTS && p <= NR_SLOTS
    ensures p <= r <= NR_SLOTS && (r < NR_SLOTS ==> Signaled in flags[r])
    ensures forall x :: p <= x < r ==> Signaled !in flags[x]
    decreases NR_SLOTS - p
  {
    if p == NR_SLOTS || Signaled in flags[p] then p else FindSignaled(flags, p + 1)
  }

  /** The process whose signals SYS_GETKSIG hands out. */
  function SignaledProc(flags: seq<Flags>): Link
    requires |flags| == NR_SLOTS
  {
    var p := FindSignaled(flags, NR_TASKS);
    if p == NR_SLOTS then Nil else To(p)
  }

  /** SYS_GETKSIG: PM takes over the signals of one process. */
  function GetKsig(st: State): State
    requires Shape(st.ipc)
  {
    var m := st.ipc;
    var p := FindSignaled(m.flags, NR_TASKS);
    if p == NR_SLOTS then st
    else st.(ipc := m.(signals := m.signals[p := {}], flags := m.flags[p := m.flags[p] - {Signaled}]))
  }

  /** SYS_ENDKSIG: PM is done with p's signals. */
  function EndKsig(c: Config, st: State, p: Pid): State
    requires Ready(c, st)
  {
    var m := st.ipc;
    if SigPending !in m.flags[p] || Signaled in m.flags[p] then st
    else Goto(c, st, m.(flags := m.flags[p := m.flags[p] - {SigPending}]), p)
  }

  /** generic_handler: a device interrupt for driver dst. */
  function HardInt(c: Config, st: State, dst: Pid, bit: nat): State
    requires Ready(c, st)
  {
    MiniNotify(c, st.(ipc := Raise(c, st.ipc, HARDWARE, dst, bit)), HARDWARE, dst)
  }

  /** The tick counters after t ticks: the running process pays unless it cannot be preempted,
      and the process billed for system time pays when the running one is not billable. */
  function Charge(c: Config, sc: Q.Sched, t: nat): (ticks: seq<int>)
    requires c.Shape() && Q.Shape(sc)
    ensures |ticks| == NR_SLOTS
  {
    var p := sc.current;
    var own := if c.Priv(p).preemptible then sc.ticks[p := Q.ToChar(sc.ticks[p] - t)] else sc.ticks;
    if !c.Priv(p).billable then own[sc.bill := Q.ToChar(own[sc.bill] - t)] else own
  }

  /** clock_handler up to its return; lost and timeout are lost_ticks and next_timeout. */
  function ClockHandler(c: Config, st: State, lost: nat, timeout: nat): State
    requires Ready(c, st)
  {
    var sc := st.sched;
    var now, ticks := st.realtime + lost + 1, Charge(c, sc, lost + 1);
    if timeout <= now || ticks[sc.current] <= 0
    then MiniNotify(c, st.(realtime := now, sched := sc.(ticks := ticks, expired := sc.current)), HARDWARE, CLOCK)
    else st.(realtime := now, sched := sc.(ticks := ticks))
  }

  predicate QuantumUsed(c: Config, sc: Q.Sched)
    requires c.Shape() && |sc.ticks| == NR_SLOTS
  {
    sc.ticks[sc.expired] <= 0 && c.Priv(sc.expired).preemptible
  }

  /** do_clocktick: requeue the process whose quantum expired. */
  function DoClocktick(c: Config, st: State): State
    requires Ready(c, st)
  {
    if QuantumUsed(c, st.sched) then
      st.(sched := Q.Enqueue(c, Q.Dequeue(c, st.sched, st.sched.expired), st.sched.expired))
    else st
  }

  // ---------------------------------------------------------------- steps and runs

  /** Trap, Interrupt, Tick and Fault end in restart(); Compute is the running process writing to its memory,
      the others are what a task does. */
  datatype Event =
    | Trap(fn: nat, nonBlocking: bool, target: Target, ptr: Addr)
    | Interrupt(dst: Pid, bit: nat)
    | Tick(lost: nat, timeout: nat)
    | Fault(sig: nat)
    | Signal(p: Pid, sig: nat)
    | TaskNotify(src: Pid, to: Pid)
    | TaskSend(to: Pid, ptr: Addr)
    | TaskSendSig(to: Pid, sig: nat)
    | TakeSignals
    | EndSignals(p: Pid)
    | Requeue
    | Compute(ptr: Addr, msg: Message)

  function Resume(st: State): State { st.(sched := Q.Restart(st.sched)) }

  ghost function Step(c: Config, st: State, e: Event): State
    requires Ready(c, st) && Enabled(c, st, e)
  {
    match e
    case Trap(fn, nb, t, ptr) => Resume(SysCall(c, st, fn, nb, t, ptr).0)
    case Interrupt(dst, bit) => Resume(HardInt(c, st, dst, bit))
    case Tick(lost, timeout) => Resume(ClockHandler(c, st, lost, timeout))
    case Fault(sig) => Resume(CauseSig(c, st, st.sched.current, sig))
    case Signal(p, sig) => CauseSig(c, st, p, sig)
    case TaskNotify(src, dst) => MiniNotify(c, st, src, dst)
    case TaskSend(dst, ptr) => MiniSend(c, st, st.sched.current, dst, ptr, true).0
    case TaskSendSig(dst, sig) => SendSig(c, st, dst, sig)
    case TakeSignals => GetKsig(st)
    case EndSignals(p) => EndKsig(c, st, p)
    case Requeue => DoClocktick(c, st)
    case Compute(ptr, msg) => st.(ipc := st.ipc.(mem := Write(st.ipc.mem, st.sched.current, ptr, msg)))
  }

  /** One of the two kernel tasks with a program is running. */
  predicate InTask(st: State) { st.sched.current == CLOCK || st.sched.current == SYSTEM }

  /** What the kernel's callers guarantee. */
  ghost predicate Enabled(c: Config, st: State, e: Event)
    requires Ready(c, st)
  {
    match e
    case Trap(fn, nb, t, ptr) => Defined(c, st.sched.current, fn, t, ptr)
    case Interrupt(dst, _) => !IsKernel(dst)               // do_irqctl.c: the process that asked for the hook
    case Tick(_, _) => true
    case Fault(_) => !IsKernel(st.sched.current)           // exception.c:59
    case Signal(p, _) => InTask(st) && !IsKernel(p) && st.ipc.flags[p] != {SlotFree}
    case TaskNotify(src, _) => InTask(st) && src == st.sched.current
    case Requeue => st.sched.current == CLOCK
    case Compute(_, _) => true
    case _ => InTask(st)
  }

  /** The two things the kernel does not check: a blocking send to oneself, and that an expired process
      is still runnable when do_clocktick gets to it. */
  ghost predicate Safe(c: Config, st: State, e: Event)
    requires Ready(c, st) && Enabled(c, st, e)
  {
    match e
    case Trap(fn, nb, t, ptr) => Screen(c, st, fn, t, ptr) == OK ==> !BlocksOnSelf(st, fn, nb, t)
    case Requeue => QuantumUsed(c, st.sched) ==> st.ipc.flags[st.sched.expired] == {}
    case _ => true
  }

  /** A blocking send whose destination is the caller itself. */
  predicate BlocksOnSelf(st: State, fn: nat, nonBlocking: bool, t: Target) {
    (fn == SEND || fn == SENDREC) && !nonBlocking && IsOkProc(t) && Slot(t) == st.sched.current
  }
}
