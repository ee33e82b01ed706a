/** The promises of the kernel in every run: what holds in every state, and what every step does. */
module KernelPromises {
  import opened KernelTypes
  import opened Lists
  import opened WaitGraph
  import opened Rendezvous
  import opened KernelMachine
  import opened KernelSafety
  import opened KernelRuns
  import opened KernelTheorems
  import opened MessageSteps
  import opened NoticeSteps
  import Q = ReadyQueues

  /** The promises of message passing, notification, signals and scheduling, for the processes x and r. */
  ghost predicate Promised(c: Config, st: State, x: Pid, r: Pid) {
    var m, h := st.ipc, st.ipc.log;
    // no deadlock among senders, no missed rendezvous
    && Shape(m) && Acyclic(WaitsFor(m))
    && (IsSending(m, x) && m.sendTo[x] == r ==> !(IsWaiting(m, r) && Accepts(m.getFrom[r], x)))
    // a caller queue is exactly the senders to its owner
    && (x in m.callers[r] <==> IsSending(m, x) && m.sendTo[x] == r)
    // in the order in which they blocked
    && (forall i, j :: 0 <= i < j < |m.callers[r]| ==> h.ticket[m.callers[r][i]] < h.ticket[m.callers[r][j]])
    // accepted sends are delivered once, unaltered, or still queued
    && |h.sent| == |h.delivered| + |Senders(m)|
    && (forall i :: 0 <= i < |h.delivered| ==> Matches(h, h.delivered[i]))
    && (forall i, j :: 0 <= i < j < |h.delivered| ==> h.delivered[i].ticket != h.delivered[j].ticket)
    // a process is queued, at its priority, iff it is runnable, and the running one is runnable
    && Q.QueuesOk(st.sched) && (Q.OnQueue(st.sched, x) <==> m.flags[x] == {})
    && m.flags[st.sched.current] == {} && Q.ChoosesTop(st.sched)
    // a pending notification is never slept on in receive(ANY)
    && c.Shape()
    && (c.OwnsPriv(x) && IsWaiting(m, x) && m.getFrom[x] == Any ==> PrivOf(c, m, x).notify == {})
    // signals and interrupts are held until they are reported, reported exactly once, and announced until then
    && LedgerOk(h.args)
    && PrivOf(c, m, x).sigs == Outstanding(h.args, c.slots[x].priv, SYSTEM)
    && PrivOf(c, m, x).ints == Outstanding(h.args, c.slots[x].priv, HARDWARE)
    && (PrivOf(c, m, x).sigs != {} ==> c.slots[SYSTEM].priv in PrivOf(c, m, x).notify)
    && (PrivOf(c, m, x).ints != {} ==> c.slots[HARDWARE].priv in PrivOf(c, m, x).notify)
  }

  lemma InvPromises(c: Config, st: State, x: Pid, r: Pid)
    requires Inv(c, st)
    ensures Promised(c, st, x, r)
  {
    GroundedIsAcyclic(WaitsFor(st.ipc));
    Conservation(st.ipc);
    SignalsAnnounced(c, st.ipc, x);
    BitsAre(c, st.ipc, x);
  }

  lemma BitsAre(c: Config, m: Ipc, x: Pid)
    requires IpcOk(c, m)
    ensures PrivOf(c, m, x).sigs == Outstanding(m.log.args, c.slots[x].priv, SYSTEM)
    ensures PrivOf(c, m, x).ints == Outstanding(m.log.args, c.slots[x].priv, HARDWARE)
  {
    var i := c.slots[x].priv;
    assert Bits(m.privs[i], SYSTEM) == m.privs[i].sigs && Bits(m.privs[i], HARDWARE) == m.privs[i].ints;
  }

  lemma SignalsAnnounced(c: Config, m: Ipc, x: Pid)
    requires IpcOk(c, m)
    ensures PrivOf(c, m, x).sigs != {} ==> c.slots[SYSTEM].priv in PrivOf(c, m, x).notify
    ensures PrivOf(c, m, x).ints != {} ==> c.slots[HARDWARE].priv in PrivOf(c, m, x).notify
  {
    assert Marked(c, m.privs, c.slots[x].priv, SYSTEM) && Marked(c, m.privs, c.slots[x].priv, HARDWARE);
  }

  /** What a step hands out, and to whom; what it asks for, and gets; whom it notifies and signals. */
  ghost predicate StepPromised(c: Config, st: State, e: Event, st': State) {
    && Ready(c, st) && Enabled(c, st, e) && Shape(st'.ipc)
    && Copies(c, st, e, st') && Asked(c, st, e, st') && Notifies(c, st, e, st') && SignalSteps(st, e, st')
  }

  lemma StepKeepsPromises(c: Config, st: State, e: Event)
    requires Tidy(c, st) && Enabled(c, st, e)
    ensures StepPromised(c, st, e, Step(c, st, e))
  {
    StepCopies(c, st, e);
    StepAsked(c, st, e);
    StepNotifies(c, st, e);
    StepSignals(c, st, e);
  }

  /** The promises hold of all processes in every state of every run, and of every step in it. */
  lemma EveryRun(c: Config, order: seq<Pid>, trace: seq<State>, events: seq<Event>)
    requires Run(c, order, trace, events)
    ensures forall k, x: Pid, r: Pid :: 0 <= k < |trace| ==> Promised(c, trace[k], x, r)
    ensures forall k :: 0 <= k < |events| ==> StepPromised(c, trace[k], events[k], trace[k + 1])
  {
    forall k, x: Pid, r: Pid | 0 <= k < |trace| ensures Promised(c, trace[k], x, r) {
      RunKeepsInv(c, order, trace, events, k);
      InvPromises(c, trace[k], x, r);
    }
    forall k | 0 <= k < |events| ensures StepPromised(c, trace[k], events[k], trace[k + 1]) {
      RunKeepsInv(c, order, trace, events, k);
      StepKeepsPromises(c, trace[k], events[k]);
    }
  }

  // ---------------------------------------------------------------- receiving

  /** A receive while an acceptable sender is queued gets a notification, or the message of the acceptable sender
      that has been blocked longest. */
  lemma OldestFirst(c: Config, st: State, caller: Pid, src: Peer, ptr: Addr, nb: bool, x: Pid)
    requires KernelOk(c, st) && st.ipc.flags[caller] == {}
    requires IsSending(st.ipc, x) && st.ipc.sendTo[x] == caller && Accepts(src, x)
    ensures var h, h' := st.ipc.log, MiniReceive(c, st, caller, src, ptr, nb).0.ipc.log;
            var hand := Newest(h, h', st.realtime);
            && hand.Hands? && hand.to == caller
            && (!hand.notice ==> |h'.delivered| > 0 && h'.delivered[|h'.delivered| - 1].ticket <= h.ticket[x])
  {
    var q := st.ipc.callers[caller];
    assert x in q;
    var k := Index(q, x);
    assert FindCaller(q, src) <= k;
    ReceiveEffect(c, st, caller, src, ptr, nb);
  }

  /** receive(ANY) takes a pending notification before any message, that with the lowest number first. */
  lemma NoticesFirst(c: Config, st: State, caller: Pid, ptr: Addr, nb: bool, id: SysId)
    requires Ready(c, st) && st.ipc.flags[caller] == {} && !PrivOf(c, st.ipc, caller).busy
    requires var ids := PrivOf(c, st.ipc, caller).notify; id in ids && forall k: SysId :: k in ids ==> id <= k
    ensures var m, n := st.ipc, MiniReceive(c, st, caller, Any, ptr, nb).0.ipc;
            var hand := Newest(m.log, n.log, st.realtime);
            && Shape(n) && hand.Hands? && hand.notice && hand.to == caller && hand.msg.source == c.privs[id].procNr
            && PrivOf(c, n, caller).notify == PrivOf(c, m, caller).notify - {id}
  {
    FindNoticeAny(c, PrivOf(c, st.ipc, caller).notify, 0);
  }

  // ---------------------------------------------------------------- signals

  /** Entry k reports the bit that entry r raised. */
  predicate Reports(args: seq<ArgEvent>, r: nat, k: nat) {
    && r < k < |args| && args[r].Raised? && args[k].Reported? && args[k].id == args[r].id && args[k].src == args[r].src
    && args[r].bit in args[k].bits
  }

  /** A bit that was raised is still held, or has been reported since. */
  lemma {:induction false} HeldOrReported(args: seq<ArgEvent>, r: nat)
    requires LedgerOk(args) && r < |args| && args[r].Raised?
    ensures args[r].bit in Outstanding(args, args[r].id, args[r].src) || exists k: nat :: Reports(args, r, k)
    decreases |args|
  {
    var n := |args| - 1;
    if r < n {
      var before := args[..n];
      assert forall i :: 0 <= i < n ==> before[..i] == args[..i] && before[i] == args[i];
      HeldOrReported(before, r);
      if k: nat :| Reports(before, r, k) {
        assert Reports(args, r, k);
      } else if args[n].Reported? && args[n].id == args[r].id && args[n].src == args[r].src {
        assert Reports(args, r, n);
      }
    }
  }

  /** PM is sent SIGKSIG in the step in which a process becomes SIGNALED. */
  lemma NewlySignaled(c: Config, st: State, e: Event, p: Pid)
    requires Inv(c, st) && Enabled(c, st, e) && Signaled !in st.ipc.flags[p]
    ensures var n, r := Step(c, st, e).ipc, |st.ipc.log.args|;
            && Shape(n) && st.ipc.log.args <= n.log.args
            && (Signaled in n.flags[p] ==>
                  r < |n.log.args| && n.log.args[r] == Raised(c.slots[PM].priv, SYSTEM, SIGKSIG))
  {
    StepNotifies(c, st, e);
    StepSignals(c, st, e);
    assert st.ipc.signals[p] == {};
    assert Signaled in Step(c, st, e).ipc.flags[p] - IpcFlags <==> Signaled in Step(c, st, e).ipc.flags[p];
  }

  lemma BootUnsignaled(c: Config, order: seq<Pid>, p: Pid)
    requires c.Legal()
    ensures Shape(Boot(c, order).ipc) && Signaled !in Boot(c, order).ipc.flags[p]
  {
    BootLoopKeeps(c, order);
  }

  /** SIGKSIG was raised for PM at place r of the log. */
  predicate Raises(c: Config, args: seq<ArgEvent>, r: nat)
    requires c.Shape()
  {
    r < |args| && args[r] == Raised(c.slots[PM].priv, SYSTEM, SIGKSIG)
  }

  lemma SignalStep(c: Config, order: seq<Pid>, trace: seq<State>, events: seq<Event>, k: nat, p: Pid)
    requires Run(c, order, trace, events) && 0 < k < |trace|
    ensures Shape(trace[k - 1].ipc) && Shape(trace[k].ipc)
    ensures trace[k - 1].ipc.log.args <= trace[k].ipc.log.args
    ensures Signaled !in trace[k - 1].ipc.flags[p] && Signaled in trace[k].ipc.flags[p] ==>
            Raises(c, trace[k].ipc.log.args, |trace[k - 1].ipc.log.args|)
  {
    RunKeepsInv(c, order, trace, events, k - 1);
    StepNotifies(c, trace[k - 1], events[k - 1]);
    if Signaled !in trace[k - 1].ipc.flags[p] { NewlySignaled(c, trace[k - 1], events[k - 1], p); }
  }

  /** While a process is SIGNALED: in the step that made it so, after state j, PM was sent SIGKSIG. */
  lemma {:induction false} SignaledSince(c: Config, order: seq<Pid>, trace: seq<State>, events: seq<Event>, k: nat,
                                         p: Pid)
    returns (j: nat)
    requires Run(c, order, trace, events) && k < |trace| && Shape(trace[k].ipc) && Signaled in trace[k].ipc.flags[p]
    ensures j < k && Shape(trace[j].ipc) && Signaled !in trace[j].ipc.flags[p]
    ensures Raises(c, trace[k].ipc.log.args, |trace[j].ipc.log.args|)
    decreases k
  {
    BootUnsignaled(c, order, p);
    assert k > 0;
    SignalStep(c, order, trace, events, k, p);
    j := k - 1;
    if Signaled in trace[k - 1].ipc.flags[p] { j := SignaledSince(c, order, trace, events, k - 1, p); }
  }

  /** While a process is SIGNALED, PM holds SIGKSIG or has received it since. */
  lemma PmKnows(c: Config, order: seq<Pid>, trace: seq<State>, events: seq<Event>, k: nat, p: Pid)
    returns (j: nat)
    requires Run(c, order, trace, events) && k < |trace| && Shape(trace[k].ipc) && Signaled in trace[k].ipc.flags[p]
    ensures j < k && Shape(trace[j].ipc) && Signaled !in trace[j].ipc.flags[p]
    ensures SIGKSIG in PrivOf(c, trace[k].ipc, PM).sigs ||
            exists i: nat :: Reports(trace[k].ipc.log.args, |trace[j].ipc.log.args|, i)
  {
    j := SignaledSince(c, order, trace, events, k, p);
    RunKeepsInv(c, order, trace, events, k);
    HeldOrReported(trace[k].ipc.log.args, |trace[j].ipc.log.args|);
    BitsAre(c, trace[k].ipc, PM);
  }
}
