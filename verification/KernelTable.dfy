/** The process table as the kernel keeps it: one column per field of struct proc, with the ready
    queues and caller queues as linked lists threaded through p_nextready and p_q_link.
    Every method is proved to do exactly what the state machine prescribes. */
module KernelTable {
  import opened KernelTypes
  import opened Lists
  import opened WaitGraph
  import opened Rendezvous
  import opened KernelMachine
  import opened KernelSafety
  import Q = ReadyQueues

  class ProcessTable {
    const c: Config

    // struct proc, by column
    var flags: seq<Flags>
    var getFrom: seq<Peer>
    var sendTo: seq<Pid>
    var messBuf: seq<Addr>
    var signals: seq<set<nat>>
    var mem: Memory
    var priority: seq<nat>
    var ticks: seq<int>
    var nextReady: seq<Link>
    var pReady: seq<bool>              // kept for check_runqueues
    var callerQ: seq<Link>
    var qLink: seq<Link>

    // other kernel globals
    var privs: seq<Priv>
    var rdyHead: seq<Link>
    var rdyTail: seq<Link>
    var nextPtr: Link
    var procPtr: Pid
    var billPtr: Pid
    var schedPrev: Link
    var prevPtr: Pid
    var realtime: nat

    // what the lists spell out, and the history of messages
    ghost var callers: seq<seq<Pid>>
    ghost var ready: seq<seq<Pid>>
    ghost var log: History

    /** The scheduling side of the abstract state. */
    ghost function Sch(): Q.Sched
      reads this`priority, this`ticks, this`ready, this`nextPtr, this`procPtr, this`billPtr, this`schedPrev,
          this`prevPtr
    {
      Q.Sched(priority, ticks, ready, nextPtr, procPtr, billPtr, schedPrev, prevPtr)
    }

    /** The message side of the abstract state. */
    ghost function Msg(): Ipc
      reads this`flags, this`getFrom, this`sendTo, this`messBuf, this`callers, this`signals, this`privs, this`mem,
          this`log
    {
      Ipc(flags, getFrom, sendTo, messBuf, callers, signals, privs, mem, log)
    }

    ghost function Abs(): State
      reads this
    {
      State(Msg(), Sch(), realtime)
    }

    /** rdy_head, rdy_tail and p_nextready spell out the ready queues. */
    ghost predicate ReadyLinked()
      reads this`priority, this`ticks, this`ready, this`nextPtr, this`procPtr, this`billPtr, this`schedPrev,
          this`prevPtr,
            this`rdyHead, this`rdyTail, this`nextReady
    {
      Q.QueuesOk(Sch()) && Linked(rdyHead, nextReady, ready) && Tails(rdyTail, ready)
    }

    /** Moreover p_ready marks exactly the queued processes. */
    ghost predicate ReadyValid()
      reads this`priority, this`ticks, this`ready, this`nextPtr, this`procPtr, this`billPtr, this`schedPrev,
          this`prevPtr,
            this`rdyHead, this`rdyTail, this`nextReady, this`pReady
    {
      ReadyLinked() && Marks(pReady, ready, priority)
    }

    /** p_caller_q and p_q_link spell out the caller queues. */
    ghost predicate CallersValid()
      reads this`callerQ, this`qLink, this`callers, this`sendTo
    {
      |callers| == NR_SLOTS && Linked(callerQ, qLink, callers) && Owned(callers, sendTo)
    }

    ghost predicate Valid()
      reads this
    {
      ReadyValid() && CallersValid() && Shape(Msg())
    }

    /** main() clears the process table. */
    constructor (config: Config)
      requires config.Legal()
      ensures c == config && Valid() && Abs() == Cleared(c)
    {
      c := config;
      var st := Cleared(config);
      var m, sc := st.ipc, st.sched;
      flags, getFrom, sendTo, messBuf := m.flags, m.getFrom, m.sendTo, m.messBuf;
      signals, privs, mem := m.signals, m.privs, m.mem;
      priority, ticks := sc.priority, sc.ticks;
      nextPtr, procPtr, billPtr, schedPrev, prevPtr, realtime := Nil, IDLE, IDLE, Nil, IDLE, 0;
      nextReady, callerQ, qLink := seq(NR_SLOTS, _ => Nil), seq(NR_SLOTS, _ => Nil), seq(NR_SLOTS, _ => Nil);
      rdyHead, rdyTail := seq(NR_SCHED_QUEUES, _ => Nil), seq(NR_SCHED_QUEUES, _ => Nil);
      pReady := seq(NR_SLOTS, _ => false);
      callers, ready, log := m.callers, sc.ready, m.log;
    }

    /** pick_proc */
    method PickProc()
      requires c.Legal() && ReadyLinked()
      modifies this`nextPtr, this`billPtr
      ensures Sch() == Q.PickProc(c, old(Sch()))
      ensures ReadyLinked()
    {
      var q := 0;
      while q < NR_SCHED_QUEUES
        invariant 0 <= q <= NR_SCHED_QUEUES && unchanged(this)
        invariant forall r :: 0 <= r < q ==> ready[r] == []
      {
        if rdyHead[q] != Nil {
          var rp := rdyHead[q].p;
          Q.TopIsFirstReady(ready, 0, q);
          nextPtr := To(rp);
          if c.Priv(rp).billable { billPtr := rp; }
          return;
        }
        q := q + 1;
      }
      Q.FirstReadyIsTop(ready, 0);
    }

    /** sched */
    method Sched(rp: Pid) returns (queue: nat, front: bool)
      requires c.Legal() && ReadyLinked() && !Q.OnQueue(Sch(), rp)
      modifies this`priority, this`ticks, this`schedPrev
      ensures Sch() == Q.Policy(c, old(Sch()), rp)
      ensures queue == priority[rp] && front == (old(ticks[rp]) > 0) && !Q.OnQueue(Sch(), rp)
      ensures ReadyLinked()
    {
      Q.PolicyQueuesOk(c, Sch(), rp);
      var timeLeft := ticks[rp] > 0;
      var penalty: int := 0;
      if !timeLeft {
        ticks := ticks[rp := c.slots[rp].quantum];
        penalty := if schedPrev == To(rp) then 1 else -1;
        schedPrev := To(rp);
      }
      if penalty != 0 && !IsKernel(rp) {
        var moved := penalty + priority[rp];
        if moved < c.slots[rp].maxPriority {
          moved := c.slots[rp].maxPriority;
        } else if moved > IDLE_Q - 1 {
          moved := IDLE_Q - 1;
        }
        priority := priority[rp := moved];
      }
      assert Sch() == Q.Policy(c, old(Sch()), rp);
      queue, front := priority[rp], timeLeft;
    }

    /** The list surgery of enqueue. */
    method LinkIn(q: nat, rp: Pid, front: bool)
      requires Linked(rdyHead, nextReady, ready) && Tails(rdyTail, ready) && Owned(ready, priority) && q < |ready|
      requires priority[rp] == q && rp !in ready[q]
      modifies this`nextReady, this`rdyHead, this`rdyTail, this`ready
      ensures ready == old(ready)[q := Q.Insert(old(ready)[q], rp, front)]
      ensures Linked(rdyHead, nextReady, ready) && Tails(rdyTail, ready)
    {
      if rdyHead[q] == Nil {
        LinkedAppend(rdyHead, nextReady, ready, priority, q, rp);
        rdyHead, rdyTail := rdyHead[q := To(rp)], rdyTail[q := To(rp)];
        nextReady := nextReady[rp := Nil];
        assert Q.Insert(ready[q], rp, front) == [] + [rp];
      } else if front {
        LinkedPush(rdyHead, nextReady, ready, q, rp);
        nextReady := nextReady[rp := rdyHead[q]];
        rdyHead := rdyHead[q := To(rp)];
      } else {
        LinkedAppend(rdyHead, nextReady, ready, priority, q, rp);
        nextReady := nextReady[rdyTail[q].p := To(rp)];
        rdyTail := rdyTail[q := To(rp)];
        nextReady := nextReady[rp := Nil];
      }
      ready := ready[q := Q.Insert(ready[q], rp, front)];
    }

    /** The list surgery of dequeue: *xpp = rp->p_nextready, where xpp is the head or prev's link. */
    method Unlink(q: nat, prev: Link, rp: Pid, ghost i: nat)
      requires Linked(rdyHead, nextReady, ready) && Tails(rdyTail, ready) && Owned(ready, priority) && q < |ready|
      requires i < |ready[q]| && ready[q][i] == rp && prev == if i == 0 then Nil else To(ready[q][i - 1])
      modifies this`nextReady, this`rdyHead, this`rdyTail, this`ready
      ensures ready == old(ready)[q := DropAt(old(ready)[q], i)]
      ensures Linked(rdyHead, nextReady, ready) && Tails(rdyTail, ready)
    {
      LinkedDrop(rdyHead, nextReady, ready, priority, q, i);
      LastAfterDrop(ready[q], i);
      if prev == Nil {
        rdyHead := rdyHead[q := nextReady[rp]];
      } else {
        nextReady := nextReady[prev.p := nextReady[rp]];
      }
      if rdyTail[q] == To(rp) { rdyTail := rdyTail[q := prev]; }
      ready := ready[q := DropAt(ready[q], i)];
    }

    /** enqueue */
    method Enqueue(rp: Pid)
      requires c.Legal() && ReadyValid() && !Q.OnQueue(Sch(), rp)
      modifies this`priority, this`ticks, this`schedPrev, this`nextReady, this`rdyHead, this`rdyTail,
               this`ready, this`pReady, this`nextPtr, this`billPtr
      ensures Sch() == Q.Enqueue(c, old(Sch()), rp)
      ensures ReadyValid()
    {
      MarkQueued(c, Sch(), pReady, rp);
      var q, front := Sched(rp);
      Q.InsertQueuesOk(Sch(), rp, front);
      LinkIn(q, rp, front);
      PickProc();
      pReady := pReady[rp := true];
    }

    /** dequeue, once rp has been found in its queue */
    method RemoveFound(q: nat, prev: Link, rp: Pid, ghost i: nat)
      requires c.Legal() && ReadyLinked() && q == priority[rp] && rp in ready[q] && Index(ready[q], rp) == i
      requires prev == if i == 0 then Nil else To(ready[q][i - 1])
      modifies this`nextReady, this`rdyHead, this`rdyTail, this`ready, this`nextPtr, this`billPtr
      ensures Sch() == Q.Dequeue(c, old(Sch()), rp)
      ensures ReadyLinked()
    {
      OwnedDrop(ready, priority, q, i);
      Unlink(q, prev, rp, i);
      if rp == procPtr || nextPtr == To(rp) { PickProc(); }
    }

    /** dequeue */
    method Dequeue(rp: Pid)
      requires c.Legal() && ReadyValid()
      modifies this`nextReady, this`rdyHead, this`rdyTail, this`ready, this`pReady, this`nextPtr, this`billPtr
      ensures Sch() == Q.Dequeue(c, old(Sch()), rp)
      ensures ReadyValid()
    {
      MarkGone(c, Sch(), pReady, rp);
      FindAndRemove(rp);
      pReady := pReady[rp := false];
    }

    method FindAndRemove(rp: Pid)
      requires c.Legal() && ReadyLinked()
      modifies this`nextReady, this`rdyHead, this`rdyTail, this`ready, this`nextPtr, this`billPtr
      ensures Sch() == Q.Dequeue(c, old(Sch()), rp)
      ensures ReadyLinked()
    {
      var q := priority[rp];
      var prev, xp := Nil, rdyHead[q];
      ghost var i := 0;
      while xp != Nil && xp.p != rp
        invariant 0 <= i <= |ready[q]| && xp == LinkAt(ready[q], i) && rp !in ready[q][..i]
        invariant prev == if i == 0 then Nil else To(ready[q][i - 1])
        decreases |ready[q]| - i
      {
        prev, xp, i := xp, nextReady[xp.p], i + 1;
      }
      if xp != Nil {
        FirstIndex(ready[q], rp, i);
        RemoveFound(q, prev, rp, i);
      } else {
        assert ready[q][..i] == ready[q];
      }
    }

    /** if (rp->p_rts_flags == 0) dequeue(rp); rp->p_rts_flags |= f; */
    method Unready(rp: Pid, f: Flags)
      requires c.Legal() && ReadyValid() && |flags| == NR_SLOTS && f != {}
      modifies this`flags, this`nextReady, this`rdyHead, this`rdyTail, this`ready, this`pReady, this`nextPtr,
          this`billPtr
      ensures flags == old(flags)[rp := old(flags)[rp] + f]
      ensures Sch() == Reflag(c, old(Sch()), rp, old(flags)[rp], flags[rp])
      ensures ReadyValid()
    {
      if flags[rp] == {} { Dequeue(rp); }
      flags := flags[rp := flags[rp] + f];
    }

    /** if ((rp->p_rts_flags &= ~f) == 0) enqueue(rp); */
    method MakeReady(rp: Pid, f: Flags)
      requires c.Legal() && ReadyValid() && |flags| == NR_SLOTS && flags[rp] != {} && !Q.OnQueue(Sch(), rp)
      modifies this`flags, this`priority, this`ticks, this`schedPrev, this`nextReady, this`rdyHead,
               this`rdyTail, this`ready, this`pReady, this`nextPtr, this`billPtr
      ensures flags == old(flags)[rp := old(flags)[rp] - f]
      ensures Sch() == Reflag(c, old(Sch()), rp, old(flags)[rp], flags[rp])
      ensures ReadyValid()
    {
      flags := flags[rp := flags[rp] - f];
      if flags[rp] == {} { Enqueue(rp); }
    }

    // ---------------------------------------------------------------- mini_send

    /** The walk along p_sendto that looks for the caller. */
    method FindsDeadlock(caller: Pid, dst: Pid) returns (locked: bool)
      requires Shape(Msg()) && Grounded(WaitsFor(Msg()))
      ensures locked <==> Locked(WaitsFor(Msg()), caller, dst)
    {
      ghost var g := WaitsFor(Msg());
      assert EndsSomewhere(g, dst);
      ghost var n: nat :| Ends(g, dst, n);
      ghost var k: nat := 0;
      var xp := dst;
      while Sending in flags[xp]
        invariant Ends(g, xp, n) && Reach(g, dst, k) == To(xp)
        invariant forall j: nat :: 1 <= j <= k ==> Reach(g, dst, j) != To(caller)
        decreases n
      {
        ReachCompose(g, dst, k, 1);
        assert Reach(g, xp, 1) == Reach(g, sendTo[xp], 0);
        xp, n, k := sendTo[xp], n - 1, k + 1;
        if xp == caller { return true; }
      }
      forall j: nat | j > k
        ensures Reach(g, dst, j) == Nil
      {
        ReachCompose(g, dst, k, j - k);
      }
      return false;
    }

    method CopyMess(src: Pid, from: Pid, a: Addr, dst: Pid, b: Addr)
      requires |mem| == NR_SLOTS
      modifies this`mem
      ensures mem == Write(old(mem), dst, b, Message(src, Read(old(mem), from, a).payload))
    {
      mem := Write(mem, dst, b, Message(src, Read(mem, from, a).payload));
    }

    /** The copy of a direct send. */
    method Transfer(caller: Pid, dst: Pid, ptr: Addr)
      requires Shape(Msg())
      modifies this`mem, this`log
      ensures Msg() == Deliver(old(Msg()), caller, dst, ptr).(flags := flags)
    {
      ghost var payload := Read(mem, caller, ptr).payload;
      CopyMess(caller, caller, ptr, dst, messBuf[dst]);
      log := log.(sent := log.sent + [Sent(caller, dst, payload)],
                  delivered := log.delivered + [Delivery(|log.sent|, dst, Message(caller, payload))]);
    }

    /** mini_send when the destination is waiting for this message */
    method Hand(caller: Pid, dst: Pid, ptr: Addr)
      requires c.Legal() && ReadyValid() && Shape(Msg()) && IsWaiting(Msg(), dst) && !Q.OnQueue(Sch(), dst)
      modifies this`mem, this`log, this`flags,
               this`priority, this`ticks, this`schedPrev, this`nextReady, this`rdyHead, this`rdyTail, this`ready,
                   this`pReady, this`nextPtr, this`billPtr
      ensures Msg() == Deliver(old(Msg()), caller, dst, ptr) && realtime == old(realtime)
      ensures Sch() == Reflag(c, old(Sch()), dst, old(flags)[dst], flags[dst])
      ensures ReadyValid()
    {
      Transfer(caller, dst, ptr);
      MakeReady(dst, {Receiving});
    }

    /** mini_send when the caller must block */
    method Park(caller: Pid, dst: Pid, ptr: Addr)
      requires c.Legal() && Valid() && forall d: Pid :: caller !in callers[d]
      modifies this
      ensures Msg() == Block(old(Msg()), caller, dst, ptr) && realtime == old(realtime)
      ensures Sch() == Reflag(c, old(Sch()), caller, old(flags)[caller], flags[caller])
      ensures Valid()
    {
      Unready(caller, {Sending});
      Join(caller, dst, ptr);
    }

    /** The caller joins the end of the destination's caller queue. */
    method Join(caller: Pid, dst: Pid, ptr: Addr)
      requires CallersValid() && Shape(Msg()) && forall d: Pid :: caller !in callers[d]
      modifies this`messBuf, this`sendTo, this`callerQ, this`qLink, this`callers, this`log
      ensures Msg() == Block(old(Msg()), caller, dst, ptr).(flags := flags)
      ensures CallersValid()
    {
      log := log.(sent := log.sent + [Sent(caller, dst, Read(mem, caller, ptr).payload)],
                  ticket := log.ticket[caller := |log.sent|]);
      messBuf := messBuf[caller := ptr];
      sendTo := sendTo[caller := dst];
      AppendCaller(caller, dst);
    }

    method AppendCaller(caller: Pid, dst: Pid)
      requires CallersValid() && sendTo[caller] == dst && forall d: Pid :: caller !in callers[d]
      modifies this`callerQ, this`qLink, this`callers
      ensures callers == old(callers)[dst := old(callers)[dst] + [caller]]
      ensures CallersValid()
    {
      var prev, xp := Nil, callerQ[dst];
      ghost var i := 0;
      while xp != Nil
        invariant 0 <= i <= |callers[dst]| && xp == LinkAt(callers[dst], i)
        invariant prev == if i == 0 then Nil else To(callers[dst][i - 1])
        decreases |callers[dst]| - i
      {
        prev, xp, i := xp, qLink[xp.p], i + 1;
      }
      LinkedAppend(callerQ, qLink, callers, sendTo, dst, caller);
      OwnedAppend(callers, sendTo, dst, caller);
      if prev == Nil {
        callerQ := callerQ[dst := To(caller)];
      } else {
        qLink := qLink[prev.p := To(caller)];
      }
      qLink := qLink[caller := Nil];
      callers := callers[dst := callers[dst] + [caller]];
    }

    /** mini_send */
    method MiniSend(caller: Pid, dst: Pid, ptr: Addr, nonBlocking: bool) returns (r: Result)
      requires c.Legal() && Valid() && Grounded(WaitsFor(Msg()))
      requires forall d: Pid :: caller !in callers[d]
      requires Q.OnQueue(Sch(), dst) ==> flags[dst] == {}
      modifies this
      ensures (Abs(), r) == KernelMachine.MiniSend(c, old(Abs()), caller, dst, ptr, nonBlocking)
      ensures Valid()
    {
      var locked := FindsDeadlock(caller, dst);
      if locked { return ELOCKED; }
      if Receiving in flags[dst] && Sending !in flags[dst] && Accepts(getFrom[dst], caller) {
        Hand(caller, dst, ptr);
      } else if !nonBlocking {
        Park(caller, dst, ptr);
      } else {
        return ENOTREADY;
      }
      return OK;
    }
  
    // ---------------------------------------------------------------- mini_receive, mini_notify

    /** The scan of the pending-notification map, chunk by chunk, lowest bit of each. */
    method FindPending(ids: set<SysId>, src: Peer) returns (r: Found)
      requires c.Shape()
      ensures r == FindNotice(c, ids, src, 0)
    {
      var chunk := 0;
      while chunk < NR_SYS_CHUNKS
        invariant 0 <= chunk <= NR_SYS_CHUNKS
        invariant FindNotice(c, ids, src, 0) == FindNotice(c, ids, src, chunk)
      {
        var lo, hi := chunk * BITCHUNK_BITS, (chunk + 1) * BITCHUNK_BITS;
        var i := lo;
        while i < hi && i !in ids
          invariant lo <= i <= hi && LowestIn(ids, lo, hi) == LowestIn(ids, i, hi)
        {
          i := i + 1;
        }
        if i < hi && Accepts(src, c.privs[i].procNr) { return FoundId(i); }
        chunk := chunk + 1;
      }
      return NotFound;
    }

    /** BuildMess and the copy to dst. */
    method Post(src: Pid, dst: Pid, a: Addr)
      requires c.Shape() && Shape(Msg())
      modifies this`privs, this`mem, this`log
      ensures Msg() == PostNotice(c, old(Msg()), src, dst, a, realtime)
    {
      var id := c.slots[dst].priv;
      var m := Message(src, Notice(realtime, NoArg));
      ghost var report := Reported(id, src, Bits(privs[id], src), dst);
      if src == HARDWARE {
        m := Message(src, Notice(realtime, Interrupts(privs[id].ints)));
        privs := privs[id := privs[id].(ints := {})];
      } else if src == SYSTEM {
        m := Message(src, Notice(realtime, Signals(privs[id].sigs)));
        privs := privs[id := privs[id].(sigs := {})];
      }
      mem := Write(mem, dst, a, m);
      log := log.(args := log.args + [report]);
      assert privs == PostNotice(c, old(Msg()), src, dst, a, realtime).privs;
    }

    /** mini_receive delivers a pending notification */
    method TakePending(caller: Pid, id: SysId, ptr: Addr)
      requires c.Shape() && Shape(Msg())
      modifies this`privs, this`mem, this`log
      ensures Msg() == PostNotice(c, Unpend(c, old(Msg()), caller, id), c.privs[id].procNr, caller, ptr, realtime)
    {
      var i := c.slots[caller].priv;
      privs := privs[i := privs[i].(notify := privs[i].notify - {id})];
      Post(c.privs[id].procNr, caller, ptr);
    }

    /** Walk the caller queue to the first acceptable sender. */
    method FindQueued(caller: Pid, src: Peer) returns (prev: Link, xp: Link, ghost i: nat)
      requires CallersValid()
      ensures i == FindCaller(callers[caller], src) && xp == LinkAt(callers[caller], i)
      ensures prev == if i == 0 then Nil else To(callers[caller][i - 1])
    {
      ghost var q := callers[caller];
      prev, xp, i := Nil, callerQ[caller], 0;
      while xp != Nil && !Accepts(src, xp.p)
        invariant 0 <= i <= |q| && xp == LinkAt(q, i)
        invariant prev == if i == 0 then Nil else To(q[i - 1])
        invariant forall k :: 0 <= k < i ==> !Accepts(src, q[k])
        decreases |q| - i
      {
        prev, xp, i := xp, qLink[xp.p], i + 1;
      }
    }

    /** *xpp = (*xpp)->p_q_link */
    method UnlinkCaller(caller: Pid, prev: Link, x: Pid, ghost i: nat)
      requires CallersValid() && i < |callers[caller]| && callers[caller][i] == x
      requires prev == if i == 0 then Nil else To(callers[caller][i - 1])
      modifies this`callerQ, this`qLink, this`callers
      ensures callers == old(callers)[caller := DropAt(old(callers)[caller], i)]
      ensures CallersValid()
    {
      LinkedDrop(callerQ, qLink, callers, sendTo, caller, i);
      OwnedDrop(callers, sendTo, caller, i);
      if prev == Nil {
        callerQ := callerQ[caller := qLink[x]];
      } else {
        qLink := qLink[prev.p := qLink[x]];
      }
      callers := callers[caller := DropAt(callers[caller], i)];
    }

    /** The copy and the queue update of accepting a queued sender. */
    method Collect(caller: Pid, prev: Link, x: Pid, ptr: Addr, ghost i: nat)
      requires CallersValid() && Shape(Msg()) && i < |callers[caller]| && callers[caller][i] == x
      requires prev == if i == 0 then Nil else To(callers[caller][i - 1])
      modifies this`mem, this`log, this`callerQ, this`qLink, this`callers
      ensures Msg() == Accept(old(Msg()), caller, i, ptr).(flags := flags)
      ensures CallersValid()
    {
      ghost var msg := Message(x, Read(mem, x, messBuf[x]).payload);
      CopyMess(x, x, messBuf[x], caller, ptr);
      UnlinkCaller(caller, prev, x, i);
      log := log.(delivered := log.delivered + [Delivery(log.ticket[x], caller, msg)]);
    }

    /** mini_receive takes the message of a queued sender */
    method TakeQueued(caller: Pid, prev: Link, x: Pid, ptr: Addr, ghost i: nat)
      requires c.Legal() && Valid() && i < |callers[caller]| && callers[caller][i] == x
      requires prev == if i == 0 then Nil else To(callers[caller][i - 1])
      requires flags[x] != {} && !Q.OnQueue(Sch(), x)
      modifies this
      ensures Msg() == Accept(old(Msg()), caller, i, ptr) && realtime == old(realtime)
      ensures Sch() == Reflag(c, old(Sch()), x, old(flags)[x], flags[x])
      ensures Valid()
    {
      Collect(caller, prev, x, ptr, i);
      MakeReady(x, {Sending});
    }

    /** mini_receive blocks */
    method Sleep(caller: Pid, src: Peer, ptr: Addr)
      requires c.Legal() && ReadyValid() && Shape(Msg())
      modifies this`getFrom, this`messBuf, this`flags, this`nextReady, this`rdyHead, this`rdyTail, this`ready,
          this`pReady, this`nextPtr, this`billPtr
      ensures Msg() == Wait(old(Msg()), caller, src, ptr) && realtime == old(realtime)
      ensures Sch() == Reflag(c, old(Sch()), caller, old(flags)[caller], flags[caller])
      ensures ReadyValid()
    {
      Unready(caller, {Receiving});
      getFrom, messBuf := getFrom[caller := src], messBuf[caller := ptr];
    }

    /** The first half of mini_receive: the pending notification to deliver, if any. */
    method PendingFor(caller: Pid, src: Peer) returns (note: Found)
      requires c.Shape() && Shape(Msg())
      ensures note == if IsSending(Msg(), caller) || PrivOf(c, Msg(), caller).busy then NotFound
                      else FindNotice(c, PrivOf(c, Msg(), caller).notify, src, 0)
    {
      note := NotFound;
      var pr := privs[c.slots[caller].priv];
      if Sending !in flags[caller] && !pr.busy {
        note := FindPending(pr.notify, src);
      }
    }

    /** mini_receive */
    method MiniReceive(caller: Pid, src: Peer, ptr: Addr, nonBlocking: bool) returns (r: Result)
      requires c.Legal() && Valid()
      requires forall x: Pid :: x in callers[caller] ==> flags[x] != {} && !Q.OnQueue(Sch(), x)
      modifies this
      ensures (Abs(), r) == KernelMachine.MiniReceive(c, old(Abs()), caller, src, ptr, nonBlocking)
      ensures Valid()
    {
      r := OK;
      var note := PendingFor(caller, src);
      if note.FoundId? {
        TakePending(caller, note.id, ptr);
      } else {
        r := ReceiveQueued(caller, src, ptr, nonBlocking);
      }
    }

    /** The rest of mini_receive: a queued sender, or sleep. */
    method ReceiveQueued(caller: Pid, src: Peer, ptr: Addr, nonBlocking: bool) returns (r: Result)
      requires c.Legal() && Valid()
      requires forall x: Pid :: x in callers[caller] ==> flags[x] != {} && !Q.OnQueue(Sch(), x)
      modifies this
      ensures var i := FindCaller(old(callers)[caller], src);
              (Abs(), r) == if !IsSending(old(Msg()), caller) && i < |old(callers)[caller]|
                            then (Goto(c, old(Abs()), Accept(old(Msg()), caller, i, ptr), old(callers)[caller][i]), OK)
                            else if nonBlocking then (old(Abs()), ENOTREADY)
                            else (Goto(c, old(Abs()), Wait(old(Msg()), caller, src, ptr), caller), OK)
      ensures Valid()
    {
      r := OK;
      var prev, xp, i := FindQueued(caller, src);
      if Sending !in flags[caller] && xp != Nil {
        assert xp.p in callers[caller];
        TakeQueued(caller, prev, xp.p, ptr, i);
      } else {
        r := SleepUnless(caller, src, ptr, nonBlocking);
      }
    }

    /** Nothing was found: sleep, or fail if the call may not block. */
    method SleepUnless(caller: Pid, src: Peer, ptr: Addr, nonBlocking: bool) returns (r: Result)
      requires c.Legal() && Valid()
      modifies this
      ensures (Abs(), r) == if nonBlocking then (old(Abs()), ENOTREADY)
                            else (Goto(c, old(Abs()), Wait(old(Msg()), caller, src, ptr), caller), OK)
      ensures Valid()
    {
      r := if nonBlocking then ENOTREADY else OK;
      if !nonBlocking { Sleep(caller, src, ptr); }
    }

    /** mini_notify to a process that is waiting for it */
    method NotifyNow(src: Pid, dst: Pid)
      requires c.Legal() && ReadyValid() && Shape(Msg()) && IsWaiting(Msg(), dst) && !Q.OnQueue(Sch(), dst)
      modifies this`privs, this`mem, this`log, this`flags,
               this`priority, this`ticks, this`schedPrev, this`nextReady, this`rdyHead, this`rdyTail, this`ready,
                   this`pReady, this`nextPtr, this`billPtr
      ensures Msg() == Unwait(PostNotice(c, old(Msg()), src, dst, old(messBuf)[dst], realtime), dst)
      ensures Sch() == Reflag(c, old(Sch()), dst, old(flags)[dst], flags[dst]) && realtime == old(realtime)
      ensures ReadyValid()
    {
      MakeReady(dst, {Receiving});
      Post(src, dst, messBuf[dst]);
    }

    /** mini_notify, also lock_notify */
    method MiniNotify(src: Pid, dst: Pid)
      requires c.Legal() && Valid() && (Q.OnQueue(Sch(), dst) ==> flags[dst] == {})
      modifies this
      ensures Abs() == KernelMachine.MiniNotify(c, old(Abs()), src, dst)
      ensures Valid()
    {
      var id := c.slots[dst].priv;
      if Receiving in flags[dst] && Sending !in flags[dst] && !privs[id].busy && Accepts(getFrom[dst], src) {
        NotifyNow(src, dst);
      } else {
        privs := privs[id := privs[id].(notify := privs[id].notify + {c.slots[src].priv})];
      }
    }
  
    // ---------------------------------------------------------------- kernel entries

    method SendPart(dst: Pid, ptr: Addr, nonBlocking: bool) returns (r: Result)
      requires c.Legal() && Valid() && Inv(c, Abs())
      modifies this
      ensures (Abs(), r) == KernelMachine.MiniSend(c, old(Abs()), old(procPtr), dst, ptr, nonBlocking)
      ensures Valid()
    {
      Unqueued(c, Abs(), procPtr);
      r := MiniSend(procPtr, dst, ptr, nonBlocking);
    }

    method SetSendrecBusy(p: Pid, b: bool)
      requires c.Shape() && Shape(Msg())
      modifies this`privs
      ensures Msg() == SetBusy(c, old(Msg()), p, b)
    {
      var id := c.slots[p].priv;
      privs := privs[id := privs[id].(busy := b)];
    }

    /** The checks at the head of sys_call. */
    method Check(fn: nat, t: Target, ptr: Addr) returns (r: Result)
      requires c.Legal() && Valid() && Defined(c, procPtr, fn, t, ptr)
      ensures r == Screen(c, Abs(), fn, t, ptr)
    {
      if fn !in c.Priv(procPtr).trapMask || (t.Proc? && t.nr < 0 && fn != SENDREC && fn != RECEIVE) {
        return ECALLDENIED;
      }
      if !(IsOkProc(t) || t.AnyProc? || fn == ECHO) { return EBADSRCDST; }
      if ChecksPtr(fn) && !PtrOk(c.slots[procPtr], ptr) { return EFAULT; }
      if ChecksDst(fn) {
        if c.slots[Slot(t)].priv !in c.Priv(procPtr).ipcTo { return ECALLDENIED; }
        if flags[Slot(t)] == {SlotFree} { return EDEADDST; }
      }
      return OK;
    }

    /** SENDREC: send, then receive the reply from the same process. */
    method SendRec(dst: Pid, ptr: Addr, nonBlocking: bool) returns (r: Result)
      requires c.Legal() && Valid() && Inv(c, Abs()) && procPtr != IDLE
      modifies this
      ensures var (s1, r1) := KernelMachine.MiniSend(c, old(Abs()), old(procPtr), dst, ptr, nonBlocking);
              && Ready(c, s1)
              && (Abs(), r) == if r1 != OK then (s1, r1)
                               else KernelMachine.MiniReceive(c, s1, old(procPtr), From(dst), ptr, nonBlocking)
      ensures Valid()
    {
      var caller := procPtr;
      MiniSendKeepsIff(c, Abs(), caller, dst, ptr, nonBlocking);
      SentBlocked(c, Abs(), dst, ptr, nonBlocking);
      r := SendPart(dst, ptr, nonBlocking);
      if r == OK { r := MiniReceive(caller, From(dst), ptr, nonBlocking); }
    }

    /** The switch of sys_call, for a call that passed the checks. */
    method Dispatch(fn: nat, nonBlocking: bool, t: Target, ptr: Addr) returns (r: Result)
      requires c.Legal() && Valid() && Inv(c, Abs()) && procPtr != IDLE
      requires (ChecksDst(fn) ==> IsOkProc(t)) && (IsOkProc(t) || t.AnyProc? || fn == ECHO)
      modifies this
      ensures (Abs(), r) == Perform(c, old(Abs()), fn, nonBlocking, t, ptr)
      ensures Valid()
    {
      if fn == SENDREC {
        BusyKeeps(c, Abs(), true);
        SetSendrecBusy(procPtr, true);
        r := SendRec(Slot(t), ptr, nonBlocking);
      } else if fn == SEND {
        r := SendPart(Slot(t), ptr, nonBlocking);
      } else if fn == RECEIVE {
        r := Receive(Wanted(t), ptr, nonBlocking);
      } else {
        r := DispatchRest(fn, nonBlocking, t, ptr);
      }
    }

    /** The calls that do not block. */
    method DispatchRest(fn: nat, ghost nonBlocking: bool, t: Target, ptr: Addr) returns (r: Result)
      requires c.Legal() && Valid() && Inv(c, Abs()) && fn != SENDREC && fn != SEND && fn != RECEIVE
      requires (ChecksDst(fn) ==> IsOkProc(t)) && (IsOkProc(t) || t.AnyProc? || fn == ECHO)
      modifies this
      ensures (Abs(), r) == Perform(c, old(Abs()), fn, nonBlocking, t, ptr)
      ensures Valid()
    {
      if fn == NOTIFY {
        MiniNotify(procPtr, Slot(t));
        r := OK;
      } else if fn == ECHO {
        CopyMess(procPtr, procPtr, ptr, procPtr, ptr);
        r := OK;
      } else {
        r := EBADCALL;
      }
    }

    /** RECEIVE: notifications may come in again. */
    method Receive(src: Peer, ptr: Addr, nonBlocking: bool) returns (r: Result)
      requires c.Legal() && Valid() && Inv(c, Abs())
      modifies this
      ensures var st := old(Abs());
              (Abs(), r) == KernelMachine.MiniReceive(c, st.(ipc := SetBusy(c, st.ipc, old(procPtr), false)),
                  old(procPtr), src, ptr, nonBlocking)
      ensures Valid()
    {
      BusyKeeps(c, Abs(), false);
      SetSendrecBusy(procPtr, false);
      Blocked(c, Abs(), procPtr);
      r := MiniReceive(procPtr, src, ptr, nonBlocking);
    }

    /** sys_call */
    method SysCall(fn: nat, nonBlocking: bool, t: Target, ptr: Addr) returns (r: Result)
      requires c.Legal() && Valid() && Inv(c, Abs())
      requires Defined(c, procPtr, fn, t, ptr)
      modifies this
      ensures (Abs(), r) == KernelMachine.SysCall(c, old(Abs()), fn, nonBlocking, t, ptr)
      ensures Valid()
    {
      r := Check(fn, t, ptr);
      if r == OK { r := Dispatch(fn, nonBlocking, t, ptr); }
    }

    /** Record a signal (src SYSTEM) or interrupt (src HARDWARE) bit for dst and notify it. */
    method RaiseNotify(src: Pid, dst: Pid, bit: nat)
      requires c.Legal() && Valid() && (Q.OnQueue(Sch(), dst) ==> flags[dst] == {}) &&
               (src == SYSTEM || src == HARDWARE)
      modifies this
      ensures Abs() == KernelMachine.MiniNotify(c, old(Abs()).(ipc := Raise(c, old(Msg()), src, dst, bit)), src, dst)
      ensures Valid()
    {
      var id := c.slots[dst].priv;
      if src == SYSTEM {
        privs := privs[id := privs[id].(sigs := privs[id].sigs + {bit})];
      } else {
        privs := privs[id := privs[id].(ints := privs[id].ints + {bit})];
      }
      log := log.(args := log.args + [Raised(id, src, bit)]);
      MiniNotify(src, dst);
    }

    /** cause_sig, when no signal was pending yet */
    method Hold(p: Pid, sig: nat)
      requires c.Legal() && ReadyValid() && Shape(Msg())
      modifies this`signals, this`flags, this`nextReady, this`rdyHead, this`rdyTail, this`ready, this`pReady,
          this`nextPtr, this`billPtr
      ensures Msg() == Held(old(Msg()), p, sig)
      ensures Sch() == Reflag(c, old(Sch()), p, old(flags)[p], flags[p])
      ensures ReadyValid()
    {
      Unready(p, {Signaled, SigPending});
      signals := signals[p := signals[p] + {sig}];
    }

    /** cause_sig */
    method CauseSig(p: Pid, sig: nat)
      requires c.Legal() && Valid() && SchedOk(c, flags, Sch()) && !IsKernel(p)
      modifies this
      ensures Abs() == KernelMachine.CauseSig(c, old(Abs()), p, sig)
      ensures Valid()
    {
      if sig in signals[p] { return; }
      if Signaled in flags[p] {
        signals := signals[p := signals[p] + {sig}];
      } else {
        FirstSignal(p, sig);
      }
    }

    method FirstSignal(p: Pid, sig: nat)
      requires c.Legal() && Valid() && SchedOk(c, flags, Sch()) && sig !in signals[p] && Signaled !in flags[p]
      modifies this
      ensures Abs() == KernelMachine.CauseSig(c, old(Abs()), p, sig)
      ensures Valid()
    {
      HoldFor(p, sig);
      RaiseNotify(SYSTEM, PM, SIGKSIG);
    }

    method HoldFor(p: Pid, sig: nat)
      requires c.Legal() && Valid() && SchedOk(c, flags, Sch())
      modifies this
      ensures Abs() == Goto(c, old(Abs()), Held(old(Msg()), p, sig), p)
      ensures Q.OnQueue(Sch(), PM) ==> flags[PM] == {}
      ensures Valid()
    {
      HoldSparesPM(c, flags, Sch(), p);
      Hold(p, sig);
    }

    /** do_endksig; of the message side only the flags change. */
    method EndKsig(p: Pid)
      requires c.Legal() && ReadyValid() && Shape(Msg()) && (Q.OnQueue(Sch(), p) ==> flags[p] == {})
      modifies this`flags, this`priority, this`ticks, this`schedPrev, this`nextReady, this`rdyHead,
               this`rdyTail, this`ready, this`pReady, this`nextPtr, this`billPtr
      ensures Sch() == KernelMachine.EndKsig(c, old(Abs()), p).sched
      ensures flags == KernelMachine.EndKsig(c, old(Abs()), p).ipc.flags
      ensures ReadyValid()
    {
      if SigPending in flags[p] && Signaled !in flags[p] { MakeReady(p, {SigPending}); }
    }

    /** do_getksig: a signalled process, if there is one, and its pending signals. */
    method GetKsig() returns (r: Link, sigs: set<nat>)
      requires c.Legal() && Valid()
      modifies this`signals, this`flags
      ensures Abs() == KernelMachine.GetKsig(old(Abs()))
      ensures r == SignaledProc(old(flags)) && sigs == if r.To? then old(signals)[r.p] else {}
      ensures Valid()
    {
      var p := NR_TASKS;
      while p < NR_SLOTS && Signaled !in flags[p]
        invariant NR_TASKS <= p <= NR_SLOTS && FindSignaled(flags, NR_TASKS) == FindSignaled(flags, p)
      {
        p := p + 1;
      }
      if p == NR_SLOTS { return Nil, {}; }
      sigs := signals[p];
      signals, flags := signals[p := {}], flags[p := flags[p] - {Signaled}];
      r := To(p);
    }

    /** The quantum accounting of clock_handler. */
    method ChargeTicks(t: nat)
      requires c.Legal() && ReadyValid()
      modifies this`ticks
      ensures Sch() == old(Sch()).(ticks := Charge(c, old(Sch()), t))
      ensures ReadyValid()
    {
      if c.Priv(procPtr).preemptible {
        ticks := ticks[procPtr := Q.ToChar(ticks[procPtr] - t)];
      }
      if !c.Priv(procPtr).billable {
        ticks := ticks[billPtr := Q.ToChar(ticks[billPtr] - t)];
      }
    }

    /** clock_handler */
    method ClockHandler(lost: nat, timeout: nat)
      requires c.Legal() && Valid() && (Q.OnQueue(Sch(), CLOCK) ==> flags[CLOCK] == {})
      modifies this
      ensures Abs() == KernelMachine.ClockHandler(c, old(Abs()), lost, timeout)
      ensures Valid()
    {
      Tick(lost);
      if timeout <= realtime || ticks[procPtr] <= 0 { Expire(); }
    }

    method Tick(lost: nat)
      requires c.Legal() && Valid()
      modifies this`ticks, this`realtime
      ensures var st := old(Abs()); Abs() == st.(realtime := st.realtime + lost + 1,
              sched := st.sched.(ticks := Charge(c, st.sched, lost + 1)))
      ensures Valid()
    {
      realtime := realtime + lost + 1;
      ChargeTicks(lost + 1);
    }

    /** The quantum of the running process is used up, or a timer is due: wake CLOCK. */
    method Expire()
      requires c.Legal() && Valid() && (Q.OnQueue(Sch(), CLOCK) ==> flags[CLOCK] == {})
      modifies this
      ensures Abs() == KernelMachine.MiniNotify(c, old(Abs()).(sched := old(Sch()).(expired := old(procPtr))),
              HARDWARE, CLOCK)
      ensures Valid()
    {
      prevPtr := procPtr;
      MiniNotify(HARDWARE, CLOCK);
    }

    /** lock_dequeue(rp); lock_enqueue(rp); */
    method Requeue(rp: Pid)
      requires c.Legal() && ReadyValid()
      modifies this`priority, this`ticks, this`schedPrev, this`nextReady, this`rdyHead, this`rdyTail,
               this`ready, this`pReady, this`nextPtr, this`billPtr
      ensures Sch() == Q.Enqueue(c, Q.Dequeue(c, old(Sch()), rp), rp)
      ensures ReadyValid()
    {
      Q.DequeueGone(c, Sch(), rp);
      Dequeue(rp);
      Enqueue(rp);
    }

    /** do_clocktick; the message side is not touched. */
    method DoClocktick()
      requires c.Legal() && ReadyValid() && Shape(Msg())
      modifies this`priority, this`ticks, this`schedPrev, this`nextReady, this`rdyHead, this`rdyTail,
               this`ready, this`pReady, this`nextPtr, this`billPtr
      ensures Sch() == KernelMachine.DoClocktick(c, old(Abs())).sched
      ensures ReadyValid()
    {
      if ticks[prevPtr] <= 0 && c.Priv(prevPtr).preemptible { Requeue(prevPtr); }
    }

    /** The loop of main() over the boot image, then restart(). */
    method Startup(order: seq<Pid>)
      requires c.Legal() && Valid() && Abs() == Cleared(c) && Distinct(order)
      modifies this
      ensures Abs() == Boot(c, order)
      ensures Valid()
    {
      for i := 0 to |order|
        invariant Valid() && Abs() == BootLoop(c, order[..i])
      {
        BootLoopStep(c, order, i);
        AnnounceNext(order[i]);
      }
      assert order[..|order|] == order;
      billPtr := IDLE;
      Restart();
    }

    method AnnounceNext(rp: Pid)
      requires c.Legal() && Valid() && flags[rp] == {SlotFree} && !Q.OnQueue(Sch(), rp)
      modifies this
      ensures Abs() == Announce(c, old(Abs()), rp)
      ensures Valid()
    {
      AnnounceOne(rp);
    }

    method AnnounceOne(rp: Pid)
      requires c.Legal() && ReadyValid() && |flags| == NR_SLOTS && flags[rp] == {SlotFree} && !Q.OnQueue(Sch(), rp)
      modifies this`flags, this`priority, this`ticks, this`schedPrev, this`nextReady, this`rdyHead,
               this`rdyTail, this`ready, this`pReady, this`nextPtr, this`billPtr
      ensures flags == old(flags)[rp := if rp == HARDWARE then {NoMap} else {}]
      ensures Sch() == Reflag(c, old(Sch()), rp, old(flags)[rp], flags[rp])
      ensures ReadyValid()
    {
      if rp != HARDWARE {
        flags := flags[rp := {}];
        Enqueue(rp);
      } else {
        flags := flags[rp := {NoMap}];
      }
    }

    /** restart */
    method Restart()
      requires c.Legal() && Valid()
      modifies this`procPtr, this`nextPtr
      ensures Abs() == Resume(old(Abs()))
      ensures Valid()
    {
      if nextPtr != Nil { procPtr, nextPtr := nextPtr.p, Nil; }
    }
  }

  /** Exactly the processes on a ready queue are marked. */
  ghost predicate Marks(marks: seq<bool>, ready: seq<seq<Pid>>, priority: seq<nat>) {
    && |marks| == NR_SLOTS && |priority| == NR_SLOTS
    && forall p: Pid :: marks[p] <==> priority[p] < |ready| && p in ready[priority[p]]
  }

  /** PM is still queued only if runnable once p is held for it. */
  lemma HoldSparesPM(c: Config, flags: seq<Flags>, sc: Q.Sched, p: Pid)
    requires SchedOk(c, flags, sc)
    ensures var f := flags[p] + {Signaled, SigPending};
            var t := Reflag(c, sc, p, flags[p], f);
            Q.Shape(t) && (Q.OnQueue(t, PM) ==> flags[p := f][PM] == {})
  {
    ReflagKeeps(c, flags, sc, p, flags[p] + {Signaled, SigPending});
  }

  lemma MarkQueued(c: Config, sc: Q.Sched, marks: seq<bool>, p: Pid)
    requires c.Legal() && Q.QueuesOk(sc) && !Q.OnQueue(sc, p) && Marks(marks, sc.ready, sc.priority)
    ensures var t := Q.Enqueue(c, sc, p); Marks(marks[p := true], t.ready, t.priority)
  {
    Q.EnqueueMembers(c, sc, p);
  }

  lemma MarkGone(c: Config, sc: Q.Sched, marks: seq<bool>, p: Pid)
    requires c.Legal() && Q.QueuesOk(sc) && Marks(marks, sc.ready, sc.priority)
    ensures var t := Q.Dequeue(c, sc, p); Marks(marks[p := false], t.ready, t.priority)
  {
    Q.DequeueGone(c, sc, p);
  }

  /** A process that is not sending is on no caller queue. */
  lemma Unqueued(c: Config, st: State, p: Pid)
    requires KernelOk(c, st) && !IsSending(st.ipc, p)
    ensures Grounded(WaitsFor(st.ipc)) && forall d: Pid :: p !in st.ipc.callers[d]
    ensures forall x: Pid :: Q.OnQueue(st.sched, x) <==> st.ipc.flags[x] == {}
  {
    assert QueuesOk(st.ipc);
  }

  /** A queued sender is blocked. */
  lemma Blocked(c: Config, st: State, p: Pid)
    requires KernelOk(c, st)
    ensures forall x: Pid :: x in st.ipc.callers[p] ==> st.ipc.flags[x] != {} && !Q.OnQueue(st.sched, x)
  {
    assert QueuesOk(st.ipc);
    forall x: Pid | x in st.ipc.callers[p]
      ensures st.ipc.flags[x] != {} && !Q.OnQueue(st.sched, x)
    {
      assert IsSending(st.ipc, x);
    }
  }

  /** After the send half of SENDREC, whoever waits for the caller is blocked, the caller itself included. */
  lemma SentBlocked(c: Config, st: State, dst: Pid, ptr: Addr, nb: bool)
    requires Inv(c, st) && st.sched.current != IDLE
    ensures var caller, s1 := st.sched.current, MiniSend(c, st, st.sched.current, dst, ptr, nb).0;
            && Ready(c, s1)
            && forall x: Pid :: x in s1.ipc.callers[caller] ==> s1.ipc.flags[x] != {} && !Q.OnQueue(s1.sched, x)
  {
    var caller, s1 := st.sched.current, MiniSend(c, st, st.sched.current, dst, ptr, nb).0;
    MiniSendKeepsIff(c, st, caller, dst, ptr, nb);
    if nb || caller != dst {
      Blocked(c, s1, caller);
    } else {
      Blocked(c, st, caller);
      SelfSendCycle(WaitsFor(st.ipc), caller);
      Q.DequeueGone(c, st.sched, caller);
    }
  }

  lemma FirstIndex(s: seq<Pid>, x: Pid, i: nat)
    requires i < |s| && s[i] == x && x !in s[..i]
    ensures x in s && Index(s, x) == i
  {
  }
}
