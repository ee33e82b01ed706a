/** Every message-passing transition keeps IpcOk. */
module RendezvousProofs {
  import opened KernelTypes
  import opened Lists
  import opened WaitGraph
  import opened Rendezvous

  lemma TicketsAppend(ds: seq<Delivery>, d: Delivery)
    ensures Tickets(ds + [d]) == Tickets(ds) + {d.ticket}
  {
    assert forall e :: e in ds + [d] <==> e in ds || e == d;
  }

  // ---------------------------------------------------------------- Deliver

  lemma DeliverLog(m: Ipc, caller: Pid, dst: Pid, ptr: Addr)
    requires QueuesOk(m) && PendingOk(m) && FifoOk(m) && DeliveryOk(m)
    requires !IsSending(m, caller) && !IsSending(m, dst)
    ensures var n := Deliver(m, caller, dst, ptr); PendingOk(n) && FifoOk(n) && DeliveryOk(n)
  {
    var n := Deliver(m, caller, dst, ptr);
    var h, k := m.log, n.log;
    TicketsAppend(h.delivered, k.delivered[|h.delivered|]);
    assert forall x: Pid :: IsSending(n, x) == IsSending(m, x);
    forall t: nat | t < |k.sent|
      ensures t in Tickets(k.delivered) <==> !Queued(n, t)
    {
      if t < |h.sent| { assert Queued(n, t) == Queued(m, t); }
    }
    assert forall i :: 0 <= i < |h.delivered| ==> Matches(h, h.delivered[i]);
  }

  lemma DeliverKeeps(c: Config, m: Ipc, caller: Pid, dst: Pid, ptr: Addr)
    requires IpcOk(c, m) && !IsSending(m, caller) && IsWaiting(m, dst)
    ensures IpcOk(c, Deliver(m, caller, dst, ptr))
    ensures var n := Deliver(m, caller, dst, ptr);
            && n.log.delivered == m.log.delivered + [Delivery(|m.log.sent|, dst, Read(n.mem, dst, m.messBuf[dst]))]
            && Read(n.mem, dst, m.messBuf[dst]) == Message(caller, Read(m.mem, caller, ptr).payload)
  {
    var n := Deliver(m, caller, dst, ptr);
    assert WaitsFor(n) == WaitsFor(m);
    DeliverLog(m, caller, dst, ptr);
  }

  // ---------------------------------------------------------------- Block

  lemma BlockQueues(m: Ipc, caller: Pid, dst: Pid, ptr: Addr)
    requires QueuesOk(m) && !IsSending(m, caller)
    ensures QueuesOk(Block(m, caller, dst, ptr))
  {
    var n := Block(m, caller, dst, ptr);
    assert caller !in m.callers[dst];
    forall d: Pid, x: Pid
      ensures x in n.callers[d] <==> IsSending(n, x) && n.sendTo[x] == d
    {
      assert x in n.callers[d] <==> x in m.callers[d] || (d == dst && x == caller);
      assert x in m.callers[d] <==> IsSending(m, x) && m.sendTo[x] == d;
    }
    forall d: Pid
      ensures Distinct(n.callers[d])
    {
      assert Distinct(m.callers[d]);
      assert forall i :: 0 <= i < |m.callers[dst]| ==> m.callers[dst][i] in m.callers[dst];
    }
  }

  lemma BlockLog(m: Ipc, caller: Pid, dst: Pid, ptr: Addr)
    requires QueuesOk(m) && PendingOk(m) && FifoOk(m) && DeliveryOk(m) && !IsSending(m, caller)
    ensures var n := Block(m, caller, dst, ptr); PendingOk(n) && DeliveryOk(n)
  {
    var n := Block(m, caller, dst, ptr);
    var h, k := m.log, n.log;
    forall t: nat | t < |k.sent|
      ensures t in Tickets(k.delivered) <==> !Queued(n, t)
    {
      if t < |h.sent| {
        assert Queued(n, t) == Queued(m, t);
      } else {
        assert forall i :: 0 <= i < |h.delivered| ==> Matches(h, h.delivered[i]);
      }
    }
    assert forall i :: 0 <= i < |h.delivered| ==> Matches(h, h.delivered[i]);
  }

  lemma BlockFifo(m: Ipc, caller: Pid, dst: Pid, ptr: Addr)
    requires QueuesOk(m) && PendingOk(m) && FifoOk(m) && !IsSending(m, caller)
    ensures FifoOk(Block(m, caller, dst, ptr))
  {
    var n := Block(m, caller, dst, ptr);
    forall d: Pid, i, j | 0 <= i < j < |n.callers[d]|
      ensures n.log.ticket[n.callers[d][i]] < n.log.ticket[n.callers[d][j]]
    {
      var x := m.callers[d][i];
      assert x in m.callers[d];
      assert n.callers[d][i] == x;
      if j < |m.callers[d]| {
        assert m.callers[d][j] in m.callers[d];
        assert n.callers[d][j] == m.callers[d][j];
      }
    }
  }

  lemma BlockKeeps(c: Config, m: Ipc, caller: Pid, dst: Pid, ptr: Addr)
    requires IpcOk(c, m) && caller != dst
    requires !IsSending(m, caller) && Receiving !in m.flags[caller]
    requires !Locked(WaitsFor(m), caller, dst)
    requires !(IsWaiting(m, dst) && Accepts(m.getFrom[dst], caller))
    ensures IpcOk(c, Block(m, caller, dst, ptr))
  {
    var n := Block(m, caller, dst, ptr);
    BlockQueues(m, caller, dst, ptr);
    BlockLog(m, caller, dst, ptr);
    BlockFifo(m, caller, dst, ptr);
    BlockGrounded(WaitsFor(m), caller, dst);
    assert WaitsFor(n) == WaitsFor(m)[caller := To(dst)];
  }

  // ---------------------------------------------------------------- Accept

  lemma AcceptQueues(m: Ipc, caller: Pid, i: nat, ptr: Addr)
    requires QueuesOk(m) && i < |m.callers[caller]|
    ensures QueuesOk(Accept(m, caller, i, ptr))
  {
    var n := Accept(m, caller, i, ptr);
    var y := m.callers[caller][i];
    assert y in m.callers[caller];
    DropAtKeeps(m.callers[caller], i);
    forall d: Pid, x: Pid
      ensures x in n.callers[d] <==> IsSending(n, x) && n.sendTo[x] == d
    {
      assert x in m.callers[d] <==> IsSending(m, x) && m.sendTo[x] == d;
    }
  }

  lemma AcceptFifo(m: Ipc, caller: Pid, i: nat, ptr: Addr)
    requires QueuesOk(m) && FifoOk(m) && i < |m.callers[caller]|
    ensures FifoOk(Accept(m, caller, i, ptr))
  {
    var n := Accept(m, caller, i, ptr);
    var q := m.callers[caller];
    assert forall k :: 0 <= k < |q| - 1 ==> DropAt(q, i)[k] == if k < i then q[k] else q[k + 1];
  }

  lemma AcceptLog(m: Ipc, caller: Pid, i: nat, ptr: Addr)
    requires QueuesOk(m) && PendingOk(m) && DeliveryOk(m)
    requires i < |m.callers[caller]| && !IsSending(m, caller)
    ensures var n := Accept(m, caller, i, ptr); PendingOk(n) && DeliveryOk(n)
  {
    var n := Accept(m, caller, i, ptr);
    var h, k := m.log, n.log;
    var y := m.callers[caller][i];
    assert y in m.callers[caller] && IsSending(m, y);
    var t0 := h.ticket[y];
    assert Queued(m, t0);
    TicketsAppend(h.delivered, k.delivered[|h.delivered|]);
    forall t: nat | t < |k.sent|
      ensures t in Tickets(k.delivered) <==> !Queued(n, t)
    {
      if t != t0 { assert Queued(n, t) == Queued(m, t); }
    }
    forall j | 0 <= j < |h.delivered|
      ensures Matches(k, k.delivered[j]) && h.delivered[j].ticket != t0
      ensures h.delivered[j].msg.source == y ==> h.delivered[j].ticket < t0
    {
      assert Matches(h, h.delivered[j]);
      assert h.delivered[j].ticket in Tickets(h.delivered);
    }
  }

  lemma AcceptKeeps(c: Config, m: Ipc, caller: Pid, i: nat, ptr: Addr)
    requires IpcOk(c, m) && m.flags[caller] == {} && i < |m.callers[caller]|
    ensures IpcOk(c, Accept(m, caller, i, ptr))
    ensures var n, x := Accept(m, caller, i, ptr), m.callers[caller][i];
            && n.log.delivered == m.log.delivered + [Delivery(m.log.ticket[x], caller, Read(n.mem, caller, ptr))]
            && Read(n.mem, caller, ptr) == Message(x, Read(m.mem, x, m.messBuf[x]).payload)
  {
    var n := Accept(m, caller, i, ptr);
    var y := m.callers[caller][i];
    assert y in m.callers[caller];
    AcceptQueues(m, caller, i, ptr);
    AcceptFifo(m, caller, i, ptr);
    AcceptLog(m, caller, i, ptr);
    UnblockGrounded(WaitsFor(m), y);
    assert WaitsFor(n) == WaitsFor(m)[y := Nil];
  }

  // ---------------------------------------------------------------- Wait

  /** Blocking in receive: either the send half is still blocked (SENDREC), or nothing acceptable
      is queued and, for a plain receive(ANY), no notification is pending. */
  lemma WaitKeeps(c: Config, m: Ipc, caller: Pid, src: Peer, ptr: Addr)
    requires IpcOk(c, m) && Receiving !in m.flags[caller]
    requires IsSending(m, caller) ==> src == From(m.sendTo[caller]) && ptr == m.messBuf[caller]
    requires !IsSending(m, caller) ==> FindCaller(m.callers[caller], src) == |m.callers[caller]|
    requires src == Any && c.OwnsPriv(caller) ==> PrivOf(c, m, caller).notify == {} && !PrivOf(c, m, caller).busy
    ensures IpcOk(c, Wait(m, caller, src, ptr))
  {
    var n := Wait(m, caller, src, ptr);
    assert forall x: Pid :: IsSending(n, x) == IsSending(m, x);
    assert n.callers == m.callers && n.sendTo == m.sendTo && QueuesOk(n);
    assert WaitsFor(n) == WaitsFor(m);
    forall x: Pid, r: Pid | IsSending(n, x) && n.sendTo[x] == r
      ensures !(IsWaiting(n, r) && Accepts(n.getFrom[r], x))
    {
      if r == caller && !IsSending(m, caller) {
        assert x in m.callers[caller];
        var k := Index(m.callers[caller], x);
      }
    }
    assert DeliveryOk(n) by {
      assert forall t: nat :: t < |m.log.sent| ==> Queued(n, t) == Queued(m, t);
    }
  }

  // ---------------------------------------------------------------- notifications

  /** Changing one bit pattern outside SENDING and RECEIVING, or only the structures, leaves the message part alone. */
  ghost predicate SameMessages(m: Ipc, n: Ipc) {
    && Shape(m) && Shape(n)
    && (forall p: Pid :: (Sending in n.flags[p] <==> Sending in m.flags[p])
                      && (Receiving in n.flags[p] <==> Receiving in m.flags[p]))
    && n.getFrom == m.getFrom && n.sendTo == m.sendTo && n.messBuf == m.messBuf && n.callers == m.callers
    && (forall p: Pid :: IsSending(m, p) ==> n.mem[p] == m.mem[p])
    && n.log.sent == m.log.sent && n.log.delivered == m.log.delivered && n.log.ticket == m.log.ticket
  }

  lemma SameMessagesKeeps(m: Ipc, n: Ipc)
    requires MessagesOk(m) && SameMessages(m, n)
    ensures MessagesOk(n)
  {
    assert WaitsFor(n) == WaitsFor(m);
    assert forall p: Pid :: IsSending(n, p) == IsSending(m, p) && IsWaiting(n, p) == IsWaiting(m, p);
    assert DeliveryOk(n) by {
      assert forall t: nat :: t < |m.log.sent| ==> Queued(n, t) == Queued(m, t);
      assert forall i :: 0 <= i < |m.log.delivered| ==> Matches(n.log, n.log.delivered[i]) == Matches(m.log,
          m.log.delivered[i]);
    }
  }

  lemma UnwaitMessages(m: Ipc, dst: Pid)
    requires MessagesOk(m)
    ensures MessagesOk(Unwait(m, dst))
  {
    var n := Unwait(m, dst);
    assert WaitsFor(n) == WaitsFor(m);
    assert forall p: Pid :: IsSending(n, p) == IsSending(m, p);
    assert DeliveryOk(n) by {
      assert forall t: nat :: t < |m.log.sent| ==> Queued(n, t) == Queued(m, t);
      assert forall i :: 0 <= i < |m.log.delivered| ==> Matches(n.log, n.log.delivered[i]) == Matches(m.log,
          m.log.delivered[i]);
    }
  }

  lemma LedgerAppend(args: seq<ArgEvent>, e: ArgEvent)
    requires LedgerOk(args)
    requires e.Reported? ==> e.bits == Outstanding(args, e.id, e.src)
    ensures LedgerOk(args + [e])
    ensures forall i: SysId, s: Pid ::
      Outstanding(args + [e], i, s) ==
        if e.id != i || e.src != s then Outstanding(args, i, s)
        else if e.Raised? then Outstanding(args, i, s) + {e.bit} else {}
  {
    var all := args + [e];
    assert all[..|all| - 1] == args;
    forall k | 0 <= k < |all| && all[k].Reported?
      ensures all[k].bits == Outstanding(all[..k], all[k].id, all[k].src)
    {
      if k < |args| { assert all[..k] == args[..k] && args[k].Reported?; } else { assert all[..k] == args; }
    }
  }

  /** BuildMess reports and clears exactly the outstanding bits. */
  lemma PostNoticeLedger(c: Config, m: Ipc, src: Pid, dst: Pid, a: Addr, now: nat)
    requires c.Shape() && Shape(m) && LedgerFits(m)
    ensures LedgerFits(PostNotice(c, m, src, dst, a, now))
  {
    var i := c.slots[dst].priv;
    LedgerAppend(m.log.args, Reported(i, src, Bits(m.privs[i], src), dst));
  }

  /** The argument that a notification from src with these bits carries. */
  function Carried(src: Pid, bits: set<nat>): NotifyArg {
    if src == SYSTEM then Signals(bits) else if src == HARDWARE then Interrupts(bits) else NoArg
  }

  lemma TakeMarks(c: Config, m: Ipc, caller: Pid, id: SysId, ptr: Addr, now: nat)
    requires c.Legal() && IpcOk(c, m) && id in PrivOf(c, m, caller).notify
    ensures var n := PostNotice(c, Unpend(c, m, caller, id), c.privs[id].procNr, caller, ptr, now);
            forall i: SysId, k: Pid :: Marked(c, n.privs, i, k)
  {
    var src := c.privs[id].procNr;
    var n := PostNotice(c, Unpend(c, m, caller, id), src, caller, ptr, now);
    forall i: SysId, k: Pid
      ensures Marked(c, n.privs, i, k)
    {
      assert Marked(c, m.privs, i, k);
      assert k == SYSTEM || k == HARDWARE ==> c.Identifies(k);
    }
  }

  lemma TakeMessages(c: Config, m: Ipc, caller: Pid, id: SysId, src: Pid, ptr: Addr, now: nat)
    requires c.Shape() && MessagesOk(m) && m.flags[caller] == {}
    ensures MessagesOk(PostNotice(c, Unpend(c, m, caller, id), src, caller, ptr, now))
  {
    SameMessagesKeeps(m, PostNotice(c, Unpend(c, m, caller, id), src, caller, ptr, now));
  }

  /** A receiver takes pending notification id. */
  lemma TakeKeeps(c: Config, m: Ipc, caller: Pid, id: SysId, ptr: Addr, now: nat)
    requires c.Legal() && IpcOk(c, m) && m.flags[caller] == {} && id in PrivOf(c, m, caller).notify
    ensures IpcOk(c, PostNotice(c, Unpend(c, m, caller, id), c.privs[id].procNr, caller, ptr, now))
    ensures var src := c.privs[id].procNr;
            var n := PostNotice(c, Unpend(c, m, caller, id), src, caller, ptr, now);
            Read(n.mem, caller, ptr) == Message(src, Notice(now, Carried(src, Bits(PrivOf(c, m, caller), src))))
  {
    TakeMessages(c, m, caller, id, c.privs[id].procNr, ptr, now);
    PostNoticeLedger(c, Unpend(c, m, caller, id), c.privs[id].procNr, caller, ptr, now);
    TakeMarks(c, m, caller, id, ptr, now);
  }

  lemma PostNoticeMarks(c: Config, m: Ipc, src: Pid, dst: Pid, a: Addr, now: nat)
    requires c.Shape() && OkBut(c, m, c.slots[dst].priv, src)
    ensures forall i: SysId, k: Pid :: Marked(c, PostNotice(c, m, src, dst, a, now).privs, i, k)
  {
    var n := PostNotice(c, m, src, dst, a, now);
    forall i: SysId, k: Pid
      ensures Marked(c, n.privs, i, k)
    {
      if i != c.slots[dst].priv || k != src { assert Marked(c, m.privs, i, k); }
    }
  }

  lemma PostNoticeMessages(c: Config, m: Ipc, src: Pid, dst: Pid, now: nat)
    requires c.Shape() && MessagesOk(m) && IsWaiting(m, dst)
    ensures MessagesOk(PostNotice(c, m, src, dst, m.messBuf[dst], now))
  {
    SameMessagesKeeps(m, PostNotice(c, m, src, dst, m.messBuf[dst], now));
  }

  /** mini_notify finds its destination waiting. */
  lemma NotifyNowKeeps(c: Config, m: Ipc, src: Pid, dst: Pid, now: nat)
    requires c.Shape() && OkBut(c, m, c.slots[dst].priv, src) && IsWaiting(m, dst)
    ensures IpcOk(c, Unwait(PostNotice(c, m, src, dst, m.messBuf[dst], now), dst))
    ensures var n := Unwait(PostNotice(c, m, src, dst, m.messBuf[dst], now), dst);
            Read(n.mem, dst, m.messBuf[dst]) == Message(src, Notice(now, Carried(src, Bits(PrivOf(c, m, dst), src))))
  {
    var n := PostNotice(c, m, src, dst, m.messBuf[dst], now);
    PostNoticeMessages(c, m, src, dst, now);
    UnwaitMessages(n, dst);
    PostNoticeLedger(c, m, src, dst, m.messBuf[dst], now);
    PostNoticeMarks(c, m, src, dst, m.messBuf[dst], now);
  }

  /** mini_notify leaves a bit for a destination that is not waiting for it. */
  lemma PendKeeps(c: Config, m: Ipc, src: Pid, dst: Pid)
    requires c.Shape() && OkBut(c, m, c.slots[dst].priv, src)
    requires !(IsWaiting(m, dst) && !PrivOf(c, m, dst).busy && Accepts(m.getFrom[dst], src))
    ensures IpcOk(c, Pend(c, m, src, dst))
  {
    var n := Pend(c, m, src, dst);
    SameMessagesKeeps(m, n);
    forall i: SysId, k: Pid
      ensures Marked(c, n.privs, i, k)
    {
      if i != c.slots[dst].priv || k != src { assert Marked(c, m.privs, i, k); }
    }
  }

  lemma RaiseKeeps(c: Config, m: Ipc, src: Pid, dst: Pid, bit: nat)
    requires IpcOk(c, m) && (src == SYSTEM || src == HARDWARE)
    ensures OkBut(c, Raise(c, m, src, dst, bit), c.slots[dst].priv, src)
  {
    var n := Raise(c, m, src, dst, bit);
    SameMessagesKeeps(m, n);
    LedgerAppend(m.log.args, Raised(c.slots[dst].priv, src, bit));
    forall i: SysId, k: Pid | i != c.slots[dst].priv || k != src
      ensures Marked(c, n.privs, i, k)
    {
      assert Marked(c, m.privs, i, k);
    }
  }

  /** SENDREC_BUSY changes only while its owner is running. */
  lemma SetBusyKeeps(c: Config, m: Ipc, p: Pid, b: bool)
    requires IpcOk(c, m) && m.flags[p] == {}
    ensures IpcOk(c, SetBusy(c, m, p, b))
  {
    var n := SetBusy(c, m, p, b);
    SameMessagesKeeps(m, n);
    forall i: SysId, k: Pid
      ensures Marked(c, n.privs, i, k)
    {
      assert Marked(c, m.privs, i, k);
    }
  }

  /** A step that touches neither the messages nor the privilege structures. */
  lemma OtherKeeps(c: Config, m: Ipc, n: Ipc)
    requires IpcOk(c, m) && SameMessages(m, n) && n.privs == m.privs && n.log == m.log
    ensures IpcOk(c, n)
  {
    SameMessagesKeeps(m, n);
    forall i: SysId, k: Pid
      ensures Marked(c, n.privs, i, k)
    {
      assert Marked(c, m.privs, i, k);
    }
  }
}
