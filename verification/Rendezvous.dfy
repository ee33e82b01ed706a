/** Message passing as values: the transitions inside mini_send, mini_receive and mini_notify,
    and the invariants each of them keeps. */
module Rendezvous {
  import opened KernelTypes
  import opened Lists
  import opened WaitGraph

  /** The changing part of a privilege structure. */
  datatype Priv = Priv(busy: bool, notify: set<SysId>, ints: set<nat>, sigs: set<nat>)

  // History variables: no transition reads them.
  datatype Sent = Sent(src: Pid, dst: Pid, payload: Payload)
  datatype Delivery = Delivery(ticket: nat, to: Pid, msg: Message)
  datatype ArgEvent = Raised(id: SysId, src: Pid, bit: nat) | Reported(id: SysId, src: Pid, bits: set<nat>, to: Pid)

  /** sent lists the accepted sends, a send's ticket is its position there, ticket[p] is the
      ticket of p's latest blocked send, delivered lists the messages copied into receivers, args the
      bits raised and the notifications copied into receivers. */
  datatype History = History(sent: seq<Sent>, delivered: seq<Delivery>, ticket: seq<nat>, args: seq<ArgEvent>)

  /** callers[p] is the queue that p_caller_q and p_q_link spell out; signals is p_pending. */
  datatype Ipc = Ipc(
    flags: seq<Flags>, getFrom: seq<Peer>, sendTo: seq<Pid>, messBuf: seq<Addr>,
    callers: seq<seq<Pid>>, signals: seq<set<nat>>, privs: seq<Priv>,
    mem: Memory, log: History)

  type Memory = seq<map<int, Message>>   // per process, by buffer address

  const Blank := Message(HARDWARE, Words([]))

  function Read(mem: Memory, p: Pid, a: Addr): Message
    requires |mem| == NR_SLOTS
  {
    if a in mem[p] then mem[p][a] else Blank
  }

  function Write(mem: Memory, p: Pid, a: Addr, msg: Message): (r: Memory)
    requires |mem| == NR_SLOTS
  {
    mem[p := mem[p][a := msg]]
  }

  ghost predicate Shape(m: Ipc) {
    && |m.flags| == NR_SLOTS && |m.getFrom| == NR_SLOTS && |m.sendTo| == NR_SLOTS
    && |m.messBuf| == NR_SLOTS && |m.callers| == NR_SLOTS && |m.signals| == NR_SLOTS
    && |m.privs| == NR_SYS_PROCS && |m.mem| == NR_SLOTS && |m.log.ticket| == NR_SLOTS
  }

  predicate IsSending(m: Ipc, p: Pid) requires |m.flags| == NR_SLOTS { Sending in m.flags[p] }

  /** Blocked in the receive half only: (p_rts_flags & (RECEIVING|SENDING)) == RECEIVING. */
  predicate IsWaiting(m: Ipc, p: Pid) requires |m.flags| == NR_SLOTS {
    Receiving in m.flags[p] && Sending !in m.flags[p]
  }

  predicate Accepts(want: Peer, p: Pid) { want == Any || want == From(p) }

  ghost function WaitsFor(m: Ipc): (g: Graph)
    requires Shape(m)
  {
    seq(NR_SLOTS, p requires 0 <= p < NR_SLOTS => if IsSending(m, p) then To(m.sendTo[p]) else Nil)
  }

  // ---------------------------------------------------------------- invariants

  /** A caller queue holds, once each, exactly the processes sending to its owner. */
  ghost predicate QueuesOk(m: Ipc) {
    && Shape(m)
    && (forall d: Pid :: Distinct(m.callers[d]))
    && (forall d: Pid, x: Pid :: x in m.callers[d] <==> IsSending(m, x) && m.sendTo[x] == d)
  }

  /** No sender is blocked on a process that is waiting for it. */
  ghost predicate NoMissedRendezvous(m: Ipc)
    requires Shape(m)
  {
    forall x: Pid, r: Pid :: IsSending(m, x) && m.sendTo[x] == r ==> !(IsWaiting(m, r) && Accepts(m.getFrom[r], x))
  }

  /** A process blocked in both halves of SENDREC will accept only the reply. */
  ghost predicate SendRecOk(m: Ipc)
    requires Shape(m)
  {
    forall p: Pid :: IsSending(m, p) && Receiving in m.flags[p] ==> m.getFrom[p] == From(m.sendTo[p])
  }

  function Tickets(ds: seq<Delivery>): set<nat> {
    set d | d in ds :: d.ticket
  }

  /** The send with ticket t is still waiting in a caller queue. */
  ghost predicate Queued(m: Ipc, t: nat)
    requires Shape(m) && t < |m.log.sent|
  {
    var x := m.log.sent[t].src;
    IsSending(m, x) && m.log.ticket[x] == t
  }

  /** A blocked sender's latest accepted send is the pending one and its message is still as sent. */
  ghost predicate PendingOk(m: Ipc)
    requires Shape(m)
  {
    forall x: Pid :: IsSending(m, x) ==>
      && m.log.ticket[x] < |m.log.sent|
      && m.log.sent[m.log.ticket[x]] == Sent(x, m.sendTo[x], Read(m.mem, x, m.messBuf[x]).payload)
      && forall t :: m.log.ticket[x] < t < |m.log.sent| ==> m.log.sent[t].src != x
  }

  /** Each queue is in the order in which its members blocked. */
  ghost predicate FifoOk(m: Ipc)
    requires Shape(m)
  {
    forall d: Pid, i, j :: 0 <= i < j < |m.callers[d]| ==>
      m.log.ticket[m.callers[d][i]] < m.log.ticket[m.callers[d][j]]
  }

  /** A delivery went to the addressed process, names the sender and carries what was sent. */
  ghost predicate Matches(h: History, d: Delivery) {
    && d.ticket < |h.sent|
    && d.to == h.sent[d.ticket].dst
    && d.msg == Message(h.sent[d.ticket].src, h.sent[d.ticket].payload)
  }

  /** Every accepted send is delivered exactly once or still queued, and one sender's sends arrive in order. */
  ghost predicate DeliveryOk(m: Ipc)
    requires Shape(m)
  {
    var h := m.log;
    && (forall i :: 0 <= i < |h.delivered| ==> Matches(h, h.delivered[i]))
    && (forall i, j :: 0 <= i < j < |h.delivered| ==> h.delivered[i].ticket != h.delivered[j].ticket)
    && (forall i, j :: 0 <= i < j < |h.delivered| && h.delivered[i].msg.source == h.delivered[j].msg.source ==>
          h.delivered[i].ticket < h.delivered[j].ticket)
    && (forall t: nat :: t < |h.sent| ==> (t in Tickets(h.delivered) <==> !Queued(m, t)))
  }

  /** A process with its own privilege structure never sleeps in receive(ANY) on a pending notification,
      and none could pass it by: SENDREC_BUSY is off then. */
  ghost predicate NoticeOk(c: Config, m: Ipc)
    requires c.Shape() && Shape(m)
  {
    forall p: Pid :: c.OwnsPriv(p) && IsWaiting(m, p) && m.getFrom[p] == Any ==>
      PrivOf(c, m, p).notify == {} && !PrivOf(c, m, p).busy
  }

  function PrivOf(c: Config, m: Ipc, p: Pid): Priv
    requires c.Shape() && |m.privs| == NR_SYS_PROCS
  {
    m.privs[c.slots[p].priv]
  }

  /** The bits raised for structure id by source src since the last report to it. */
  ghost function Outstanding(args: seq<ArgEvent>, id: SysId, src: Pid): set<nat> {
    if args == [] then {}
    else
      var e, before := args[|args| - 1], Outstanding(args[..|args| - 1], id, src);
      if e.id != id || e.src != src then before
      else if e.Raised? then before + {e.bit}
      else {}
  }

  /** Every report carries exactly the bits raised since the previous one. */
  ghost predicate LedgerOk(args: seq<ArgEvent>) {
    forall k :: 0 <= k < |args| && args[k].Reported? ==>
      args[k].bits == Outstanding(args[..k], args[k].id, args[k].src)
  }

  /** The bits a structure holds for kernel source src. */
  function Bits(pr: Priv, src: Pid): set<nat> {
    if src == SYSTEM then pr.sigs else if src == HARDWARE then pr.ints else {}
  }

  /** What the structures hold is exactly what was raised and not yet reported. */
  ghost predicate LedgerFits(m: Ipc)
    requires Shape(m)
  {
    && LedgerOk(m.log.args)
    && forall i: SysId, k: Pid :: Bits(m.privs[i], k) == Outstanding(m.log.args, i, k)
  }

  /** Unreported bits of src have src's notification pending. */
  ghost predicate Marked(c: Config, privs: seq<Priv>, i: SysId, src: Pid)
    requires c.Shape() && |privs| == NR_SYS_PROCS
  {
    Bits(privs[i], src) != {} ==> c.slots[src].priv in privs[i].notify
  }

  /** The message-passing part of the invariant. */
  ghost predicate MessagesOk(m: Ipc) {
    && QueuesOk(m) && Grounded(WaitsFor(m)) && NoMissedRendezvous(m) && SendRecOk(m)
    && PendingOk(m) && FifoOk(m) && DeliveryOk(m)
  }

  /** The invariant, except that src's bits for structure id may lack their notification. */
  ghost predicate OkBut(c: Config, m: Ipc, id: SysId, src: Pid) {
    && c.Shape() && MessagesOk(m) && NoticeOk(c, m) && LedgerFits(m)
    && forall i: SysId, k: Pid :: i != id || k != src ==> Marked(c, m.privs, i, k)
  }

  ghost predicate IpcOk(c: Config, m: Ipc) {
    && c.Shape() && MessagesOk(m) && NoticeOk(c, m) && LedgerFits(m)
    && forall i: SysId, k: Pid :: Marked(c, m.privs, i, k)
  }

  // ---------------------------------------------------------------- transitions

  /** mini_send found the destination waiting: copy and unblock it. */
  function Deliver(m: Ipc, caller: Pid, dst: Pid, ptr: Addr): Ipc
    requires Shape(m)
  {
    var payload := Read(m.mem, caller, ptr).payload;
    var msg := Message(caller, payload);
    m.(flags := m.flags[dst := m.flags[dst] - {Receiving}],
       mem := Write(m.mem, dst, m.messBuf[dst], msg),
       log := m.log.(sent := m.log.sent + [Sent(caller, dst, payload)],
                     delivered := m.log.delivered + [Delivery(|m.log.sent|, dst, msg)]))
  }

  /** mini_send blocks the caller at the end of the destination's queue. */
  function Block(m: Ipc, caller: Pid, dst: Pid, ptr: Addr): Ipc
    requires Shape(m)
  {
    m.(flags := m.flags[caller := m.flags[caller] + {Sending}],
       messBuf := m.messBuf[caller := ptr],
       sendTo := m.sendTo[caller := dst],
       callers := m.callers[dst := m.callers[dst] + [caller]],
       log := m.log.(sent := m.log.sent + [Sent(caller, dst, Read(m.mem, caller, ptr).payload)],
                     ticket := m.log.ticket[caller := |m.log.sent|]))
  }

  /** mini_receive takes the message of the queued sender at position i. */
  function Accept(m: Ipc, caller: Pid, i: nat, ptr: Addr): Ipc
    requires Shape(m) && i < |m.callers[caller]|
  {
    var x := m.callers[caller][i];
    var msg := Message(x, Read(m.mem, x, m.messBuf[x]).payload);
    m.(flags := m.flags[x := m.flags[x] - {Sending}],
       callers := m.callers[caller := DropAt(m.callers[caller], i)],
       mem := Write(m.mem, caller, ptr, msg),
       log := m.log.(delivered := m.log.delivered + [Delivery(m.log.ticket[x], caller, msg)]))
  }

  /** mini_receive blocks the caller. */
  function Wait(m: Ipc, caller: Pid, src: Peer, ptr: Addr): Ipc
    requires Shape(m)
  {
    m.(flags := m.flags[caller := m.flags[caller] + {Receiving}],
       getFrom := m.getFrom[caller := src],
       messBuf := m.messBuf[caller := ptr])
  }

  function ArgFor(pr: Priv, src: Pid): NotifyArg {
    if src == HARDWARE then Interrupts(pr.ints) else if src == SYSTEM then Signals(pr.sigs) else NoArg
  }

  function ClearArg(pr: Priv, src: Pid): Priv {
    if src == HARDWARE then pr.(ints := {}) else if src == SYSTEM then pr.(sigs := {}) else pr
  }

  /** BuildMess and the copy of the notification into dst's buffer. */
  function PostNotice(c: Config, m: Ipc, src: Pid, dst: Pid, a: Addr, now: nat): Ipc
    requires c.Shape() && Shape(m)
  {
    var id, pr := c.slots[dst].priv, PrivOf(c, m, dst);
    m.(privs := m.privs[id := ClearArg(pr, src)],
       mem := Write(m.mem, dst, a, Message(src, Notice(now, ArgFor(pr, src)))),
       log := m.log.(args := m.log.args + [Reported(id, src, Bits(pr, src), dst)]))
  }

  function Unpend(c: Config, m: Ipc, caller: Pid, id: SysId): Ipc
    requires c.Shape() && Shape(m)
  {
    var pr := PrivOf(c, m, caller);
    m.(privs := m.privs[c.slots[caller].priv := pr.(notify := pr.notify - {id})])
  }

  function Pend(c: Config, m: Ipc, src: Pid, dst: Pid): Ipc
    requires c.Shape() && Shape(m)
  {
    var pr := PrivOf(c, m, dst);
    m.(privs := m.privs[c.slots[dst].priv := pr.(notify := pr.notify + {c.slots[src].priv})])
  }

  function Unwait(m: Ipc, dst: Pid): Ipc
    requires Shape(m)
  {
    m.(flags := m.flags[dst := m.flags[dst] - {Receiving}])
  }

  function SetBusy(c: Config, m: Ipc, p: Pid, b: bool): Ipc
    requires c.Shape() && Shape(m)
  {
    m.(privs := m.privs[c.slots[p].priv := PrivOf(c, m, p).(busy := b)])
  }

  /** A signal or interrupt bit for dst, before its notification goes out. */
  function Raise(c: Config, m: Ipc, src: Pid, dst: Pid, bit: nat): Ipc
    requires c.Shape() && Shape(m)
  {
    var id, pr := c.slots[dst].priv, PrivOf(c, m, dst);
    m.(privs := m.privs[id := if src == SYSTEM then pr.(sigs := pr.sigs + {bit}) else pr.(ints := pr.ints + {bit})],
       log := m.log.(args := m.log.args + [Raised(id, src, bit)]))
  }

  /** Position of the first queued sender that src accepts, or the queue's length. */
  function FindCaller(queue: seq<Pid>, src: Peer): (i: nat)
    ensures i <= |queue| && (i < |queue| ==> Accepts(src, queue[i]))
    ensures forall k :: 0 <= k < i ==> !Accepts(src, queue[k])
  {
    if queue == [] then 0
    else if Accepts(src, queue[0]) then 0
    else 1 + FindCaller(queue[1..], src)
  }
}
