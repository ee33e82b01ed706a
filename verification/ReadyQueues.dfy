/** The scheduling queues as values: sched, enqueue, dequeue and pick_proc. */
module ReadyQueues {
  import opened KernelTypes
  import opened Lists

  /** ready[q] is the queue that rdy_head[q] and p_nextready spell out.
      lastOut is the static prev_ptr of sched(), expired the global prev_ptr. */
  datatype Sched = Sched(
    priority: seq<nat>, ticks: seq<int>, ready: seq<seq<Pid>>,
    next: Link, current: Pid, bill: Pid, lastOut: Link, expired: Pid)

  /** p_ticks_left is a signed char. */
  function ToChar(x: int): (r: int)
    ensures -128 <= r < 128 && (-128 <= x < 128 ==> r == x)
  {
    (x + 128) % 256 - 128
  }

  ghost predicate Shape(sc: Sched) {
    && |sc.priority| == NR_SLOTS && |sc.ticks| == NR_SLOTS && |sc.ready| == NR_SCHED_QUEUES
    && forall p: Pid :: sc.priority[p] < NR_SCHED_QUEUES
  }

  ghost predicate OnQueue(sc: Sched, p: Pid)
    requires Shape(sc)
  {
    p in sc.ready[sc.priority[p]]
  }

  /** Queues hold no process twice and only processes of their own priority. */
  ghost predicate QueuesOk(sc: Sched) {
    Shape(sc) && Owned(sc.ready, sc.priority)
  }

  /** sched() keeps every priority between the process's maximum and IDLE_Q-1; IDLE stays at IDLE_Q. */
  ghost predicate PrioritiesOk(c: Config, sc: Sched)
    requires c.Shape()
  {
    && Shape(sc)
    && sc.priority[IDLE] == IDLE_Q
    && forall p: Pid :: p != IDLE ==> c.slots[p].maxPriority <= sc.priority[p] < IDLE_Q
  }

  /** Head of the first non-empty queue from q on. */
  function FirstReady(ready: seq<seq<Pid>>, q: nat): Link
    decreases |ready| - q
  {
    if q >= |ready| then Nil
    else if ready[q] != [] then To(ready[q][0])
    else FirstReady(ready, q + 1)
  }

  /** p heads a queue and every more urgent queue is empty. */
  ghost predicate IsTop(ready: seq<seq<Pid>>, p: Pid) {
    exists q :: 0 <= q < |ready| && ready[q] != [] && ready[q][0] == p
             && forall r :: 0 <= r < q ==> ready[r] == []
  }

  /** What restart() will run: next_ptr if set, else the interrupted process goes on. */
  function Chosen(sc: Sched): Link {
    if sc.next.To? then sc.next else To(sc.current)
  }

  ghost predicate ChoosesTop(sc: Sched) {
    FirstReady(sc.ready, 0).To? ==> Chosen(sc) == FirstReady(sc.ready, 0)
  }

  function PickProc(c: Config, sc: Sched): Sched
    requires c.Shape()
  {
    match FirstReady(sc.ready, 0)
    case Nil => sc
    case To(p) => sc.(next := To(p), bill := if c.Priv(p).billable then p else sc.bill)
  }

  function Clamp(max: nat, moved: int): (r: nat)
    ensures max < IDLE_Q ==> max <= r < IDLE_Q && (max <= moved < IDLE_Q ==> r == moved)
  {
    if moved < max then max else if moved > IDLE_Q - 1 then IDLE_Q - 1 else moved
  }

  /** The priority sched() gives p, by whether its quantum is used up. */
  function NewPriority(c: Config, sc: Sched, p: Pid): (r: nat)
    requires c.Shape() && Shape(sc)
  {
    if sc.ticks[p] > 0 || IsKernel(p) then sc.priority[p]
    else
      var penalty: int := if sc.lastOut == To(p) then 1 else -1;
      Clamp(c.slots[p].maxPriority, penalty + sc.priority[p])
  }

  function Policy(c: Config, sc: Sched, p: Pid): Sched
    requires c.Shape() && Shape(sc)
  {
    if sc.ticks[p] > 0 then sc
    else sc.(ticks := sc.ticks[p := c.slots[p].quantum],
             lastOut := To(p),
             priority := sc.priority[p := NewPriority(c, sc, p)])
  }

  function Insert(queue: seq<Pid>, p: Pid, front: bool): seq<Pid> {
    if front then [p] + queue else queue + [p]
  }

  function Enqueue(c: Config, sc: Sched, p: Pid): Sched
    requires c.Legal() && Shape(sc)
  {
    var s1 := Policy(c, sc, p);
    NewPriorityInRange(c, sc, p);
    var q := s1.priority[p];
    PickProc(c, s1.(ready := s1.ready[q := Insert(s1.ready[q], p, sc.ticks[p] > 0)]))
  }

  function Dequeue(c: Config, sc: Sched, p: Pid): Sched
    requires c.Shape() && Shape(sc)
  {
    var q := sc.priority[p];
    if p !in sc.ready[q] then sc
    else
      var s1 := sc.(ready := sc.ready[q := DropAt(sc.ready[q], Index(sc.ready[q], p))]);
      if p == sc.current || sc.next == To(p) then PickProc(c, s1) else s1
  }

  function Restart(sc: Sched): Sched {
    if sc.next.To? then sc.(current := sc.next.p, next := Nil) else sc
  }

  // ---------------------------------------------------------------- lemmas

  lemma NewPriorityInRange(c: Config, sc: Sched, p: Pid)
    requires c.Legal() && Shape(sc)
    ensures NewPriority(c, sc, p) < NR_SCHED_QUEUES
    ensures Shape(Policy(c, sc, p))
  {
  }

  lemma {:induction false} FirstReadyIsTop(ready: seq<seq<Pid>>, q: nat)
    requires forall r :: 0 <= r < q <= |ready| ==> ready[r] == []
    ensures FirstReady(ready, q).To? ==> IsTop(ready, FirstReady(ready, q).p)
    ensures FirstReady(ready, q).Nil? ==> forall r :: q <= r < |ready| ==> ready[r] == []
    decreases |ready| - q
  {
    if q < |ready| {
      if ready[q] != [] {
        assert ready[q][0] == FirstReady(ready, q).p;
      } else {
        FirstReadyIsTop(ready, q + 1);
      }
    }
  }

  lemma {:induction false} TopIsFirstReady(ready: seq<seq<Pid>>, k: nat, q: nat)
    requires k <= q < |ready| && ready[q] != []
    requires forall r :: k <= r < q ==> ready[r] == []
    ensures FirstReady(ready, k) == To(ready[q][0])
    decreases q - k
  {
    if k < q { TopIsFirstReady(ready, k + 1, q); }
  }

  lemma PolicyKeeps(c: Config, sc: Sched, p: Pid)
    requires c.Legal() && PrioritiesOk(c, sc)
    ensures PrioritiesOk(c, Policy(c, sc, p))
    ensures Policy(c, sc, p).ready == sc.ready && Policy(c, sc, p).current == sc.current
    ensures sc.ticks[p] <= 0 && !IsKernel(p) && sc.lastOut == To(p) ==>
            Policy(c, sc, p).priority[p] == sc.priority[p] + if sc.priority[p] < IDLE_Q - 1 then 1 else 0
    ensures sc.ticks[p] <= 0 && !IsKernel(p) && sc.lastOut != To(p) ==>
            sc.priority[p] == Policy(c, sc, p).priority[p] + if sc.priority[p] > c.slots[p].maxPriority then 1 else 0
    ensures forall x: Pid :: x != p ==> Policy(c, sc, p).priority[x] == sc.priority[x]
  {
    NewPriorityInRange(c, sc, p);
  }

  lemma PolicyQueuesOk(c: Config, sc: Sched, p: Pid)
    requires c.Legal() && QueuesOk(sc) && !OnQueue(sc, p)
    ensures QueuesOk(Policy(c, sc, p)) && !OnQueue(Policy(c, sc, p), p)
  {
    NewPriorityInRange(c, sc, p);
  }

  lemma InsertKeeps(queue: seq<Pid>, p: Pid, front: bool)
    requires Distinct(queue) && p !in queue
    ensures Distinct(Insert(queue, p, front))
    ensures forall x :: x in Insert(queue, p, front) <==> x == p || x in queue
  {
    var t := Insert(queue, p, front);
    assert forall k :: 0 <= k < |queue| ==> queue[k] in queue;
    assert t[if front then 0 else |queue|] == p;
    forall x | x in queue
      ensures x in t
    {
      var k := Index(queue, x);
      assert t[if front then k + 1 else k] == x;
    }
  }

  lemma InsertQueuesOk(sc: Sched, p: Pid, front: bool)
    requires QueuesOk(sc) && !OnQueue(sc, p)
    ensures var q := sc.priority[p];
            QueuesOk(sc.(ready := sc.ready[q := Insert(sc.ready[q], p, front)]))
  {
    InsertKeeps(sc.ready[sc.priority[p]], p, front);
  }

  /** enqueue changes nobody's membership but p's. */
  lemma EnqueueMembers(c: Config, sc: Sched, p: Pid)
    requires c.Legal() && QueuesOk(sc) && !OnQueue(sc, p)
    ensures var t := Enqueue(c, sc, p);
            QueuesOk(t) && OnQueue(t, p) && forall x: Pid :: x != p ==> OnQueue(t, x) == OnQueue(sc, x)
  {
    PolicyQueuesOk(c, sc, p);
    var s1 := Policy(c, sc, p);
    var q := s1.priority[p];
    InsertKeeps(sc.ready[q], p, sc.ticks[p] > 0);
    InsertQueuesOk(s1, p, sc.ticks[p] > 0);
  }

  /** Only p's membership changes, p ends on the queue of its new priority, and pick_proc has run. */
  lemma EnqueueKeeps(c: Config, sc: Sched, p: Pid)
    requires c.Legal() && QueuesOk(sc) && PrioritiesOk(c, sc) && !OnQueue(sc, p)
    ensures var t := Enqueue(c, sc, p);
            && QueuesOk(t) && PrioritiesOk(c, t) && ChoosesTop(t) && t.next.To?
            && OnQueue(t, p) && t.current == sc.current
            && forall x: Pid :: x != p ==> OnQueue(t, x) == OnQueue(sc, x)
  {
    EnqueueMembers(c, sc, p);
    PolicyKeeps(c, sc, p);
    var t := Enqueue(c, sc, p);
    assert p in t.ready[t.priority[p]];
    if FirstReady(t.ready, 0).Nil? { FirstReadyIsTop(t.ready, 0); }
  }

  lemma DequeueGone(c: Config, sc: Sched, p: Pid)
    requires c.Legal() && QueuesOk(sc)
    ensures var t := Dequeue(c, sc, p);
            QueuesOk(t) && !OnQueue(t, p) && forall x: Pid :: x != p ==> OnQueue(t, x) == OnQueue(sc, x)
  {
    var q := sc.priority[p];
    if p in sc.ready[q] { DropAtKeeps(sc.ready[q], Index(sc.ready[q], p)); }
  }

  /** dequeue leaves next_ptr right even when it does not call pick_proc. */
  lemma DequeueKeeps(c: Config, sc: Sched, p: Pid)
    requires c.Legal() && QueuesOk(sc) && PrioritiesOk(c, sc) && ChoosesTop(sc)
    ensures var t := Dequeue(c, sc, p);
            && QueuesOk(t) && PrioritiesOk(c, t) && ChoosesTop(t)
            && !OnQueue(t, p) && t.current == sc.current
            && forall x: Pid :: x != p ==> OnQueue(t, x) == OnQueue(sc, x)
  {
    var q := sc.priority[p];
    var t := Dequeue(c, sc, p);
    if p in sc.ready[q] {
      var i := Index(sc.ready[q], p);
      DropAtKeeps(sc.ready[q], i);
      assert t.ready == sc.ready[q := DropAt(sc.ready[q], i)];
      if !(p == sc.current || sc.next == To(p)) {
        DequeueOther(sc.ready, q, i);
      }
    }
  }

  /** Removing a process that does not head the first non-empty queue does not change that head. */
  lemma DequeueOther(ready: seq<seq<Pid>>, q: nat, i: nat)
    requires q < |ready| && i < |ready[q]| && Distinct(ready[q])
    requires FirstReady(ready, 0) != To(ready[q][i])
    ensures FirstReady(ready[q := DropAt(ready[q], i)], 0) == FirstReady(ready, 0)
  {
    FirstReadyIsTop(ready, 0);
    var r :| 0 <= r < |ready| && ready[r] != [] && To(ready[r][0]) == FirstReady(ready, 0)
             && forall k :: 0 <= k < r ==> ready[k] == [];
    TopIsFirstReady(ready[q := DropAt(ready[q], i)], 0, r);
  }
}
