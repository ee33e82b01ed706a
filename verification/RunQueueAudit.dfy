/** check_runqueues, the kernel's own run-time test of its ready queues, decides queue consistency. */
module RunQueueAudit {
  import opened KernelTypes
  import opened Lists
  import opened WaitGraph
  import opened KernelMachine
  import opened KernelSafety
  import T = KernelTable
  import Q = ReadyQueues

  const PROCLIMIT: nat := 10000

  /** The fields check_runqueues reads; empty is isemptyp, ready is p_ready. */
  datatype Table = Table(head: seq<Link>, tail: seq<Link>, next: seq<Link>,
                         priority: seq<nat>, ready: seq<bool>, empty: seq<bool>) {
    predicate Shape() {
      && |head| == NR_SCHED_QUEUES && |tail| == NR_SCHED_QUEUES
      && |next| == NR_SLOTS && |priority| == NR_SLOTS && |ready| == NR_SLOTS && |empty| == NR_SLOTS
    }

    /** The pointers spell out these queues: nil-terminated, tails right, no repeats, everyone at its
        own priority, all of them ready, and no ready process missing. */
    ghost predicate SpellsOut(lists: seq<seq<Pid>>)
      requires Shape()
    {
      && |lists| == NR_SCHED_QUEUES
      && Linked(head, next, lists) && Tails(tail, lists) && Owned(lists, priority)
      && (forall q, x: Pid {:trigger x in lists[q]} :: 0 <= q < |lists| && x in lists[q] ==> ready[x])
      && (forall x: Pid :: !empty[x] && ready[x] ==> exists q :: 0 <= q < |lists| && x in lists[q])
    }

    ghost predicate Consistent()
      requires Shape()
    {
      exists lists :: SpellsOut(lists)
    }
  }

  /** Following next from head has passed exactly cur and now stands at xp. */
  ghost predicate Walked(head: Link, next: seq<Link>, cur: seq<Pid>, xp: Link) {
    && |next| == NR_SLOTS
    && head == (if cur == [] then xp else To(cur[0]))
    && (forall i {:trigger next[cur[i]]} :: 0 <= i < |cur| ==>
          next[cur[i]] == if i + 1 < |cur| then To(cur[i + 1]) else xp)
  }

  /** Whatever list the pointers spell out, the walk is following it. */
  lemma {:induction false} WalkFollows(head: Link, next: seq<Link>, cur: seq<Pid>, xp: Link, s: seq<Pid>)
    requires Walked(head, next, cur, xp) && Chain(head, next, s)
    ensures |cur| <= |s| && cur == s[..|cur|] && xp == LinkAt(s, |cur|)
  {
    if cur != [] {
      var rest, last := cur[..|cur| - 1], cur[|cur| - 1];
      assert next[cur[|cur| - 1]] == xp;
      assert Walked(head, next, rest, To(last)) by {
        forall i | 0 <= i < |rest|
          ensures next[rest[i]] == if i + 1 < |rest| then To(rest[i + 1]) else To(last)
        {
          assert rest[i] == cur[i];
          assert next[cur[i]] == To(cur[i + 1]);
        }
      }
      WalkFollows(head, next, rest, To(last), s);
      assert next[s[|rest|]] == LinkAt(s, |rest| + 1);
      assert cur == rest + [last];
    }
  }

  lemma {:induction false} SlotsBound(s: set<nat>, n: nat)
    requires forall x :: x in s ==> x < n
    ensures |s| <= n
    decreases n
  {
    if n > 0 {
      SlotsBound(s - {n - 1}, n - 1);
    } else {
      assert s == {};
    }
  }

  lemma WalkedOn(head: Link, next: seq<Link>, cur: seq<Pid>, x: Pid)
    requires Walked(head, next, cur, To(x)) && x !in cur
    ensures Walked(head, next, cur + [x], next[x])
  {
    var now := cur + [x];
    forall i | 0 <= i < |now|
      ensures next[now[i]] == if i + 1 < |now| then To(now[i + 1]) else next[x]
    {
      if i < |cur| { assert now[i] == cur[i]; assert next[cur[i]] == if i + 1 < |cur| then To(cur[i + 1]) else To(x); }
    }
  }

  lemma WalkedAll(head: Link, next: seq<Link>, cur: seq<Pid>)
    requires Walked(head, next, cur, Nil)
    ensures Chain(head, next, cur)
  {
    forall i | 0 <= i < |cur|
      ensures next[cur[i]] == LinkAt(cur, i + 1)
    {
      assert next[cur[i]] == if i + 1 < |cur| then To(cur[i + 1]) else Nil;
    }
  }

  /** s is a proper queue q: what SpellsOut asks of each list. */
  ghost predicate IsQueue(t: Table, q: nat, s: seq<Pid>)
    requires t.Shape() && q < NR_SCHED_QUEUES
  {
    && Chain(t.head[q], t.next, s) && t.tail[q] == LastOf(s) && Distinct(s)
    && forall x: Pid :: x in s ==> t.priority[x] == q && t.ready[x]
  }

  /** What a proper queue looks like at its ends, and at every point of a walk along it. */
  lemma QueueFacts(t: Table, q: nat, s: seq<Pid>, cur: seq<Pid>, xp: Link)
    requires t.Shape() && q < NR_SCHED_QUEUES && IsQueue(t, q, s) && Walked(t.head[q], t.next, cur, xp)
    ensures t.head[q].Nil? <==> t.tail[q].Nil?
    ensures t.tail[q].To? ==> t.next[t.tail[q].p] == Nil
    ensures xp.To? ==> t.ready[xp.p] && t.priority[xp.p] == q && xp.p !in cur
    ensures xp.Nil? ==> t.tail[q] == LastOf(cur)
  {
    WalkFollows(t.head[q], t.next, cur, xp, s);
    if s != [] { assert t.next[s[|s| - 1]] == LinkAt(s, |s|); }
    if xp.To? { assert s[|cur|] in s; }
  }

  lemma NoQueue(t: Table, q: nat, cur: seq<Pid>, xp: Link)
    requires t.Shape() && q < NR_SCHED_QUEUES && Walked(t.head[q], t.next, cur, xp)
    requires || t.head[q].Nil? != t.tail[q].Nil?
             || (t.tail[q].To? && t.next[t.tail[q].p] != Nil)
             || (xp.To? && !(t.ready[xp.p] && t.priority[xp.p] == q && xp.p !in cur))
             || (xp.Nil? && t.tail[q] != LastOf(cur))
    ensures forall s: seq<Pid> :: !IsQueue(t, q, s)
  {
    forall s: seq<Pid>
      ensures !IsQueue(t, q, s)
    {
      if IsQueue(t, q, s) { QueueFacts(t, q, s, cur, xp); }
    }
  }

  /** Traverse queue q, marking what it finds. */
  method CheckQueue(t: Table, q: nat, found0: seq<bool>, ghost seen0: set<nat>, l0: nat)
    returns (ok: bool, found: seq<bool>, l: nat, ghost cur: seq<Pid>, ghost seen: set<nat>)
    requires t.Shape() && q < NR_SCHED_QUEUES && |found0| == NR_SLOTS
    requires forall x: Pid :: found0[x] <==> x in seen0
    requires forall x :: x in seen0 ==> x < NR_SLOTS && t.priority[x] < q
    requires l0 == NR_SLOTS + |seen0|
    ensures |found| == NR_SLOTS
    ensures ok ==>
      && IsQueue(t, q, cur)
      && (forall x: nat :: x in seen <==> x in seen0 || x in cur)
      && (forall x: Pid :: found[x] <==> x in seen)
      && l == NR_SLOTS + |seen|
    ensures !ok ==> forall s: seq<Pid> :: !IsQueue(t, q, s)
  {
    ok, found, l, cur, seen := false, found0, l0, [], seen0;
    if t.head[q] != Nil && t.tail[q] == Nil { NoQueue(t, q, [], t.head[q]); return; }
    if t.head[q] == Nil && t.tail[q] != Nil { NoQueue(t, q, [], t.head[q]); return; }
    if t.tail[q] != Nil && t.next[t.tail[q].p] != Nil { NoQueue(t, q, [], t.head[q]); return; }
    var xp := t.head[q];
    while xp != Nil
      invariant Walked(t.head[q], t.next, cur, xp) && Distinct(cur) && |found| == NR_SLOTS
      invariant forall x: Pid :: x in cur ==> t.priority[x] == q && t.ready[x]
      invariant forall x: nat :: x in seen <==> x in seen0 || x in cur
      invariant forall x: Pid :: found[x] <==> x in seen
      invariant forall x :: x in seen ==> x < NR_SLOTS
      invariant l == NR_SLOTS + |seen|
      invariant xp == Nil ==> t.tail[q] == LastOf(cur)
      decreases NR_SLOTS - |seen|
    {
      var x := xp.p;
      if !t.ready[x] || t.priority[x] != q || found[x] { NoQueue(t, q, cur, xp); return; }
      found := found[x := true];
      WalkedOn(t.head[q], t.next, cur, x);
      cur, seen := cur + [x], seen + {x};
      SlotsBound(seen, NR_SLOTS);
      if t.next[x] == Nil && t.tail[q] != To(x) { NoQueue(t, q, cur, Nil); return; }
      l := l + 1;
      assert l <= PROCLIMIT;       // the "loop in schedule queue?" panic cannot happen
      xp := t.next[x];
    }
    WalkedAll(t.head[q], t.next, cur);
    ok := true;
  }

  /** check_runqueues reports no error exactly when the ready queues are consistent. */
  method CheckRunqueues(t: Table) returns (ok: bool)
    requires t.Shape()
    ensures ok <==> t.Consistent()
  {
    var found, l := seq(NR_SLOTS, _ => false), NR_SLOTS;
    ghost var lists: seq<seq<Pid>>, seen: set<nat> := [], {};
    var q := 0;
    while q < NR_SCHED_QUEUES
      invariant 0 <= q <= NR_SCHED_QUEUES && |lists| == q && |found| == NR_SLOTS && l == NR_SLOTS + |seen|
      invariant forall r :: 0 <= r < q ==> IsQueue(t, r, lists[r])
      invariant forall x: nat :: x in seen <==> exists r :: 0 <= r < q && x in lists[r]
      invariant forall x: Pid :: found[x] <==> x in seen
      invariant forall x :: x in seen ==> x < NR_SLOTS && t.priority[x] < q
    {
      ghost var cur, seen1;
      ok, found, l, cur, seen1 := CheckQueue(t, q, found, seen, l);
      if !ok { NotConsistent(t, q); return; }
      ghost var lists1 := lists + [cur];
      forall x: nat
        ensures x in seen1 <==> exists r :: 0 <= r < q + 1 && x in lists1[r]
      {
        if x in seen {
          var r :| 0 <= r < q && x in lists[r];
          assert x in lists1[r];
        }
        if x in cur { assert x in lists1[q]; }
        if r :| 0 <= r < q + 1 && x in lists1[r] {
          if r < q { assert x in lists[r]; }
        }
      }
      lists, seen, q := lists1, seen1, q + 1;
    }
    var p := 0;
    while p < NR_SLOTS
      invariant 0 <= p <= NR_SLOTS
      invariant forall x: Pid :: x < p && !t.empty[x] && t.ready[x] ==> found[x]
    {
      if !t.empty[p] && t.ready[p] && !found[p] {
        ok := false;
        Missing(t, lists, p);
        return;
      }
      p := p + 1;
    }
    assert t.SpellsOut(lists);
    ok := true;
  }

  lemma QueuesOfWitness(t: Table, w: seq<seq<Pid>>, q: nat)
    requires t.Shape() && t.SpellsOut(w) && q < NR_SCHED_QUEUES
    ensures IsQueue(t, q, w[q])
  {
  }

  lemma NotConsistent(t: Table, q: nat)
    requires t.Shape() && q < NR_SCHED_QUEUES && forall s: seq<Pid> :: !IsQueue(t, q, s)
    ensures !t.Consistent()
  {
    forall w
      ensures !t.SpellsOut(w)
    {
      if t.SpellsOut(w) { QueuesOfWitness(t, w, q); }
    }
  }

  /** The pointers spell out at most one queue. */
  lemma SameQueue(t: Table, q: nat, s: seq<Pid>, w: seq<Pid>)
    requires t.Shape() && q < NR_SCHED_QUEUES && Chain(t.head[q], t.next, s) && Chain(t.head[q], t.next, w)
    ensures s == w
  {
    ChainWalked(t.head[q], t.next, s);
    WalkFollows(t.head[q], t.next, s, Nil, w);
  }

  lemma Missing(t: Table, lists: seq<seq<Pid>>, p: Pid)
    requires t.Shape() && |lists| == NR_SCHED_QUEUES
    requires forall r :: 0 <= r < |lists| ==> IsQueue(t, r, lists[r])
    requires !t.empty[p] && t.ready[p] && forall r :: 0 <= r < |lists| ==> p !in lists[r]
    ensures !t.Consistent()
  {
    forall w
      ensures !t.SpellsOut(w)
    {
      if t.SpellsOut(w) {
        var q :| 0 <= q < |w| && p in w[q];
        SameQueue(t, q, lists[q], w[q]);
      }
    }
  }

  lemma ChainWalked(head: Link, next: seq<Link>, s: seq<Pid>)
    requires Chain(head, next, s)
    ensures Walked(head, next, s, Nil)
  {
    forall i | 0 <= i < |s|
      ensures next[s[i]] == if i + 1 < |s| then To(s[i + 1]) else Nil
    {
      assert next[s[i]] == LinkAt(s, i + 1);
    }
  }

  /** The view check_runqueues has of a kernel table. */
  function View(k: T.ProcessTable): (t: Table)
    requires k.ReadyValid() && |k.flags| == NR_SLOTS
    reads k
    ensures t.Shape()
  {
    var f := k.flags;
    Table(k.rdyHead, k.rdyTail, k.nextReady, k.priority, k.pReady,
          seq(NR_SLOTS, p requires 0 <= p < NR_SLOTS => f[p] == {SlotFree}))
  }

  /** The audit asks only for what enqueue and dequeue themselves keep; the flags may lag behind. */
  lemma TablePassesAudit(k: T.ProcessTable)
    requires k.ReadyValid() && |k.flags| == NR_SLOTS
    ensures View(k).Consistent()
  {
    var t := View(k);
    forall q, x: Pid | 0 <= q < |k.ready| && x in k.ready[q]
      ensures t.ready[x]
    {
      assert Q.OnQueue(k.Sch(), x);
    }
    forall x: Pid | t.ready[x]
      ensures exists q :: 0 <= q < |k.ready| && x in k.ready[q]
    {
      assert Q.OnQueue(k.Sch(), x);
    }
    assert t.SpellsOut(k.ready);
  }

  /** enqueue with the checks compiled in: neither of them reports an error. */
  method AuditedEnqueue(k: T.ProcessTable, rp: Pid) returns (entry: bool, exit: bool)
    requires k.c.Legal() && k.ReadyValid() && |k.flags| == NR_SLOTS && !Q.OnQueue(k.Sch(), rp)
    modifies k
    ensures entry && exit && k.Sch() == Q.Enqueue(k.c, old(k.Sch()), rp)
    ensures k.ReadyValid()
  {
    TablePassesAudit(k);
    entry := CheckRunqueues(View(k));
    k.Enqueue(rp);
    TablePassesAudit(k);
    exit := CheckRunqueues(View(k));
  }

  /** dequeue with the checks compiled in, also while the flags still say that rp is runnable. */
  method AuditedDequeue(k: T.ProcessTable, rp: Pid) returns (entry: bool, exit: bool)
    requires k.c.Legal() && k.ReadyValid() && |k.flags| == NR_SLOTS
    modifies k
    ensures entry && exit && k.Sch() == Q.Dequeue(k.c, old(k.Sch()), rp)
    ensures k.ReadyValid()
  {
    TablePassesAudit(k);
    entry := CheckRunqueues(View(k));
    k.Dequeue(rp);
    TablePassesAudit(k);
    exit := CheckRunqueues(View(k));
  }
}
