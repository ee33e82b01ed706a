/** What sched, enqueue and dequeue do to one process, and where a sequence of used up quanta leads. */
module SchedulingPolicy {
  import opened KernelTypes
  import opened Lists
  import opened Rendezvous
  import opened KernelMachine
  import opened KernelSafety
  import Q = ReadyQueues

  /** n queues down from q, but not to IDLE's; n queues up, but not above max. */
  function Down(q: nat, n: nat): nat { if q + n < IDLE_Q then q + n else IDLE_Q - 1 }
  function Up(q: nat, n: nat, max: nat): nat { if q >= max + n then q - n else max }

  /** The chosen process is billed if it can be, and nobody else is. */
  ghost predicate Billed(c: Config, bill: Pid, t: Q.Sched)
    requires c.Shape()
  {
    match Q.FirstReady(t.ready, 0)
    case Nil => t.bill == bill
    case To(p) => t.next == To(p) && t.bill == if c.Priv(p).billable then p else bill
  }

  /**
   * A process with time left goes to the head of its queue. One without gets a new quantum and goes to the tail: one
   * queue down if it was also the last to run out of time, one queue up otherwise, between its own maximum and the
   * queue above IDLE's; tasks stay in their queue. Nothing changes for the others.
   */
  lemma EnqueueMoves(c: Config, sc: Q.Sched, p: Pid)
    requires c.Legal() && Q.PrioritiesOk(c, sc)
    ensures var t := Q.Enqueue(c, sc, p);
            var from, to := sc.priority[p], t.priority[p];
            && (sc.ticks[p] > 0 || IsKernel(p) ==> to == from)
            && (sc.ticks[p] <= 0 && !IsKernel(p) ==>
                  to == if sc.lastOut == To(p) then Down(from, 1) else Up(from, 1, c.slots[p].maxPriority))
            && t.priority == sc.priority[p := to] && to < |sc.ready|
            && (sc.ticks[p] > 0 ==>
                  t.ticks == sc.ticks && t.lastOut == sc.lastOut && t.ready == sc.ready[to := [p] + sc.ready[to]])
            && (sc.ticks[p] <= 0 ==>
                  && t.ticks == sc.ticks[p := c.slots[p].quantum] && t.lastOut == To(p)
                  && t.ready == sc.ready[to := sc.ready[to] + [p]])
            && t.current == sc.current && t.expired == sc.expired && Billed(c, sc.bill, t)
  {
    Q.NewPriorityInRange(c, sc, p);
  }

  /** A process leaves its queue, in which the others keep their places; nobody's priority or quantum changes. */
  lemma DequeueMoves(c: Config, sc: Q.Sched, p: Pid) returns (a: seq<Pid>, b: seq<Pid>)
    requires c.Legal() && Q.QueuesOk(sc) && Q.OnQueue(sc, p)
    ensures var t, q := Q.Dequeue(c, sc, p), sc.priority[p];
            && sc.ready[q] == a + [p] + b && t.ready == sc.ready[q := a + b] && p !in a + b
            && t.priority == sc.priority && t.ticks == sc.ticks && t.lastOut == sc.lastOut
            && t.current == sc.current && t.expired == sc.expired
            && (p == sc.current || sc.next == To(p) ==> Billed(c, sc.bill, t))
            && (p != sc.current && sc.next != To(p) ==> t.next == sc.next && t.bill == sc.bill)
  {
    var s := sc.ready[sc.priority[p]];
    var i := Index(s, p);
    a, b := s[..i], s[i + 1..];
    DropAtKeeps(s, i);
  }

  // ---------------------------------------------------------------- the clock

  /** How often x pays for the time that passed: as the running process, if it can be preempted, and as the one billed
      for system time, if the running one is not billable. */
  function Payments(c: Config, sc: Q.Sched, x: Pid): nat
    requires c.Shape()
  {
    var run := sc.current;
    (if x == run && c.Priv(run).preemptible then 1 else 0) + (if x == sc.bill && !c.Priv(run).billable then 1 else 0)
  }

  lemma CharCongruent(x: int)
    ensures (Q.ToChar(x) - x) % 256 == 0
  {
    assert Q.ToChar(x) - x == -256 * ((x + 128) / 256);
  }

  /** Everyone pays what they owe: exactly within the range of p_ticks_left, modulo 256 beyond it. */
  lemma ChargedIs(c: Config, sc: Q.Sched, t: nat, x: Pid)
    requires c.Shape() && Q.Shape(sc)
    ensures var was, pays, left := sc.ticks[x], Payments(c, sc, x), Charge(c, sc, t)[x];
            && (-128 <= was - pays * t && was < 128 ==> left == was - pays * t)
            && (left - (was - pays * t)) % 256 == 0 && (pays > 0 ==> -128 <= left < 128)
            && (pays == 0 ==> left == was)
  {
    var was, pays, left := sc.ticks[x], Payments(c, sc, x), Charge(c, sc, t)[x];
    if pays == 0 {
      assert left == was;
    } else if pays == 1 {
      assert left == Q.ToChar(was - t);
      CharCongruent(was - t);
    } else {
      assert left == Q.ToChar(Q.ToChar(was - t) - t) && pays * t == 2 * t;
      TwoCharges(was, t);
    }
  }

  lemma TwoCharges(was: int, t: nat)
    ensures (Q.ToChar(Q.ToChar(was - t) - t) - (was - 2 * t)) % 256 == 0
  {
    var once := Q.ToChar(was - t);
    CharCongruent(was - t);
    CharCongruent(once - t);
    assert Q.ToChar(once - t) - (was - 2 * t) == (Q.ToChar(once - t) - (once - t)) + (once - (was - t));
  }

  /** A clock interrupt adds the ticks that passed to the time, charges for them, and wakes CLOCK, for the running
      process, if a timer is due or that process has no time left. */
  lemma TickCounts(c: Config, st: State, lost: nat, timeout: nat, x: Pid)
    requires Ready(c, st) && x != CLOCK
    ensures var s1, passed := ClockHandler(c, st, lost, timeout), lost + 1;
            var fires := timeout <= st.realtime + passed || Charge(c, st.sched, passed)[st.sched.current] <= 0;
            && s1.realtime == st.realtime + passed
            && |s1.sched.ticks| == NR_SLOTS && s1.sched.ticks[x] == Charge(c, st.sched, passed)[x]
            && s1.sched.expired == (if fires then st.sched.current else st.sched.expired)
            && (!fires ==> s1.ipc == st.ipc)
  {
    var sc := st.sched.(ticks := Charge(c, st.sched, lost + 1), expired := st.sched.current);
    Q.NewPriorityInRange(c, sc, CLOCK);
  }

  // ---------------------------------------------------------------- many quanta

  /** do_clocktick after p has used up its quantum. */
  ghost function Expire(c: Config, sc: Q.Sched, p: Pid): (t: Q.Sched)
    requires c.Legal() && Q.Shape(sc)
    ensures Q.Shape(t)
  {
    var s1 := Q.Dequeue(c, sc.(ticks := sc.ticks[p := 0]), p);
    Q.NewPriorityInRange(c, s1, p);
    Q.Enqueue(c, s1, p)
  }

  /** p is in queue q now, and everybody else where they were. */
  ghost predicate MovesTo(sc: Q.Sched, t: Q.Sched, p: Pid, q: nat)
    requires Q.Shape(sc) && Q.Shape(t)
  {
    t.priority[p] == q && forall y: Pid :: y != p ==> t.priority[y] == sc.priority[y]
  }

  lemma ExpireMoves(c: Config, sc: Q.Sched, p: Pid)
    requires c.Legal() && Q.PrioritiesOk(c, sc) && !IsKernel(p)
    ensures var t, q := Expire(c, sc, p), sc.priority[p];
            && Q.PrioritiesOk(c, t) && t.lastOut == To(p)
            && MovesTo(sc, t, p, if sc.lastOut == To(p) then Down(q, 1) else Up(q, 1, c.slots[p].maxPriority))
  {
    EnqueueMoves(c, Q.Dequeue(c, sc.(ticks := sc.ticks[p := 0]), p), p);
  }

  ghost function Times(f: Q.Sched -> Q.Sched, sc: Q.Sched, n: nat): Q.Sched {
    if n == 0 then sc else f(Times(f, sc, n - 1))
  }

  /** p uses up a quantum. */
  ghost function Uses(c: Config, p: Pid): Q.Sched -> Q.Sched
    requires c.Legal()
  {
    (sc: Q.Sched) => if Q.Shape(sc) then Expire(c, sc, p) else sc
  }

  /** p was the last to use up a quantum. */
  ghost predicate WasLast(c: Config, p: Pid, sc: Q.Sched) {
    c.Legal() && Q.PrioritiesOk(c, sc) && !IsKernel(p) && sc.lastOut == To(p)
  }

  lemma SinkOnce(sc: Q.Sched, s1: Q.Sched, t: Q.Sched, p: Pid, n: nat)
    requires Q.Shape(sc) && Q.Shape(s1) && Q.Shape(t) && n > 0
    requires MovesTo(sc, s1, p, Down(sc.priority[p], n - 1)) && MovesTo(s1, t, p, Down(s1.priority[p], 1))
    ensures MovesTo(sc, t, p, Down(sc.priority[p], n))
  {
  }

  lemma {:induction false} Sinks(c: Config, f: Q.Sched -> Q.Sched, sc: Q.Sched, p: Pid, n: nat)
    requires forall s {:trigger f(s)} ::
      WasLast(c, p, s) ==> WasLast(c, p, f(s)) && MovesTo(s, f(s), p, Down(s.priority[p], 1))
    requires WasLast(c, p, sc)
    ensures WasLast(c, p, Times(f, sc, n)) && MovesTo(sc, Times(f, sc, n), p, Down(sc.priority[p], n))
  {
    if n > 0 {
      var s1 := Times(f, sc, n - 1);
      Sinks(c, f, sc, p, n - 1);
      SinkOnce(sc, s1, f(s1), p, n);
    }
  }

  /** A process that uses up n more quanta in a row sinks n queues, down to the queue above IDLE's. */
  lemma LoopSinks(c: Config, sc: Q.Sched, p: Pid, n: nat)
    requires WasLast(c, p, sc)
    ensures var t := Times(Uses(c, p), sc, n); Q.Shape(t) && MovesTo(sc, t, p, Down(sc.priority[p], n))
  {
    var f := Uses(c, p);
    forall s | WasLast(c, p, s) ensures WasLast(c, p, f(s)) && MovesTo(s, f(s), p, Down(s.priority[p], 1)) {
      ExpireMoves(c, s, p);
    }
    Sinks(c, f, sc, p, n);
  }

  /** p and x use up a quantum each. */
  ghost function TakeTurns(c: Config, p: Pid, x: Pid): Q.Sched -> Q.Sched
    requires c.Legal()
  {
    (sc: Q.Sched) => if Q.Shape(sc) then Expire(c, Expire(c, sc, p), x) else sc
  }

  /** Both are n queues further up, and everybody else where they were. */
  ghost predicate BothRise(c: Config, sc: Q.Sched, t: Q.Sched, p: Pid, x: Pid, n: nat)
    requires c.Shape() && Q.Shape(sc) && Q.Shape(t)
  {
    && t.priority[p] == Up(sc.priority[p], n, c.slots[p].maxPriority)
    && t.priority[x] == Up(sc.priority[x], n, c.slots[x].maxPriority)
    && forall y: Pid :: y != p && y != x ==> t.priority[y] == sc.priority[y]
  }

  ghost predicate MayTurn(c: Config, p: Pid, x: Pid, sc: Q.Sched) {
    c.Legal() && Q.PrioritiesOk(c, sc) && !IsKernel(p) && !IsKernel(x) && p != x && sc.lastOut != To(p)
  }

  lemma TurnRises(c: Config, sc: Q.Sched, p: Pid, x: Pid)
    requires MayTurn(c, p, x, sc)
    ensures var t := TakeTurns(c, p, x)(sc); MayTurn(c, p, x, t) && BothRise(c, sc, t, p, x, 1)
  {
    ExpireMoves(c, sc, p);
    ExpireMoves(c, Expire(c, sc, p), x);
  }

  lemma RiseOnce(c: Config, sc: Q.Sched, s1: Q.Sched, t: Q.Sched, p: Pid, x: Pid, n: nat)
    requires c.Shape() && Q.Shape(sc) && Q.Shape(s1) && Q.Shape(t) && n > 0
    requires BothRise(c, sc, s1, p, x, n - 1) && BothRise(c, s1, t, p, x, 1)
    ensures BothRise(c, sc, t, p, x, n)
  {
  }

  lemma {:induction false} Rises(c: Config, f: Q.Sched -> Q.Sched, sc: Q.Sched, p: Pid, x: Pid, n: nat)
    requires forall s {:trigger f(s)} ::
      MayTurn(c, p, x, s) ==> MayTurn(c, p, x, f(s)) && BothRise(c, s, f(s), p, x, 1)
    requires MayTurn(c, p, x, sc)
    ensures MayTurn(c, p, x, Times(f, sc, n)) && BothRise(c, sc, Times(f, sc, n), p, x, n)
  {
    if n > 0 {
      var s1 := Times(f, sc, n - 1);
      Rises(c, f, sc, p, x, n - 1);
      RiseOnce(c, sc, s1, f(s1), p, x, n);
    }
  }

  lemma EveryTurnRises(c: Config, p: Pid, x: Pid, f: Q.Sched -> Q.Sched)
    requires c.Legal() && f == TakeTurns(c, p, x)
    ensures forall s {:trigger f(s)} ::
      MayTurn(c, p, x, s) ==> MayTurn(c, p, x, f(s)) && BothRise(c, s, f(s), p, x, 1)
  {
    forall s | MayTurn(c, p, x, s) ensures MayTurn(c, p, x, f(s)) && BothRise(c, s, f(s), p, x, 1) {
      TurnRises(c, s, p, x);
    }
  }

  /** Processes that take turns find the way back to their own queues. */
  lemma TurnsRise(c: Config, sc: Q.Sched, p: Pid, x: Pid, n: nat)
    requires MayTurn(c, p, x, sc)
    ensures var t := Times(TakeTurns(c, p, x), sc, n); Q.Shape(t) && BothRise(c, sc, t, p, x, n)
  {
    EveryTurnRises(c, p, x, TakeTurns(c, p, x));
    Rises(c, TakeTurns(c, p, x), sc, p, x, n);
  }
}
