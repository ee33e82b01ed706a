/** The graph of blocked senders: an edge from each SENDING process to its p_sendto. */
module WaitGraph {
  import opened KernelTypes

  type Graph = g: seq<Link> | |g| == NR_SLOTS witness seq(NR_SLOTS, _ => Nil)

  /** The process k edges away from p, or nil when the path is shorter. */
  ghost function Reach(g: Graph, p: Pid, k: nat): Link
    decreases k
  {
    if k == 0 then To(p)
    else if g[p].Nil? then Nil
    else Reach(g, g[p].p, k - 1)
  }

  /** The path from p has at most n edges. */
  ghost predicate Ends(g: Graph, p: Pid, n: nat)
    decreases n
  {
    g[p].Nil? || (n > 0 && Ends(g, g[p].p, n - 1))
  }

  ghost predicate EndsSomewhere(g: Graph, p: Pid) {
    exists n: nat :: Ends(g, p, n)
  }

  /** Every chain of blocked senders ends at a process that is not sending. */
  ghost predicate Grounded(g: Graph) {
    forall p: Pid :: EndsSomewhere(g, p)
  }

  /** A deadlock: senders p, p', ..., each waiting for the next, back to p. */
  ghost predicate Cycle(g: Graph, p: Pid, k: nat) {
    k >= 1 && Reach(g, p, k) == To(p)
  }

  ghost predicate Acyclic(g: Graph) {
    forall p: Pid, k: nat :: !Cycle(g, p, k)
  }

  /** The outcome of the walk in mini_send: it meets caller after at least one step from dst. */
  ghost predicate Locked(g: Graph, caller: Pid, dst: Pid) {
    exists k: nat :: k >= 1 && Reach(g, dst, k) == To(caller)
  }

  lemma {:induction false} ReachCompose(g: Graph, p: Pid, a: nat, b: nat)
    requires Reach(g, p, a).To?
    ensures Reach(g, p, a + b) == Reach(g, Reach(g, p, a).p, b)
    decreases a
  {
    if a > 0 { ReachCompose(g, g[p].p, a - 1, b); }
  }

  lemma {:induction false} EndsBounds(g: Graph, p: Pid, n: nat, k: nat)
    requires Ends(g, p, n) && k > n
    ensures Reach(g, p, k) == Nil
    decreases n
  {
    if g[p].To? { EndsBounds(g, g[p].p, n - 1, k - 1); }
  }

  lemma {:induction false} EndsMonotone(g: Graph, p: Pid, n: nat, m: nat)
    requires Ends(g, p, n) && n <= m
    ensures Ends(g, p, m)
    decreases n
  {
    if g[p].To? { EndsMonotone(g, g[p].p, n - 1, m - 1); }
  }

  lemma {:induction false} CycleRepeats(g: Graph, p: Pid, k: nat, j: nat)
    requires Cycle(g, p, k)
    ensures Reach(g, p, j * k) == To(p)
    decreases j
  {
    if j == 0 {
    } else {
      CycleRepeats(g, p, k, j - 1);
      ReachCompose(g, p, (j - 1) * k, k);
      assert (j - 1) * k + k == j * k;
    }
  }

  lemma GroundedIsAcyclic(g: Graph)
    requires Grounded(g)
    ensures Acyclic(g)
  {
    forall p: Pid, k: nat
      ensures !Cycle(g, p, k)
    {
      if Cycle(g, p, k) {
        assert EndsSomewhere(g, p);
        var n: nat :| Ends(g, p, n);
        CycleRepeats(g, p, k, n + 1);
        assert (n + 1) * k > n by { assert (n + 1) * k >= (n + 1) * 1; }
        EndsBounds(g, p, n, (n + 1) * k);
      }
    }
  }

  lemma {:induction false} LongPath(g: Graph, p: Pid, n: nat, k: nat)
    requires !Ends(g, p, n) && k <= n
    ensures Reach(g, p, k).To?
    decreases k
  {
    if k > 0 { LongPath(g, g[p].p, n - 1, k - 1); }
  }

  /** A path longer than the table revisits a process, so without cycles every path ends. */
  lemma AcyclicIsGrounded(g: Graph)
    requires Acyclic(g)
    ensures Grounded(g)
  {
    forall p: Pid
      ensures EndsSomewhere(g, p)
    {
      if !Ends(g, p, NR_SLOTS) {
        forall k: nat | k <= NR_SLOTS
          ensures Reach(g, p, k).To?
        {
          LongPath(g, p, NR_SLOTS, k);
        }
        var path := seq(NR_SLOTS + 1, k requires 0 <= k <= NR_SLOTS => Reach(g, p, k).p);
        var i, j := Pigeonhole(path, NR_SLOTS);
        ReachCompose(g, p, i, j - i);
        assert Cycle(g, path[i], j - i);
      }
    }
  }

  lemma {:induction false} Pigeonhole(s: seq<nat>, n: nat) returns (i: nat, j: nat)
    requires |s| > n && forall k :: 0 <= k < |s| ==> s[k] < n
    ensures i < j < |s| && s[i] == s[j]
    decreases n
  {
    assert s[0] < n;
    // Either the top value n-1 repeats, or dropping its one occurrence leaves too many below it.
    if a, b :| 0 <= a < b < |s| && s[a] == s[b] {
      return a, b;
    } else if a :| 0 <= a < |s| && s[a] == n - 1 {
      i, j := Pigeonhole(s[..a] + s[a + 1..], n - 1);
    } else {
      i, j := Pigeonhole(s, n - 1);
    }
  }

  /** Paths that avoid caller do not see caller's new edge. */
  lemma {:induction false} AvoidingPathEnds(g: Graph, caller: Pid, dst: Pid, x: Pid, n: nat)
    requires Ends(g, x, n)
    requires forall k: nat :: Reach(g, x, k) != To(caller)
    ensures Ends(g[caller := To(dst)], x, n)
    decreases n
  {
    assert Reach(g, x, 0) == To(x);
    if g[x].To? {
      forall k: nat
        ensures Reach(g, g[x].p, k) != To(caller)
      {
        assert Reach(g, x, k + 1) == Reach(g, g[x].p, k);
      }
      AvoidingPathEnds(g, caller, dst, g[x].p, n - 1);
    }
  }

  lemma {:induction false} EndsThrough(g: Graph, caller: Pid, dst: Pid, p: Pid, n: nat, m: nat)
    requires g[caller].Nil? && Ends(g, p, n)
    requires Ends(g[caller := To(dst)], dst, m)
    ensures Ends(g[caller := To(dst)], p, n + 1 + m)
    decreases n
  {
    var h := g[caller := To(dst)];
    if p == caller {
      EndsMonotone(h, dst, m, n + m);
    } else if g[p].To? {
      EndsThrough(g, caller, dst, g[p].p, n - 1, m);
    }
  }

  /** Blocking a caller the walk did not meet closes no cycle. */
  lemma BlockGrounded(g: Graph, caller: Pid, dst: Pid)
    requires Grounded(g) && g[caller].Nil? && dst != caller && !Locked(g, caller, dst)
    ensures Grounded(g[caller := To(dst)])
  {
    var h := g[caller := To(dst)];
    assert EndsSomewhere(g, dst);
    var m: nat :| Ends(g, dst, m);
    forall k: nat
      ensures Reach(g, dst, k) != To(caller)
    {
    }
    AvoidingPathEnds(g, caller, dst, dst, m);
    forall p: Pid
      ensures EndsSomewhere(h, p)
    {
      assert EndsSomewhere(g, p);
      var n: nat :| Ends(g, p, n);
      EndsThrough(g, caller, dst, p, n, m);
    }
  }

  lemma {:induction false} EndsWithout(g: Graph, x: Pid, p: Pid, n: nat)
    requires Ends(g, p, n)
    ensures Ends(g[x := Nil], p, n)
    decreases n
  {
    if g[p].To? && p != x { EndsWithout(g, x, g[p].p, n - 1); }
  }

  lemma UnblockGrounded(g: Graph, x: Pid)
    requires Grounded(g)
    ensures Grounded(g[x := Nil])
  {
    var h := g[x := Nil];
    forall p: Pid
      ensures EndsSomewhere(h, p)
    {
      assert EndsSomewhere(g, p);
      var n: nat :| Ends(g, p, n);
      EndsWithout(g, x, p, n);
    }
  }

  lemma {:induction false} ReachSurvives(g: Graph, caller: Pid, dst: Pid, x: Pid, k: nat)
    requires g[caller].Nil? && Reach(g, x, k) == To(caller)
    ensures Reach(g[caller := To(dst)], x, k) == To(caller)
    decreases k
  {
    if k > 0 { ReachSurvives(g, caller, dst, g[x].p, k - 1); }
  }

  /** The walk reports ELOCKED exactly when blocking would close a cycle, of whatever length. */
  lemma LockedIffCycle(g: Graph, caller: Pid, dst: Pid)
    requires Grounded(g) && g[caller].Nil? && dst != caller
    ensures Locked(g, caller, dst) <==> !Acyclic(g[caller := To(dst)])
  {
    var h := g[caller := To(dst)];
    if Locked(g, caller, dst) {
      var k: nat :| k >= 1 && Reach(g, dst, k) == To(caller);
      ReachSurvives(g, caller, dst, dst, k);
      assert Reach(h, caller, k + 1) == Reach(h, dst, k);
      assert Cycle(h, caller, k + 1);
    } else {
      BlockGrounded(g, caller, dst);
      GroundedIsAcyclic(h);
    }
  }

  /** Sending to oneself is the one cycle the walk cannot see: it starts past the caller. */
  lemma SelfSendCycle(g: Graph, caller: Pid)
    requires g[caller].Nil?
    ensures !Locked(g, caller, caller)
    ensures Cycle(g[caller := To(caller)], caller, 1)
  {
    assert Reach(g[caller := To(caller)], caller, 1) == Reach(g[caller := To(caller)], caller, 0);
  }
}
