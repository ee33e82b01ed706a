/** Sequences without repeats and the linked lists that represent them. */
module Lists {
  import opened KernelTypes

  ghost predicate Distinct<T>(s: seq<T>) {
    forall i, j :: 0 <= i < j < |s| ==> s[i] != s[j]
  }

  /** Position of the first occurrence. */
  function Index<T(==)>(s: seq<T>, x: T): (i: nat)
    requires x in s
    ensures i < |s| && s[i] == x && x !in s[..i]
  {
    if s[0] == x then 0 else 1 + Index(s[1..], x)
  }

  function DropAt<T>(s: seq<T>, i: nat): (r: seq<T>)
    requires i < |s|
    ensures |r| == |s| - 1
  {
    s[..i] + s[i + 1..]
  }

  lemma DropAtKeeps<T>(s: seq<T>, i: nat)
    requires i < |s| && Distinct(s)
    ensures Distinct(DropAt(s, i))
    ensures forall x :: x in DropAt(s, i) <==> x in s && x != s[i]
  {
    var r := DropAt(s, i);
    forall x | x in s && x != s[i]
      ensures x in r
    {
      var k := Index(s, x);
      assert r[if k < i then k else k - 1] == x;
    }
  }

  function LinkAt(s: seq<Pid>, i: nat): Link {
    if i < |s| then To(s[i]) else Nil
  }

  /** From head, the next column spells out exactly s and then nil. */
  ghost predicate Chain(head: Link, next: seq<Link>, s: seq<Pid>) {
    && |next| == NR_SLOTS
    && head == LinkAt(s, 0)
    && forall i {:trigger next[s[i]]} :: 0 <= i < |s| ==> next[s[i]] == LinkAt(s, i + 1)
  }

  /** A column update at a process outside the list leaves the list alone. */
  lemma ChainFrame(head: Link, next: seq<Link>, s: seq<Pid>, p: Pid, l: Link)
    requires Chain(head, next, s) && p !in s
    ensures Chain(head, next[p := l], s)
  {
    assert forall i :: 0 <= i < |s| ==> s[i] in s;
  }

  lemma ChainPush(head: Link, next: seq<Link>, s: seq<Pid>, p: Pid)
    requires Chain(head, next, s) && p !in s
    ensures Chain(To(p), next[p := head], [p] + s)
  {
    var t := [p] + s;
    forall i | 0 <= i < |t|
      ensures next[p := head][t[i]] == LinkAt(t, i + 1)
    {
      if i > 0 { assert t[i] == s[i - 1] && s[i - 1] in s; }
    }
  }

  /** Appending rewrites the last link only (or the head of an empty list). */
  lemma ChainAppend(head: Link, next: seq<Link>, s: seq<Pid>, p: Pid)
    requires Chain(head, next, s) && Distinct(s) && p !in s
    ensures s == [] ==> Chain(To(p), next[p := Nil], [p])
    ensures s != [] ==> Chain(head, next[s[|s| - 1] := To(p)][p := Nil], s + [p])
    ensures s != [] ==> next[s[|s| - 1] := To(p)][p := Nil] == next[p := Nil][s[|s| - 1] := To(p)]
  {
    if s != [] {
      var last := s[|s| - 1];
      assert last in s;
      var n2 := next[last := To(p)][p := Nil];
      var t := s + [p];
      forall i | 0 <= i < |t|
        ensures n2[t[i]] == LinkAt(t, i + 1)
      {
        if i < |s| { assert t[i] == s[i] && s[i] in s; }
      }
      assert n2 == next[p := Nil][last := To(p)];
    }
  }

  /** Unlinking element i redirects the one cell that pointed at it. */
  lemma ChainDrop(head: Link, next: seq<Link>, s: seq<Pid>, i: nat)
    requires Chain(head, next, s) && Distinct(s) && i < |s|
    ensures i == 0 ==> Chain(next[s[0]], next, DropAt(s, 0))
    ensures i > 0 ==> Chain(head, next[s[i - 1] := next[s[i]]], DropAt(s, i))
  {
    var t := DropAt(s, i);
    if i > 0 {
      var n2 := next[s[i - 1] := next[s[i]]];
      forall k | 0 <= k < |t|
        ensures n2[t[k]] == LinkAt(t, k + 1)
      {
        if k < i - 1 { assert t[k] == s[k]; }
        else if k == i - 1 { assert t[k] == s[i - 1]; }
        else { assert t[k] == s[k + 1]; }
      }
    }
  }

  /** A list none of whose cells changed is still there. */
  lemma ChainUntouched(head: Link, before: seq<Link>, after: seq<Link>, s: seq<Pid>)
    requires Chain(head, before, s) && |after| == NR_SLOTS
    requires forall x: Pid :: x in s ==> after[x] == before[x]
    ensures Chain(head, after, s)
  {
    assert forall i :: 0 <= i < |s| ==> s[i] in s;
  }

  function LastOf(s: seq<Pid>): Link {
    if s == [] then Nil else To(s[|s| - 1])
  }

  /** A family of lists threaded through one column. */
  ghost predicate Linked(heads: seq<Link>, next: seq<Link>, lists: seq<seq<Pid>>) {
    && |heads| == |lists| && |next| == NR_SLOTS
    && forall q :: 0 <= q < |lists| ==> Chain(heads[q], next, lists[q])
  }

  ghost predicate Tails(tails: seq<Link>, lists: seq<seq<Pid>>) {
    |tails| == |lists| && forall q :: 0 <= q < |lists| ==> tails[q] == LastOf(lists[q])
  }

  /** No process is on two lists or twice on one: the list of each is named in its owner column. */
  ghost predicate Owned(lists: seq<seq<Pid>>, owner: seq<nat>) {
    && |owner| == NR_SLOTS
    && (forall q :: 0 <= q < |lists| ==> Distinct(lists[q]))
    && (forall q, x: Pid {:trigger x in lists[q]} :: 0 <= q < |lists| && x in lists[q] ==> owner[x] == q)
  }

  lemma LinkedPush(heads: seq<Link>, next: seq<Link>, lists: seq<seq<Pid>>, q: nat, p: Pid)
    requires Linked(heads, next, lists) && q < |lists|
    requires forall r :: 0 <= r < |lists| ==> p !in lists[r]
    ensures Linked(heads[q := To(p)], next[p := heads[q]], lists[q := [p] + lists[q]])
  {
    ChainPush(heads[q], next, lists[q], p);
    forall r | 0 <= r < |lists| && r != q
      ensures Chain(heads[r], next[p := heads[q]], lists[r])
    {
      ChainFrame(heads[r], next, lists[r], p, heads[q]);
    }
  }

  lemma LinkedAppend(heads: seq<Link>, next: seq<Link>, lists: seq<seq<Pid>>, owner: seq<nat>, q: nat, p: Pid)
    requires Linked(heads, next, lists) && Owned(lists, owner) && q < |lists|
    requires forall r :: 0 <= r < |lists| ==> p !in lists[r]
    ensures lists[q] == [] ==> Linked(heads[q := To(p)], next[p := Nil], lists[q := [] + [p]])
    ensures lists[q] != [] ==>
      Linked(heads, next[lists[q][|lists[q]| - 1] := To(p)][p := Nil], lists[q := lists[q] + [p]])
  {
    var s := lists[q];
    ChainAppend(heads[q], next, s, p);
    var after := if s == [] then next[p := Nil] else next[s[|s| - 1] := To(p)][p := Nil];
    forall r | 0 <= r < |lists| && r != q
      ensures Chain(heads[r], after, lists[r])
    {
      if s != [] { assert s[|s| - 1] in lists[q] && owner[s[|s| - 1]] == q; }
      assert forall x: Pid :: x in lists[r] ==> owner[x] == r;
      ChainUntouched(heads[r], next, after, lists[r]);
    }
  }

  lemma LinkedDrop(heads: seq<Link>, next: seq<Link>, lists: seq<seq<Pid>>, owner: seq<nat>, q: nat, i: nat)
    requires Linked(heads, next, lists) && Owned(lists, owner) && q < |lists| && i < |lists[q]|
    ensures var s := lists[q];
            if i == 0 then Linked(heads[q := next[s[0]]], next, lists[q := DropAt(s, 0)])
            else Linked(heads, next[s[i - 1] := next[s[i]]], lists[q := DropAt(s, i)])
  {
    var s := lists[q];
    ChainDrop(heads[q], next, s, i);
    if i > 0 {
      assert s[i - 1] in lists[q] && owner[s[i - 1]] == q;
      forall r | 0 <= r < |lists| && r != q
        ensures Chain(heads[r], next[s[i - 1] := next[s[i]]], lists[r])
      {
        ChainFrame(heads[r], next, lists[r], s[i - 1], next[s[i]]);
      }
    }
  }

  lemma OwnedDrop(lists: seq<seq<Pid>>, owner: seq<nat>, q: nat, i: nat)
    requires Owned(lists, owner) && q < |lists| && i < |lists[q]|
    ensures Owned(lists[q := DropAt(lists[q], i)], owner)
  {
    DropAtKeeps(lists[q], i);
  }

  lemma OwnedAppend(lists: seq<seq<Pid>>, owner: seq<nat>, q: nat, p: Pid)
    requires Owned(lists, owner) && q < |lists| && p !in lists[q] && owner[p] == q
    ensures Owned(lists[q := lists[q] + [p]], owner)
  {
    assert forall k :: 0 <= k < |lists[q]| ==> lists[q][k] in lists[q];
  }

  /** Removing the last element moves the tail to its predecessor; removing another keeps it. */
  lemma LastAfterDrop(s: seq<Pid>, i: nat)
    requires Distinct(s) && i < |s|
    ensures LastOf(DropAt(s, i)) ==
            if LastOf(s) == To(s[i]) then (if i == 0 then Nil else To(s[i - 1])) else LastOf(s)
  {
    assert s[i] == s[|s| - 1] <==> i == |s| - 1;
  }
}
