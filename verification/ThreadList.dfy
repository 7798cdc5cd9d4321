/** The server's list of worker threads (utilities.c): an SLIST swept while its
    nodes are removed and freed. */
module ThreadList {
  import opened LinkedQueues

  datatype ThreadStatus = Uninitialized | Running | Succeeded | Failed

  // ----- What is done to threads and nodes -----

  /** A node's thread was waited for, or its memory given back. */
  datatype Event = Joined(node: Cell) | Freed(node: Cell)

  /** The calls into pthreads and malloc, in order. */
  class Runtime {
    ghost var done: seq<Event>

    /** pthread_join, which may report an error; its thread is never waited for again. */
    method Join(c: Cell, joinOk: bool) returns (isError: bool)
      requires Joined(c) !in done && Freed(c) !in done
      modifies this
      ensures done == old(done) + [Joined(c)] && isError == !joinOk
    {
      done := done + [Joined(c)];
      isError := !joinOk;
    }

    /** free, never twice; afterwards nothing at all is known about the cell's links. */
    method Free(c: Cell)
      requires Freed(c) !in done
      modifies this, c
      ensures done == old(done) + [Freed(c)]
    {
      done := done + [Freed(c)];
      c.next := c;
    }
  }

  /** Each cell joined and then freed, one after the other. */
  ghost function Reaped(cells: seq<Cell>): (r: seq<Event>) {
    if cells == [] then []
    else Reaped(cells[..|cells| - 1]) + [Joined(cells[|cells| - 1]), Freed(cells[|cells| - 1])]
  }

  ghost function AllFreed(cells: seq<Cell>): (r: seq<Event>)
    ensures |r| == |cells| && forall k :: 0 <= k < |r| ==> r[k] == Freed(cells[k])
  {
    seq(|cells|, k requires 0 <= k < |cells| => Freed(cells[k]))
  }

  lemma ReapedSnoc(before: seq<Event>, cells: seq<Cell>, c: Cell)
    ensures before + Reaped(cells + [c]) == (before + Reaped(cells)) + [Joined(c), Freed(c)]
  {
    assert (cells + [c])[..|cells|] == cells;
  }

  lemma FreedSnoc(before: seq<Event>, cells: seq<Cell>, c: Cell)
    ensures before + AllFreed(cells + [c]) == (before + AllFreed(cells)) + [Freed(c)]
  {
    assert AllFreed(cells + [c]) == AllFreed(cells) + [Freed(c)];
  }

  /** Nothing was done to a cell that is not among those reaped. */
  lemma {:induction false} ReapedOnly(cells: seq<Cell>, c: Cell)
    requires c !in cells
    ensures Joined(c) !in Reaped(cells) && Freed(c) !in Reaped(cells)
  {
    if cells != [] {
      ReapedOnly(cells[..|cells| - 1], c);
    }
  }

  /** Nothing has been done to any of the cells yet. */
  ghost predicate Untouched(cells: seq<Cell>, done: seq<Event>) {
    forall k :: 0 <= k < |cells| ==> Joined(cells[k]) !in done && Freed(cells[k]) !in done
  }

  /** The list as it stands, inside the cells it may use. */
  ghost predicate ListIn(list: seq<Cell>, cells: set<Cell>)
    reads list
  {
    Slist(list) && forall k :: 0 <= k < |list| ==> list[k] in cells
  }

  method RemoveAndFree(runtime: Runtime, head: Cell, node: Cell, ghost list: seq<Cell>, ghost i: nat, ghost rest: seq<Cell>, ghost cells: set<Cell>)
    requires ListIn(list, cells) && list[0] == head && 1 <= i < |list| && list[i] == node && rest == Delete(list, i)
    requires Freed(node) !in runtime.done
    modifies cells, runtime
    ensures ListIn(rest, cells) && runtime.done == old(runtime.done) + [Freed(node)]
  {
    SlistRemove(head, node, list, i);
    assert node !in rest;
    runtime.Free(node);
  }

  /** A node's thread is joined, whatever that reports, and the node removed and freed. */
  method Reap(runtime: Runtime, head: Cell, node: Cell, joinOk: bool,
              ghost list: seq<Cell>, ghost i: nat, ghost rest: seq<Cell>, ghost cells: set<Cell>)
    returns (isError: bool)
    requires ListIn(list, cells) && list[0] == head && 1 <= i < |list| && list[i] == node && rest == Delete(list, i)
    requires Joined(node) !in runtime.done && Freed(node) !in runtime.done
    modifies cells, runtime
    ensures ListIn(rest, cells) && isError == !joinOk
    ensures runtime.done == old(runtime.done) + [Joined(node), Freed(node)]
  {
    isError := runtime.Join(node, joinOk);
    RemoveAndFree(runtime, head, node, list, i, rest, cells);
    assert runtime.done == old(runtime.done) + [Joined(node), Freed(node)];
  }

  predicate Completed(status: ThreadStatus): (r: bool)
    ensures r <==> status != Uninitialized && status != Running
  {
    status == Succeeded || status == Failed
  }

  /** The first `n` nodes of a list. */
  ghost function Taken(q: seq<Cell>, n: nat): (r: seq<Cell>)
    requires n < |q|
  {
    q[1..n + 1]
  }

  lemma TakenStep(q: seq<Cell>, n: nat)
    requires n + 1 < |q|
    ensures Taken(q, n + 1) == Taken(q, n) + [q[n + 1]]
  {
  }

  /** Of the first `n` nodes after the head, those seen completed, or those not. */
  ghost function Select(q: seq<Cell>, seen: seq<ThreadStatus>, completed: bool, n: nat): (r: seq<Cell>)
    requires n <= |seen| == |q| - 1
  {
    if n == 0 then []
    else if Completed(seen[n - 1]) == completed then Select(q, seen, completed, n - 1) + [q[n]]
    else Select(q, seen, completed, n - 1)
  }

  /** Every node lands on exactly one side: kept or joined. */
  lemma {:induction false} SelectPartitions(q: seq<Cell>, seen: seq<ThreadStatus>, n: nat, c: Cell)
    requires n <= |seen| == |q| - 1
    ensures multiset(Select(q, seen, true, n))[c] + multiset(Select(q, seen, false, n))[c] == multiset(Taken(q, n))[c]
  {
    if n > 0 {
      SelectPartitions(q, seen, n - 1, c);
      TakenStep(q, n - 1);
    }
  }

  /** Something to report among the first `n` nodes: a failed worker, or a
      completed one that could not be joined. */
  ghost predicate Trouble(seen: seq<ThreadStatus>, joins: seq<bool>, n: nat)
    requires n <= |seen| == |joins|
  {
    n > 0 && (Trouble(seen, joins, n - 1) || seen[n - 1] == Failed || (Completed(seen[n - 1]) && !joins[n - 1]))
  }

  lemma {:induction false} TroubleMeans(seen: seq<ThreadStatus>, joins: seq<bool>, n: nat)
    requires n <= |seen| == |joins|
    ensures Trouble(seen, joins, n) <==>
      exists i :: 0 <= i < n && (seen[i] == Failed || (Completed(seen[i]) && !joins[i]))
  {
    if n > 0 {
      TroubleMeans(seen, joins, n - 1);
    }
  }

  /** The list after `n` nodes have been visited: those kept, then the rest. */
  ghost function Swept(q: seq<Cell>, seen: seq<ThreadStatus>, n: nat): (r: seq<Cell>)
    requires n <= |seen| == |q| - 1
    ensures |r| > 0 && r[0] == q[0]
  {
    q[..1] + Select(q, seen, false, n) + q[n + 1..]
  }

  /** The node being visited, its successor, and what removing it leaves. */
  lemma SweptStep(q: seq<Cell>, seen: seq<ThreadStatus>, n: nat)
    requires n < |seen| == |q| - 1
    ensures var list, at := Swept(q, seen, n), 1 + |Select(q, seen, false, n)|;
      && at < |list| && list[at] == q[n + 1]
      && (if n + 2 < |q| then at + 1 < |list| && list[at + 1] == q[n + 2] else at + 1 == |list|)
      && Swept(q, seen, n + 1) == if Completed(seen[n]) then Delete(list, at) else list
  {
    var front, rest := q[..1] + Select(q, seen, false, n), q[n + 2..];
    assert q[n + 1..] == [q[n + 1]] + rest;
    assert Swept(q, seen, n) == front + ([q[n + 1]] + rest);
    if Completed(seen[n]) {
      assert Delete(front + ([q[n + 1]] + rest), |front|) == front + rest;
    } else {
      assert front + ([q[n + 1]] + rest) == front + [q[n + 1]] + rest;
    }
  }

  /** At a visit the node's link still leads to the next node of the original list. */
  lemma SweptNext(q: seq<Cell>, seen: seq<ThreadStatus>, n: nat)
    requires n < |seen| == |q| - 1 && Slist(Swept(q, seen, n))
    ensures q[n + 1].next == if n + 2 < |q| then q[n + 2] else null
  {
    SweptStep(q, seen, n);
    NextOf(Swept(q, seen, n), 1 + |Select(q, seen, false, n)|);
  }

  lemma {:induction false} SelectIn(q: seq<Cell>, seen: seq<ThreadStatus>, completed: bool, n: nat)
    requires n <= |seen| == |q| - 1
    ensures forall c :: c in Select(q, seen, completed, n) ==> c in Taken(q, n)
  {
    if n > 0 {
      SelectIn(q, seen, completed, n - 1);
      TakenStep(q, n - 1);
    }
  }

  /** The sweep so far has done nothing to the node it comes to. */
  lemma NotYetReaped(q: seq<Cell>, seen: seq<ThreadStatus>, n: nat, before: seq<Event>)
    requires n < |seen| == |q| - 1 && Distinct(q) && Untouched(q[1..], before)
    ensures var done := before + Reaped(Select(q, seen, true, n));
      Joined(q[n + 1]) !in done && Freed(q[n + 1]) !in done
  {
    SelectIn(q, seen, true, n);
    ReapedOnly(Select(q, seen, true, n), q[n + 1]);
    assert q[1..][n] == q[n + 1];
  }

  /** The switch on one node's status: an unfinished worker is left alone, any
      other joined, removed and freed; a failed one is also an error. */
  method VisitNode(runtime: Runtime, head: Cell, node: Cell, status: ThreadStatus, joinOk: bool,
                   ghost q: seq<Cell>, ghost seen: seq<ThreadStatus>, ghost n: nat, ghost cells: set<Cell>)
    returns (isError: bool)
    requires n < |seen| == |q| - 1 && seen[n] == status && q[0] == head && q[n + 1] == node
    requires ListIn(Swept(q, seen, n), cells) && Joined(node) !in runtime.done && Freed(node) !in runtime.done
    modifies cells, runtime
    ensures ListIn(Swept(q, seen, n + 1), cells)
    ensures runtime.done == old(runtime.done) +
      if status == Uninitialized || status == Running then [] else [Joined(node), Freed(node)]
    ensures isError <==> status == Failed || (status == Succeeded && !joinOk)
  {
    SweptStep(q, seen, n);
    isError := false;
    if status == Uninitialized || status == Running {
      return;
    }
    if status == Failed {
      isError := true;
    }
    var joinError := Reap(runtime, head, node, joinOk, Swept(q, seen, n), 1 + |Select(q, seen, false, n)|, Swept(q, seen, n + 1), cells);
    isError := isError || joinError;
  }

  /** slist_join_completed_threads. Workers change their status meanwhile, so
      what each visited node shows is an input, as is each join's success. The
      sweep visits every node once, joins and frees exactly the completed ones,
      each once and in order, keeps the others in order, and reports whether
      anything went wrong. It never relies on a freed node's link, since Free
      leaves none. */
  method JoinCompletedThreads(runtime: Runtime, head: Cell, seen: seq<ThreadStatus>, joins: seq<bool>,
                              ghost q: seq<Cell>, ghost cells: set<Cell>)
    returns (isError: bool, visited: seq<Cell>)
    requires ListIn(q, cells) && q[0] == head && |seen| == |joins| == |q| - 1
    requires Untouched(q[1..], runtime.done)
    modifies cells, runtime
    ensures ListIn([head] + Select(q, seen, false, |seen|), cells)
    ensures visited == Taken(q, |seen|)
    ensures runtime.done == old(runtime.done) + Reaped(Select(q, seen, true, |seen|))
    ensures isError <==> Trouble(seen, joins, |seen|)
  {
    assert Swept(q, seen, 0) == q;
    ghost var before := runtime.done;
    isError, visited := false, [];
    var n := 0;
    NextOf(q, 0);
    var node := head.next;
    while node != null
      invariant n <= |seen| && visited == Taken(q, n)
      invariant node == if n + 1 < |q| then q[n + 1] else null
      invariant ListIn(Swept(q, seen, n), cells)
      invariant runtime.done == before + Reaped(Select(q, seen, true, n))
      invariant isError <==> Trouble(seen, joins, n)
      decreases |q| - n
    {
      SweptNext(q, seen, n);
      TakenStep(q, n);
      NotYetReaped(q, seen, n, before);
      ReapedSnoc(before, Select(q, seen, true, n), node);
      var next := node.next;
      visited := visited + [node];
      var bad := VisitNode(runtime, head, node, seen[n], joins[n], q, seen, n, cells);
      isError := isError || bad;
      node := next;
      n := n + 1;
    }
    assert Swept(q, seen, n) == [head] + Select(q, seen, false, n);
  }

  /** The list once its first `n` nodes are gone. */
  ghost function Emptied(q: seq<Cell>, n: nat): (r: seq<Cell>)
    requires n < |q|
    ensures |r| == |q| - n && r[0] == q[0] && forall k :: 1 <= k < |r| ==> r[k] == q[k + n]
  {
    q[..1] + q[n + 1..]
  }

  lemma EmptiedStep(q: seq<Cell>, n: nat)
    requires n + 1 < |q|
    ensures Emptied(q, n + 1) == Delete(Emptied(q, n), 1)
  {
  }

  ghost predicate JoinFailed(joins: seq<bool>, n: nat)
    requires n <= |joins|
    ensures JoinFailed(joins, n) <==> false in joins[..n]
  {
    n > 0 && (JoinFailed(joins, n - 1) || !joins[n - 1])
  }

  lemma TakenNotYet(q: seq<Cell>, n: nat, before: seq<Event>)
    requires n + 1 < |q| && Distinct(q) && Untouched(q[1..], before)
    ensures var done := before + Reaped(Taken(q, n)); Joined(q[n + 1]) !in done && Freed(q[n + 1]) !in done
    ensures Freed(q[n + 1]) !in before + AllFreed(Taken(q, n))
  {
    ReapedOnly(Taken(q, n), q[n + 1]);
    assert q[1..][n] == q[n + 1];
  }

  /** slist_join_threads: joins and frees every node, each once and in order, and
      leaves the list empty. */
  method JoinThreads(runtime: Runtime, head: Cell, joins: seq<bool>, ghost q: seq<Cell>, ghost cells: set<Cell>)
    returns (isError: bool)
    requires ListIn(q, cells) && q[0] == head && |joins| == |q| - 1
    requires Untouched(q[1..], runtime.done)
    modifies cells, runtime
    ensures Slist([head])
    ensures runtime.done == old(runtime.done) + Reaped(Taken(q, |q| - 1))
    ensures isError <==> JoinFailed(joins, |joins|)
  {
    assert Emptied(q, 0) == q;
    ghost var before := runtime.done;
    isError := false;
    var n := 0;
    NextOf(q, 0);
    var node := head.next;
    while node != null
      invariant n < |q| && runtime.done == before + Reaped(Taken(q, n))
      invariant node == if n + 1 < |q| then q[n + 1] else null
      invariant ListIn(Emptied(q, n), cells)
      invariant isError <==> JoinFailed(joins, n)
      decreases |q| - n
    {
      ghost var list := Emptied(q, n);
      EmptiedStep(q, n);
      TakenStep(q, n);
      TakenNotYet(q, n, before);
      ReapedSnoc(before, Taken(q, n), node);
      NextOf(list, 1);
      var next := node.next;
      var joinError := Reap(runtime, head, node, joins[n], list, 1, Emptied(q, n + 1), cells);
      isError := isError || joinError;
      node := next;
      n := n + 1;
    }
    assert Emptied(q, n) == [head];
  }

  /** slist_free: frees every node, each once and in order. */
  method FreeAll(runtime: Runtime, head: Cell, ghost q: seq<Cell>, ghost cells: set<Cell>)
    requires ListIn(q, cells) && q[0] == head
    requires Untouched(q[1..], runtime.done)
    modifies cells, runtime
    ensures Slist([head])
    ensures runtime.done == old(runtime.done) + AllFreed(Taken(q, |q| - 1))
  {
    assert Emptied(q, 0) == q;
    ghost var before := runtime.done;
    ghost var n := 0;
    NextOf(q, 0);
    while head.next != null
      invariant n < |q| && runtime.done == before + AllFreed(Taken(q, n))
      invariant ListIn(Emptied(q, n), cells)
      invariant head.next == if n + 1 < |q| then q[n + 1] else null
      decreases |q| - n
    {
      ghost var list := Emptied(q, n);
      EmptiedStep(q, n);
      TakenStep(q, n);
      TakenNotYet(q, n, before);
      var tmp := head.next;
      FreedSnoc(before, Taken(q, n), tmp);
      RemoveAndFree(runtime, head, tmp, list, 1, Emptied(q, n + 1), cells);
      n := n + 1;
      NextOf(Emptied(q, n), 0);
    }
    assert Emptied(q, n) == [head];
  }
}
