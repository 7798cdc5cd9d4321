/** The sweep on an accept timeout, over every run: which nodes it keeps, which
    it joins and frees, and when it ends the server. */
module ServerSweep {
  import opened ThreadList
  import opened ServerModel
  import opened ServerLife
  import opened ServerIo
  import opened Server
  import opened ServerShutdown

  /** A node a sweep came to, and the status its worker had then. */
  datatype Visit = Visit(id: Id, status: ThreadStatus)

  /** The list a sweep began with, and what it has seen since. */
  datatype Sweep = Sweep(start: seq<Id>, seen: seq<Visit>)

  const NO_SWEEP := Sweep([], [])

  /** An observer beside the server: it starts over whenever main leaves accept,
      and notes every node main looks at. */
  ghost function Note(s: State, a: Action, sweep: Sweep): (r: Sweep) {
    if !a.MainStep? || Step(s, a).None? then sweep
    else if s.life.main == Accepting then Sweep(s.life.list, [])
    else if s.life.main.Sweeping? && s.life.main.todo != [] && s.life.main.todo[0] in s.workers then
      var id := s.life.main.todo[0];
      Sweep(sweep.start, sweep.seen + [Visit(id, s.workers[id].status)])
    else sweep
  }

  ghost function Watch(s: State, actions: seq<Action>, sweep: Sweep): (r: Sweep)
    decreases |actions|
  {
    if actions == [] then sweep
    else Watch(Next(s, actions[0]), actions[1..], Note(s, actions[0], sweep))
  }

  predicate IsUnfinished(status: ThreadStatus) {
    status == Uninitialized || status == Running
  }

  ghost function Ids(seen: seq<Visit>): (r: seq<Id>)
    ensures |r| == |seen| && forall k :: 0 <= k < |r| ==> r[k] == seen[k].id
  {
    seq(|seen|, k requires 0 <= k < |seen| => seen[k].id)
  }

  /** The nodes seen unfinished, in order. */
  ghost function Unfinished(seen: seq<Visit>): (r: seq<Id>) {
    if seen == [] then []
    else
      var last := seen[|seen| - 1];
      Unfinished(seen[..|seen| - 1]) + if IsUnfinished(last.status) then [last.id] else []
  }

  ghost predicate MetFailure(seen: seq<Visit>) {
    exists k :: 0 <= k < |seen| && seen[k].status == Failed
  }

  /** The first `n` nodes seen finished have been joined and freed. */
  ghost predicate Reaped(life: Life, seen: seq<Visit>, n: nat)
    requires n <= |seen|
  {
    forall k :: 0 <= k < n && !IsUnfinished(seen[k].status) ==> seen[k].id in life.joins && seen[k].id in life.frees
  }

  /** The accounts of a sweep at node `todo[0]`, or between two nodes. */
  ghost predicate SweepInv(life: Life, sweep: Sweep) {
    match life.main
    case Sweeping(todo, failed) =>
      && sweep.start == Ids(sweep.seen) + todo
      && life.list == Unfinished(sweep.seen) + todo
      && (failed <==> MetFailure(sweep.seen))
      && Reaped(life, sweep.seen, |sweep.seen|)
    case SweepJoining(todo, failed) => AtFinished(life, sweep, todo, failed)
    case SweepFreeing(todo, failed) => AtFinished(life, sweep, todo, failed) && todo[0] in life.joins
    case _ => true
  }

  /** The sweep has seen its current node finished. */
  ghost predicate AtFinished(life: Life, sweep: Sweep, todo: seq<Id>, failed: bool) {
    var last := |sweep.seen| - 1;
    && todo != [] && last >= 0
    && sweep.seen[last].id == todo[0] && !IsUnfinished(sweep.seen[last].status)
    && sweep.start == Ids(sweep.seen) + todo[1..]
    && life.list == Unfinished(sweep.seen) + todo
    && (failed <==> MetFailure(sweep.seen))
    && Reaped(life, sweep.seen, last)
  }

  lemma SeenSnoc(seen: seq<Visit>, visit: Visit, todo: seq<Id>)
    requires todo != [] && visit.id == todo[0]
    ensures Ids(seen + [visit]) + todo[1..] == Ids(seen) + todo
    ensures Unfinished(seen + [visit]) == Unfinished(seen) + if IsUnfinished(visit.status) then [visit.id] else []
    ensures Unfinished(seen) + todo == (Unfinished(seen) + [todo[0]]) + todo[1..]
    ensures MetFailure(seen + [visit]) <==> MetFailure(seen) || visit.status == Failed
  {
    assert (seen + [visit])[..|seen|] == seen;
    assert Ids(seen + [visit]) == Ids(seen) + [visit.id];
    assert todo == [todo[0]] + todo[1..];
    assert (seen + [visit])[|seen|] == visit;
    if MetFailure(seen) {
      var k :| 0 <= k < |seen| && seen[k].status == Failed;
      assert (seen + [visit])[k].status == Failed;
    }
  }

  lemma VisitKeeps(s: State, a: Action, sweep: Sweep)
    requires SweepInv(s.life, sweep) && s.life.main.Sweeping? && s.life.main.todo != []
    requires a.MainStep? && Step(s, a).Some?
    ensures SweepInv(Next(s, a).life, Note(s, a, sweep))
  {
    var todo := s.life.main.todo;
    SeenSnoc(sweep.seen, Visit(todo[0], s.workers[todo[0]].status), todo);
  }

  lemma FreeKeepsSweep(s: State, a: Action, sweep: Sweep)
    requires SweepInv(s.life, sweep) && s.life.main.SweepFreeing? && NoDup(s.life.list)
    requires a.MainStep? && Step(s, a).Some?
    ensures SweepInv(Next(s, a).life, Note(s, a, sweep))
  {
    var todo, kept := s.life.main.todo, Unfinished(sweep.seen);
    assert s.life.list[|kept|] == todo[0];
    WithoutIs(s.life.list, |kept|);
    assert (kept + todo)[..|kept|] + (kept + todo)[|kept| + 1..] == kept + todo[1..];
  }

  lemma BeginKeepsSweep(s: State, a: Action, sweep: Sweep)
    requires s.life.main == Accepting && a.MainStep? && Step(s, a).Some?
    ensures SweepInv(Next(s, a).life, Note(s, a, sweep))
  {
    assert Ids([]) + s.life.list == s.life.list;
    assert Unfinished([]) + s.life.list == s.life.list;
  }

  lemma JoinKeepsSweep(s: State, a: Action, sweep: Sweep)
    requires SweepInv(s.life, sweep) && s.life.main.SweepJoining? && a.MainStep? && Step(s, a).Some?
    ensures SweepInv(Next(s, a).life, Note(s, a, sweep))
  {
  }

  predicate InSweep(main: MainPc) {
    main.Sweeping? || main.SweepJoining? || main.SweepFreeing?
  }

  lemma OnlyAcceptBegins(s: State, accept: AcceptResult, ok: bool)
    requires StepMain(s, accept, ok).Some? && s.life.main != Accepting
    requires !InSweep(s.life.main) || s.life.main == Sweeping([], s.life.main.failed)
    ensures !InSweep(StepMain(s, accept, ok).value.life.main)
  {
  }

  lemma MainKeepsSweep(s: State, a: Action, sweep: Sweep)
    requires NoDup(s.life.list) && SweepInv(s.life, sweep) && a.MainStep? && Step(s, a).Some?
    ensures SweepInv(Next(s, a).life, Note(s, a, sweep))
  {
    if s.life.main == Accepting {
      BeginKeepsSweep(s, a, sweep);
    } else if s.life.main.Sweeping? && s.life.main.todo != [] {
      VisitKeeps(s, a, sweep);
    } else if s.life.main.SweepJoining? {
      JoinKeepsSweep(s, a, sweep);
    } else if s.life.main.SweepFreeing? {
      FreeKeepsSweep(s, a, sweep);
    } else {
      OnlyAcceptBegins(s, a.accept, a.ok);
    }
  }

  lemma NextKeepsSweep(s: State, a: Action, sweep: Sweep)
    requires NoDup(s.life.list) && SweepInv(s.life, sweep)
    ensures SweepInv(Next(s, a).life, Note(s, a, sweep))
  {
    if !a.MainStep? {
      OthersLeaveMain(s, a);
    } else if Step(s, a).Some? {
      MainKeepsSweep(s, a, sweep);
    }
  }

  lemma {:induction false} RunKeepsSweep(s: State, actions: seq<Action>, sweep: Sweep)
    requires Inv(s) && SweepInv(s.life, sweep)
    ensures SweepInv(Run(s, actions).life, Watch(s, actions, sweep))
    decreases |actions|
  {
    if actions != [] {
      NextKeepsSweep(s, actions[0], sweep);
      NextKeeps(s, actions[0]);
      RunKeepsSweep(Next(s, actions[0]), actions[1..], Note(s, actions[0], sweep));
    }
  }

  /** A sweep that has come to its end has seen every node of the list it began
      with, in order; the list is now those it saw unfinished, in order; each of
      the others has been joined once and freed once; and it ends the server
      exactly when it saw a failed worker. */
  ghost predicate SweepRight(s: State, sweep: Sweep) {
    && sweep.start == Ids(sweep.seen)
    && s.life.list == Unfinished(sweep.seen)
    && (forall k :: 0 <= k < |sweep.seen| && !IsUnfinished(sweep.seen[k].status) ==>
          s.life.joins[sweep.seen[k].id] == 1 && s.life.frees[sweep.seen[k].id] == 1)
    && (!s.shut.terminated ==>
          forall accept, ok :: StepMain(s, accept, ok).Some?
            && (StepMain(s, accept, ok).value.shut.terminated <==> MetFailure(sweep.seen)))
  }

  lemma EndedRight(s: State, sweep: Sweep)
    requires NodesInv(s.life) && JoinsInv(s.life, s.workers) && SweepInv(s.life, sweep)
    requires s.life.main.Sweeping? && s.life.main.todo == []
    ensures SweepRight(s, sweep)
  {
    assert Ids(sweep.seen) + [] == Ids(sweep.seen);
    assert Unfinished(sweep.seen) + [] == Unfinished(sweep.seen);
    forall k | 0 <= k < |sweep.seen| && !IsUnfinished(sweep.seen[k].status)
      ensures s.life.joins[sweep.seen[k].id] == 1 && s.life.frees[sweep.seen[k].id] == 1
    {
      assert sweep.seen[k].id in s.life.joins && sweep.seen[k].id in s.life.frees;
    }
  }

  lemma ReachedSweep(store: Store, actions: seq<Action>)
    ensures SweepInv(Run(Initial(store), actions).life, Watch(Initial(store), actions, NO_SWEEP))
    ensures Inv(Run(Initial(store), actions))
  {
    InitialInv(store);
    RunKeeps(Initial(store), actions);
    RunKeepsSweep(Initial(store), actions, NO_SWEEP);
  }

  lemma EndedSweepRight(s: State, sweep: Sweep)
    requires Inv(s) && SweepInv(s.life, sweep) && s.life.main.Sweeping? && s.life.main.todo == []
    ensures SweepRight(s, sweep)
  {
    EndedRight(s, sweep);
  }

  /** In every run from start-up every sweep that comes to its end is right. */
  lemma SweepsAreRight(store: Store, actions: seq<Action>)
    ensures var s := Run(Initial(store), actions);
      s.life.main.Sweeping? && s.life.main.todo == [] ==> SweepRight(s, Watch(Initial(store), actions, NO_SWEEP))
  {
    var s := Run(Initial(store), actions);
    ReachedSweep(store, actions);
    if s.life.main.Sweeping? && s.life.main.todo == [] {
      EndedSweepRight(s, Watch(Initial(store), actions, NO_SWEEP));
    }
  }

  /** Midway too a sweep carries an error exactly when it has seen a failed worker. */
  lemma SweepCarries(store: Store, actions: seq<Action>)
    ensures var s, sweep := Run(Initial(store), actions), Watch(Initial(store), actions, NO_SWEEP);
      InSweep(s.life.main) ==> (s.life.main.failed <==> MetFailure(sweep.seen))
  {
    ReachedSweep(store, actions);
  }

  /** In every run main sets the flag exactly when accept fails, a thread cannot be
      created, or a sweep ends that has seen a failed worker. */
  lemma FlagSetIff(store: Store, actions: seq<Action>, accept: AcceptResult, ok: bool)
    ensures var s, sweep := Run(Initial(store), actions), Watch(Initial(store), actions, NO_SWEEP);
      !s.shut.terminated && StepMain(s, accept, ok).Some? ==>
        (StepMain(s, accept, ok).value.shut.terminated <==>
           || (s.life.main == Accepting && accept == AcceptFailed)
           || (s.life.main.Spawning? && !ok)
           || (s.life.main.Sweeping? && s.life.main.todo == [] && MetFailure(sweep.seen)))
  {
    var s := Run(Initial(store), actions);
    SweepCarries(store, actions);
    if !s.shut.terminated && StepMain(s, accept, ok).Some? {
      MainSetsFlag(s, accept, ok);
    }
  }

  // ----- The order of the list -----

  ghost predicate Descending(list: seq<Id>) {
    forall i, j :: 0 <= i < j < |list| ==> list[i] > list[j]
  }

  /** Newer than every listed node: the one main is about to link, or the next. */
  function NewerThanListed(life: Life): (id: Id) {
    if life.main.Spawning? || life.main.Linking? then life.main.node else life.next
  }

  /** The newest node is in front. */
  ghost predicate NewestFirst(life: Life) {
    && Descending(life.list)
    && (forall id: Id :: id in life.list ==> id < NewerThanListed(life))
    && (life.main.Spawning? || life.main.Linking? ==> life.main.node < life.next)
  }

  lemma InFrontDescends(id: Id, rest: seq<Id>)
    requires Descending(rest) && forall x: Id :: x in rest ==> x < id
    ensures Descending([id] + rest)
  {
    var all := [id] + rest;
    forall i, j | 0 <= i < j < |all|
      ensures all[i] > all[j]
    {
      assert all[j] in rest;
    }
  }

  lemma TailDescends(list: seq<Id>)
    requires Descending(list) && list != []
    ensures Descending(list[1..]) && forall x: Id :: x in list[1..] ==> x < list[0] && x in list
  {
    forall x | x in list[1..]
      ensures x < list[0] && x in list
    {
      var k :| 0 <= k < |list| - 1 && list[1..][k] == x;
      assert list[k + 1] == x;
    }
  }

  lemma {:induction false} WithoutDescends(list: seq<Id>, id: Id)
    requires Descending(list)
    ensures Descending(Without(list, id)) && forall x: Id :: x in Without(list, id) ==> x in list
  {
    if list != [] {
      TailDescends(list);
      if list[0] != id {
        WithoutDescends(list[1..], id);
        InFrontDescends(list[0], Without(list[1..], id));
      }
    }
  }

  /** How main changes the list and its newest node. */
  lemma ListEffect(s: State, accept: AcceptResult, ok: bool)
    requires StepMain(s, accept, ok).Some?
    ensures var life, after := s.life, StepMain(s, accept, ok).value.life;
      && after.list == (match life.main
           case Linking(id) => [id] + life.list
           case SweepFreeing(todo, _) => Without(life.list, todo[0])
           case JoinFreeing(todo) => Without(life.list, todo[0])
           case Draining => if life.list == [] then [] else life.list[1..]
           case _ => life.list)
      && life.next <= after.next
      && (after.main.Spawning? ==> after.main.node == life.next < after.next && life.main == Accepting)
      && (after.main.Linking? ==> life.main == Spawning(after.main.node))
  {
  }

  lemma ListKeepsOrder(s: State, accept: AcceptResult, ok: bool)
    requires StepMain(s, accept, ok).Some? && NewestFirst(s.life)
    ensures var after := StepMain(s, accept, ok).value.life.list;
      && Descending(after)
      && forall x: Id :: x in after ==> x in s.life.list || (s.life.main == Linking(x) && after[0] == x)
  {
    ListEffect(s, accept, ok);
    if s.life.main.SweepFreeing? || s.life.main.JoinFreeing? {
      WithoutDescends(s.life.list, Todo(s.life.main)[0]);
    } else if s.life.main.Linking? {
      InFrontDescends(s.life.main.node, s.life.list);
    } else if s.life.main.Draining? && s.life.list != [] {
      TailDescends(s.life.list);
    }
  }

  lemma NextKeepsOrder(s: State, a: Action)
    requires NewestFirst(s.life)
    ensures NewestFirst(Next(s, a).life)
  {
    if !a.MainStep? {
      OthersLeaveMain(s, a);
    } else if Step(s, a).Some? {
      ListEffect(s, a.accept, a.ok);
      ListKeepsOrder(s, a.accept, a.ok);
    }
  }

  /** In every run the list is what inserting at its head makes it. */
  lemma {:induction false} RunKeepsOrder(s: State, actions: seq<Action>)
    requires NewestFirst(s.life)
    ensures NewestFirst(Run(s, actions).life)
    decreases |actions|
  {
    if actions != [] {
      NextKeepsOrder(s, actions[0]);
      RunKeepsOrder(Next(s, actions[0]), actions[1..]);
    }
  }
}
