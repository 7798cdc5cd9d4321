/** Nodes and threads: what is allocated, joined and freed over every run. */
module ServerLife {
  import opened ThreadList
  import opened ServerModel

  ghost predicate NoDup(s: seq<Id>) {
    forall i, j :: 0 <= i < j < |s| ==> s[i] != s[j]
  }

  ghost predicate IsTail(todo: seq<Id>, list: seq<Id>) {
    |todo| <= |list| && list[|list| - |todo|..] == todo
  }

  /** The node main holds outside the list. */
  ghost function Pending(main: MainPc): set<Id> {
    match main
    case Spawning(id) => {id}
    case Linking(id) => {id}
    case _ => {}
  }

  /** The node whose thread main has joined and that it is about to free. */
  ghost function Condemned(main: MainPc): set<Id> {
    match main
    case SweepFreeing(todo, _) => if todo == [] then {} else {todo[0]}
    case JoinFreeing(todo) => if todo == [] then {} else {todo[0]}
    case _ => {}
  }

  /** A node ever allocated is either allocated still, in the list or pending,
      or it has been freed exactly once. */
  ghost predicate NodesInv(life: Life) {
    && NoDup(life.list)
    && (forall id: Id :: id in life.nodes ==> id < life.next)
    && (forall id: Id :: life.frees[id] == if id < life.next && id !in life.nodes then 1 else 0)
    && (forall id: Id :: id in life.nodes <==> id in life.list || id in Pending(life.main))
    && (forall id: Id :: id in Pending(life.main) ==> id !in life.list)
  }

  /** A worker has been joined exactly once if its node was freed or is just
      about to be, and else not at all; and a joined worker has exited. */
  ghost predicate JoinsInv(life: Life, workers: map<Id, Worker>) {
    && (forall id: Id :: id in workers ==> id < life.next)
    && (forall id: Id :: id in life.list ==> id in workers)
    && (life.main.Linking? ==> life.main.node in workers)
    && (life.main.Spawning? ==> life.main.node !in workers)
    && (forall id: Id :: life.joins[id] == if id in workers && (id !in life.nodes || id in Condemned(life.main)) then 1 else 0)
    && (forall id: Id :: id in life.joins ==> workers[id].pc == Exited)
  }

  /** The walks work on the end of the list, and shutdown on all of it. */
  ghost predicate WalkInv(life: Life) {
    && IsTail(Todo(life.main), life.list)
    && (life.main.SweepJoining? || life.main.SweepFreeing? || life.main.JoinFreeing? ==> Todo(life.main) != [])
    && (life.main.Joining? || life.main.JoinFreeing? ==> Todo(life.main) == life.list)
    && (life.main.Draining? || life.main.Done? ==> life.list == [])
  }

  ghost predicate LifeInv(life: Life, workers: map<Id, Worker>) {
    NodesInv(life) && JoinsInv(life, workers) && WalkInv(life)
  }

  /** A worker no longer reads or writes its node. */
  predicate LetGo(pc: WorkerPc) {
    pc == Exiting || pc == Exited
  }

  lemma {:induction false} WithoutIs(list: seq<Id>, i: nat)
    requires NoDup(list) && i < |list|
    ensures Without(list, list[i]) == list[..i] + list[i + 1..]
  {
    if i > 0 {
      assert list[1..][i - 1] == list[i];
      WithoutIs(list[1..], i - 1);
      assert [list[0]] + list[1..][..i - 1] == list[..i];
    }
  }

  /** `rest` is the list without `id`. */
  ghost predicate IsRest(rest: seq<Id>, list: seq<Id>, id: Id) {
    NoDup(rest) && id in list && forall x: Id :: x in rest <==> x in list && x != id
  }

  lemma CutIsRest(list: seq<Id>, at: nat)
    requires NoDup(list) && at < |list|
    ensures IsRest(list[..at] + list[at + 1..], list, list[at])
  {
    var rest := list[..at] + list[at + 1..];
    assert forall k :: 0 <= k < |rest| ==> rest[k] == list[if k < at then k else k + 1];
    forall x | x in list && x != list[at]
      ensures x in rest
    {
      var k :| 0 <= k < |list| && list[k] == x;
      assert rest[if k < at then k else k - 1] == x;
    }
  }

  /** Taking out the node a walk is at. */
  lemma WithoutHead(list: seq<Id>, todo: seq<Id>)
    requires NoDup(list) && todo != [] && IsTail(todo, list)
    ensures var rest := Without(list, todo[0]);
      && IsRest(rest, list, todo[0]) && IsTail(todo[1..], rest)
      && (todo == list ==> rest == todo[1..])
  {
    var at := |list| - |todo|;
    assert list[at] == todo[0];
    WithoutIs(list, at);
    CutIsRest(list, at);
    assert list[at + 1..] == todo[1..];
  }

  lemma WithoutShorter(list: seq<Id>, todo: seq<Id>)
    requires NoDup(list) && todo != [] && IsTail(todo, list)
    ensures |Without(list, todo[0])| == |list| - 1
  {
    var at := |list| - |todo|;
    assert list[at] == todo[0];
    WithoutIs(list, at);
  }

  lemma TailStep(todo: seq<Id>, list: seq<Id>)
    requires todo != [] && IsTail(todo, list)
    ensures IsTail(todo[1..], list) && todo[0] in list
  {
    assert list[|list| - |todo|] == todo[0];
  }

  lemma DefinedFromInv(s: State)
    requires LifeInv(s.life, s.workers)
    ensures Todo(s.life.main) != [] ==> Todo(s.life.main)[0] in s.workers
  {
    if Todo(s.life.main) != [] {
      TailStep(Todo(s.life.main), s.life.list);
    }
  }

  /** Walking on without touching a node. */
  lemma WalkKeeps(life: Life, workers: map<Id, Worker>, main: MainPc)
    requires LifeInv(life, workers) && WalkInv(life.(main := main))
    requires Pending(life.main) == {} == Pending(main) && Condemned(life.main) == {} == Condemned(main)
    requires !main.Linking? && !main.Spawning?
    ensures LifeInv(life.(main := main), workers)
  {
  }

  /** The thread of a listed node that has exited is joined, for the first time. */
  lemma JoinKeeps(life: Life, workers: map<Id, Worker>, main: MainPc)
    requires LifeInv(life, workers) && Todo(life.main) != [] && Todo(main) == Todo(life.main)
    requires Pending(life.main) == {} == Pending(main) && Condemned(life.main) == {}
    requires Condemned(main) == {Todo(main)[0]} && WalkInv(life.(main := main))
    requires Todo(main)[0] in workers && workers[Todo(main)[0]].pc == Exited
    ensures LifeInv(life.(main := main, joins := life.joins + multiset{Todo(main)[0]}), workers)
  {
    TailStep(Todo(main), life.list);
  }

  lemma FreeKeepsNodes(life: Life, id: Id, rest: seq<Id>, main: MainPc)
    requires NodesInv(life) && IsRest(rest, life.list, id)
    requires Pending(life.main) == {} == Pending(main)
    ensures NodesInv(FreeNode(life, id).(main := main, list := rest))
  {
  }

  lemma FreeKeepsJoins(life: Life, workers: map<Id, Worker>, id: Id, rest: seq<Id>, main: MainPc)
    requires JoinsInv(life, workers) && IsRest(rest, life.list, id)
    requires Condemned(life.main) == {id} && Condemned(main) == {} && !main.Linking? && !main.Spawning?
    ensures JoinsInv(FreeNode(life, id).(main := main, list := rest), workers)
  {
  }

  lemma FreeKeepsWalk(life: Life, id: Id, rest: seq<Id>, main: MainPc)
    requires IsTail(Todo(main), rest) && (main.Sweeping? || (main.Joining? && Todo(main) == rest))
    ensures WalkInv(FreeNode(life, id).(main := main, list := rest))
  {
  }

  /** The condemned node leaves the list and is freed, for the first time. */
  lemma FreeKeeps(life: Life, workers: map<Id, Worker>, id: Id, rest: seq<Id>, main: MainPc)
    requires LifeInv(life, workers) && IsRest(rest, life.list, id)
    requires Pending(life.main) == {} && Condemned(life.main) == {id}
    requires IsTail(Todo(main), rest) && (main.Sweeping? || (main.Joining? && Todo(main) == rest))
    ensures LifeInv(FreeNode(life, id).(main := main, list := rest), workers)
  {
    FreeKeepsNodes(life, id, rest, main);
    FreeKeepsJoins(life, workers, id, rest, main);
    FreeKeepsWalk(life, id, rest, main);
  }

  /** A connection allocates a node nobody had before. */
  lemma AllocateKeeps(life: Life, workers: map<Id, Worker>)
    requires LifeInv(life, workers) && life.main == Accepting
    ensures LifeInv(life.(main := Spawning(life.next), nodes := life.nodes + {life.next}, next := life.next + 1), workers)
  {
    assert life.next !in life.nodes;
    assert life.next !in life.list;
  }

  lemma CreateKeeps(life: Life, workers: map<Id, Worker>, id: Id)
    requires LifeInv(life, workers) && life.main == Spawning(id)
    ensures LifeInv(life.(main := Linking(id)), workers[id := NEW_WORKER])
  {
    assert id in Pending(life.main) && id in life.nodes;
  }

  lemma CreateFailedKeeps(life: Life, workers: map<Id, Worker>, id: Id)
    requires LifeInv(life, workers) && life.main == Spawning(id)
    ensures LifeInv(FreeNode(life, id).(main := LoopHead), workers)
  {
    assert id in Pending(life.main) && id in life.nodes;
  }

  lemma LinkKeeps(life: Life, workers: map<Id, Worker>, id: Id)
    requires LifeInv(life, workers) && life.main == Linking(id)
    ensures LifeInv(life.(main := LoopHead, list := [id] + life.list), workers)
  {
    assert id in Pending(life.main);
    assert forall x: Id :: x in [id] + life.list <==> x == id || x in life.list;
  }

  predicate InAcceptLoop(main: MainPc) {
    main.LoopHead? || main.Accepting? || main.Spawning? || main.Linking?
  }

  lemma AcceptKeepsLife(s: State, accept: AcceptResult, ok: bool)
    requires LifeInv(s.life, s.workers) && StepMain(s, accept, ok).Some?
    requires InAcceptLoop(s.life.main)
    ensures var s' := StepMain(s, accept, ok).value; LifeInv(s'.life, s'.workers)
  {
    var life, workers := s.life, s.workers;
    var main := StepMain(s, accept, ok).value.life.main;
    match life.main
    case LoopHead => WalkKeeps(life, workers, main);
    case Accepting => if accept == Connected { AllocateKeeps(life, workers); } else { WalkKeeps(life, workers, main); }
    case Spawning(id) => if ok { CreateKeeps(life, workers, id); } else { CreateFailedKeeps(life, workers, id); }
    case Linking(id) => LinkKeeps(life, workers, id);
  }

  lemma VisitKeepsLife(s: State, accept: AcceptResult, ok: bool)
    requires LifeInv(s.life, s.workers) && StepMain(s, accept, ok).Some?
    requires s.life.main.Sweeping?
    ensures var s' := StepMain(s, accept, ok).value; LifeInv(s'.life, s'.workers)
  {
    if s.life.main.todo != [] {
      TailStep(s.life.main.todo, s.life.list);
    }
    WalkKeeps(s.life, s.workers, StepMain(s, accept, ok).value.life.main);
  }

  lemma SweepJoinKeepsLife(s: State, accept: AcceptResult, ok: bool)
    requires LifeInv(s.life, s.workers) && StepMain(s, accept, ok).Some?
    requires s.life.main.SweepJoining?
    ensures var s' := StepMain(s, accept, ok).value; LifeInv(s'.life, s'.workers)
  {
    JoinKeeps(s.life, s.workers, SweepFreeing(s.life.main.todo, s.life.main.failed));
  }

  lemma SweepFreeKeepsLife(s: State, accept: AcceptResult, ok: bool)
    requires LifeInv(s.life, s.workers) && StepMain(s, accept, ok).Some?
    requires s.life.main.SweepFreeing?
    ensures var s' := StepMain(s, accept, ok).value; LifeInv(s'.life, s'.workers)
  {
    var todo := s.life.main.todo;
    WithoutHead(s.life.list, todo);
    FreeKeeps(s.life, s.workers, todo[0], Without(s.life.list, todo[0]), Sweeping(todo[1..], s.life.main.failed));
  }

  lemma JoinStepKeepsLife(s: State, accept: AcceptResult, ok: bool)
    requires LifeInv(s.life, s.workers) && StepMain(s, accept, ok).Some?
    requires s.life.main.Joining?
    ensures var s' := StepMain(s, accept, ok).value; LifeInv(s'.life, s'.workers)
  {
    var main := StepMain(s, accept, ok).value.life.main;
    if s.life.main.todo == [] {
      WalkKeeps(s.life, s.workers, main);
    } else {
      JoinKeeps(s.life, s.workers, main);
    }
  }

  lemma EndKeepsLife(s: State, accept: AcceptResult, ok: bool)
    requires LifeInv(s.life, s.workers) && StepMain(s, accept, ok).Some?
    requires s.life.main.JoinFreeing? || s.life.main.Draining?
    ensures var s' := StepMain(s, accept, ok).value; LifeInv(s'.life, s'.workers)
  {
    var main := StepMain(s, accept, ok).value.life.main;
    if s.life.main.JoinFreeing? {
      var todo := Todo(s.life.main);
      WithoutHead(s.life.list, todo);
      FreeKeeps(s.life, s.workers, todo[0], Without(s.life.list, todo[0]), main);
    } else {
      WalkKeeps(s.life, s.workers, main);
    }
  }

  /** Main's steps keep the accounts. */
  lemma MainKeepsLife(s: State, accept: AcceptResult, ok: bool)
    requires LifeInv(s.life, s.workers) && StepMain(s, accept, ok).Some?
    ensures var s' := StepMain(s, accept, ok).value; LifeInv(s'.life, s'.workers)
  {
    if InAcceptLoop(s.life.main) {
      AcceptKeepsLife(s, accept, ok);
    } else if s.life.main.Sweeping? {
      VisitKeepsLife(s, accept, ok);
    } else if s.life.main.SweepJoining? {
      SweepJoinKeepsLife(s, accept, ok);
    } else if s.life.main.SweepFreeing? {
      SweepFreeKeepsLife(s, accept, ok);
    } else if s.life.main.Joining? {
      JoinStepKeepsLife(s, accept, ok);
    } else {
      EndKeepsLife(s, accept, ok);
    }
  }

  /** A worker's own step never undoes its exit, so the accounts stand. */
  lemma WorkerKeepsLife(s: State, id: Id, answer: Answer)
    requires LifeInv(s.life, s.workers) && StepWorker(s, id, answer).Some?
    ensures var s' := StepWorker(s, id, answer).value; LifeInv(s'.life, s'.workers)
  {
    var s' := StepWorker(s, id, answer).value;
    assert s.workers[id].pc != Exited;
    assert JoinsInv(s'.life, s'.workers);
  }

  /** Nothing is used after it is freed: a worker that may still touch its node
      has it allocated, and so do main's list and the node main is working on. */
  lemma NoUseAfterFree(s: State)
    requires LifeInv(s.life, s.workers)
    ensures forall id: Id :: id in s.workers && !LetGo(s.workers[id].pc) ==> id in s.life.nodes
    ensures forall id: Id :: id in s.life.list ==> id in s.life.nodes
    ensures forall id: Id :: id in Todo(s.life.main) ==> id in s.life.nodes
  {
    forall id: Id | id in s.workers && id !in s.life.nodes
      ensures s.workers[id].pc == Exited
    {
      assert s.life.joins[id] == 1;
    }
    var todo, list := Todo(s.life.main), s.life.list;
    forall id: Id | id in todo
      ensures id in list
    {
      var k :| 0 <= k < |todo| && todo[k] == id;
      assert list[|list| - |todo| + k] == id;
    }
  }

  /** When the application has ended every thread has been joined exactly once
      and every node ever allocated freed exactly once. */
  lemma AllSettled(life: Life, workers: map<Id, Worker>)
    requires LifeInv(life, workers) && life.main == Done
    ensures forall id: Id :: id !in life.nodes
    ensures forall id: Id :: life.frees[id] == if id < life.next then 1 else 0
    ensures forall id: Id :: life.joins[id] == if id in workers then 1 else 0
    ensures forall id: Id :: id in workers ==> workers[id].pc == Exited
  {
    forall id: Id
      ensures id !in life.nodes
    {
      assert life.list == [] && Pending(life.main) == {};
      assert id in life.nodes <==> id in life.list || id in Pending(life.main);
    }
    forall id: Id | id in workers
      ensures workers[id].pc == Exited
    {
      assert life.joins[id] == 1;
    }
  }
}
