/** The whole server: its invariant over every run, and what follows. */
module Server {
  import opened Bytes
  import opened ServerConfig
  import opened ServerModel
  import opened ServerLife
  import opened ServerIo
  import opened ServerStatus
  import RecordLog
  import Reads

  /** Once some handler has finished, the logger is on its way out or has a
      wake-up waiting: a handler sets the flag before it posts. */
  ghost predicate ShutdownInv(shut: Shutdown) {
    && (shut.posted > 0 || shut.handlers > 0 ==> shut.terminated)
    && (shut.posted > 0 ==> shut.logger == Checking || shut.logger == Stopped || shut.sem > 0)
  }

  ghost predicate Inv(s: State) {
    && LifeInv(s.life, s.workers) && StatusInv(s.life, s.workers)
    && IoInv(s.io, s.workers, s.shut.logger) && ShutdownInv(s.shut)
  }

  lemma InvDefines(s: State)
    requires Inv(s)
    ensures Defined(s)
  {
    DefinedFromInv(s);
    forall id: Id | id in s.workers && s.workers[id].pc.Receiving?
      ensures s.io.sections != []
    {
      assert SectionInv(s.workers[id], id, s.io.sections);
    }
  }

  /** Main starts workers and may set the flag; it touches nothing else of the others'. */
  lemma MainEffect(s: State, accept: AcceptResult, ok: bool)
    requires StepMain(s, accept, ok).Some?
    ensures var s' := StepMain(s, accept, ok).value;
      && s'.io == s.io
      && s'.shut == s.shut.(terminated := s'.shut.terminated) && (s.shut.terminated ==> s'.shut.terminated)
      && s'.workers == if s.life.main.Spawning? && ok then s.workers[s.life.main.node := NEW_WORKER] else s.workers
  {
  }

  lemma MainKeeps(s: State, accept: AcceptResult, ok: bool)
    requires Inv(s) && StepMain(s, accept, ok).Some?
    ensures Inv(StepMain(s, accept, ok).value)
  {
    MainKeepsLife(s, accept, ok);
    MainKeepsStatus(s, accept, ok);
    MainEffect(s, accept, ok);
    if s.life.main.Spawning? && ok {
      NewWorkerKeepsIo(s.io, s.workers, s.shut.logger, s.life.main.node);
    }
  }

  lemma LoggerKeepsShutdown(s: State, line: string, ok: bool)
    requires ShutdownInv(s.shut) && StepLogger(s, line, ok).Some?
    ensures ShutdownInv(StepLogger(s, line, ok).value.shut)
  {
  }

  lemma LoggerEffect(s: State, line: string, ok: bool)
    requires StepLogger(s, line, ok).Some?
    ensures var s' := StepLogger(s, line, ok).value; s'.life == s.life && s'.workers == s.workers
  {
  }

  lemma LoggerKeeps(s: State, line: string, ok: bool)
    requires Inv(s) && StepLogger(s, line, ok).Some?
    ensures Inv(StepLogger(s, line, ok).value)
  {
    LoggerKeepsIo(s, line, ok);
    LoggerKeepsShutdown(s, line, ok);
    LoggerEffect(s, line, ok);
  }

  lemma WorkerKeeps(s: State, id: Id, answer: Answer)
    requires Inv(s) && StepWorker(s, id, answer).Some?
    ensures Inv(StepWorker(s, id, answer).value)
  {
    WorkerKeepsLife(s, id, answer);
    WorkerKeepsStatus(s, id, answer);
    WorkerKeepsIo(s, id, answer);
    assert StepWorker(s, id, answer).value.shut == s.shut;
  }

  /** Every step of every thread, signal, tick and client keeps the invariant. */
  lemma StepKeeps(s: State, a: Action)
    requires Inv(s) && Step(s, a).Some?
    ensures Inv(Step(s, a).value)
  {
    match a
    case MainStep(accept, ok) => MainKeeps(s, accept, ok);
    case WorkerStep(id, answer) => WorkerKeeps(s, id, answer);
    case LoggerStep(line, ok) => LoggerKeeps(s, line, ok);
    case _ => assert Step(s, a).value.(shut := s.shut, silent := s.silent) == s;
  }

  lemma InitialLife(life: Life)
    requires life == Life(LoopHead, [], {}, 0, multiset{}, multiset{})
    ensures LifeInv(life, map[])
  {
  }

  lemma InitialIo(store: Store)
    ensures IoInv(Initial(store).io, map[], Waiting)
  {
    var section := Section(Logger, History(store));
    NewSection([], section);
    assert [] + [section] == Initial(store).io.sections;
  }

  lemma InitialInv(store: Store)
    ensures Inv(Initial(store))
  {
    InitialLife(Initial(store).life);
    InitialIo(store);
  }

  /** A run: the actions happen one after another, in any interleaving; an
      action that is not possible when its turn comes does nothing. */
  function Run(s: State, actions: seq<Action>): (r: State)
    decreases |actions|
  {
    if actions == [] then s
    else Run(Next(s, actions[0]), actions[1..])
  }

  function Next(s: State, a: Action): (r: State) {
    var next := Step(s, a);
    if next.None? then s else next.value
  }

  lemma NextKeeps(s: State, a: Action)
    requires Inv(s)
    ensures Inv(Next(s, a))
  {
    if Step(s, a).Some? {
      StepKeeps(s, a);
    }
  }

  lemma {:induction false} RunKeeps(s: State, actions: seq<Action>)
    requires Inv(s)
    ensures Inv(Run(s, actions))
    decreases |actions|
  {
    if actions != [] {
      NextKeeps(s, actions[0]);
      RunKeeps(Next(s, actions[0]), actions[1..]);
    }
  }

  lemma {:induction false} RunConcat(s: State, a: seq<Action>, b: seq<Action>)
    ensures Run(s, a + b) == Run(Run(s, a), b)
    decreases |a|
  {
    if a == [] {
      assert a + b == b;
    } else {
      assert (a + b)[1..] == a[1..] + b;
      RunConcat(Next(s, a[0]), a[1..], b);
    }
  }

  // ----- Nodes and threads -----

  /** No thread and no walk uses a freed node, no node has been freed twice, no
      thread joined twice, and a thread main is about to join was created and
      has not been joined before. */
  ghost predicate MemorySafe(s: State) {
    && (forall id: Id :: id in s.workers && !LetGo(s.workers[id].pc) ==> id in s.life.nodes)
    && (forall id: Id :: id in s.life.list || id in Todo(s.life.main) ==> id in s.life.nodes)
    && (forall id: Id :: s.life.frees[id] <= 1 && s.life.joins[id] <= 1)
    && ((s.life.main.SweepJoining? || s.life.main.Joining?) && Todo(s.life.main) != [] ==>
          Todo(s.life.main)[0] in s.workers && s.life.joins[Todo(s.life.main)[0]] == 0)
  }

  /** Every thread created has exited and been joined exactly once, and every
      node ever allocated has been freed exactly once. */
  ghost predicate Settled(s: State) {
    && (forall id: Id :: s.life.frees[id] == if id < s.life.next then 1 else 0)
    && (forall id: Id :: s.life.joins[id] == if id in s.workers then 1 else 0)
    && (forall id: Id :: id in s.workers ==> s.workers[id].pc == Exited)
  }

  lemma InvIsSafe(s: State)
    requires Inv(s)
    ensures MemorySafe(s)
    ensures s.life.main == Done ==> Settled(s)
  {
    NoUseAfterFree(s);
    if Todo(s.life.main) != [] {
      TailStep(Todo(s.life.main), s.life.list);
    }
    if s.life.main == Done {
      AllSettled(s.life, s.workers);
    }
  }

  /** In every run from start-up the server is memory safe at the moment the run
      has reached, and settled if the application has ended. */
  lemma RunsAreSafe(store: Store, actions: seq<Action>)
    ensures MemorySafe(Run(Initial(store), actions))
    ensures Run(Initial(store), actions).life.main == Done ==> Settled(Run(Initial(store), actions))
  {
    InitialInv(store);
    RunKeeps(Initial(store), actions);
    InvIsSafe(Run(Initial(store), actions));
  }

  // ----- Clients -----

  /** What a client got into the file is one block of the history, right after
      what those before it put there; and when it is being answered, or has been,
      that block is its complete message. */
  ghost predicate MessageInPlace(w: Worker, io: Io) {
    && (HasSection(w.pc) ==> w.section < |io.sections| && IsPrefix(Earlier(io, w.section) + w.got, History(io.store)))
    && (w.pc.Receiving? ==> FullBuffers(w.chunks) && w.got == Flatten(w.chunks))
    && (Answering(w) ==> EndsShort(w.chunks) && w.got == Flatten(w.chunks))
  }

  /** A complete plain-file reply is the whole file at one instant, a prefix of
      the history, with the client's own block where the history has it. */
  ghost predicate FileReplyRight(w: Worker, io: Io) {
    && w.snapshot.File? && w.reply == History(w.snapshot) && IsPrefix(w.reply, History(io.store))
    && w.section < |io.sections| && IsPrefix(Earlier(io, w.section) + w.got, w.reply)
  }

  /** A complete device reply is the last ten records at one instant, the stretch
      of the history before what was then staged, with the client's own block in
      it when that lies inside the stretch; it needs records that fit the buffer. */
  ghost predicate DeviceReplyRight(w: Worker, io: Io) {
    && w.snapshot.Device? && w.section < |io.sections|
    && (Reads.Fit(RecordLog.Visible(w.snapshot.log), LINE_LEN) ==>
          && w.reply == RecordLog.Content(w.snapshot.log)
          && OwnBlockIn(w, History(io.store), |Flatten(w.snapshot.log.records)|, |Earlier(io, w.section)|))
  }

  /** The reply is the stretch of `h` that ends at `hi`; a block at `from` inside
      the stretch is in the reply. */
  ghost predicate OwnBlockIn(w: Worker, h: string, hi: nat, from: nat) {
    && |w.reply| <= hi <= |h| && w.reply == h[hi - |w.reply|..hi]
    && (hi - |w.reply| <= from && from + |w.got| <= hi ==>
          w.reply[from - (hi - |w.reply|)..from - (hi - |w.reply|) + |w.got|] == w.got)
  }

  /** In every run, for any two clients: what each got into the file is in one
      piece; no two are inside the mutex together; every complete reply is right;
      and two complete plain-file replies are one the prefix of the other. */
  lemma RunsServeInOrder(store: Store, actions: seq<Action>, a: Id, b: Id)
    ensures var s := Run(Initial(store), actions);
      a in s.workers && b in s.workers ==> ServesInOrder(s.io, s.workers[a], s.workers[b], a == b)
  {
    InitialInv(store);
    RunKeeps(Initial(store), actions);
    var s := Run(Initial(store), actions);
    if a in s.workers && b in s.workers {
      ClientsInOrder(s, a, b);
    }
  }

  ghost predicate ServesInOrder(io: Io, a: Worker, b: Worker, same: bool) {
    && MessageInPlace(a, io)
    && (Holds(a.pc) && Holds(b.pc) ==> same)
    && (a.replied ==> if io.store.File? then FileReplyRight(a, io) else DeviceReplyRight(a, io))
    && (io.store.File? && a.replied && b.replied ==> IsPrefix(a.reply, b.reply) || IsPrefix(b.reply, a.reply))
  }

  lemma ReplyRight(s: State, id: Id)
    requires IoInv(s.io, s.workers, s.shut.logger) && id in s.workers && s.workers[id].replied
    ensures if s.io.store.File? then FileReplyRight(s.workers[id], s.io) else DeviceReplyRight(s.workers[id], s.io)
  {
    var w := s.workers[id];
    if s.io.store.File? {
      FileReply(s.io, s.workers, id);
    } else {
      assert ReplyInv(w, s.io);
      MessageContiguous(s.io, s.workers, id);
      if Reads.Fit(RecordLog.Visible(w.snapshot.log), LINE_LEN) {
        DeviceReply(w, s.io);
        DeviceReplyHasMessage(w, s.io);
      }
    }
  }

  lemma ClientsInOrder(s: State, a: Id, b: Id)
    requires Inv(s) && a in s.workers && b in s.workers
    ensures ServesInOrder(s.io, s.workers[a], s.workers[b], a == b)
  {
    if HasSection(s.workers[a].pc) {
      MessageContiguous(s.io, s.workers, a);
    }
    if Holds(s.workers[a].pc) {
      MutualExclusion(s, a, b);
    }
    if s.workers[a].replied {
      ReplyRight(s, a);
    }
    if s.io.store.File? && s.workers[a].replied && s.workers[b].replied {
      FileRepliesOrdered(s.io, s.workers, a, b);
    }
  }
}
