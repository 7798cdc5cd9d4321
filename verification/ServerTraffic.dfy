/** What the result file has is what clients and clock brought, over every run:
    nobody's bytes are dropped, repeated or changed. */
module ServerTraffic {
  import opened ServerModel
  import opened ServerLife
  import opened ServerIo
  import opened Server
  import opened ServerService

  // ----- Clients -----

  /** The bytes a client's recv calls brought to the file in one action. */
  function Brought(s: State, a: Action, id: Id): (r: string) {
    if a.WorkerStep? && a.id == id && Step(s, a).Some? && s.workers[id].pc == Receiving then
      match a.answer
      case Answered(chunk) => chunk
      case Broke(landed) => landed
    else ""
  }

  ghost function BroughtOver(s: State, actions: seq<Action>, id: Id): (r: string)
    decreases |actions|
  {
    if actions == [] then ""
    else Brought(s, actions[0], id) + BroughtOver(Next(s, actions[0]), actions[1..], id)
  }

  function Got(s: State, id: Id): (r: string) {
    if id in s.workers then s.workers[id].got else ""
  }

  lemma NextGot(s: State, a: Action, id: Id)
    requires JoinsInv(s.life, s.workers)
    ensures Got(Next(s, a), id) == Got(s, id) + Brought(s, a, id)
  {
    if id in s.workers && !(a.WorkerStep? && a.id == id) {
      OthersKeepWorker(s, a, id);
    } else if a.MainStep? && Step(s, a).Some? {
      MainEffect(s, a.accept, a.ok);
    }
  }

  lemma Regroup(a: string, b: string, c: string)
    ensures (a + b) + c == a + (b + c)
  {
  }

  lemma {:induction false} RunGot(s: State, actions: seq<Action>, id: Id)
    requires Inv(s)
    ensures Got(Run(s, actions), id) == Got(s, id) + BroughtOver(s, actions, id)
    decreases |actions|
  {
    if actions != [] {
      var a := actions[0];
      NextKeeps(s, a);
      NextGot(s, a, id);
      RunGot(Next(s, a), actions[1..], id);
      Regroup(Got(s, id), Brought(s, a, id), BroughtOver(Next(s, a), actions[1..], id));
    }
  }

  // ----- The clock -----

  /** The bytes of the logger's sections, one string each. */
  function LoggersBytes(sections: seq<Section>): (r: seq<string>) {
    if sections == [] then []
    else
      var last := sections[|sections| - 1];
      LoggersBytes(sections[..|sections| - 1]) + if last.owner == Logger then [last.bytes] else []
  }

  /** What the logger's appends left in the file in a run. */
  ghost function Logged(s: State, actions: seq<Action>): (r: seq<string>)
    decreases |actions|
  {
    if actions == [] then []
    else
      (if actions[0].LoggerStep? && s.shut.logger == Logging then [actions[0].line] else [])
      + Logged(Next(s, actions[0]), actions[1..])
  }

  lemma BytesSnoc(sections: seq<Section>, section: Section)
    ensures LoggersBytes(sections + [section])
         == LoggersBytes(sections) + if section.owner == Logger then [section.bytes] else []
  {
    assert (sections + [section])[..|sections|] == sections;
  }

  lemma BytesAdd(sections: seq<Section>, bytes: string)
    requires sections != [] && sections[|sections| - 1].owner != Logger
    ensures LoggersBytes(AddToLast(sections, bytes)) == LoggersBytes(sections)
  {
    assert AddToLast(sections, bytes)[..|sections| - 1] == sections[..|sections| - 1];
  }

  lemma WorkerLogsNothing(s: State, id: Id, answer: Answer)
    requires HistoryInv(s.io, s.workers) && StepWorker(s, id, answer).Some?
    ensures LoggersBytes(StepWorker(s, id, answer).value.io.sections) == LoggersBytes(s.io.sections)
  {
    var pc := s.workers[id].pc;
    assert SectionInv(s.workers[id], id, s.io.sections);
    if pc == LockingReceive {
      BytesSnoc(s.io.sections, Section(Client(id), ""));
    } else if pc == Receiving {
      BytesAdd(s.io.sections, BytesIn(answer));
    }
  }

  lemma NextLogged(s: State, a: Action)
    requires HistoryInv(s.io, s.workers)
    ensures LoggersBytes(Next(s, a).io.sections)
         == LoggersBytes(s.io.sections) + if a.LoggerStep? && s.shut.logger == Logging then [a.line] else []
  {
    if Step(s, a).Some? {
      match a
      case MainStep(accept, ok) => MainEffect(s, accept, ok);
      case WorkerStep(id, answer) => WorkerLogsNothing(s, id, answer);
      case LoggerStep(line, _) => BytesSnoc(s.io.sections, Section(Logger, line));
      case _ =>
    }
  }

  lemma JoinLines(a: seq<string>, b: seq<string>, c: seq<string>)
    ensures (a + b) + c == a + (b + c)
  {
  }

  lemma {:induction false} RunLogged(s: State, actions: seq<Action>)
    requires Inv(s)
    ensures LoggersBytes(Run(s, actions).io.sections) == LoggersBytes(s.io.sections) + Logged(s, actions)
    decreases |actions|
  {
    if actions != [] {
      var a := actions[0];
      NextKeeps(s, a);
      NextLogged(s, a);
      RunLogged(Next(s, a), actions[1..]);
      JoinLines(LoggersBytes(s.io.sections), if a.LoggerStep? && s.shut.logger == Logging then [a.line] else [],
                Logged(Next(s, a), actions[1..]));
    }
  }

  lemma AfterNothing(bytes: string)
    ensures "" + bytes == bytes
  {
  }

  /** In every run what a client has in the file is, in order, what its recv
      calls brought there. */
  lemma ClientsBytes(store: Store, actions: seq<Action>, id: Id)
    ensures Got(Run(Initial(store), actions), id) == BroughtOver(Initial(store), actions, id)
  {
    InitialInv(store);
    RunGot(Initial(store), actions, id);
    AfterNothing(BroughtOver(Initial(store), actions, id));
  }

  lemma InitialBytes(store: Store)
    ensures LoggersBytes(Initial(store).io.sections) == [History(store)]
  {
    var first := Section(Logger, History(store));
    assert [] + [first] == Initial(store).io.sections;
    BytesSnoc([], first);
  }

  /** And the logger's sections are what was there before and then what its
      appends left, in order. */
  lemma LoggersLines(store: Store, actions: seq<Action>)
    ensures LoggersBytes(Run(Initial(store), actions).io.sections) == [History(store)] + Logged(Initial(store), actions)
  {
    InitialInv(store);
    InitialBytes(store);
    RunLogged(Initial(store), actions);
  }
}
