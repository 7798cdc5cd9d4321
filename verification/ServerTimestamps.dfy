/** What the timestamp logger puts into the result file, over every run. */
module ServerTimestamps {
  import opened ServerModel
  import opened ServerLife
  import opened ServerIo
  import opened Server

  /** How many sections are the logger's; what was there at the start is one. */
  function LoggersOwn(sections: seq<Section>): (n: nat) {
    if sections == [] then 0
    else LoggersOwn(sections[..|sections| - 1]) + if sections[|sections| - 1].owner == Logger then 1 else 0
  }

  /** The logger's successful formattings of a run. */
  ghost function Formatted(s: State, actions: seq<Action>): (n: nat)
    decreases |actions|
  {
    if actions == [] then 0
    else
      (if actions[0].LoggerStep? && actions[0].ok && s.shut.logger == Formatting then 1 else 0)
      + Formatted(Next(s, actions[0]), actions[1..])
  }

  /** Ticks and posts of a run. */
  ghost function Granted(s: State, actions: seq<Action>): (n: nat)
    decreases |actions|
  {
    if actions == [] then 0
    else
      (if actions[0].TimerTick? || (actions[0].SignalPost? && s.shut.handlers > 0) then 1 else 0)
      + Granted(Next(s, actions[0]), actions[1..])
  }

  /** Wake-ups not yet used, and the one being used. */
  function WakeUps(s: State): (n: nat) {
    s.shut.sem + if s.shut.logger == Checking || s.shut.logger == Formatting || s.shut.logger == Stopped then 1 else 0
  }

  lemma LoggerWakeUps(s: State, line: string, ok: bool)
    requires StepLogger(s, line, ok).Some?
    ensures WakeUps(StepLogger(s, line, ok).value) + (if ok && s.shut.logger == Formatting then 1 else 0) == WakeUps(s)
  {
  }

  lemma NextWakeUps(s: State, a: Action)
    ensures var granted, formatted := Granted(s, [a]), a.LoggerStep? && a.ok && s.shut.logger == Formatting;
      WakeUps(Next(s, a)) + (if formatted then 1 else 0) == WakeUps(s) + granted
  {
    assert [a][1..] == [] && Granted(Next(s, a), []) == 0;
    if Step(s, a).Some? {
      match a
      case MainStep(accept, ok) => MainEffect(s, accept, ok);
      case LoggerStep(line, ok) => LoggerWakeUps(s, line, ok);
      case _ =>
    }
  }

  /** In every run each tick and each post is still pending, or has made the
      logger format one line, or has stopped it: none is lost, and none counts twice. */
  lemma {:induction false} OneLinePerWakeUp(s: State, actions: seq<Action>)
    ensures WakeUps(Run(s, actions)) + Formatted(s, actions) == WakeUps(s) + Granted(s, actions)
    decreases |actions|
  {
    if actions != [] {
      NextWakeUps(s, actions[0]);
      assert [actions[0]][1..] == [] && Granted(Next(s, actions[0]), []) == 0;
      OneLinePerWakeUp(Next(s, actions[0]), actions[1..]);
    }
  }

  function Handled(actions: seq<Action>): (n: nat)
    decreases |actions|
  {
    if actions == [] then 0 else (if actions[0] == SignalSet then 1 else 0) + Handled(actions[1..])
  }

  lemma NextHandler(s: State, a: Action)
    ensures var shut := Next(s, a).shut;
      shut.handlers + shut.posted == s.shut.handlers + s.shut.posted + if a == SignalSet then 1 else 0
  {
    if a.MainStep? && Step(s, a).Some? {
      MainEffect(s, a.accept, a.ok);
    }
  }

  /** In every run each signal has set the flag, and has posted once or is about to. */
  lemma {:induction false} OnePostPerSignal(s: State, actions: seq<Action>)
    ensures var shut := Run(s, actions).shut;
      shut.handlers + shut.posted == s.shut.handlers + s.shut.posted + Handled(actions)
    decreases |actions|
  {
    if actions != [] {
      NextHandler(s, actions[0]);
      OnePostPerSignal(Next(s, actions[0]), actions[1..]);
    }
  }

  /** A line has been formatted and is still to be appended. */
  predicate InHand(logger: LoggerPc) {
    logger == Locking || logger == Logging
  }

  /** Lines appended, and one that may be in hand. */
  ghost function Lines(s: State): (n: nat) {
    LoggersOwn(s.io.sections) + if InHand(s.shut.logger) then 1 else 0
  }

  lemma OwnSnoc(sections: seq<Section>, section: Section)
    ensures LoggersOwn(sections + [section]) == LoggersOwn(sections) + if section.owner == Logger then 1 else 0
  {
    assert (sections + [section])[..|sections|] == sections;
  }

  lemma OwnAdd(sections: seq<Section>, bytes: string)
    requires sections != []
    ensures LoggersOwn(AddToLast(sections, bytes)) == LoggersOwn(sections)
  {
    assert AddToLast(sections, bytes)[..|sections| - 1] == sections[..|sections| - 1];
  }

  lemma WorkerLeavesLines(s: State, id: Id, answer: Answer)
    requires StepWorker(s, id, answer).Some?
    ensures var t := StepWorker(s, id, answer).value;
      t.shut == s.shut && t.io.store.File? == s.io.store.File? && LoggersOwn(t.io.sections) == LoggersOwn(s.io.sections)
  {
    var pc := s.workers[id].pc;
    if pc == LockingReceive {
      OwnSnoc(s.io.sections, Section(Client(id), ""));
    } else if pc == Receiving {
      OwnAdd(s.io.sections, BytesIn(answer));
    }
  }

  lemma LoggerLines(s: State, line: string, ok: bool)
    requires StepLogger(s, line, ok).Some?
    ensures var t, formatted := StepLogger(s, line, ok).value, ok && s.shut.logger == Formatting;
      && t.io.store.File? == s.io.store.File?
      && (s.io.store.File? ==> Lines(t) == Lines(s) + if formatted then 1 else 0)
      && (s.io.store.Device? && !InHand(s.shut.logger) ==> Lines(t) == Lines(s) && !InHand(t.shut.logger))
  {
    OwnSnoc(s.io.sections, Section(Logger, line));
  }

  lemma NextLines(s: State, a: Action)
    ensures var t, formatted := Next(s, a), a.LoggerStep? && a.ok && s.shut.logger == Formatting;
      && t.io.store.File? == s.io.store.File?
      && (s.io.store.File? ==> Lines(t) == Lines(s) + if formatted then 1 else 0)
      && (s.io.store.Device? && !InHand(s.shut.logger) ==> Lines(t) == Lines(s) && !InHand(t.shut.logger))
  {
    if Step(s, a).Some? {
      match a
      case MainStep(accept, ok) => MainEffect(s, accept, ok);
      case WorkerStep(id, answer) => WorkerLeavesLines(s, id, answer);
      case LoggerStep(line, ok) => LoggerLines(s, line, ok);
      case _ =>
    }
  }

  lemma {:induction false} RunLines(s: State, actions: seq<Action>)
    requires s.io.store.Device? ==> !InHand(s.shut.logger)
    ensures var t := Run(s, actions);
      && t.io.store.File? == s.io.store.File?
      && (s.io.store.Device? ==> !InHand(t.shut.logger))
      && Lines(t) == Lines(s) + if s.io.store.File? then Formatted(s, actions) else 0
    decreases |actions|
  {
    if actions != [] {
      NextLines(s, actions[0]);
      RunLines(Next(s, actions[0]), actions[1..]);
    }
  }

  lemma {:induction false} NoneOwned(sections: seq<Section>, k: nat)
    requires 1 <= k < |sections| && sections[0].owner == Logger && LoggersOwn(sections) == 1
    ensures sections[k].owner != Logger
  {
    OwnsFirst(sections[..|sections| - 1]);
    if k < |sections| - 1 {
      NoneOwned(sections[..|sections| - 1], k);
    }
  }

  lemma {:induction false} OwnsFirst(sections: seq<Section>)
    requires sections != [] && sections[0].owner == Logger
    ensures LoggersOwn(sections) >= 1
  {
    if |sections| > 1 {
      OwnsFirst(sections[..|sections| - 1]);
    }
  }

  lemma {:induction false} FirstStays(s: State, actions: seq<Action>)
    requires s.io.sections != [] && s.io.sections[0].owner == Logger
    ensures Run(s, actions).io.sections != [] && Run(s, actions).io.sections[0].owner == Logger
    decreases |actions|
  {
    if actions != [] {
      var a := actions[0];
      if a.MainStep? && Step(s, a).Some? {
        MainEffect(s, a.accept, a.ok);
      }
      FirstStays(Next(s, a), actions[1..]);
    }
  }

  /** In every run: with a plain file the logger's sections are as many as its
      successful formattings, but for one line it may have in hand; with the
      device it has none after the one that stands for what was there before. */
  lemma TimestampsGoToFilesOnly(store: Store, actions: seq<Action>)
    ensures var s := Run(Initial(store), actions);
      && (store.File? ==>
            LoggersOwn(s.io.sections) + (if InHand(s.shut.logger) then 1 else 0) == 1 + Formatted(Initial(store), actions))
      && (store.Device? ==> forall k :: 1 <= k < |s.io.sections| ==> s.io.sections[k].owner != Logger)
  {
    var s := Run(Initial(store), actions);
    var first := Initial(store).io.sections;
    assert first == [] + first && LoggersOwn([]) == 0;
    OwnSnoc([], first[0]);
    RunLines(Initial(store), actions);
    FirstStays(Initial(store), actions);
    if store.Device? {
      forall k | 1 <= k < |s.io.sections|
        ensures s.io.sections[k].owner != Logger
      {
        NoneOwned(s.io.sections, k);
      }
    }
  }
}
