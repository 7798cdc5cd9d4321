/** Ending the server: how soon main and the logger stop once told to, and when
    the logger can be left waiting for ever. */
module ServerShutdown {
  import opened ServerModel
  import opened ServerLife
  import opened ServerIo
  import opened Server

  // ----- The main thread -----

  /** How many of its own steps main is from its end, at most, once the flag is set. */
  function StepsToEnd(life: Life): (n: nat)
    ensures n <= 5 * |life.list| + 3 * |Todo(life.main)| + 8
  {
    var listed := 2 * |life.list|;
    match life.main
    case Done => 0
    case Draining => 1
    case JoinFreeing(todo) => 2 * |todo| + 1
    case Joining(todo) => 2 * |todo| + 2
    case LoopHead => listed + 3
    case SweepFreeing(todo, _) => listed + 3 * |todo| + 2
    case SweepJoining(todo, _) => listed + 3 * |todo| + 3
    case Sweeping(todo, _) => listed + 3 * |todo| + 4
    case Linking(_) => listed + 6
    case Spawning(_) => listed + 7
    case Accepting => 5 * |life.list| + 8
  }

  lemma FreeTowardsEnd(s: State, accept: AcceptResult, ok: bool)
    requires NoDup(s.life.list) && WalkInv(s.life)
    requires s.life.main.SweepFreeing? || s.life.main.JoinFreeing?
    ensures StepMain(s, accept, ok).Some?
    ensures StepsToEnd(StepMain(s, accept, ok).value.life) < StepsToEnd(s.life)
  {
    WithoutShorter(s.life.list, Todo(s.life.main));
  }

  lemma AcceptTowardsEnd(s: State, accept: AcceptResult, ok: bool)
    requires s.shut.terminated && StepMain(s, accept, ok).Some? && InAcceptLoop(s.life.main)
    ensures StepsToEnd(StepMain(s, accept, ok).value.life) < StepsToEnd(s.life)
  {
  }

  lemma WalkTowardsEnd(s: State, accept: AcceptResult, ok: bool)
    requires StepMain(s, accept, ok).Some? && !InAcceptLoop(s.life.main)
    requires s.life.main.Draining? ==> s.life.list == []
    requires !s.life.main.SweepFreeing? && !s.life.main.JoinFreeing?
    ensures StepsToEnd(StepMain(s, accept, ok).value.life) < StepsToEnd(s.life)
  {
  }

  /** With the flag set, whatever accept and pthread_create still answer, each
      step main takes brings it nearer to its end. */
  lemma MainTowardsEnd(s: State, accept: AcceptResult, ok: bool)
    requires Inv(s) && s.shut.terminated && StepMain(s, accept, ok).Some?
    ensures var s' := StepMain(s, accept, ok).value;
      s'.shut.terminated && StepsToEnd(s'.life) < StepsToEnd(s.life)
  {
    MainEffect(s, accept, ok);
    if s.life.main.SweepFreeing? || s.life.main.JoinFreeing? {
      FreeTowardsEnd(s, accept, ok);
    } else if InAcceptLoop(s.life.main) {
      AcceptTowardsEnd(s, accept, ok);
    } else {
      WalkTowardsEnd(s, accept, ok);
    }
  }

  lemma OthersLeaveMain(s: State, a: Action)
    requires !a.MainStep?
    ensures Next(s, a).life == s.life && (s.shut.terminated ==> Next(s, a).shut.terminated)
  {
  }

  /** Main's own steps in a run that were possible when their turn came. */
  ghost function MainSteps(s: State, actions: seq<Action>): nat
    decreases |actions|
  {
    if actions == [] then 0
    else (if actions[0].MainStep? && Step(s, actions[0]).Some? then 1 else 0) + MainSteps(Next(s, actions[0]), actions[1..])
  }

  /** So once the server is told to stop, in every run from there on main takes
      at most a number of further steps fixed by its list then. */
  lemma {:induction false} MainStops(s: State, actions: seq<Action>)
    requires Inv(s) && s.shut.terminated
    ensures MainSteps(s, actions) + StepsToEnd(Run(s, actions).life) <= StepsToEnd(s.life)
    decreases |actions|
  {
    if actions != [] {
      var a := actions[0];
      NextKeeps(s, a);
      if !a.MainStep? {
        OthersLeaveMain(s, a);
      } else if Step(s, a).Some? {
        MainTowardsEnd(s, a.accept, a.ok);
      }
      MainStops(Next(s, a), actions[1..]);
    }
  }

  // ----- The logger -----

  /** How many of its own steps the logger is from stopping, once told to. */
  function StepsToStop(pc: LoggerPc): (n: nat)
    ensures n <= 6
  {
    match pc
    case Stopped => 0
    case Checking => 1
    case Waiting => 2
    case Unlocking => 3
    case Logging => 4
    case Locking => 5
    case Formatting => 6
  }

  /** The logger waits and nothing has been posted. */
  predicate Asleep(s: State) {
    s.shut.logger == Waiting && s.shut.sem == 0
  }

  /** The logger is past its last check, at it, or has a wake-up to come. */
  predicate WillStop(s: State) {
    s.shut.sem > 0 || s.shut.logger == Checking || s.shut.logger == Stopped
  }

  /** After a signal handler has finished, in any interleaving, the logger has
      a wake-up to come, and is never left at its wait without one. */
  lemma NoLostWakeUp(s: State)
    requires Inv(s) && s.shut.posted > 0
    ensures s.shut.terminated && WillStop(s) && !Asleep(s)
  {
  }

  /** The logger's own steps in a run that were possible when their turn came. */
  ghost function LoggerSteps(s: State, actions: seq<Action>): nat
    decreases |actions|
  {
    if actions == [] then 0
    else (if actions[0].LoggerStep? && Step(s, actions[0]).Some? then 1 else 0) + LoggerSteps(Next(s, actions[0]), actions[1..])
  }

  /** Only the logger moves itself, and only handlers and ticks add to the semaphore. */
  lemma OthersLeaveLogger(s: State, a: Action)
    requires !a.LoggerStep?
    ensures var shut := Next(s, a).shut;
      && shut.logger == s.shut.logger && s.shut.sem <= shut.sem
      && (s.shut.terminated ==> shut.terminated)
      && (!a.SignalPost? && !a.TimerTick? ==> shut.sem == s.shut.sem)
  {
    if a.MainStep? && Step(s, a).Some? {
      MainEffect(s, a.accept, a.ok);
    }
  }

  /** With the flag set and a wake-up to come, each logger step goes towards
      stopping and any other step leaves the logger where it is. */
  lemma StepTowardsStop(s: State, a: Action)
    requires s.shut.terminated && WillStop(s)
    ensures var t := Next(s, a);
      && t.shut.terminated && WillStop(t)
      && (if a.LoggerStep? && Step(s, a).Some? then StepsToStop(t.shut.logger) < StepsToStop(s.shut.logger)
          else t.shut.logger == s.shut.logger)
  {
    if !a.LoggerStep? {
      OthersLeaveLogger(s, a);
    }
  }

  /** So in every run from there on the logger takes at most six more steps, and
      until it has stopped only the mutex can keep it from its next. */
  lemma {:induction false} LoggerStops(s: State, actions: seq<Action>)
    requires s.shut.terminated && WillStop(s)
    ensures LoggerSteps(s, actions) + StepsToStop(Run(s, actions).shut.logger) <= StepsToStop(s.shut.logger)
    ensures var t := Run(s, actions);
      t.shut.logger == Stopped || (t.shut.logger == Locking && t.io.mutex != Free) || StepLogger(t, "", true).Some?
    decreases |actions|
  {
    if actions != [] {
      StepTowardsStop(s, actions[0]);
      LoggerStops(Next(s, actions[0]), actions[1..]);
    }
  }

  // ----- The logger, when the flag is set and nobody posts -----

  /** Main sets the flag on exactly three paths: a failed accept, a failed thread
      creation, and a sweep that met an error. None of them posts. */
  lemma MainSetsFlag(s: State, accept: AcceptResult, ok: bool)
    requires !s.shut.terminated && StepMain(s, accept, ok).Some?
    ensures var shut := StepMain(s, accept, ok).value.shut;
      && (shut.terminated <==>
            || (s.life.main == Accepting && accept == AcceptFailed)
            || (s.life.main.Spawning? && !ok)
            || (s.life.main == Sweeping([], true)))
      && shut == s.shut.(terminated := shut.terminated)
  {
  }

  ghost predicate NoPost(actions: seq<Action>) {
    forall i :: 0 <= i < |actions| ==> !actions[i].SignalPost? && !actions[i].TimerTick?
  }

  lemma NextNoPost(s: State, a: Action)
    requires s.shut.terminated && !a.SignalPost? && !a.TimerTick?
    ensures Next(s, a).shut.terminated
    ensures WillStop(s) ==> WillStop(Next(s, a))
    ensures Asleep(s) ==> Asleep(Next(s, a))
  {
    if !a.LoggerStep? {
      OthersLeaveLogger(s, a);
    }
  }

  /** Without a post a sleeping logger sleeps on, and one that will stop never sleeps. */
  lemma {:induction false} RunNoPost(s: State, actions: seq<Action>)
    requires s.shut.terminated && NoPost(actions)
    ensures Asleep(s) ==> Asleep(Run(s, actions))
    ensures WillStop(s) ==> WillStop(Run(s, actions)) && !Asleep(Run(s, actions))
    decreases |actions|
  {
    if actions != [] {
      NextNoPost(s, actions[0]);
      assert NoPost(actions[1..]);
      RunNoPost(Next(s, actions[0]), actions[1..]);
    }
  }
}
