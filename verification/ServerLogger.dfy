/** When the flag is set without a post: exactly when the logger can be left
    waiting for ever, and that every path main takes there leads to it. */
module ServerLogger {
  import opened ServerModel
  import opened ServerIo
  import opened Server
  import opened ServerShutdown
  import opened ServerProgress
  import opened ServerFinish

  /** The mutex is free, with the logger still about to lock it: silent clients
      answer, and the holder leaves. */
  lemma ClearLogger(s: State) returns (actions: seq<Action>)
    requires Inv(s) && s.shut.logger == Locking
    ensures NoPost(actions)
    ensures var t := Run(s, actions); t.shut == s.shut && t.io.mutex == Free
  {
    var first := AllAnswer(s);
    RunKeeps(s, first);
    InvParts(Run(s, first));
    var rest := ReleaseMutex(Run(s, first));
    RunConcat(s, first, rest);
    actions := first + rest;
  }

  /** One step nearer to sleep. */
  lemma Drowse(s: State) returns (actions: seq<Action>)
    requires Inv(s) && s.shut.terminated && !WillStop(s) && !Asleep(s)
    ensures NoPost(actions)
    ensures var t := Run(s, actions);
      t.shut.terminated && !WillStop(t) && StepsToStop(t.shut.logger) < StepsToStop(s.shut.logger)
  {
    actions := [];
    if s.shut.logger == Locking {
      actions := ClearLogger(s);
    }
    var a := LoggerStep("", true);
    RunOne(Run(s, actions), a);
    RunConcat(s, actions, [a]);
    actions := actions + [a];
  }

  lemma {:induction false} FallAsleep(s: State) returns (actions: seq<Action>)
    requires Inv(s) && s.shut.terminated && !WillStop(s)
    ensures NoPost(actions) && Asleep(Run(s, actions))
    decreases StepsToStop(s.shut.logger)
  {
    actions := [];
    if !Asleep(s) {
      var first := Drowse(s);
      RunKeeps(s, first);
      var rest := FallAsleep(Run(s, first));
      RunConcat(s, first, rest);
      actions := first + rest;
    }
  }

  ghost predicate NeverLeftAsleep(s: State) {
    forall actions :: NoPost(actions) ==> !Asleep(Run(s, actions))
  }

  /** With the flag set, in all runs without another post or tick, the logger is
      never left waiting with nothing to wake it exactly when a post is still
      pending or it is at its check or past it. */
  lemma NeverLeftAsleepIff(s: State)
    requires Inv(s) && s.shut.terminated
    ensures NeverLeftAsleep(s) <==> WillStop(s)
  {
    if WillStop(s) {
      forall actions | NoPost(actions)
        ensures !Asleep(Run(s, actions))
      {
        RunNoPost(s, actions);
      }
    } else {
      var actions := FallAsleep(s);
    }
  }
}
