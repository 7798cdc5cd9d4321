/** Whether a client can still be served: from any reachable state it can, unless
    its worker has given up, or somebody silent is in the way. */
module ServerService {
  import opened ServerModel
  import opened ServerLife
  import opened ServerIo
  import opened ServerStatus
  import opened Server
  import opened ServerProgress
  import opened ServerFinish

  /** The worker has had an error and is on its way out, or out. */
  predicate GaveUp(w: Worker) {
    w.pc == Received(false) || w.pc == Sent(false) || w.pc == Closing(false) || (LetGo(w.pc) && !w.replied)
  }

  /** The client waits behind another that is silent inside the mutex. */
  predicate BehindSilent(s: State, id: Id) {
    id in s.workers && HeldUp(s) && !Holds(s.workers[id].pc)
  }

  predicate Unservable(s: State, id: Id) {
    id in s.workers && !s.workers[id].replied && (GaveUp(s.workers[id]) || Lacks(s, id) || BehindSilent(s, id))
  }

  predicate Served(s: State, id: Id) {
    id in s.workers && s.workers[id].replied
  }

  // ----- What stays in the way -----

  lemma LackingUnserved(s: State, id: Id)
    requires id in s.workers && StatusOk(s.workers[id]) && Lacks(s, id)
    ensures !s.workers[id].replied
  {
  }

  lemma OthersKeepWorker(s: State, a: Action, id: Id)
    requires JoinsInv(s.life, s.workers) && id in s.workers && !(a.WorkerStep? && a.id == id)
    ensures id in Next(s, a).workers && Next(s, a).workers[id] == s.workers[id]
  {
    if a.MainStep? && Step(s, a).Some? {
      MainEffect(s, a.accept, a.ok);
    }
  }

  lemma OwnStepUnserved(s: State, answer: Answer, id: Id)
    requires MutexInv(s.io, s.workers, s.shut.logger) && id in s.workers && StatusOk(s.workers[id])
    requires !s.workers[id].replied && (GaveUp(s.workers[id]) || BehindSilent(s, id))
    ensures var w := Next(s, WorkerStep(id, answer)).workers[id];
      && !w.replied && (GaveUp(s.workers[id]) ==> GaveUp(w)) && (BehindSilent(s, id) ==> !Holds(w.pc))
  {
    HolderIs(s);
  }

  lemma NextUnservable(s: State, a: Action, id: Id)
    requires Inv(s) && Unservable(s, id) && !a.ClientAnswers?
    ensures Unservable(Next(s, a), id)
  {
    var t := Next(s, a);
    if Lacks(s, id) {
      NextLacks(s, a, id);
      NextKeeps(s, a);
      LackingUnserved(t, id);
    } else {
      if a.WorkerStep? && a.id == id {
        OwnStepUnserved(s, a.answer, id);
      } else {
        OthersKeepWorker(s, a, id);
      }
      if BehindSilent(s, id) {
        NextHeldUp(s, a);
      }
    }
  }

  lemma {:induction false} RunUnservable(s: State, actions: seq<Action>, id: Id)
    requires Inv(s) && Unservable(s, id) && NoAnswer(actions)
    ensures Unservable(Run(s, actions), id)
    decreases |actions|
  {
    if actions != [] {
      NextKeeps(s, actions[0]);
      NextUnservable(s, actions[0], id);
      assert NoAnswer(actions[1..]);
      RunUnservable(Next(s, actions[0]), actions[1..], id);
    }
  }

  // ----- Everyone else can be served -----

  const GOES_WELL := Answered("")

  predicate OnTheWay(s: State, id: Id) {
    id in s.workers && !s.workers[id].replied && !Unservable(s, id)
  }

  /** What is still to be sent. */
  function ToSend(s: State, id: Id): (n: nat) {
    if id in s.workers && s.workers[id].pc.Sending? then |ReadRest(s.io.store, s.workers[id].pc.pos)| else 0
  }

  ghost predicate Nearer(s: State, t: State, id: Id)
    requires id in s.workers && id in t.workers
  {
    var before, after := StepsToExit(s.workers[id].pc), StepsToExit(t.workers[id].pc);
    after < before || (after == before && ToSend(t, id) < ToSend(s, id))
  }

  lemma SendOn(s: State, id: Id)
    requires OnTheWay(s, id) && s.workers[id].pc.Sending?
    ensures var t := Next(s, WorkerStep(id, GOES_WELL)); Served(t, id) || (OnTheWay(t, id) && Nearer(s, t, id))
  {
    ReadStep(s.io.store, s.workers[id].pc.pos);
  }

  lemma ReceiveOn(s: State, id: Id)
    requires Defined(s) && OnTheWay(s, id) && s.workers[id].pc.Receiving?
    ensures var t := Next(s, WorkerStep(id, GOES_WELL)); OnTheWay(t, id) && Nearer(s, t, id)
  {
  }

  /** A step of its own, answered well, serves the client or brings it nearer. */
  lemma ServeStep(s: State, id: Id)
    requires Defined(s) && MutexInv(s.io, s.workers, s.shut.logger)
    requires OnTheWay(s, id) && StatusOk(s.workers[id])
    requires AtLock(s.workers[id].pc) ==> s.io.mutex == Free
    ensures var t := Next(s, WorkerStep(id, GOES_WELL)); Served(t, id) || (OnTheWay(t, id) && Nearer(s, t, id))
  {
    if s.workers[id].pc.Sending? {
      SendOn(s, id);
    } else if s.workers[id].pc.Receiving? {
      ReceiveOn(s, id);
    }
  }

  lemma ClearedOnTheWay(s: State, t: State, id: Id)
    requires OnTheWay(s, id) && OnlyReleased(s, t) && t.workers[id] == s.workers[id]
    ensures OnTheWay(t, id) && ToSend(t, id) == ToSend(s, id)
  {
  }

  /** The mutex is free when the worker comes to lock it. */
  lemma ClearLock(s: State, id: Id) returns (actions: seq<Action>)
    requires Defined(s) && MutexInv(s.io, s.workers, s.shut.logger) && OnTheWay(s, id)
    ensures NoAnswer(actions)
    ensures var t := Run(s, actions);
      && OnTheWay(t, id) && t.workers[id] == s.workers[id] && ToSend(t, id) == ToSend(s, id)
      && (AtLock(s.workers[id].pc) ==> t.io.mutex == Free)
  {
    actions := [];
    if AtLock(s.workers[id].pc) {
      actions := ReleaseMutex(s);
      ClearedOnTheWay(s, Run(s, actions), id);
    }
  }

  lemma StatusPart(s: State, id: Id)
    requires Inv(s) && id in s.workers
    ensures StatusOk(s.workers[id])
  {
  }

  lemma ServeOn(s: State, id: Id) returns (actions: seq<Action>)
    requires Inv(s) && OnTheWay(s, id)
    ensures NoAnswer(actions)
    ensures var t := Run(s, actions); Served(t, id) || (OnTheWay(t, id) && Nearer(s, t, id))
  {
    InvParts(s);
    actions := ClearLock(s, id);
    var t := Run(s, actions);
    RunKeeps(s, actions);
    InvParts(t);
    StatusPart(t, id);
    ServeStep(t, id);
    RunOne(t, WorkerStep(id, GOES_WELL));
    RunConcat(s, actions, [WorkerStep(id, GOES_WELL)]);
    actions := actions + [WorkerStep(id, GOES_WELL)];
  }

  lemma {:induction false} Serve(s: State, id: Id) returns (actions: seq<Action>)
    requires Inv(s) && OnTheWay(s, id)
    ensures NoAnswer(actions) && Served(Run(s, actions), id)
    decreases StepsToExit(s.workers[id].pc), ToSend(s, id)
  {
    actions := ServeOn(s, id);
    var t := Run(s, actions);
    if !Served(t, id) {
      RunKeeps(s, actions);
      var rest := Serve(t, id);
      RunConcat(s, actions, rest);
      actions := actions + rest;
    }
  }

  ghost predicate CanServe(s: State, id: Id) {
    exists actions :: NoAnswer(actions) && Served(Run(s, actions), id)
  }

  /** From every reachable state a connected client can, while silent clients
      stay silent, still be sent a complete reply to a complete message exactly
      when its worker has not given up, it does not itself stay silent with a
      recv or send to come, and nobody silent is in the mutex before it. */
  lemma CanServeIff(s: State, id: Id)
    requires Inv(s) && id in s.workers
    ensures CanServe(s, id) <==> !Unservable(s, id)
  {
    if Unservable(s, id) {
      forall actions | NoAnswer(actions)
        ensures !Served(Run(s, actions), id)
      {
        RunUnservable(s, actions, id);
      }
    } else if s.workers[id].replied {
      assert NoAnswer([]) && Served(Run(s, []), id);
    } else {
      var actions := Serve(s, id);
    }
  }
}
