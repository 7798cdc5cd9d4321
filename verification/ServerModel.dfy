/** The server as a step system (main.c of the server): the main thread, any
    number of data-transfer workers, the timestamp logger, one mutex, and the
    signal handlers. Each step is one thread's next atomic action; what the
    outside world answers is an input of the step. */
module ServerModel {
  import opened Bytes
  import opened ServerConfig
  import opened ThreadList
  import RecordLog
  import Reads

  /** A list node, and the thread that was given it. */
  type Id = nat

  // ----- The result file: a plain file, or the character device -----

  datatype Store = File(bytes: string) | Device(log: RecordLog.Log)

  function Append(store: Store, bytes: string): (r: Store) {
    match store
    case File(before) => File(before + bytes)
    case Device(log) => Device(RecordLog.Append(log, bytes))
  }

  /** Every byte ever appended. */
  function History(store: Store): (r: string) {
    match store
    case File(bytes) => bytes
    case Device(log) => RecordLog.History(log)
  }

  function ReadAt(store: Store, pos: nat): (r: string) {
    match store
    case File(bytes) => Reads.ReadFileAt(bytes, pos, LINE_LEN)
    case Device(log) => Reads.ReadAt(RecordLog.Visible(log), pos, LINE_LEN)
  }

  /** What reading on from `pos` until a read returns nothing delivers. */
  function ReadRest(store: Store, pos: nat): (r: string) {
    match store
    case File(bytes) => Flatten(Reads.FileReadsFrom(bytes, pos, LINE_LEN))
    case Device(log) => Flatten(Reads.ReadsFrom(RecordLog.Visible(log), pos, LINE_LEN))
  }

  // ----- State -----

  datatype WorkerPc =
    | Starting               // before it marks itself running
    | LockingReceive         // before its first mutex lock
    | Receiving              // holds the mutex
    | Received(ok: bool)     // holds the mutex
    | LockingSend            // before its second mutex lock
    | Sending(pos: nat)      // holds the mutex
    | Sent(ok: bool)         // holds the mutex
    | Closing(ok: bool)      // before it closes the socket and stores its final status
    | Exiting                // no longer touches its node
    | Exited

  /** `chunks` are those received and appended without an error, `got` all its
      bytes that reached the file, and `section` where in the history; `snapshot` is the store when it began sending, and
      `reply` what it has sent; `replied` once all of it went out. */
  datatype Worker = Worker(pc: WorkerPc, status: ThreadStatus, chunks: seq<string>, got: string, section: nat,
                           snapshot: Store, reply: string, replied: bool)

  datatype MainPc =
    | LoopHead
    | Accepting
    | Spawning(node: Id)                            // node allocated, thread not created
    | Linking(node: Id)                             // thread created, node not in the list
    | Sweeping(todo: seq<Id>, failed: bool)
    | SweepJoining(todo: seq<Id>, failed: bool)     // in pthread_join on todo[0]
    | SweepFreeing(todo: seq<Id>, failed: bool)     // todo[0] joined, not yet freed
    | Joining(todo: seq<Id>)
    | JoinFreeing(todo: seq<Id>)
    | Draining
    | Done

  datatype LoggerPc = Waiting | Checking | Formatting | Locking | Logging | Unlocking | Stopped

  datatype Owner = Logger | Client(id: Id)

  datatype Mutex = Free | HeldBy(owner: Owner)

  /** The bytes appended between one lock and its unlock. */
  datatype Section = Section(owner: Owner, bytes: string)

  /** The thread list, the allocated nodes, and how often each was joined and freed. */
  datatype Life = Life(main: MainPc, list: seq<Id>, nodes: set<Id>, next: Id, joins: multiset<Id>, frees: multiset<Id>)

  datatype Io = Io(mutex: Mutex, store: Store, sections: seq<Section>)

  /** `handlers` have set the flag and not yet posted; `posted` have done both. */
  datatype Shutdown = Shutdown(terminated: bool, handlers: nat, posted: nat, sem: nat, logger: LoggerPc)

  /** `silent` are the clients that answer neither a recv nor a send for now. */
  datatype State = State(life: Life, workers: map<Id, Worker>, io: Io, shut: Shutdown, silent: set<Id>)

  function Initial(store: Store): (r: State) {
    State(Life(LoopHead, [], {}, 0, multiset{}, multiset{}), map[], Io(Free, store, [Section(Logger, History(store))]),
          Shutdown(false, 0, 0, 0, Waiting), {})
  }

  // ----- Steps -----

  datatype AcceptResult = Connected | TimedOut | Interrupted | AcceptFailed

  /** What a worker's recv and append, or its send, come to: the chunk received
      and appended, or the line sent; or a failure, after which `landed` is what
      reached the file all the same. */
  datatype Answer = Answered(chunk: string) | Broke(landed: string)

  datatype Action =
    | MainStep(accept: AcceptResult, ok: bool)
    | WorkerStep(id: Id, answer: Answer)
    | LoggerStep(line: string, ok: bool)
    | SignalSet
    | SignalPost
    | TimerTick
    | ClientStalls(id: Id)
    | ClientAnswers(id: Id)

  datatype Option<T> = None | Some(value: T)

  function Todo(main: MainPc): (r: seq<Id>) {
    match main
    case Sweeping(todo, _) => todo
    case SweepJoining(todo, _) => todo
    case SweepFreeing(todo, _) => todo
    case Joining(todo) => todo
    case JoinFreeing(todo) => todo
    case _ => []
  }

  /** What the steps rely on: main's current node has a worker, and a receiving
      worker has its section. Where it fails a step is None, but it never does. */
  ghost predicate Defined(s: State) {
    && (Todo(s.life.main) != [] ==> Todo(s.life.main)[0] in s.workers)
    && (s.life.main.SweepJoining? || s.life.main.SweepFreeing? || s.life.main.JoinFreeing? ==> Todo(s.life.main) != [])
    && (forall w :: w in s.workers && s.workers[w].pc.Receiving? ==> s.io.sections != [])
  }

  function Without(list: seq<Id>, id: Id): (r: seq<Id>) {
    if list == [] then [] else if list[0] == id then list[1..] else [list[0]] + Without(list[1..], id)
  }

  function FreeNode(life: Life, id: Id): (r: Life) {
    life.(nodes := life.nodes - {id}, frees := life.frees + multiset{id})
  }

  const NEW_WORKER := Worker(Starting, Uninitialized, [], "", 0, File(""), "", false)

  /** The thread a walk is at has exited, so joining it does not wait. */
  predicate HasExited(s: State, todo: seq<Id>) {
    todo != [] && todo[0] in s.workers && s.workers[todo[0]].pc == Exited
  }

  /** The main thread: the accept loop, the sweep on each accept timeout, and
      the final join. It is blocked while a thread it joins has not exited. */
  function StepMain(s: State, accept: AcceptResult, ok: bool): (r: Option<State>)
  {
    var life := s.life;
    match life.main
    case LoopHead =>
      Some(s.(life := life.(main := if s.shut.terminated then Joining(life.list) else Accepting)))
    case Accepting =>
      (match accept
       case Connected =>
         Some(s.(life := life.(main := Spawning(life.next), nodes := life.nodes + {life.next}, next := life.next + 1)))
       case TimedOut => Some(s.(life := life.(main := Sweeping(life.list, false))))
       case Interrupted => if s.shut.terminated then Some(s.(life := life.(main := LoopHead))) else None
       case AcceptFailed => Some(s.(life := life.(main := LoopHead), shut := s.shut.(terminated := true))))
    case Spawning(id) =>
      if ok then Some(s.(life := life.(main := Linking(id)), workers := s.workers[id := NEW_WORKER]))
      else Some(s.(life := FreeNode(life, id).(main := LoopHead), shut := s.shut.(terminated := true)))
    case Linking(id) =>
      Some(s.(life := life.(main := LoopHead, list := [id] + life.list)))
    case Sweeping(todo, failed) =>
      if todo == [] then
        Some(s.(life := life.(main := LoopHead), shut := s.shut.(terminated := s.shut.terminated || failed)))
      else if todo[0] !in s.workers then None
      else
        var status := s.workers[todo[0]].status;
        if Completed(status) then Some(s.(life := life.(main := SweepJoining(todo, failed || status == Failed))))
        else Some(s.(life := life.(main := Sweeping(todo[1..], failed))))
    case SweepJoining(todo, failed) =>
      if !HasExited(s, todo) then None
      else Some(s.(life := life.(main := SweepFreeing(todo, failed), joins := life.joins + multiset{todo[0]})))
    case SweepFreeing(todo, failed) =>
      if todo == [] then None
      else Some(s.(life := FreeNode(life, todo[0]).(main := Sweeping(todo[1..], failed), list := Without(life.list, todo[0]))))
    case Joining(todo) =>
      if todo == [] then Some(s.(life := life.(main := Draining)))
      else if !HasExited(s, todo) then None
      else Some(s.(life := life.(main := JoinFreeing(todo), joins := life.joins + multiset{todo[0]})))
    case JoinFreeing(todo) =>
      if todo == [] then None
      else Some(s.(life := FreeNode(life, todo[0]).(main := Joining(todo[1..]), list := Without(life.list, todo[0]))))
    case Draining =>
      if life.list == [] then Some(s.(life := life.(main := Done)))
      else Some(s.(life := FreeNode(life, life.list[0]).(list := life.list[1..])))
    case Done => None
  }

  function BytesIn(answer: Answer): (r: string) {
    match answer
    case Answered(chunk) => chunk
    case Broke(landed) => landed
  }

  function AddToLast(sections: seq<Section>, bytes: string): (r: seq<Section>)
    requires sections != []
  {
    var last := |sections| - 1;
    sections[last := sections[last].(bytes := sections[last].bytes + bytes)]
  }

  /** A worker's next action, as a change of itself and of the shared store. A
      recv or send of a silent client does not return. */
  function StepWorkerIo(w: Worker, id: Id, io: Io, silent: bool, answer: Answer): (r: Option<(Worker, Io)>)
  {
    match w.pc
    case Starting => Some((w.(pc := LockingReceive, status := Running), io))
    case LockingReceive =>
      if io.mutex != Free then None
      else Some((w.(pc := Receiving, section := |io.sections|),
                 io.(mutex := HeldBy(Client(id)), sections := io.sections + [Section(Client(id), "")])))
    case Receiving =>
      var bytes := BytesIn(answer);
      if silent || |bytes| > BUFFER_SIZE || io.sections == [] then None
      else
        var next := if answer.Broke? then Received(false)
                    else if |bytes| == BUFFER_SIZE then Receiving else Received(true);
        var chunks := if answer.Broke? then w.chunks else w.chunks + [bytes];
        Some((w.(pc := next, chunks := chunks, got := w.got + bytes),
              io.(store := Append(io.store, bytes), sections := AddToLast(io.sections, bytes))))
    case Received(received) =>
      Some((w.(pc := if received then LockingSend else Closing(false)), io.(mutex := Free)))
    case LockingSend =>
      if io.mutex != Free then None
      else Some((w.(pc := Sending(0), snapshot := io.store), io.(mutex := HeldBy(Client(id)))))
    case Sending(pos) =>
      var line := ReadAt(io.store, pos);
      if line == "" then Some((w.(pc := Sent(true), replied := true), io))
      else if silent then None
      else if answer.Answered? then Some((w.(pc := Sending(pos + |line|), reply := w.reply + line), io))
      else Some((w.(pc := Sent(false)), io))
    case Sent(sent) => Some((w.(pc := Closing(sent)), io.(mutex := Free)))
    case Closing(success) =>
      Some((w.(pc := Exiting, status := if success then Succeeded else Failed), io))
    case Exiting => Some((w.(pc := Exited), io))
    case Exited => None
  }

  function StepWorker(s: State, id: Id, answer: Answer): (r: Option<State>)
  {
    if id !in s.workers then None
    else
      match StepWorkerIo(s.workers[id], id, s.io, id in s.silent, answer)
      case None => None
      case Some((w, io)) => Some(s.(workers := s.workers[id := w], io := io))
  }

  /** The timestamp logger; only a plain file gets timestamps. `line` is what
      its append leaves in the file, all of it or, on an error, a part. */
  function StepLogger(s: State, line: string, ok: bool): (r: Option<State>) {
    match s.shut.logger
    case Waiting =>
      if s.shut.sem == 0 then None
      else Some(s.(shut := s.shut.(logger := Checking, sem := s.shut.sem - 1)))
    case Checking =>
      Some(s.(shut := s.shut.(logger := if s.shut.terminated then Stopped else Formatting)))
    case Formatting =>
      Some(s.(shut := s.shut.(logger := if !ok then Checking else if s.io.store.File? then Locking else Waiting)))
    case Locking =>
      if s.io.mutex != Free then None
      else Some(s.(shut := s.shut.(logger := Logging), io := s.io.(mutex := HeldBy(Logger))))
    case Logging =>
      Some(s.(shut := s.shut.(logger := Unlocking),
              io := s.io.(store := Append(s.io.store, line), sections := s.io.sections + [Section(Logger, line)])))
    case Unlocking =>
      Some(s.(shut := s.shut.(logger := Waiting), io := s.io.(mutex := Free)))
    case Stopped => None
  }

  /** One step of the whole system; None when the action is not possible now. */
  function Step(s: State, a: Action): (r: Option<State>)
  {
    match a
    case MainStep(accept, ok) => StepMain(s, accept, ok)
    case WorkerStep(id, answer) => StepWorker(s, id, answer)
    case LoggerStep(line, ok) => StepLogger(s, line, ok)
    case SignalSet => Some(s.(shut := s.shut.(terminated := true, handlers := s.shut.handlers + 1)))
    case SignalPost =>
      if s.shut.handlers == 0 then None
      else Some(s.(shut := s.shut.(handlers := s.shut.handlers - 1, posted := s.shut.posted + 1, sem := s.shut.sem + 1)))
    case TimerTick => Some(s.(shut := s.shut.(sem := s.shut.sem + 1)))
    case ClientStalls(id) => Some(s.(silent := s.silent + {id}))
    case ClientAnswers(id) => Some(s.(silent := s.silent - {id}))
  }
}
