/** What a worker's status means, and why a sweep is never held up. */
module ServerStatus {
  import opened Bytes
  import opened ServerConfig
  import opened ThreadList
  import opened ServerModel
  import opened ServerLife

  /** Uninitialized until the worker starts, running while it serves, and at the
      end succeeded exactly when its client was sent a complete reply. */
  ghost predicate StatusOk(w: Worker) {
    match w.pc
    case Starting => w.status == Uninitialized && !w.replied
    case Sent(ok) => w.status == Running && w.replied == ok
    case Closing(ok) => w.status == Running && w.replied == ok
    case Exiting => w.status == if w.replied then Succeeded else Failed
    case Exited => w.status == if w.replied then Succeeded else Failed
    case _ => w.status == Running && !w.replied
  }

  /** A worker that is serving, or has served, its client after a complete message. */
  predicate Answering(w: Worker) {
    w.pc == Received(true) || w.pc.LockingSend? || w.pc.Sending? || w.pc.Sent? || w.replied
  }

  /** While receiving, a worker has had full buffers only; it answers its client
      only after a complete message, full buffers and then one that is not; and
      only a worker that gave up has more in the file than the chunks that went well. */
  ghost predicate ChunksOk(w: Worker) {
    && (w.pc.Starting? || w.pc.LockingReceive? ==> w.chunks == [] && w.got == "")
    && (w.pc.Receiving? ==> FullBuffers(w.chunks) && w.got == Flatten(w.chunks))
    && (Answering(w) ==> EndsShort(w.chunks) && w.got == Flatten(w.chunks))
    && (FullBuffers(w.chunks) || EndsShort(w.chunks))
  }

  lemma OneMoreChunk(chunks: seq<string>, chunk: string)
    requires FullBuffers(chunks)
    ensures |chunk| == BUFFER_SIZE ==> FullBuffers(chunks + [chunk])
    ensures |chunk| < BUFFER_SIZE ==> EndsShort(chunks + [chunk])
  {
  }

  lemma WorkerKeepsChunks(w: Worker, id: Id, io: Io, silent: bool, answer: Answer)
    requires StatusOk(w) && ChunksOk(w)
    requires StepWorkerIo(w, id, io, silent, answer).Some?
    ensures ChunksOk(StepWorkerIo(w, id, io, silent, answer).value.0)
  {
    var w' := StepWorkerIo(w, id, io, silent, answer).value.0;
    if w.pc.Receiving? {
      OneMoreChunk(w.chunks, BytesIn(answer));
      FlattenSnoc(w.chunks, BytesIn(answer));
    } else {
      assert w'.chunks == w.chunks && w'.got == w.got;
    }
  }

  /** A sweep joins only workers that have let go of their node. */
  ghost predicate StatusInv(life: Life, workers: map<Id, Worker>) {
    && (forall id: Id :: id in workers ==> StatusOk(workers[id]) && ChunksOk(workers[id]))
    && (life.main.SweepJoining? && life.main.todo != [] && life.main.todo[0] in workers ==>
          LetGo(workers[life.main.todo[0]].pc))
  }

  lemma WorkerKeepsOwnStatus(w: Worker, id: Id, io: Io, silent: bool, answer: Answer)
    requires StatusOk(w)
    requires StepWorkerIo(w, id, io, silent, answer).Some?
    ensures var w' := StepWorkerIo(w, id, io, silent, answer).value.0;
      StatusOk(w') && (LetGo(w.pc) ==> LetGo(w'.pc))
  {
  }

  lemma WorkerKeepsStatus(s: State, id: Id, answer: Answer)
    requires StatusInv(s.life, s.workers) && StepWorker(s, id, answer).Some?
    ensures var s' := StepWorker(s, id, answer).value; StatusInv(s'.life, s'.workers)
  {
    WorkerKeepsOwnStatus(s.workers[id], id, s.io, id in s.silent, answer);
    WorkerKeepsChunks(s.workers[id], id, s.io, id in s.silent, answer);
  }

  lemma MainKeepsStatus(s: State, accept: AcceptResult, ok: bool)
    requires StatusInv(s.life, s.workers) && StepMain(s, accept, ok).Some?
    ensures var s' := StepMain(s, accept, ok).value; StatusInv(s'.life, s'.workers)
  {
    assert StatusOk(NEW_WORKER) && ChunksOk(NEW_WORKER);
  }

  /** So a sweep's pthread_join never waits behind the mutex: whenever main is in
      it, main can go on, or the worker can exit in one step of its own. */
  lemma SweepNeverHeldUp(s: State, answer: Answer)
    requires StatusInv(s.life, s.workers) && Defined(s) && s.life.main.SweepJoining?
    ensures var id := s.life.main.todo[0];
      || StepMain(s, Connected, true).Some?
      || (StepWorker(s, id, answer).Some? && StepWorker(s, id, answer).value.workers[id].pc == Exited)
  {
    var id := s.life.main.todo[0];
    assert LetGo(s.workers[id].pc);
  }
}
