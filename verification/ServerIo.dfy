/** The mutex and the result file: what the sections append and what the
    clients are sent, over every interleaving. */
module ServerIo {
  import opened Bytes
  import opened ServerConfig
  import opened ServerModel
  import RecordLog
  import Reads

  predicate Holds(pc: WorkerPc) {
    pc.Receiving? || pc.Received? || pc.Sending? || pc.Sent?
  }

  predicate LoggerHolds(pc: LoggerPc) {
    pc == Logging || pc == Unlocking
  }

  predicate HasSection(pc: WorkerPc) {
    !pc.Starting? && !pc.LockingReceive?
  }

  function BytesOf(sections: seq<Section>): (r: seq<string>)
    ensures |r| == |sections| && forall i :: 0 <= i < |r| ==> r[i] == sections[i].bytes
  {
    seq(|sections|, i requires 0 <= i < |sections| => sections[i].bytes)
  }

  ghost predicate IsPrefix(a: string, b: string) {
    |a| <= |b| && b[..|a|] == a
  }

  /** The mutex names exactly the thread that is inside a locked stretch. */
  ghost predicate MutexInv(io: Io, workers: map<Id, Worker>, logger: LoggerPc) {
    && (forall id: Id :: id in workers ==> (Holds(workers[id].pc) <==> io.mutex == HeldBy(Client(id))))
    && (forall id: Id :: io.mutex == HeldBy(Client(id)) ==> id in workers)
    && (LoggerHolds(logger) <==> io.mutex == HeldBy(Logger))
  }

  /** The history is the sections end to end, in the order the mutex was taken,
      and a worker's section is exactly what it received. */
  ghost predicate HistoryInv(io: Io, workers: map<Id, Worker>) {
    && History(io.store) == Flatten(BytesOf(io.sections))
    && forall id: Id :: id in workers ==> SectionInv(workers[id], id, io.sections)
  }

  ghost predicate SectionInv(w: Worker, id: Id, sections: seq<Section>) {
    && (if HasSection(w.pc) then w.section < |sections| && sections[w.section] == Section(Client(id), w.got)
        else w.got == "")
    && (w.pc.Receiving? ==> w.section == |sections| - 1)
  }

  /** The snapshot is a prefix of the history that goes at least to the end of
      the worker's own section. */
  ghost predicate Covers(w: Worker, io: Io) {
    && w.section < |io.sections|
    && w.snapshot.File? == io.store.File?
    && IsPrefix(History(w.snapshot), History(io.store))
    && |Flatten(BytesOf(io.sections[..w.section + 1]))| <= |History(w.snapshot)|
  }

  predicate BeforeReply(pc: WorkerPc) {
    pc.Starting? || pc.LockingReceive? || pc.Receiving? || pc.Received? || pc.LockingSend?
  }

  /** A sender has sent what reading the store from the start delivers, up to
      its position; a client that was sent everything got one instant's reading. */
  ghost predicate ReplyInv(w: Worker, io: Io) {
    && (BeforeReply(w.pc) ==> w.reply == "" && !w.replied)
    && (w.pc.Sending? ==> w.snapshot == io.store && w.reply + ReadRest(io.store, w.pc.pos) == ReadRest(io.store, 0))
    && (w.pc.Sending? || w.replied ==> Covers(w, io))
    && (w.replied ==> w.reply == ReadRest(w.snapshot, 0))
  }

  ghost predicate RepliesInv(io: Io, workers: map<Id, Worker>) {
    forall id: Id :: id in workers ==> ReplyInv(workers[id], io)
  }

  ghost predicate IoInv(io: Io, workers: map<Id, Worker>, logger: LoggerPc) {
    MutexInv(io, workers, logger) && HistoryInv(io, workers) && RepliesInv(io, workers)
  }

  // ----- How the history grows -----

  lemma HistoryGrows(store: Store, bytes: string)
    ensures History(Append(store, bytes)) == History(store) + bytes
  {
    if store.Device? {
      RecordLog.AppendHistory(store.log, bytes);
    }
  }

  lemma NewSection(sections: seq<Section>, section: Section)
    ensures Flatten(BytesOf(sections + [section])) == Flatten(BytesOf(sections)) + section.bytes
  {
    assert BytesOf(sections + [section]) == BytesOf(sections) + [section.bytes];
    FlattenSnoc(BytesOf(sections), section.bytes);
  }

  lemma LastSectionGrows(sections: seq<Section>, bytes: string)
    requires sections != []
    ensures Flatten(BytesOf(AddToLast(sections, bytes))) == Flatten(BytesOf(sections)) + bytes
    ensures AddToLast(sections, bytes)[..|sections| - 1] == sections[..|sections| - 1]
  {
    var n := |sections| - 1;
    var front := BytesOf(sections[..n]);
    assert BytesOf(sections) == front + [sections[n].bytes];
    assert BytesOf(AddToLast(sections, bytes)) == front + [sections[n].bytes + bytes];
    FlattenSnoc(front, sections[n].bytes);
    FlattenSnoc(front, sections[n].bytes + bytes);
  }

  /** The sections up to and including `i` are the same. */
  ghost predicate SameUpTo(a: seq<Section>, b: seq<Section>, i: nat) {
    i < |a| && i < |b| && a[..i + 1] == b[..i + 1]
  }

  /** Nothing that belongs to others moves, and the history only grows. */
  ghost predicate OthersStay(io: Io, io': Io, owner: Owner) {
    && History(io'.store) == Flatten(BytesOf(io'.sections))
    && io'.store.File? == io.store.File?
    && |io.sections| <= |io'.sections| && IsPrefix(History(io.store), History(io'.store))
    && forall i: nat {:trigger SameUpTo(io.sections, io'.sections, i)} ::
         i < |io.sections| && io.sections[i].owner != owner ==> SameUpTo(io.sections, io'.sections, i)
  }

  /** Another thread's new section, or more bytes in another's last section,
      leave a worker outside the mutex what it had. */
  lemma BystanderSection(w: Worker, id: Id, io: Io, io': Io, owner: Owner)
    requires SectionInv(w, id, io.sections) && !w.pc.Receiving?
    requires OthersStay(io, io', owner) && owner != Client(id)
    ensures SectionInv(w, id, io'.sections)
    ensures HasSection(w.pc) ==> SameUpTo(io.sections, io'.sections, w.section)
  {
    if HasSection(w.pc) {
      assert SameUpTo(io.sections, io'.sections, w.section);
      assert io'.sections[..w.section + 1][w.section] == io.sections[..w.section + 1][w.section];
    }
  }

  lemma PrefixGrows(a: string, b: string, c: string)
    requires IsPrefix(a, b) && IsPrefix(b, c)
    ensures IsPrefix(a, c)
  {
    assert c[..|a|] == c[..|b|][..|a|];
  }

  lemma BystanderReply(w: Worker, io: Io, io': Io)
    requires ReplyInv(w, io) && !w.pc.Sending?
    requires w.replied ==> SameUpTo(io.sections, io'.sections, w.section)
    requires io'.store.File? == io.store.File? && IsPrefix(History(io.store), History(io'.store))
    ensures ReplyInv(w, io')
  {
    if w.replied {
      PrefixGrows(History(w.snapshot), History(io.store), History(io'.store));
      assert io'.sections[..w.section + 1] == io.sections[..w.section + 1];
    }
  }

  lemma BystanderKeeps(w: Worker, id: Id, io: Io, io': Io, owner: Owner)
    requires SectionInv(w, id, io.sections) && ReplyInv(w, io) && !w.pc.Receiving? && !w.pc.Sending?
    requires OthersStay(io, io', owner) && owner != Client(id)
    ensures SectionInv(w, id, io'.sections) && ReplyInv(w, io')
  {
    BystanderSection(w, id, io, io', owner);
    BystanderReply(w, io, io');
  }

  // ----- Steps -----

  lemma ReadStep(store: Store, pos: nat)
    ensures var line := ReadAt(store, pos);
      ReadRest(store, pos) == if line == "" then "" else line + ReadRest(store, pos + |line|)
  {
    var line := ReadAt(store, pos);
    if line != "" {
      match store
      case File(bytes) => FlattenCons(line, Reads.FileReadsFrom(bytes, pos + |line|, LINE_LEN));
      case Device(log) => FlattenCons(line, Reads.ReadsFrom(RecordLog.Visible(log), pos + |line|, LINE_LEN));
    }
  }

  /** When a worker begins to send, what it sees covers its own section. */
  lemma StartsCovered(w: Worker, io: Io)
    requires w.section < |io.sections| && w.snapshot == io.store
    requires History(io.store) == Flatten(BytesOf(io.sections))
    ensures Covers(w, io)
  {
    FlattenSplit(BytesOf(io.sections), w.section + 1);
    assert BytesOf(io.sections)[..w.section + 1] == BytesOf(io.sections[..w.section + 1]);
  }

  /** The worker that moves keeps its own section and its own reply. */
  lemma MoverKeepsSection(w: Worker, id: Id, io: Io, silent: bool, answer: Answer)
    requires SectionInv(w, id, io.sections) && StepWorkerIo(w, id, io, silent, answer).Some?
    ensures var (w', io') := StepWorkerIo(w, id, io, silent, answer).value; SectionInv(w', id, io'.sections)
  {
  }

  lemma Joined(a: string, b: string, c: string)
    ensures a + (b + c) == (a + b) + c && a + "" == a
  {
  }

  lemma StarterKeepsReply(w: Worker, id: Id, io: Io, silent: bool, answer: Answer)
    requires SectionInv(w, id, io.sections) && ReplyInv(w, io) && w.pc.LockingSend?
    requires History(io.store) == Flatten(BytesOf(io.sections))
    requires StepWorkerIo(w, id, io, silent, answer).Some?
    ensures var (w', io') := StepWorkerIo(w, id, io, silent, answer).value; ReplyInv(w', io')
  {
    StartsCovered(StepWorkerIo(w, id, io, silent, answer).value.0, io);
  }

  lemma AllSent(w: Worker, io: Io, w': Worker)
    requires ReplyInv(w, io) && w.pc.Sending? && ReadAt(io.store, w.pc.pos) == ""
    requires w' == w.(pc := Sent(true), replied := true)
    ensures ReplyInv(w', io)
  {
    ReadStep(io.store, w.pc.pos);
    Joined(w.reply, "", "");
    assert Covers(w', io);
  }

  lemma LineSent(w: Worker, io: Io, line: string, w': Worker)
    requires ReplyInv(w, io) && w.pc.Sending? && line == ReadAt(io.store, w.pc.pos) != ""
    requires w' == w.(pc := Sending(w.pc.pos + |line|), reply := w.reply + line)
    ensures ReplyInv(w', io)
  {
    ReadStep(io.store, w.pc.pos);
    Joined(w.reply, line, ReadRest(io.store, w.pc.pos + |line|));
    assert Covers(w', io);
  }

  lemma SenderKeepsReply(w: Worker, id: Id, io: Io, silent: bool, answer: Answer)
    requires ReplyInv(w, io) && w.pc.Sending? && StepWorkerIo(w, id, io, silent, answer).Some?
    ensures var (w', io') := StepWorkerIo(w, id, io, silent, answer).value; ReplyInv(w', io')
  {
    var w', line := StepWorkerIo(w, id, io, silent, answer).value.0, ReadAt(io.store, w.pc.pos);
    if line == "" {
      AllSent(w, io, w');
    } else if answer.Answered? {
      LineSent(w, io, line, w');
    } else {
      assert w' == w.(pc := Sent(false)) && Covers(w', io);
    }
  }

  lemma ReceiverKeepsReply(w: Worker, id: Id, io: Io, silent: bool, answer: Answer)
    requires SectionInv(w, id, io.sections) && ReplyInv(w, io) && BeforeReply(w.pc) && !w.pc.LockingSend?
    requires StepWorkerIo(w, id, io, silent, answer).Some?
    ensures var (w', io') := StepWorkerIo(w, id, io, silent, answer).value; ReplyInv(w', io')
  {
    var w' := StepWorkerIo(w, id, io, silent, answer).value.0;
    assert !w'.replied && !w'.pc.Sending? && w'.reply == "";
  }

  lemma LeaverKeepsReply(w: Worker, id: Id, io: Io, silent: bool, answer: Answer)
    requires ReplyInv(w, io) && !BeforeReply(w.pc) && !w.pc.Sending?
    requires StepWorkerIo(w, id, io, silent, answer).Some?
    ensures var (w', io') := StepWorkerIo(w, id, io, silent, answer).value; ReplyInv(w', io')
  {
    var (w', io') := StepWorkerIo(w, id, io, silent, answer).value;
    assert io'.store == io.store && io'.sections == io.sections;
    assert w' == w.(pc := w'.pc, status := w'.status) && !w'.pc.Sending?;
  }

  lemma MoverKeepsReply(w: Worker, id: Id, io: Io, silent: bool, answer: Answer)
    requires SectionInv(w, id, io.sections) && ReplyInv(w, io)
    requires History(io.store) == Flatten(BytesOf(io.sections))
    requires StepWorkerIo(w, id, io, silent, answer).Some?
    ensures var (w', io') := StepWorkerIo(w, id, io, silent, answer).value; ReplyInv(w', io')
  {
    if w.pc.LockingSend? {
      StarterKeepsReply(w, id, io, silent, answer);
    } else if w.pc.Sending? {
      SenderKeepsReply(w, id, io, silent, answer);
    } else if BeforeReply(w.pc) {
      ReceiverKeepsReply(w, id, io, silent, answer);
    } else {
      LeaverKeepsReply(w, id, io, silent, answer);
    }
  }

  lemma SectionEffect(io: Io, section: Section, store: Store, owner: Owner)
    requires History(io.store) == Flatten(BytesOf(io.sections))
    requires store.File? == io.store.File? && History(store) == History(io.store) + section.bytes
    ensures OthersStay(io, io.(store := store, sections := io.sections + [section]), owner)
  {
    NewSection(io.sections, section);
    var after := io.sections + [section];
    forall i: nat | i < |io.sections|
      ensures SameUpTo(io.sections, after, i)
    {
      assert after[..i + 1] == io.sections[..i + 1];
    }
  }

  lemma ChunkEffect(io: Io, owner: Owner, chunk: string)
    requires History(io.store) == Flatten(BytesOf(io.sections))
    requires io.sections != [] && io.sections[|io.sections| - 1].owner == owner
    ensures OthersStay(io, io.(store := Append(io.store, chunk), sections := AddToLast(io.sections, chunk)), owner)
  {
    LastSectionGrows(io.sections, chunk);
    HistoryGrows(io.store, chunk);
    var n, after := |io.sections| - 1, AddToLast(io.sections, chunk);
    forall i: nat | i < |io.sections| && io.sections[i].owner != owner
      ensures SameUpTo(io.sections, after, i)
    {
      assert i < n;
      assert after[..i + 1] == after[..n][..i + 1] && io.sections[..i + 1] == io.sections[..n][..i + 1];
    }
  }

  lemma QuietEffect(io: Io, io': Io, owner: Owner)
    requires History(io.store) == Flatten(BytesOf(io.sections))
    requires io'.store == io.store && io'.sections == io.sections
    ensures OthersStay(io, io', owner)
  {
    forall i: nat | i < |io.sections|
      ensures SameUpTo(io.sections, io'.sections, i)
    {
    }
  }

  /** What a worker's step does to the file. */
  lemma IoEffect(w: Worker, id: Id, io: Io, silent: bool, answer: Answer)
    requires SectionInv(w, id, io.sections)
    requires History(io.store) == Flatten(BytesOf(io.sections))
    requires StepWorkerIo(w, id, io, silent, answer).Some?
    ensures var io' := StepWorkerIo(w, id, io, silent, answer).value.1;
      && OthersStay(io, io', Client(id))
      && (!w.pc.LockingReceive? && !w.pc.Receiving? ==> io'.sections == io.sections && io'.store == io.store)
  {
    if w.pc.LockingReceive? {
      SectionEffect(io, Section(Client(id), ""), io.store, Client(id));
    } else if w.pc.Receiving? {
      ChunkEffect(io, Client(id), BytesIn(answer));
    } else {
      QuietEffect(io, StepWorkerIo(w, id, io, silent, answer).value.1, Client(id));
    }
  }

  lemma WorkerKeepsMutex(s: State, id: Id, answer: Answer)
    requires MutexInv(s.io, s.workers, s.shut.logger) && StepWorker(s, id, answer).Some?
    ensures var s' := StepWorker(s, id, answer).value; MutexInv(s'.io, s'.workers, s'.shut.logger)
  {
  }

  lemma BystandersKeep(s: State, id: Id, answer: Answer, other: Id)
    requires IoInv(s.io, s.workers, s.shut.logger) && StepWorker(s, id, answer).Some?
    requires other in s.workers && other != id
    ensures var io' := StepWorker(s, id, answer).value.io;
      SectionInv(s.workers[other], other, io'.sections) && ReplyInv(s.workers[other], io')
  {
    var w := s.workers[id];
    IoEffect(w, id, s.io, id in s.silent, answer);
    if w.pc.LockingReceive? || w.pc.Receiving? {
      BystanderKeeps(s.workers[other], other, s.io, StepWorker(s, id, answer).value.io, Client(id));
    }
  }

  lemma WorkerKeepsIo(s: State, id: Id, answer: Answer)
    requires IoInv(s.io, s.workers, s.shut.logger) && StepWorker(s, id, answer).Some?
    ensures var s' := StepWorker(s, id, answer).value; IoInv(s'.io, s'.workers, s'.shut.logger)
  {
    WorkerKeepsMutex(s, id, answer);
    var w := s.workers[id];
    MoverKeepsSection(w, id, s.io, id in s.silent, answer);
    MoverKeepsReply(w, id, s.io, id in s.silent, answer);
    IoEffect(w, id, s.io, id in s.silent, answer);
    forall other | other in s.workers && other != id {
      BystandersKeep(s, id, answer, other);
    }
  }

  lemma LineKeepsIo(io: Io, workers: map<Id, Worker>, line: string)
    requires IoInv(io, workers, Logging)
    ensures var io' := io.(store := Append(io.store, line), sections := io.sections + [Section(Logger, line)]);
      HistoryInv(io', workers) && RepliesInv(io', workers)
  {
    var io' := io.(store := Append(io.store, line), sections := io.sections + [Section(Logger, line)]);
    HistoryGrows(io.store, line);
    SectionEffect(io, Section(Logger, line), io'.store, Logger);
    forall id: Id | id in workers
      ensures SectionInv(workers[id], id, io'.sections) && ReplyInv(workers[id], io')
    {
      BystanderKeeps(workers[id], id, io, io', Logger);
    }
  }

  lemma LoggerKeepsMutex(s: State, line: string, ok: bool)
    requires MutexInv(s.io, s.workers, s.shut.logger) && StepLogger(s, line, ok).Some?
    ensures var s' := StepLogger(s, line, ok).value; MutexInv(s'.io, s'.workers, s'.shut.logger)
  {
  }

  lemma LoggerKeepsIo(s: State, line: string, ok: bool)
    requires IoInv(s.io, s.workers, s.shut.logger) && StepLogger(s, line, ok).Some?
    ensures var s' := StepLogger(s, line, ok).value; IoInv(s'.io, s'.workers, s'.shut.logger)
  {
    LoggerKeepsMutex(s, line, ok);
    var io' := StepLogger(s, line, ok).value.io;
    if s.shut.logger == Logging {
      LineKeepsIo(s.io, s.workers, line);
    } else {
      MutexOnly(s.io, io', s.workers);
    }
  }

  lemma MutexOnly(io: Io, io': Io, workers: map<Id, Worker>)
    requires HistoryInv(io, workers) && RepliesInv(io, workers)
    requires io'.store == io.store && io'.sections == io.sections
    ensures HistoryInv(io', workers) && RepliesInv(io', workers)
  {
  }

  lemma NewWorkerKeepsIo(io: Io, workers: map<Id, Worker>, logger: LoggerPc, id: Id)
    requires IoInv(io, workers, logger) && id !in workers
    ensures IoInv(io, workers[id := NEW_WORKER], logger)
  {
  }

  // ----- What it means for the clients -----

  /** The bytes of every section before section `i`. */
  ghost function Earlier(io: Io, i: nat): string
    requires i <= |io.sections|
  {
    Flatten(BytesOf(io.sections[..i]))
  }

  /** No two threads are inside a locked stretch at once. */
  lemma MutualExclusion(s: State, a: Id, b: Id)
    requires IoInv(s.io, s.workers, s.shut.logger) && a in s.workers && b in s.workers
    requires Holds(s.workers[a].pc)
    ensures Holds(s.workers[b].pc) ==> a == b
    ensures !LoggerHolds(s.shut.logger)
  {
  }

  /** What a client sent is one contiguous block of the history, right after
      everything appended by those who had the mutex before it. */
  lemma MessageContiguous(io: Io, workers: map<Id, Worker>, id: Id)
    requires HistoryInv(io, workers) && id in workers && HasSection(workers[id].pc)
    ensures var w := workers[id];
      && w.section < |io.sections|
      && IsPrefix(Earlier(io, w.section) + w.got, History(io.store))
      && Earlier(io, w.section + 1) == Earlier(io, w.section) + w.got
  {
    var w, all := workers[id], BytesOf(io.sections);
    assert SectionInv(w, id, io.sections);
    FlattenStep(all, w.section);
    FlattenSplit(all, w.section + 1);
    assert all[..w.section] == BytesOf(io.sections[..w.section]);
    assert all[..w.section + 1] == BytesOf(io.sections[..w.section + 1]);
  }

  /** With a plain file, a complete reply is the whole file at one instant, and
      the client finds its own message in it where the history has it. */
  lemma FileReply(io: Io, workers: map<Id, Worker>, id: Id)
    requires HistoryInv(io, workers) && RepliesInv(io, workers)
    requires id in workers && workers[id].replied && io.store.File?
    ensures var w := workers[id];
      && w.reply == History(w.snapshot) && IsPrefix(w.reply, History(io.store))
      && w.section < |io.sections| && IsPrefix(Earlier(io, w.section) + w.got, w.reply)
  {
    var w := workers[id];
    assert ReplyInv(w, io) && SectionInv(w, id, io.sections);
    Reads.FileReadsExact(w.snapshot.bytes, 0, LINE_LEN);
    MessageContiguous(io, workers, id);
    var own := Earlier(io, w.section) + w.got;
    assert own == History(io.store)[..|own|] == w.reply[..|own|];
  }

  /** Any two complete replies from a plain file: one is a prefix of the other. */
  lemma FileRepliesOrdered(io: Io, workers: map<Id, Worker>, a: Id, b: Id)
    requires HistoryInv(io, workers) && RepliesInv(io, workers)
    requires a in workers && workers[a].replied && io.store.File?
    requires b in workers && workers[b].replied
    ensures IsPrefix(workers[a].reply, workers[b].reply) || IsPrefix(workers[b].reply, workers[a].reply)
  {
    FileReply(io, workers, a);
    FileReply(io, workers, b);
    var p, q, all := workers[a].reply, workers[b].reply, History(io.store);
    if |p| <= |q| {
      assert p == all[..|p|] == all[..|q|][..|p|];
    } else {
      assert q == all[..|q|] == all[..|p|][..|q|];
    }
  }

  /** The end of a prefix of the history is a stretch of the history. */
  lemma StretchOf(h: string, kept: string, rest: string, content: string)
    requires IsPrefix(kept + rest, h) && IsSuffix(content, kept)
    ensures |kept| <= |h| && content == h[|kept| - |content|..|kept|]
  {
    var H := kept + rest;
    assert kept == H[..|kept|] == h[..|H|][..|kept|] == h[..|kept|];
  }

  lemma SliceOfSlice(h: string, lo: nat, from: nat, to: nat, hi: nat)
    requires lo <= from <= to <= hi <= |h|
    ensures h[lo..hi][from - lo..to - lo] == h[from..to]
  {
    var a, b := h[lo..hi][from - lo..to - lo], h[from..to];
    assert |a| == |b|;
    assert forall k :: 0 <= k < |b| ==> a[k] == h[lo..hi][from - lo + k] == h[from + k] == b[k];
  }

  lemma FoundInStretch(h: string, lo: nat, hi: nat, before: string, got: string)
    requires lo <= |before| && |before| + |got| <= hi <= |h| && IsPrefix(before + got, h)
    ensures h[lo..hi][|before| - lo..|before| - lo + |got|] == got
  {
    var own := before + got;
    assert got == own[|before|..] == h[..|own|][|before|..] == h[|before|..|own|];
    SliceOfSlice(h, lo, |before|, |own|, hi);
  }

  /** With the device, a complete reply is the last ten records at one instant,
      provided none of them is longer than the read buffer: a stretch of the
      history that ends where the bytes then staged begin. */
  lemma DeviceReply(w: Worker, io: Io)
    requires ReplyInv(w, io) && w.replied && io.store.Device?
    requires w.snapshot.Device? ==> Reads.Fit(RecordLog.Visible(w.snapshot.log), LINE_LEN)
    ensures w.snapshot.Device? && w.reply == RecordLog.Content(w.snapshot.log)
    ensures var h, hi := History(io.store), |Flatten(w.snapshot.log.records)|;
      |w.reply| <= hi <= |h| && w.reply == h[hi - |w.reply|..hi]
  {
    var log := w.snapshot.log;
    var records := RecordLog.Visible(log);
    Reads.ReadsDeliver(records, 0, LINE_LEN);
    assert records[..0] == [] && records[0..] == records;
    FlattenLastN(log.records, RecordLog.KEPT);
    StretchOf(History(io.store), Flatten(log.records), log.staged, w.reply);
  }

  /** A client whose message lies inside that stretch finds it there in one
      piece; MessageContiguous says where the message lies. */
  lemma DeviceReplyHasMessage(w: Worker, io: Io)
    requires ReplyInv(w, io) && w.replied && io.store.Device?
    requires w.snapshot.Device? ==> Reads.Fit(RecordLog.Visible(w.snapshot.log), LINE_LEN)
    requires w.section < |io.sections| && IsPrefix(Earlier(io, w.section) + w.got, History(io.store))
    ensures w.snapshot.Device?
    ensures var hi, from := |Flatten(w.snapshot.log.records)|, |Earlier(io, w.section)|;
      hi - |w.reply| <= from && from + |w.got| <= hi ==>
        var at := from - (hi - |w.reply|);
        0 <= at && at + |w.got| <= |w.reply| && w.reply[at..at + |w.got|] == w.got
  {
    DeviceReply(w, io);
    var hi, before := |Flatten(w.snapshot.log.records)|, Earlier(io, w.section);
    if hi - |w.reply| <= |before| && |before| + |w.got| <= hi {
      FoundInStretch(History(io.store), hi - |w.reply|, hi, before, w.got);
    }
  }
}
