/** The character device as a state machine over its calls (main.c of the
    driver). Allocation failures and short copies are inputs, so every run of
    writes is covered, and what survives which failures is proved. */
module CharDevice {
  import opened Bytes
  import opened RingBuffer
  import opened KernelHeap
  import RecordLog

  const ENOMEM := 12

  /** `committed` is history: the bytes of every entry ever handed to the ring. */
  datatype Device = Device(live: seq<Entry>, staging: Entry, heap: Heap, committed: seq<string>)

  const INITIAL := Device([], ZEROED, KernelHeap.EMPTY, [])

  /** One write call and how the kernel served it: the allocator's outcome and
      the unknown memory it returned, the number of bytes copy_from_user left
      uncopied, and what the memory behind them then holds. */
  datatype WriteCall = WriteCall(buf: string, alloc: Alloc, junk: string, uncopied: nat, tail: string)

  /** copy_from_user leaves at most everything uncopied. */
  predicate Served(c: WriteCall) {
    c.uncopied <= |c.buf|
  }

  /** What copy_from_user did copy: the front of the buffer. */
  function Copied(c: WriteCall): (r: string)
    requires Served(c)
    ensures r <= c.buf && |r| == |c.buf| - c.uncopied
    ensures c.uncopied == 0 ==> r == c.buf
  {
    c.buf[..|c.buf| - c.uncopied]
  }

  /** The `count` bytes a call leaves at the write position. */
  function Arrived(c: WriteCall): (r: string)
    requires Served(c)
    ensures |r| == |c.buf| && forall i :: 0 <= i < |c.buf| - c.uncopied ==> r[i] == c.buf[i]
    ensures c.uncopied == 0 ==> r == c.buf
  {
    Copied(c) + Fit(c.tail, c.uncopied)
  }

  datatype Outcome = Outcome(dev: Device, ret: int)

  /** Staging memory for `count` more bytes: the grown entry in its new heap. */
  function Grow(staging: Entry, heap: Heap, c: WriteCall): (r: (Entry, Heap))
    requires c.alloc != Fails
    requires staging.buffptr in heap.blocks ==> |heap.blocks[staging.buffptr]| <= staging.size + |c.buf|
  {
    if staging.size == 0 then
      var (h, p) := Kmalloc(heap, |c.buf|, c.junk);
      (Entry(p, |c.buf|), h)
    else
      var (h, p) := Krealloc(heap, staging.buffptr, staging.size + |c.buf|, c.alloc, c.junk);
      (Entry(p, staging.size + |c.buf|), h)
  }

  /** The device once the call's bytes are staged. */
  function Stage(d: Device, c: WriteCall): (r: Device)
    requires Inv(d) && Served(c) && c.alloc != Fails
  {
    var (staging, grown) := Grow(d.staging, d.heap, c);
    GrowOwns(d, c);
    d.(staging := staging, heap := CopyIn(grown, staging.buffptr, d.staging.size, Arrived(c)))
  }

  /** The staged entry moves into the ring and the block it pushes out is freed. */
  function Commit(d: Device): (r: Device)
  {
    var evicted := if |d.live| == SLOTS then d.live[0].buffptr else NULL;
    Device(LastN(d.live + [d.staging], SLOTS), ZEROED, Kfree(d.heap, evicted), d.committed + [Staged(d)])
  }

  /** aesd_write. */
  function Write(d: Device, c: WriteCall): (r: Outcome)
    requires Inv(d) && Served(c)
  {
    if c.alloc == Fails then Outcome(d.(staging := d.staging.(buffptr := NULL)), -ENOMEM)
    else
      var staged := Stage(d, c);
      Outcome(if RecordLog.HasNewline(Arrived(c)) then Commit(staged) else staged, |Copied(c)|)
  }

  // ----- What every run keeps, whatever fails -----

  ghost predicate DistinctPtrs(es: seq<Entry>) {
    forall i, j :: 0 <= i < j < |es| ==> es[i].buffptr != es[j].buffptr
  }

  /** An entry whose block is allocated and exactly as long as the entry says. */
  ghost predicate Backed(e: Entry, h: Heap) {
    e.buffptr in h.blocks && |h.blocks[e.buffptr]| == e.size > 0
  }

  /** A failed krealloc has dropped the staged block but not its size. */
  predicate Broken(d: Device) {
    d.staging.size > 0 && d.staging.buffptr == NULL
  }

  ghost function PtrsOf(es: seq<Entry>): set<nat> {
    set i | 0 <= i < |es| :: es[i].buffptr
  }

  lemma PtrsSnoc(es: seq<Entry>, e: Entry)
    ensures PtrsOf(es + [e]) == PtrsOf(es) + {e.buffptr}
  {
    assert (es + [e])[|es|] == e;
    forall i | 0 <= i < |es|
      ensures es[i].buffptr in PtrsOf(es + [e])
    {
      assert (es + [e])[i] == es[i];
    }
  }

  lemma PtrsTail(es: seq<Entry>)
    requires es != [] && DistinctPtrs(es)
    ensures PtrsOf(es[1..]) == PtrsOf(es) - {es[0].buffptr}
  {
    forall i | 1 <= i < |es|
      ensures es[i].buffptr in PtrsOf(es[1..])
    {
      assert es[1..][i - 1] == es[i];
    }
  }

  ghost function LivePtrs(d: Device): set<nat> {
    PtrsOf(d.live)
  }

  ghost function Owned(d: Device): set<nat> {
    LivePtrs(d) + if IsNothing(d.staging.buffptr) then {} else {d.staging.buffptr}
  }

  /** Allocated blocks that nothing points to any more. */
  ghost function Leaked(d: Device): set<nat> {
    d.heap.blocks.Keys - Owned(d)
  }

  function BytesOf(e: Entry, h: Heap): (r: string) {
    if e.buffptr in h.blocks then h.blocks[e.buffptr] else ""
  }

  function Staged(d: Device): (r: string) {
    BytesOf(d.staging, d.heap)
  }

  /** The ring's entries are backed by distinct blocks and hold the last ten commits. */
  ghost predicate RingInv(live: seq<Entry>, h: Heap, committed: seq<string>) {
    && DistinctPtrs(live)
    && |live| == |LastN(committed, SLOTS)|
    && forall i :: 0 <= i < |live| ==>
         Backed(live[i], h) && h.blocks[live[i].buffptr] == LastN(committed, SLOTS)[i]
  }

  /** The staging entry is empty, or backed by a block of its own, or was lost. */
  ghost predicate StagingInv(staging: Entry, h: Heap, owned: set<nat>) {
    if staging.size == 0 then IsNothing(staging.buffptr)
    else staging.buffptr == NULL || (Backed(staging, h) && staging.buffptr !in owned)
  }

  /** What every run of writes keeps. As long as no block has leaked, nothing
      staged holds a newline. */
  ghost predicate Inv(d: Device) {
    && Sound(d.heap)
    && RingInv(d.live, d.heap, d.committed)
    && StagingInv(d.staging, d.heap, LivePtrs(d))
    && (Broken(d) ==> Leaked(d) != {})
    && (Leaked(d) == {} ==> !RecordLog.HasNewline(Staged(d)))
  }

  /** After growing, the staging entry is backed and still apart from the ring. */
  lemma GrowOwns(d: Device, c: WriteCall)
    requires Inv(d) && Served(c) && c.alloc != Fails
    ensures var (e, h) := Grow(d.staging, d.heap, c);
      && Sound(h)
      && e.size == d.staging.size + |c.buf|
      && (if e.size == 0 then e.buffptr == ZERO_SIZE_PTR && h == d.heap
          else Backed(e, h) && e.buffptr !in LivePtrs(d))
      && (forall p :: p in d.heap.blocks && p != d.staging.buffptr ==>
            p in h.blocks && h.blocks[p] == d.heap.blocks[p])
      && (forall p :: p in h.blocks ==> p == e.buffptr || (p in d.heap.blocks && p != d.staging.buffptr))
      && (d.staging.size > 0 && !Broken(d) ==> h.blocks[e.buffptr][..d.staging.size] == Staged(d))
  {
  }

  /** The one allocation failure that does damage: growing a staged block. */
  predicate Loses(d: Device, c: WriteCall) {
    d.staging.size > 0 && c.alloc == Fails
  }

  /** A call that neither loses the staged block nor is accepted with a short copy. */
  predicate Clean(d: Device, c: WriteCall) {
    if c.alloc == Fails then d.staging.size == 0 else c.uncopied == 0
  }

  /** What the call told its caller it took. */
  function Acked(c: WriteCall): (r: string)
    requires Served(c)
  {
    if c.alloc == Fails then "" else Copied(c)
  }

  /** Copying in keeps everything but the newline clause, and adds the bytes. */
  lemma CopyKeeps(d: Device, c: WriteCall)
    requires Inv(d) && Served(c) && c.alloc != Fails
    ensures var m := Stage(d, c);
      && Sound(m.heap) && m.live == d.live && m.committed == d.committed
      && RingInv(m.live, m.heap, m.committed)
      && m.staging.size == d.staging.size + |c.buf|
      && (if m.staging.size == 0 then m.staging.buffptr == ZERO_SIZE_PTR
          else Backed(m.staging, m.heap) && m.staging.buffptr !in LivePtrs(d))
      && Leaked(m) == Leaked(d)
      && (!Broken(d) ==> Staged(m) == Staged(d) + Arrived(c))
  {
    GrowOwns(d, c);
    assert LivePtrs(Stage(d, c)) == LivePtrs(d);
  }

  /** Pushing a backed entry and freeing the block it evicts. */
  lemma PushKeeps(live: seq<Entry>, e: Entry, h: Heap, committed: seq<string>)
    requires Sound(h) && RingInv(live, h, committed) && Backed(e, h) && e.buffptr !in PtrsOf(live)
    ensures var live' := LastN(live + [e], SLOTS);
      var h' := Kfree(h, if |live| == SLOTS then live[0].buffptr else NULL);
      && Sound(h') && RingInv(live', h', committed + [h.blocks[e.buffptr]])
      && h'.blocks.Keys - PtrsOf(live') == h.blocks.Keys - PtrsOf(live) - {e.buffptr}
  {
    var live' := LastN(live + [e], SLOTS);
    if |live| == SLOTS {
      assert live' == live[1..] + [e];
      PtrsTail(live);
      PtrsSnoc(live[1..], e);
      assert NULL !in h.blocks;
    } else {
      PtrsSnoc(live, e);
    }
  }

  lemma CommitKeeps(m: Device)
    requires Sound(m.heap) && RingInv(m.live, m.heap, m.committed)
    requires Backed(m.staging, m.heap) && m.staging.buffptr !in LivePtrs(m)
    ensures Inv(Commit(m)) && Leaked(Commit(m)) == Leaked(m)
  {
    PushKeeps(m.live, m.staging, m.heap, m.committed);
    assert Owned(m) == LivePtrs(m) + {m.staging.buffptr};
    assert Owned(Commit(m)) == LivePtrs(Commit(m));
  }

  /** One write, whatever the kernel does: the invariant holds on, a block leaks
      exactly when a staged one could not be grown, and the bytes held grow by
      what was acknowledged plus what was left uncopied. */
  lemma WriteKeeps(d: Device, c: WriteCall)
    requires Inv(d) && Served(c)
    ensures var d' := Write(d, c).dev;
      && Inv(d')
      && Leaked(d) <= Leaked(d')
      && (Leaked(d') == {} <==> Leaked(d) == {} && !Loses(d, c))
      && HeldSize(d') == HeldSize(d) + |Acked(c)| + if c.alloc == Fails then 0 else c.uncopied
  {
    var d' := Write(d, c).dev;
    if c.alloc == Fails {
      if Loses(d, c) && !Broken(d) {
        assert d.staging.buffptr in Leaked(d');
      }
    } else {
      CopyKeeps(d, c);
      if RecordLog.HasNewline(Arrived(c)) {
        CommitKeeps(Stage(d, c));
        FlattenSnoc(d.committed, Staged(Stage(d, c)));
      } else {
        assert d' == Stage(d, c);
      }
    }
  }

  /** Bytes in every entry ever committed and in the staging entry. */
  ghost function HeldSize(d: Device): nat {
    |Flatten(d.committed)| + d.staging.size
  }

  /** The device as a record log. */
  function LogOf(d: Device): (r: RecordLog.Log) {
    RecordLog.Log(d.committed, Staged(d))
  }

  /** Some byte the call left at the write position is a newline. */
  ghost predicate LeavesNewline(c: WriteCall)
    requires Served(c)
  {
    exists i :: 0 <= i < |c.buf| && Arrived(c)[i] == '\n'
  }

  /** A write commits exactly when it is accepted and left a newline; what it
      commits is what was staged and then what it left. */
  lemma WriteCommits(d: Device, c: WriteCall)
    requires Inv(d) && Served(c)
    ensures var d' := Write(d, c).dev;
      if c.alloc != Fails && LeavesNewline(c) then
        && d'.staging == ZEROED && |d'.committed| == |d.committed| + 1 && d.committed <= d'.committed
        && var record := d'.committed[|d.committed|];
           && |record| == d.staging.size + |c.buf| && IsSuffix(Arrived(c), record)
           && (!Broken(d) ==> record == Staged(d) + Arrived(c))
      else d'.committed == d.committed && d'.live == d.live
  {
    if c.alloc != Fails {
      CopyKeeps(d, c);
    }
  }

  /** What a write leaves in the log: an accepted one appends what arrived, a
      refused one the staged bytes at most, and those only if there were any. */
  lemma WriteLeaves(d: Device, c: WriteCall)
    requires Inv(d) && Served(c) && !Broken(d)
    ensures var d' := Write(d, c).dev;
      && LogOf(d') == (if c.alloc == Fails then LogOf(d).(staged := "") else RecordLog.Append(LogOf(d), Arrived(c)))
      && (Broken(d') <==> c.alloc == Fails && LogOf(d).staged != "")
  {
    if c.alloc != Fails {
      CopyKeeps(d, c);
    }
  }

  /** A clean write is an append of exactly the acknowledged bytes. */
  lemma CleanWriteAppends(d: Device, c: WriteCall)
    requires Inv(d) && Served(c) && !Broken(d) && Clean(d, c)
    ensures var r := Write(d, c);
      && LogOf(r.dev) == (if c.alloc == Fails then LogOf(d) else RecordLog.Append(LogOf(d), c.buf))
      && (c.alloc != Fails ==> r.ret == |c.buf|)
      && !Broken(r.dev)
  {
    WriteLeaves(d, c);
  }

  // ----- Runs -----

  function Run(d: Device, calls: seq<WriteCall>): (r: Device)
    requires Inv(d) && AllServed(calls)
    ensures Inv(r)
    decreases |calls|
  {
    if calls == [] then d
    else
      WriteKeeps(d, calls[0]);
      Run(Write(d, calls[0]).dev, calls[1..])
  }

  ghost predicate AllServed(calls: seq<WriteCall>) {
    forall i :: 0 <= i < |calls| ==> Served(calls[i])
  }

  /** Every call of the run is clean in the state it meets. */
  ghost predicate CleanRun(d: Device, calls: seq<WriteCall>)
    requires Inv(d) && AllServed(calls)
    decreases |calls|
  {
    calls != [] ==>
      && Clean(d, calls[0])
      && (WriteKeeps(d, calls[0]); CleanRun(Write(d, calls[0]).dev, calls[1..]))
  }

  /** The payloads a run acknowledged. */
  function AckedRun(calls: seq<WriteCall>): (r: seq<string>)
    requires AllServed(calls)
  {
    if calls == [] then []
    else if calls[0].alloc == Fails then AckedRun(calls[1..])
    else [Copied(calls[0])] + AckedRun(calls[1..])
  }

  /** The bytes left uncopied by the calls that were accepted. */
  ghost function Shortfall(calls: seq<WriteCall>): nat {
    if calls == [] then 0
    else (if calls[0].alloc == Fails then 0 else calls[0].uncopied) + Shortfall(calls[1..])
  }

  ghost predicate NoLoss(d: Device, calls: seq<WriteCall>)
    requires Inv(d) && AllServed(calls)
    decreases |calls|
  {
    calls != [] ==>
      && !Loses(d, calls[0])
      && (WriteKeeps(d, calls[0]); NoLoss(Write(d, calls[0]).dev, calls[1..]))
  }

  /** Over any run, blocks leak exactly when some call loses the staged block. */
  lemma {:induction false} RunLeaks(d: Device, calls: seq<WriteCall>)
    requires Inv(d) && AllServed(calls)
    ensures Leaked(Run(d, calls)) == {} <==> Leaked(d) == {} && NoLoss(d, calls)
    decreases |calls|
  {
    if calls != [] {
      WriteKeeps(d, calls[0]);
      RunLeaks(Write(d, calls[0]).dev, calls[1..]);
    }
  }

  /** Over any run, the bytes held grow by the acknowledged and the uncopied ones. */
  lemma {:induction false} RunSize(d: Device, calls: seq<WriteCall>)
    requires Inv(d) && AllServed(calls)
    ensures HeldSize(Run(d, calls)) == HeldSize(d) + |Flatten(AckedRun(calls))| + Shortfall(calls)
    decreases |calls|
  {
    if calls != [] {
      WriteKeeps(d, calls[0]);
      RunSize(Write(d, calls[0]).dev, calls[1..]);
      if calls[0].alloc != Fails {
        assert ([Copied(calls[0])] + AckedRun(calls[1..]))[1..] == AckedRun(calls[1..]);
      }
    }
  }

  /** A clean run is the log of its acknowledged payloads. */
  lemma {:induction false} CleanRunAppends(d: Device, calls: seq<WriteCall>)
    requires Inv(d) && AllServed(calls) && !Broken(d) && CleanRun(d, calls)
    ensures LogOf(Run(d, calls)) == RecordLog.AppendAll(LogOf(d), AckedRun(calls))
    decreases |calls|
  {
    if calls != [] {
      var c, rest := calls[0], calls[1..];
      WriteKeeps(d, c);
      CleanWriteAppends(d, c);
      var d' := Write(d, c).dev;
      CleanRunAppends(d', rest);
      assert Run(d, calls) == Run(d', rest);
      if c.alloc != Fails {
        RecordLog.AppendAllCons(LogOf(d), c.buf, AckedRun(rest));
        assert AckedRun(calls) == [c.buf] + AckedRun(rest);
      }
    }
  }

  /** A run is clean when it loses no block and every accepted copy was full. */
  lemma {:induction false} CleanRunMeans(d: Device, calls: seq<WriteCall>)
    requires Inv(d) && AllServed(calls)
    ensures CleanRun(d, calls) <==> NoLoss(d, calls) && Shortfall(calls) == 0
    decreases |calls|
  {
    if calls != [] {
      WriteKeeps(d, calls[0]);
      CleanRunMeans(Write(d, calls[0]).dev, calls[1..]);
    }
  }

  /** Commits and staging together are every acknowledged byte, in order. */
  ghost predicate Conserved(d: Device, acked: string) {
    |Staged(d)| == d.staging.size && Flatten(d.committed) + Staged(d) == acked
  }

  lemma InitialInv()
    ensures Inv(INITIAL) && Leaked(INITIAL) == {} && LogOf(INITIAL) == RecordLog.EMPTY
  {
  }

  /** Over every run from module load: no block is unaccounted for and no byte
      is lost, added or moved, exactly when every call was clean. */
  lemma RunExact(calls: seq<WriteCall>)
    requires AllServed(calls)
    ensures Inv(INITIAL)
    ensures var d := Run(INITIAL, calls);
      Leaked(d) == {} && Conserved(d, Flatten(AckedRun(calls))) <==> CleanRun(INITIAL, calls)
  {
    InitialInv();
    RunLeaks(INITIAL, calls);
    RunSize(INITIAL, calls);
    CleanRunMeans(INITIAL, calls);
    if CleanRun(INITIAL, calls) {
      CleanRunAppends(INITIAL, calls);
      RecordLog.AppendAllHistory(LogOf(INITIAL), AckedRun(calls));
    }
  }

  /** Scanning only the bytes of the call for a newline, as the driver does, is
      scanning everything staged. */
  lemma ScanSuffices(d: Device, c: WriteCall)
    requires Inv(d) && Leaked(d) == {} && Served(c) && c.alloc != Fails
    ensures var staged := Staged(Stage(d, c));
      (exists i :: 0 <= i < |c.buf| && Arrived(c)[i] == '\n') <==> (exists i :: 0 <= i < |staged| && staged[i] == '\n')
  {
    CopyKeeps(d, c);
    RecordLog.NewlineInEither(Staged(d), Arrived(c));
    assert RecordLog.HasNewline(Arrived(c)) <==> RecordLog.HasNewline(Staged(Stage(d, c)));
  }

  /** The live entries hold the last ten closed groups. */
  ghost predicate LiveAre(d: Device, closed: seq<seq<string>>) {
    && |d.live| == (if |closed| <= SLOTS then |closed| else SLOTS)
    && forall i :: 0 <= i < |d.live| ==> BytesOf(d.live[i], d.heap) == Flatten(closed[|closed| - |d.live| + i])
  }

  /** The live entries are the last ten records of these payloads, each record
      newline-free payloads and then one with a newline. */
  ghost predicate HoldsRecords(d: Device, payloads: seq<string>) {
    var g := RecordLog.Regroup(payloads);
    RecordLog.CutsAtNewlines(g, payloads) && RecordLog.Stores(LogOf(d), g) && LiveAre(d, g.closed)
  }

  lemma LiveRecords(d: Device, g: RecordLog.Grouping)
    requires Inv(d) && RecordLog.Stores(LogOf(d), g)
    ensures LiveAre(d, g.closed)
  {
    forall i | 0 <= i < |d.live|
      ensures BytesOf(d.live[i], d.heap) == Flatten(g.closed[|g.closed| - |d.live| + i])
    {
      assert Backed(d.live[i], d.heap);
      assert LastN(d.committed, SLOTS)[i] == d.committed[|g.closed| - |d.live| + i];
    }
  }

  lemma LogHoldsRecords(d: Device, payloads: seq<string>)
    requires Inv(d) && LogOf(d) == RecordLog.AppendAll(RecordLog.EMPTY, payloads)
    ensures HoldsRecords(d, payloads)
  {
    RecordLog.RecordsAreGroups(payloads);
    LiveRecords(d, RecordLog.Regroup(payloads));
  }

  /** So it is after every clean run on a device that nothing was written to. */
  lemma CleanRunRecords(d: Device, calls: seq<WriteCall>)
    requires Inv(d) && !Broken(d) && LogOf(d) == RecordLog.EMPTY
    requires AllServed(calls) && CleanRun(d, calls)
    ensures HoldsRecords(Run(d, calls), AckedRun(calls))
  {
    CleanRunAppends(d, calls);
    LogHoldsRecords(Run(d, calls), AckedRun(calls));
  }

  /** Two ways to be unclean: a staged block that cannot grow, and a short copy. */
  lemma UncleanRuns()
    ensures Inv(INITIAL)
    ensures var lost := [WriteCall("a", Moves, "", 0, ""), WriteCall("b", Fails, "", 0, "")];
      AllServed(lost) && !CleanRun(INITIAL, lost) && Leaked(Run(INITIAL, lost)) != {}
    ensures var short := [WriteCall("ab", Moves, "", 1, "?")];
      AllServed(short) && !CleanRun(INITIAL, short) && !Conserved(Run(INITIAL, short), "a")
  {
    InitialInv();
    var a := WriteCall("a", Moves, "", 0, "");
    var lost := [a, WriteCall("b", Fails, "", 0, "")];
    WriteKeeps(INITIAL, a);
    assert lost[1..] == [lost[1]];
    assert Write(INITIAL, a).dev.staging.size == 1;
    RunLeaks(INITIAL, lost);
    var short := [WriteCall("ab", Moves, "", 1, "?")];
    RunSize(INITIAL, short);
  }
}
