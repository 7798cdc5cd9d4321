/** The two halves of serving a client (socket_client.c) against the character
    device: receive in chunks and append each, then read from the start and send. */
module SocketClient {
  import opened Bytes
  import opened RingBuffer
  import opened KernelHeap
  import opened CharDevice
  import opened CharDriver
  import opened ServerConfig
  import RecordLog
  import Reads

  /** A recv call: an error, or bytes, together with whether the file was opened,
      how their write is served, and whether the file was closed. */
  datatype Recv = Failed | Got(didOpen: bool, call: WriteCall, didClose: bool)

  const HUNG_UP := Got(true, WriteCall("", Moves, "", 0, ""), true)

  /** The k-th recv of a client; after its script the peer has hung up. */
  function RecvAt(script: seq<Recv>, k: nat): (r: Recv) {
    if k < |script| then script[k] else HUNG_UP
  }

  ghost predicate Possible(received: Recv) {
    received.Got? ==> Served(received.call) && |received.call.buf| <= BUFFER_SIZE
  }

  /** recv returns at most a buffer full. */
  ghost predicate Plausible(script: seq<Recv>) {
    forall k :: 0 <= k < |script| ==> Possible(script[k])
  }

  /** The chunk was received, and all of it appended without an error. */
  predicate Goes(received: Recv) {
    received.Got? && received.didOpen && received.call.alloc != Fails && received.call.uncopied == 0 && received.didClose
  }

  /** What a turn of the receive loop leaves in the log, errors included. A file
      that was not opened leaves it alone, a refused write costs what was staged,
      a short copy is appended as it arrived, and a failed close changes nothing. */
  function Leaves(log: RecordLog.Log, received: Recv): (r: RecordLog.Log)
    requires received.Got? ==> Served(received.call)
  {
    if received.Failed? || !received.didOpen then log
    else if received.call.alloc == Fails then log.(staged := "")
    else RecordLog.Append(log, Arrived(received.call))
  }

  /** A turn that goes leaves the chunk appended. */
  lemma GoesAppends(log: RecordLog.Log, received: Recv)
    requires Possible(received) && Goes(received)
    ensures Leaves(log, received) == RecordLog.Append(log, received.call.buf)
  {
  }

  /** The turn leaves the driver with a staged size and no staged block. */
  predicate Breaks(log: RecordLog.Log, received: Recv) {
    received.Got? && received.didOpen && received.call.alloc == Fails && log.staged != ""
  }

  /** The chunks of a complete message: full buffers, then one that is not. */
  ghost predicate IsMessage(script: seq<Recv>, chunks: seq<string>) {
    && EndsShort(chunks)
    && forall k :: 0 <= k < |chunks| ==> Goes(RecvAt(script, k)) && chunks[k] == RecvAt(script, k).call.buf
  }

  /** append_to_file on the device: an error unless the file was opened, all of it
      written and the file closed. */
  method AppendToFile(dev: AesdDevice, received: Recv) returns (result: int)
    requires dev.Valid() && received.Got? && Possible(received)
    modifies dev, dev.ring, dev.ring.entry
    ensures dev.Valid() && (result == 0 <==> Goes(received)) && (result == 0 || result == -1)
    ensures HeldSize(dev.State()) <= HeldSize(old(dev.State())) + |received.call.buf|
    ensures !Broken(old(dev.State())) ==>
      && LogOf(dev.State()) == Leaves(LogOf(old(dev.State())), received)
      && (Broken(dev.State()) <==> Breaks(LogOf(old(dev.State())), received))
  {
    ghost var before := dev.State();
    var written, pos := -1, 0;
    if received.didOpen {
      written, pos := dev.Write(received.call, pos);
      WriteKeeps(before, received.call);
      if !Broken(before) {
        WriteLeaves(before, received.call);
      }
    }
    if written < 0 || written != |received.call.buf| || !received.didClose {
      return -1;
    }
    result := 0;
  }

  /** One turn of the receive loop: an error, or a chunk appended. */
  method ReceiveChunk(dev: AesdDevice, received: Recv) returns (result: int)
    requires dev.Valid() && Possible(received)
    modifies dev, dev.ring, dev.ring.entry
    ensures dev.Valid() && (result == 0 <==> Goes(received)) && (result == 0 || result == -1)
    ensures HeldSize(dev.State()) <= HeldSize(old(dev.State())) + BUFFER_SIZE
    ensures !Broken(old(dev.State())) ==>
      && LogOf(dev.State()) == Leaves(LogOf(old(dev.State())), received)
      && (Broken(dev.State()) <==> Breaks(LogOf(old(dev.State())), received))
  {
    if received.Failed? {
      return -1;
    }
    result := AppendToFile(dev, received);
  }

  /** The first `n` chunks of a client's script were received and appended, all
      of them full buffers. */
  ghost predicate FullChunks(script: seq<Recv>, chunks: seq<string>) {
    && |chunks| <= |script|
    && forall k :: 0 <= k < |chunks| ==>
         Goes(script[k]) && chunks[k] == script[k].call.buf && |chunks[k]| == BUFFER_SIZE
  }

  /** Full chunks went in, and then a turn of the loop did not go. */
  ghost predicate StopsShort(script: seq<Recv>, chunks: seq<string>) {
    |chunks| < |script| && FullChunks(script, chunks) && !Goes(script[|chunks|])
  }

  /** A complete message goes on past any full chunks, and its chunks all go. */
  lemma MessageGoesOn(script: seq<Recv>, chunks: seq<string>, message: seq<string>)
    requires FullChunks(script, chunks) && IsMessage(script, message)
    ensures |chunks| < |message| && Goes(RecvAt(script, |chunks|))
  {
    forall k | 0 <= k < |chunks| && k < |message|
      ensures |message[k]| == BUFFER_SIZE
    {
      ChunkAt(script, chunks, message, k);
    }
  }

  /** The message's chunks are the script's, full ones included. */
  lemma ChunkAt(script: seq<Recv>, chunks: seq<string>, message: seq<string>, k: nat)
    requires FullChunks(script, chunks) && k < |chunks| && k < |message|
    requires Goes(RecvAt(script, k)) && message[k] == RecvAt(script, k).call.buf
    ensures |message[k]| == BUFFER_SIZE
  {
  }

  lemma NoMessage(script: seq<Recv>, chunks: seq<string>)
    requires StopsShort(script, chunks)
    ensures !HasMessage(script)
  {
    if message :| IsMessage(script, message) {
      MessageGoesOn(script, chunks, message);
    }
  }

  ghost predicate HasMessage(script: seq<Recv>) {
    exists chunks :: IsMessage(script, chunks)
  }

  /** Full chunks went in, and then a turn of the loop did not go; the log has
      those chunks and what that turn left. */
  ghost predicate BrokeOff(log: RecordLog.Log, script: seq<Recv>, chunks: seq<string>, after: RecordLog.Log)
    requires Plausible(script)
  {
    && StopsShort(script, chunks)
    && after == Leaves(RecordLog.AppendAll(log, chunks), script[|chunks|])
  }

  /** Whatever the client and the kernel do: if receiving reports success, the log
      has grown by exactly the client's message, chunk by chunk; if not, by the
      full chunks before the turn that failed and what that turn left. */
  method ReceiveAndWriteData(dev: AesdDevice, script: seq<Recv>) returns (result: int, ghost chunks: seq<string>)
    requires dev.Valid() && Plausible(script)
    modifies dev, dev.ring, dev.ring.entry
    ensures dev.Valid() && (result == 0 || result == -1)
    ensures HeldSize(dev.State()) <= HeldSize(old(dev.State())) + (|script| + 1) * BUFFER_SIZE
    ensures result == 0 <==> HasMessage(script)
    ensures if result == 0 then IsMessage(script, chunks) else StopsShort(script, chunks)
    ensures result == 0 && !Broken(old(dev.State())) ==>
      !Broken(dev.State()) && LogOf(dev.State()) == RecordLog.AppendAll(LogOf(old(dev.State())), chunks)
    ensures result == -1 && !Broken(old(dev.State())) ==>
      BrokeOff(LogOf(old(dev.State())), script, chunks, LogOf(dev.State()))
  {
    ghost var before := dev.State();
    ghost var log, sound := LogOf(before), !Broken(before);
    chunks := [];
    var k := 0;
    var more := true;
    while more
      invariant dev.Valid() && k == |chunks| <= |script| + 1 && (more ==> k <= |script|)
      invariant if more then FullChunks(script, chunks) else IsMessage(script, chunks)
      invariant sound ==> !Broken(dev.State()) && LogOf(dev.State()) == RecordLog.AppendAll(log, chunks)
      invariant HeldSize(dev.State()) <= HeldSize(before) + k * BUFFER_SIZE
      decreases more, |script| - k
    {
      var received := RecvAt(script, k);
      result := ReceiveChunk(dev, received);
      if result == -1 {
        NoMessage(script, chunks);
        return;
      }
      ReceiveStep(script, chunks, log);
      chunks := chunks + [received.call.buf];
      more := |received.call.buf| == BUFFER_SIZE;
      k := k + 1;
    }
    result := 0;
  }

  lemma ReceiveStep(script: seq<Recv>, chunks: seq<string>, log: RecordLog.Log)
    requires FullChunks(script, chunks) && Plausible(script) && Goes(RecvAt(script, |chunks|))
    ensures var received := RecvAt(script, |chunks|);
      && (if |received.call.buf| == BUFFER_SIZE then FullChunks(script, chunks + [received.call.buf])
          else IsMessage(script, chunks + [received.call.buf]))
      && RecordLog.AppendAll(log, chunks + [received.call.buf]) == Leaves(RecordLog.AppendAll(log, chunks), received)
  {
    var received := RecvAt(script, |chunks|);
    GoesAppends(RecordLog.AppendAll(log, chunks), received);
    RecordLog.AppendAllSnoc(log, chunks, received.call.buf);
  }

  // ----- Sending -----

  /** How much of the n-th send the socket took. */
  function SentAt(sends: seq<nat>, n: nat): (r: nat) {
    if n < |sends| then sends[n] else LINE_LEN
  }

  /** The socket took the first `n` lines whole. */
  ghost predicate TookWhole(sends: seq<nat>, lines: seq<string>, n: nat)
    requires n <= |lines|
  {
    forall k :: 0 <= k < n ==> |lines[k]| <= if k < |sends| then sends[k] else LINE_LEN
  }

  /** What the client got when not all went out: the lines before the first that
      the socket did not take whole. */
  ghost predicate CutOff(sends: seq<nat>, lines: seq<string>, sent: seq<string>) {
    && |sent| < |lines| && sent == lines[..|sent|]
    && TookWhole(sends, lines, |sent|) && !TookWhole(sends, lines, |sent| + 1)
  }

  /** What a sender relies on: the device shows `records`, and no position it
      comes to wraps. */
  ghost predicate Shows(dev: AesdDevice, records: seq<string>)
    reads dev, dev.ring, dev.ring.entry
  {
    dev.Valid() && records == Visible(dev.State()) && |Flatten(records)| + LINE_LEN < SIZE_T
  }

  /** One read with the server's buffer. */
  method ReadLine(dev: AesdDevice, pos: nat, short: nat, ghost records: seq<string>) returns (line: string, pos': nat)
    requires Shows(dev, records) && pos < |Flatten(records)| + LINE_LEN
    ensures line == Reads.Cut(Reads.ReadAt(records, pos, LINE_LEN), short) && pos' == pos + |line|
  {
    ReadableSize(dev.State());
    line, pos' := dev.Read(pos, LINE_LEN, short);
  }

  /** All reads of a file are those sent so far, each taken whole, and those
      still to come from `start`, of which `line` is the first. */
  ghost predicate Sending(sends: seq<nat>, all: seq<string>, records: seq<string>,
                          sent: seq<string>, start: nat, shorts: seq<nat>, line: string) {
    && all == sent + Reads.ShortReadsFrom(records, start, LINE_LEN, shorts)
    && line == Reads.Cut(Reads.ReadAt(records, start, LINE_LEN), Reads.ShortNow(shorts))
    && TookWhole(sends, all, |sent|)
  }

  lemma SendStart(sends: seq<nat>, records: seq<string>, shorts: seq<nat>)
    ensures Sending(sends, Reads.ShortReadsFrom(records, 0, LINE_LEN, shorts), records, [], 0, shorts,
                    Reads.Cut(Reads.ReadAt(records, 0, LINE_LEN), Reads.ShortNow(shorts)))
  {
  }

  /** `line` comes right after the lines sent so far. */
  ghost predicate IsNext(all: seq<string>, sent: seq<string>, line: string) {
    |sent| < |all| && all[..|sent|] == sent && all[|sent|] == line
  }

  lemma NextLine(sends: seq<nat>, all: seq<string>, records: seq<string>,
                 sent: seq<string>, start: nat, shorts: seq<nat>, line: string)
    requires Sending(sends, all, records, sent, start, shorts, line) && line != ""
    ensures IsNext(all, sent, line) && start < |Flatten(records)| && |line| <= LINE_LEN
    ensures all == (sent + [line]) + Reads.ShortReadsFrom(records, start + |line|, LINE_LEN, Reads.Rest(shorts))
  {
    var rest := Reads.ShortReadsFrom(records, start + |line|, LINE_LEN, Reads.Rest(shorts));
    assert sent + ([line] + rest) == (sent + [line]) + rest;
  }

  lemma LineSent(sends: seq<nat>, all: seq<string>, sent: seq<string>, line: string)
    requires IsNext(all, sent, line) && TookWhole(sends, all, |sent|)
    ensures if SentAt(sends, |sent|) < |line| then CutOff(sends, all, sent) && !TookWhole(sends, all, |all|)
            else TookWhole(sends, all, |sent| + 1)
  {
  }

  lemma SendStep(sends: seq<nat>, all: seq<string>, records: seq<string>,
                 sent: seq<string>, start: nat, shorts: seq<nat>, line: string)
    requires Sending(sends, all, records, sent, start, shorts, line) && line != ""
    ensures start < |Flatten(records)| && |line| <= LINE_LEN
    ensures
      if SentAt(sends, |sent|) < |line| then CutOff(sends, all, sent) && !TookWhole(sends, all, |all|)
      else
        var pos, left := start + |line|, Reads.Rest(shorts);
        Sending(sends, all, records, sent + [line], pos, left,
                Reads.Cut(Reads.ReadAt(records, pos, LINE_LEN), Reads.ShortNow(left)))
  {
    NextLine(sends, all, records, sent, start, shorts, line);
    LineSent(sends, all, sent, line);
  }

  lemma SendEnd(sends: seq<nat>, all: seq<string>, records: seq<string>, sent: seq<string>, start: nat, shorts: seq<nat>)
    requires Sending(sends, all, records, sent, start, shorts, "")
    ensures sent == all && TookWhole(sends, all, |all|)
  {
  }

  /** Sending reads from position zero until a read returns nothing. It succeeds
      exactly when the socket takes every line whole, and otherwise stops at the
      first it does not. */
  method SendFile(dev: AesdDevice, shorts: seq<nat>, sends: seq<nat>, ghost records: seq<string>) returns (result: int, sent: seq<string>)
    requires Shows(dev, records)
    ensures result == 0 || result == -1
    ensures var lines := Reads.ShortReadsFrom(records, 0, LINE_LEN, shorts);
      && (result == 0 <==> TookWhole(sends, lines, |lines|))
      && (result == 0 ==> sent == lines)
      && (result == -1 ==> CutOff(sends, lines, sent))
  {
    ghost var all := Reads.ShortReadsFrom(records, 0, LINE_LEN, shorts);
    sent := [];
    ghost var start := 0;
    var left := shorts;
    var line, pos := ReadLine(dev, 0, Reads.ShortNow(left), records);
    SendStart(sends, records, shorts);
    while line != ""
      invariant pos == start + |line| && Sending(sends, all, records, sent, start, left, line)
      decreases |Flatten(records)| - start
    {
      SendStep(sends, all, records, sent, start, left, line);
      if SentAt(sends, |sent|) < |line| {
        return -1, sent;
      }
      sent, left := sent + [line], Reads.Rest(left);
      start := pos;
      line, pos := ReadLine(dev, pos, Reads.ShortNow(left), records);
    }
    SendEnd(sends, all, records, sent, start, left);
    result := 0;
  }

  lemma ReadableSize(d: Device)
    requires Inv(d)
    ensures |Flatten(Visible(d))| == TotalSize(d.live)
  {
    SizesAreLengths(d, |d.live|);
    assert Visible(d)[..|d.live|] == Visible(d) && d.live[..|d.live|] == d.live;
  }

  /** The visible records are never empty, so they can be read one by one. */
  lemma VisibleNotEmpty(d: Device)
    requires Inv(d)
    ensures Reads.NoneEmpty(Visible(d))
  {
    forall i | 0 <= i < |Visible(d)|
      ensures |Visible(d)[i]| > 0
    {
      assert Backed(d.live[i], d.heap);
    }
  }

  lemma ShowsHeld(dev: AesdDevice)
    requires dev.Valid() && HeldSize(dev.State()) + LINE_LEN < SIZE_T
    ensures Shows(dev, Visible(dev.State()))
  {
    FlattenLastN(dev.committed, SLOTS);
  }

  // ----- The whole service -----

  ghost predicate AllFull(shorts: seq<nat>) {
    forall i :: 0 <= i < |shorts| ==> shorts[i] == 0
  }

  /** What a client that was served successfully got: the whole content of the
      log after its message, a stretch of what was ever written. If the message
      closed no record the content is as before; else what of the message is not
      left staged ends the reply exactly when it closed at most ten records. */
  ghost predicate Answers(before: RecordLog.Log, chunks: seq<string>, after: RecordLog.Log, reply: string) {
    var message := Flatten(chunks);
    && after == RecordLog.AppendAll(before, chunks)
    && RecordLog.History(after) == RecordLog.History(before) + message
    && reply == RecordLog.Content(after) && IsSuffix(reply, Flatten(after.records))
    && (RecordLog.Closers(chunks) == 0 ==> reply == RecordLog.Content(before) && after.staged == before.staged + message)
    && (RecordLog.Closers(chunks) > 0 ==>
          && |after.staged| <= |message| && IsSuffix(after.staged, message)
          && (IsSuffix(RecordLog.InRecords(message, after.staged), reply) <==> RecordLog.Closers(chunks) <= RecordLog.KEPT))
  }

  lemma ReplyEndsWithMessage(before: RecordLog.Log, after: Device, chunks: seq<string>, shorts: seq<nat>)
    requires Inv(after) && LogOf(after) == RecordLog.AppendAll(before, chunks)
    requires Reads.Fit(Visible(after), LINE_LEN) && AllFull(shorts)
    ensures Answers(before, chunks, LogOf(after), Flatten(Reads.ShortReadsFrom(Visible(after), 0, LINE_LEN, shorts)))
  {
    Reads.FullReads(Visible(after), 0, LINE_LEN, shorts);
    VisibleNotEmpty(after);
    Reads.SequentialReads(Visible(after), LINE_LEN);
    RecordLog.AppendAllHistory(before, chunks);
    RecordLog.MessageVisible(before, chunks);
  }

  /** data_transfer_worker from receiving to its final status, when no other
      thread appends between its two locked stretches: it succeeds exactly when a
      complete message comes and the socket takes every line whole; and then, when
      no visible record is longer than the read buffer and no copy came out
      short, the reply answers the message. */
  method ServeClient(dev: AesdDevice, script: seq<Recv>, shorts: seq<nat>, sends: seq<nat>)
    returns (success: bool, reply: seq<string>, ghost chunks: seq<string>)
    requires dev.Valid() && Plausible(script)
    requires HeldSize(dev.State()) + (|script| + 1) * BUFFER_SIZE + LINE_LEN < SIZE_T
    modifies dev, dev.ring, dev.ring.entry
    ensures dev.Valid()
    ensures var lines := Reads.ShortReadsFrom(Visible(dev.State()), 0, LINE_LEN, shorts);
      && (success <==> HasMessage(script) && TookWhole(sends, lines, |lines|))
      && (success ==> IsMessage(script, chunks) && reply == lines)
    ensures !Broken(old(dev.State())) && success && AllFull(shorts) && Reads.Fit(Visible(dev.State()), LINE_LEN) ==>
      Answers(LogOf(old(dev.State())), chunks, LogOf(dev.State()), Flatten(reply))
    ensures !Broken(old(dev.State())) && !success ==>
      || (reply == [] && BrokeOff(LogOf(old(dev.State())), script, chunks, LogOf(dev.State())))
      || (IsMessage(script, chunks) && CutOff(sends, Reads.ShortReadsFrom(Visible(dev.State()), 0, LINE_LEN, shorts), reply)
          && LogOf(dev.State()) == RecordLog.AppendAll(LogOf(old(dev.State())), chunks))
  {
    ghost var log, sound := LogOf(dev.State()), !Broken(dev.State());
    var result;
    result, chunks := ReceiveAndWriteData(dev, script);
    if result == -1 {
      return false, [], chunks;
    }
    ShowsHeld(dev);
    result, reply := SendFile(dev, shorts, sends, Visible(dev.State()));
    success := result == 0;
    if sound && success && AllFull(shorts) && Reads.Fit(Visible(dev.State()), LINE_LEN) {
      ReplyEndsWithMessage(log, dev.State(), chunks, shorts);
    }
  }
}
