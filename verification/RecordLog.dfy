/** What the character device is for, without rings or blocks: writes pile up
    until one of them contains a newline, and then the pile becomes a record.
    Reads see the last ten records. */
module RecordLog {
  import opened Bytes
  import RingBuffer

  const KEPT := RingBuffer.SLOTS

  datatype Log = Log(records: seq<string>, staged: string)

  const EMPTY := Log([], "")

  /** A newline anywhere, as memchr finds it. */
  predicate HasNewline(s: string): (r: bool)
    ensures r <==> exists i :: 0 <= i < |s| && s[i] == '\n'
  {
    '\n' in s
  }

  lemma NewlineInEither(a: string, b: string)
    ensures HasNewline(a + b) <==> HasNewline(a) || HasNewline(b)
  {
    assert forall i :: 0 <= i < |b| ==> (a + b)[|a| + i] == b[i];
  }

  function Append(log: Log, payload: string): (r: Log) {
    if HasNewline(payload) then Log(log.records + [log.staged + payload], "")
    else Log(log.records, log.staged + payload)
  }

  function AppendAll(log: Log, payloads: seq<string>): (r: Log)
  {
    if payloads == [] then log
    else Append(AppendAll(log, payloads[..|payloads| - 1]), payloads[|payloads| - 1])
  }

  /** Every byte ever written. */
  function History(log: Log): (r: string) {
    Flatten(log.records) + log.staged
  }

  /** What a reader can see. */
  function Visible(log: Log): (r: seq<string>) {
    LastN(log.records, KEPT)
  }

  function Content(log: Log): (r: string) {
    Flatten(Visible(log))
  }

  lemma AppendHistory(log: Log, payload: string)
    ensures History(Append(log, payload)) == History(log) + payload
  {
    FlattenSnoc(log.records, log.staged + payload);
  }

  lemma AppendAllSnoc(log: Log, payloads: seq<string>, payload: string)
    ensures AppendAll(log, payloads + [payload]) == Append(AppendAll(log, payloads), payload)
  {
    assert (payloads + [payload])[..|payloads|] == payloads;
  }

  lemma {:induction false} AppendAllHistory(log: Log, payloads: seq<string>)
    ensures History(AppendAll(log, payloads)) == History(log) + Flatten(payloads)
  {
    if payloads != [] {
      var n := |payloads| - 1;
      AppendAllHistory(log, payloads[..n]);
      AppendHistory(AppendAll(log, payloads[..n]), payloads[n]);
      FlattenStep(payloads, n);
      assert payloads[..n + 1] == payloads;
    }
  }

  lemma {:induction false} AppendAllSplit(log: Log, a: seq<string>, b: seq<string>)
    ensures AppendAll(log, a + b) == AppendAll(AppendAll(log, a), b)
    decreases |b|
  {
    if b == [] {
      assert a + b == a;
    } else {
      assert (a + b)[..|a + b| - 1] == a + b[..|b| - 1];
      AppendAllSplit(log, a, b[..|b| - 1]);
    }
  }

  lemma AppendAllCons(log: Log, payload: string, rest: seq<string>)
    ensures AppendAll(log, [payload] + rest) == AppendAll(Append(log, payload), rest)
  {
    AppendAllSplit(log, [payload], rest);
    assert AppendAll(log, [payload]) == Append(AppendAll(log, []), payload);
  }

  /** The payloads grouped by the record they end up in. */
  datatype Grouping = Grouping(closed: seq<seq<string>>, open: seq<string>)

  function Regroup(payloads: seq<string>): (g: Grouping)
  {
    if payloads == [] then Grouping([], []) else
    var before := Regroup(payloads[..|payloads| - 1]);
    var last := payloads[|payloads| - 1];
    if HasNewline(last) then Grouping(before.closed + [before.open + [last]], [])
    else Grouping(before.closed, before.open + [last])
  }

  ghost predicate NewlineFree(ps: seq<string>) {
    forall i, k :: 0 <= i < |ps| && 0 <= k < |ps[i]| ==> ps[i][k] != '\n'
  }

  /** Newline-free payloads followed by one that has a newline, anywhere in it. */
  ghost predicate IsRecord(ps: seq<string>) {
    && ps != [] && NewlineFree(ps[..|ps| - 1])
    && var last := ps[|ps| - 1];
       exists k :: 0 <= k < |last| && last[k] == '\n'
  }

  function Ungroup(closed: seq<seq<string>>): (r: seq<string>) {
    if closed == [] then [] else Ungroup(closed[..|closed| - 1]) + closed[|closed| - 1]
  }

  /** `g` is the payloads in order, cut after each one that has a newline:
      nothing is lost, repeated or reordered, every closed group is
      newline-free payloads and then one with a newline, and the open one has none. */
  ghost predicate CutsAtNewlines(g: Grouping, payloads: seq<string>) {
    && payloads == Ungroup(g.closed) + g.open
    && (forall i :: 0 <= i < |g.closed| ==> IsRecord(g.closed[i]))
    && NewlineFree(g.open)
  }

  /** The log's records are the groups' bytes. */
  ghost predicate Stores(log: Log, g: Grouping) {
    && |log.records| == |g.closed|
    && (forall i :: 0 <= i < |g.closed| ==> log.records[i] == Flatten(g.closed[i]))
    && log.staged == Flatten(g.open)
    && forall k :: 0 <= k < |log.staged| ==> log.staged[k] != '\n'
  }

  /** A payload with a newline closes the open group; another joins it. */
  lemma GroupCuts(before: Grouping, payloads: seq<string>, last: string)
    requires CutsAtNewlines(before, payloads)
    ensures CutsAtNewlines(
      if HasNewline(last) then Grouping(before.closed + [before.open + [last]], [])
      else Grouping(before.closed, before.open + [last]), payloads + [last])
  {
    var group := before.open + [last];
    assert group[..|group| - 1] == before.open;
    assert payloads + [last] == Ungroup(before.closed) + group;
    if HasNewline(last) {
      assert group[|group| - 1] == last && IsRecord(group);
      assert (before.closed + [group])[..|before.closed|] == before.closed;
      assert Ungroup(before.closed + [group]) == Ungroup(before.closed) + group;
    }
  }

  lemma {:induction false} RegroupCuts(payloads: seq<string>)
    ensures CutsAtNewlines(Regroup(payloads), payloads)
  {
    if payloads != [] {
      var n := |payloads| - 1;
      RegroupCuts(payloads[..n]);
      GroupCuts(Regroup(payloads[..n]), payloads[..n], payloads[n]);
      assert payloads == payloads[..n] + [payloads[n]];
    }
  }

  lemma StoresStep(log: Log, g: Grouping, payload: string)
    requires Stores(log, g)
    ensures Stores(Append(log, payload),
      if HasNewline(payload) then Grouping(g.closed + [g.open + [payload]], [])
      else Grouping(g.closed, g.open + [payload]))
  {
    FlattenSnoc(g.open, payload);
    NewlineInEither(log.staged, payload);
  }

  /** Scanning only each new payload for a newline cuts the byte stream into
      exactly the records that scanning everything staged would. */
  lemma {:induction false} RecordsAreGroups(payloads: seq<string>)
    ensures CutsAtNewlines(Regroup(payloads), payloads)
    ensures Stores(AppendAll(EMPTY, payloads), Regroup(payloads))
  {
    RegroupCuts(payloads);
    if payloads != [] {
      var n := |payloads| - 1;
      RecordsAreGroups(payloads[..n]);
      StoresStep(AppendAll(EMPTY, payloads[..n]), Regroup(payloads[..n]), payloads[n]);
    }
  }

  /** How many of the payloads close a record. */
  function Closers(payloads: seq<string>): (n: nat)
    ensures n <= |payloads|
  {
    if payloads == [] then 0
    else Closers(payloads[..|payloads| - 1]) + if HasNewline(payloads[|payloads| - 1]) then 1 else 0
  }

  lemma {:induction false} AppendAllRecords(log: Log, payloads: seq<string>)
    ensures var after := AppendAll(log, payloads);
      && |after.records| == |log.records| + Closers(payloads)
      && log.records <= after.records
  {
    if payloads != [] {
      AppendAllRecords(log, payloads[..|payloads| - 1]);
    }
  }

  /** The first record a message closes holds more than what was staged before it. */
  lemma {:induction false} FirstNewRecord(log: Log, payloads: seq<string>)
    ensures var after := AppendAll(log, payloads);
      && log.records <= after.records
      && (if |after.records| == |log.records| then |after.staged| >= |log.staged|
          else |after.records[|log.records|]| > |log.staged|)
  {
    AppendAllRecords(log, payloads);
    if payloads != [] {
      FirstNewRecord(log, payloads[..|payloads| - 1]);
      AppendAllRecords(log, payloads[..|payloads| - 1]);
    }
  }

  /** The part of a message that its records took; the rest stays staged. */
  function InRecords(message: string, staged: string): (r: string)
    requires |staged| <= |message|
  {
    message[..|message| - |staged|]
  }

  lemma NewHoldStaged(log: Log, payloads: seq<string>)
    requires Closers(payloads) > 0
    ensures var records := AppendAll(log, payloads).records;
      |log.records| < |records| && |log.staged| < |Flatten(records[|log.records|..])|
  {
    AppendAllRecords(log, payloads);
    FirstNewRecord(log, payloads);
    FirstLength(AppendAll(log, payloads).records, |log.records|);
  }

  lemma FirstLength(records: seq<string>, from: nat)
    requires from < |records|
    ensures |records[from]| <= |Flatten(records[from..])|
  {
    assert records[from..][0] == records[from];
  }

  /** The records a message closed hold what was staged before, then the message
      up to what it left staged. */
  lemma NewRecordsHold(log: Log, payloads: seq<string>)
    requires Closers(payloads) > 0
    ensures var after, message := AppendAll(log, payloads), Flatten(payloads);
      && log.records <= after.records && |after.staged| <= |message|
      && message == InRecords(message, after.staged) + after.staged
      && Flatten(after.records[|log.records|..]) == log.staged + InRecords(message, after.staged)
  {
    var after, message := AppendAll(log, payloads), Flatten(payloads);
    AppendAllHistory(log, payloads);
    AppendAllRecords(log, payloads);
    NewHoldStaged(log, payloads);
    Regrouped(Flatten(log.records), log.staged, message);
    NewBytes(log.records, after.records, after.staged, log.staged + message);
    CutBoth(Flatten(after.records[|log.records|..]), after.staged, log.staged, message);
  }

  lemma Regrouped(a: string, b: string, c: string)
    ensures (a + b) + c == a + (b + c)
  {
  }

  lemma NewBytes(before: seq<string>, after: seq<string>, staged: string, added: string)
    requires before <= after && Flatten(after) + staged == Flatten(before) + added
    ensures Flatten(after[|before|..]) + staged == added
  {
    FlattenSplit(after, |before|);
    assert after[..|before|] == before;
    Regrouped(Flatten(before), Flatten(after[|before|..]), staged);
    CancelFront(Flatten(before), Flatten(after[|before|..]) + staged, added);
  }

  lemma CancelFront(front: string, a: string, b: string)
    requires front + a == front + b
    ensures a == b
  {
    assert (front + a)[|front|..] == a && (front + b)[|front|..] == b;
  }

  lemma CutBoth(a: string, b: string, c: string, d: string)
    requires a + b == c + d && |c| <= |a|
    ensures |b| <= |d| && a == c + InRecords(d, b) && d == InRecords(d, b) + b
  {
    assert a == (c + d)[..|a|];
    assert b == (c + d)[|a|..];
  }

  /** The last few of `records` are among the last ten. */
  lemma FewAreVisible(records: seq<string>, from: nat, message: string)
    requires from <= |records| <= from + KEPT && IsSuffix(message, Flatten(records[from..]))
    ensures IsSuffix(message, Flatten(LastN(records, KEPT)))
  {
    var seen := LastN(records, KEPT);
    var cut := |records| - |seen|;
    assert seen == records[cut..];
    FlattenSplit(seen, from - cut);
    assert seen[from - cut..] == records[from..];
  }

  /** More than ten are not: at least the first of them is gone. */
  lemma ManyAreNot(records: seq<string>, from: nat)
    requires from + KEPT < |records|
    ensures |Flatten(LastN(records, KEPT))| + |records[from]| <= |Flatten(records[from..])|
  {
    var added := records[from..];
    var cut := |added| - KEPT;
    FlattenSplit(added, cut);
    assert added[cut..] == LastN(records, KEPT);
    assert added[..cut][0] == records[from];
  }

  /** The records from `from` on hold `staged` and then `message`, the first of
      them more than `staged`. */
  lemma VisibleIff(records: seq<string>, from: nat, staged: string, message: string)
    requires from <= |records| && Flatten(records[from..]) == staged + message
    requires from < |records| ==> |records[from]| > |staged|
    ensures IsSuffix(message, Flatten(LastN(records, KEPT))) <==> |records| - from <= KEPT
  {
    if |records| - from <= KEPT {
      FewAreVisible(records, from, message);
    } else {
      ManyAreNot(records, from);
    }
  }

  /** A message that closes no record changes nothing a reader sees. Of another,
      what does not stay staged is entirely visible, at the end of the content,
      exactly when it closed at most ten records. */
  lemma MessageVisible(log: Log, payloads: seq<string>)
    ensures var after, message := AppendAll(log, payloads), Flatten(payloads);
      && IsSuffix(Content(after), Flatten(after.records))
      && (Closers(payloads) == 0 ==> Content(after) == Content(log) && after.staged == log.staged + message)
      && (Closers(payloads) > 0 ==>
            && |after.staged| <= |message| && IsSuffix(after.staged, message)
            && (IsSuffix(InRecords(message, after.staged), Content(after)) <==> Closers(payloads) <= KEPT))
  {
    var after, message := AppendAll(log, payloads), Flatten(payloads);
    AppendAllRecords(log, payloads);
    FlattenLastN(after.records, KEPT);
    if Closers(payloads) > 0 {
      NewRecordsHold(log, payloads);
      FirstNewRecord(log, payloads);
      VisibleIff(after.records, |log.records|, log.staged, InRecords(message, after.staged));
    } else {
      AppendAllHistory(log, payloads);
      assert after.records == log.records;
      Regrouped(Flatten(log.records), log.staged, message);
      NewBytes(log.records, after.records, after.staged, log.staged + message);
      assert after.records[|log.records|..] == [] && Flatten([]) == "";
      assert "" + after.staged == after.staged;
    }
  }
}
