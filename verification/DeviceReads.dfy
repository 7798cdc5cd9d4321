/** When reading the device goes right, over every device that writes can make. */
module DeviceReads {
  import opened Bytes
  import opened RingBuffer
  import opened KernelHeap
  import opened CharDevice
  import opened CharDriver
  import RecordLog
  import Reads

  /** Clean calls from module load. */
  ghost predicate FromLoad(calls: seq<WriteCall>) {
    AllServed(calls) && Inv(INITIAL) && CleanRun(INITIAL, calls)
  }

  /** What a reader sees after them. */
  ghost function Seen(calls: seq<WriteCall>): seq<string>
    requires FromLoad(calls)
  {
    Visible(CharDevice.Run(INITIAL, calls))
  }

  // ----- Which records there can be -----

  ghost function WriteEach(records: seq<string>): (calls: seq<WriteCall>)
    ensures |calls| == |records|
    ensures forall i :: 0 <= i < |calls| ==> calls[i] == WriteCall(records[i], Moves, "", 0, "")
  {
    seq(|records|, i requires 0 <= i < |records| => WriteCall(records[i], Moves, "", 0, ""))
  }

  lemma {:induction false} FullWritesAreClean(d: Device, calls: seq<WriteCall>)
    requires Inv(d) && AllServed(calls)
    requires forall i :: 0 <= i < |calls| ==> calls[i].alloc != Fails && calls[i].uncopied == 0
    ensures CleanRun(d, calls)
    decreases |calls|
  {
    if calls != [] {
      WriteKeeps(d, calls[0]);
      FullWritesAreClean(Write(d, calls[0]).dev, calls[1..]);
    }
  }

  /** And acknowledge all they are given. */
  lemma {:induction false} FullWritesAcked(records: seq<string>)
    ensures AllServed(WriteEach(records)) && AckedRun(WriteEach(records)) == records
  {
    if records != [] {
      var calls := WriteEach(records);
      FullWritesAcked(records[1..]);
      assert calls[1..] == WriteEach(records[1..]);
      assert Copied(calls[0]) == records[0];
      assert [records[0]] + records[1..] == records;
    }
  }

  lemma CloserStands(records: seq<string>, last: string)
    requires RecordLog.HasNewline(last)
    ensures RecordLog.Append(RecordLog.Log(records, ""), last) == RecordLog.Log(records + [last], "")
  {
    assert "" + last == last;
  }

  lemma {:induction false} ClosedRecordsStay(records: seq<string>)
    requires Reads.Closed(records)
    ensures RecordLog.AppendAll(RecordLog.EMPTY, records) == RecordLog.Log(records, "")
  {
    if records != [] {
      var front, last := records[..|records| - 1], records[|records| - 1];
      ClosedRecordsStay(front);
      assert front + [last] == records;
      RecordLog.AppendAllSnoc(RecordLog.EMPTY, front, last);
      CloserStands(front, last);
    }
  }

  /** Any ten records that each have a newline are what some device shows. */
  lemma AnyRecordsReachable(records: seq<string>)
    requires Reads.Closed(records) && |records| <= SLOTS
    ensures FromLoad(WriteEach(records)) && Seen(WriteEach(records)) == records
  {
    var calls := WriteEach(records);
    InitialInv();
    FullWritesAcked(records);
    FullWritesAreClean(INITIAL, calls);
    CleanRunAppends(INITIAL, calls);
    ClosedRecordsStay(records);
  }

  lemma {:induction false} RecordsAreClosed(payloads: seq<string>)
    ensures Reads.Closed(RecordLog.AppendAll(RecordLog.EMPTY, payloads).records)
  {
    if payloads != [] {
      var n := |payloads| - 1;
      RecordsAreClosed(payloads[..n]);
      var staged := RecordLog.AppendAll(RecordLog.EMPTY, payloads[..n]).staged;
      if RecordLog.HasNewline(payloads[n]) {
        var k :| 0 <= k < |payloads[n]| && payloads[n][k] == '\n';
        assert (staged + payloads[n])[|staged| + k] == '\n';
      }
    }
  }

  /** And a device shows no others. */
  lemma OnlySuchRecords(calls: seq<WriteCall>)
    requires FromLoad(calls)
    ensures Reads.Closed(Seen(calls)) && |Seen(calls)| <= SLOTS
  {
    CleanRunAppends(INITIAL, calls);
    InitialInv();
    RecordsAreClosed(AckedRun(calls));
  }

  // ----- The two conditions, over devices -----

  /** Over every device with records of these lengths, a read at a position
      returns the bytes there exactly when it starts a record. */
  lemma DeviceReadRightIff(records: seq<string>, i: nat, byte: nat, count: nat)
    requires Reads.NoneEmpty(records) && |records| <= SLOTS
    requires i < |records| && byte < |records[i]| && count > 0
    ensures (forall calls :: FromLoad(calls) && Reads.SameShape(Seen(calls), records) ==>
               Reads.ReadsRight(Seen(calls), |Flatten(records[..i])| + byte, count)) <==> byte == 0
  {
    var pos := |Flatten(records[..i])| + byte;
    Reads.ReadRightAtBoundaryOnly(records, i, byte, count);
    if byte == 0 {
      forall calls | FromLoad(calls) && Reads.SameShape(Seen(calls), records)
        ensures Reads.ReadsRight(Seen(calls), pos, count)
      {
        OnlySuchRecords(calls);
      }
    } else {
      var bad :| Reads.SameShape(bad, records) && Reads.Closed(bad) && !Reads.ReadsRight(bad, pos, count);
      AnyRecordsReachable(bad);
      assert !Reads.ReadsRight(Seen(WriteEach(bad)), pos, count);
    }
  }

  ghost predicate DeliversAll(records: seq<string>, count: nat) {
    Flatten(Reads.ReadsFrom(records, 0, count)) == Flatten(records)
  }

  /** Over every such device, reading from zero delivers the content exactly
      when every record fits in the buffer. */
  lemma DeviceReadAllIff(records: seq<string>, count: nat)
    requires Reads.NoneEmpty(records) && |records| <= SLOTS && count > 0
    ensures (forall calls :: FromLoad(calls) && Reads.SameShape(Seen(calls), records) ==>
               DeliversAll(Seen(calls), count)) <==> Reads.Fit(records, count)
  {
    Reads.ReadAllExact(records, count);
    if Reads.Fit(records, count) {
      forall calls | FromLoad(calls) && Reads.SameShape(Seen(calls), records)
        ensures DeliversAll(Seen(calls), count)
      {
        OnlySuchRecords(calls);
      }
    } else {
      var bad :| Reads.SameShape(bad, records) && Reads.Closed(bad)
        && Flatten(Reads.ReadsFrom(bad, 0, count)) != Flatten(bad);
      AnyRecordsReachable(bad);
      assert !DeliversAll(Seen(WriteEach(bad)), count);
    }
  }

  /** One write from module load, and a reader at position 1 gets the first byte again. */
  lemma MisreadRun()
    ensures var calls := WriteEach(["ab\n"]);
      FromLoad(calls) && Flatten(Seen(calls))[1] == 'b' && Reads.ReadAt(Seen(calls), 1, 1) == "a"
  {
    var record := "ab\n";
    assert record[2] == '\n';
    AnyRecordsReachable([record]);
    assert Flatten([record]) == record;
  }
}
