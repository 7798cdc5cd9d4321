/** Reading the device and reading a plain file, as the server does: from
    position zero until a read returns nothing. */
module Reads {
  import opened Bytes
  import RecordLog

  function Min(a: nat, b: nat): (r: nat) {
    if a <= b then a else b
  }

  /** aesd_read over the visible records: it finds the record holding `pos` but
      copies from the record's start. */
  function ReadAt(records: seq<string>, pos: nat, count: nat): (r: string)
    ensures |r| <= count
    ensures |Flatten(records)| <= pos ==> r == ""
    ensures pos < |Flatten(records)| && count > 0 ==> r != ""
  {
    if records == [] then ""
    else if pos < |records[0]| then records[0][..Min(count, |records[0]|)]
    else ReadAt(records[1..], pos - |records[0]|, count)
  }

  /** read on a regular file. */
  function ReadFileAt(file: string, pos: nat, count: nat): (r: string) {
    if pos < |file| then file[pos..Min(pos + count, |file|)] else ""
  }

  /** The successive non-empty results of reading on from `pos`. */
  function ReadsFrom(records: seq<string>, pos: nat, count: nat): (r: seq<string>)
    decreases |Flatten(records)| - pos
  {
    var got := ReadAt(records, pos, count);
    if got == "" then [] else [got] + ReadsFrom(records, pos + |got|, count)
  }

  function FileReadsFrom(file: string, pos: nat, count: nat): (r: seq<string>)
    decreases |file| - pos
  {
    var got := ReadFileAt(file, pos, count);
    if got == "" then [] else [got] + FileReadsFrom(file, pos + |got|, count)
  }

  lemma FileReadsStep(file: string, pos: nat, count: nat)
    requires count > 0 && pos < |file|
    ensures var next := Min(pos + count, |file|);
      && pos < next && file[pos..] == file[pos..next] + file[next..]
      && FileReadsFrom(file, pos, count) == [file[pos..next]] + FileReadsFrom(file, next, count)
  {
  }

  /** Reading on from any position of a file delivers the rest of it. */
  lemma {:induction false} FileReadsExact(file: string, pos: nat, count: nat)
    requires count > 0
    ensures Flatten(FileReadsFrom(file, pos, count)) == if pos <= |file| then file[pos..] else ""
    decreases |file| - pos
  {
    if pos < |file| {
      var next := Min(pos + count, |file|);
      FileReadsStep(file, pos, count);
      FileReadsExact(file, next, count);
      FlattenCons(file[pos..next], FileReadsFrom(file, next, count));
    }
  }

  /** A read inside record `i` returns the start of that record. */
  lemma {:induction false} ReadAtRecord(records: seq<string>, i: nat, byte: nat, count: nat)
    requires i < |records| && byte < |records[i]|
    ensures ReadAt(records, |Flatten(records[..i])| + byte, count) == records[i][..Min(count, |records[i]|)]
    decreases i
  {
    if i > 0 {
      var rest := records[1..];
      assert rest[..i - 1] == records[..i][1..];
      assert Flatten(records[..i]) == records[0] + Flatten(rest[..i - 1]);
      ReadAtRecord(rest, i - 1, byte, count);
    } else {
      assert records[..0] == [];
    }
  }

  ghost predicate NoneEmpty(records: seq<string>) {
    forall i :: 0 <= i < |records| ==> |records[i]| > 0
  }

  ghost predicate Fit(records: seq<string>, count: nat) {
    forall i :: 0 <= i < |records| ==> |records[i]| <= count
  }

  /** At a boundary, a record that fits is read whole and the next is next. */
  lemma ReadsWholeRecord(records: seq<string>, i: nat, count: nat)
    requires i < |records| && 0 < |records[i]| <= count
    ensures ReadsFrom(records, |Flatten(records[..i])|, count)
         == [records[i]] + ReadsFrom(records, |Flatten(records[..i + 1])|, count)
  {
    ReadAtRecord(records, i, 0, count);
    assert records[i][..|records[i]|] == records[i];
    FlattenStep(records, i);
  }

  lemma PrependSlice(records: seq<string>, i: nat, j: nat, after: seq<string>)
    requires i < j <= |records|
    ensures [records[i]] + (records[i + 1..j] + after) == records[i..j] + after
  {
  }

  /** From a record boundary, when everything up to record `j` fits in one
      read, the reads are those records one by one. */
  lemma {:induction false} ReadsFromBoundary(records: seq<string>, i: nat, j: nat, count: nat)
    requires NoneEmpty(records) && i <= j <= |records| && Fit(records[..j], count)
    ensures ReadsFrom(records, |Flatten(records[..i])|, count)
         == records[i..j] + ReadsFrom(records, |Flatten(records[..j])|, count)
    decreases j - i
  {
    var after := ReadsFrom(records, |Flatten(records[..j])|, count);
    if i == j {
      assert records[i..j] + after == after;
    } else {
      assert records[..j][i] == records[i];
      ReadsWholeRecord(records, i, count);
      ReadsFromBoundary(records, i + 1, j, count);
      PrependSlice(records, i, j, after);
    }
  }

  /** When every record fits in one read, reading from zero returns the records
      in order, each at its boundary, and the read after the last returns nothing. */
  lemma SequentialReads(records: seq<string>, count: nat)
    requires NoneEmpty(records) && Fit(records, count)
    ensures ReadsFrom(records, 0, count) == records
  {
    assert records[..|records|] == records;
    ReadsFromBoundary(records, 0, |records|, count);
    assert ReadAt(records, |Flatten(records)|, count) == "";
  }

  /** Even with empty records among them, reading from a boundary delivers the rest. */
  lemma {:induction false} ReadsDeliver(records: seq<string>, i: nat, count: nat)
    requires i <= |records| && Fit(records, count)
    ensures Flatten(ReadsFrom(records, |Flatten(records[..i])|, count)) == Flatten(records[i..])
    decreases |records| - i
  {
    if i == |records| {
      assert records[..i] == records;
    } else {
      FlattenStep(records, i);
      ReadsDeliver(records, i + 1, count);
      assert records[i..] == [records[i]] + records[i + 1..];
      if records[i] != "" {
        ReadsWholeRecord(records, i, count);
        FlattenCons(records[i], ReadsFrom(records, |Flatten(records[..i + 1])|, count));
      }
    }
  }

  // ----- Short copies -----

  /** What is left uncopied by the next read; after its script nothing is. */
  function ShortNow(shorts: seq<nat>): (r: nat) {
    if shorts == [] then 0 else shorts[0]
  }

  function Rest(shorts: seq<nat>): (r: seq<nat>) {
    if shorts == [] then [] else shorts[1..]
  }

  function Cut(bytes: string, short: nat): (r: string) {
    bytes[..|bytes| - Min(short, |bytes|)]
  }

  /** The successive non-empty results when copies may come out short. */
  function ShortReadsFrom(records: seq<string>, pos: nat, count: nat, shorts: seq<nat>): (r: seq<string>)
    decreases |Flatten(records)| - pos
  {
    var got := Cut(ReadAt(records, pos, count), ShortNow(shorts));
    if got == "" then [] else [got] + ShortReadsFrom(records, pos + |got|, count, Rest(shorts))
  }

  lemma {:induction false} FullReads(records: seq<string>, pos: nat, count: nat, shorts: seq<nat>)
    requires forall i :: 0 <= i < |shorts| ==> shorts[i] == 0
    ensures ShortReadsFrom(records, pos, count, shorts) == ReadsFrom(records, pos, count)
    decreases |Flatten(records)| - pos
  {
    var got := ReadAt(records, pos, count);
    assert ShortNow(shorts) == 0 && Cut(got, 0) == got;
    if got != "" {
      FullReads(records, pos + |got|, count, Rest(shorts));
    }
  }

  // ----- When a read is right -----

  /** The same record lengths, whatever the bytes. */
  ghost predicate SameShape(a: seq<string>, b: seq<string>) {
    |a| == |b| && forall i :: 0 <= i < |a| ==> |a[i]| == |b[i]|
  }

  /** Every record has a newline, as every record of the device does. */
  ghost predicate Closed(records: seq<string>) {
    forall i :: 0 <= i < |records| ==> RecordLog.HasNewline(records[i])
  }

  /** A record of `n` bytes that starts unlike it goes on: a mark, then newlines. */
  function Marked(n: nat): (r: string)
    requires n > 0
    ensures |r| == n && RecordLog.HasNewline(r)
    ensures n > 1 ==> r[0] == 'x' && forall i :: 0 < i < n ==> r[i] == '\n'
  {
    var r := seq(n, i => if i == 0 && n > 1 then 'x' else '\n');
    assert r[n - 1] == '\n';
    r
  }

  ghost function MarkedLike(records: seq<string>): (r: seq<string>)
    requires NoneEmpty(records)
    ensures SameShape(r, records) && Closed(r)
    ensures forall i :: 0 <= i < |r| ==> r[i] == Marked(|records[i]|)
  {
    seq(|records|, i requires 0 <= i < |records| => Marked(|records[i]|))
  }

  lemma {:induction false} SameShapeLength(a: seq<string>, b: seq<string>, i: nat)
    requires SameShape(a, b) && i <= |a|
    ensures |Flatten(a[..i])| == |Flatten(b[..i])|
  {
    if i > 0 {
      SameShapeLength(a, b, i - 1);
      FlattenStep(a, i - 1);
      FlattenStep(b, i - 1);
    }
  }

  lemma FlattenAt(records: seq<string>, i: nat, byte: nat)
    requires i < |records| && byte < |records[i]|
    ensures var pos := |Flatten(records[..i])| + byte;
      pos < |Flatten(records)| && Flatten(records)[pos] == records[i][byte]
  {
    FlattenStep(records, i);
    FlattenSplit(records, i + 1);
  }

  /** The bytes a reader at `pos` should get, `count` of them at most. */
  ghost predicate ReadsRight(records: seq<string>, pos: nat, count: nat) {
    var all, got := Flatten(records), ReadAt(records, pos, count);
    pos + |got| <= |all| && all[pos..pos + |got|] == got
  }

  lemma BoundaryReadsRight(records: seq<string>, i: nat, count: nat)
    requires i < |records| && records[i] != ""
    ensures ReadsRight(records, |Flatten(records[..i])|, count)
  {
    ReadAtRecord(records, i, 0, count);
    FlattenStep(records, i);
    FlattenSplit(records, i + 1);
  }

  lemma InsideMisreads(records: seq<string>, i: nat, byte: nat, count: nat)
    requires i < |records| && byte < |records[i]| && count > 0 && records[i][byte] != records[i][0]
    ensures !ReadsRight(records, |Flatten(records[..i])| + byte, count)
  {
    ReadAtRecord(records, i, byte, count);
    FlattenAt(records, i, byte);
  }

  /** A single read at byte `byte` of record `i` returns the bytes at its
      position, whatever records of these lengths there are, exactly when `byte` is zero. */
  lemma ReadRightAtBoundaryOnly(records: seq<string>, i: nat, byte: nat, count: nat)
    requires NoneEmpty(records) && i < |records| && byte < |records[i]| && count > 0
    ensures (forall others :: SameShape(others, records) && Closed(others) ==>
               ReadsRight(others, |Flatten(records[..i])| + byte, count)) <==> byte == 0
  {
    var pos := |Flatten(records[..i])| + byte;
    if byte == 0 {
      forall others | SameShape(others, records) && Closed(others)
        ensures ReadsRight(others, pos, count)
      {
        SameShapeLength(others, records, i);
        BoundaryReadsRight(others, i, count);
      }
    } else {
      var bad := MarkedLike(records);
      SameShapeLength(bad, records, i);
      InsideMisreads(bad, i, byte, count);
    }
  }

  /** Reading from zero with a fixed buffer delivers the content, whatever records
      of these lengths there are, exactly when every record fits in the buffer. */
  lemma ReadAllExact(records: seq<string>, count: nat)
    requires NoneEmpty(records) && count > 0
    ensures (forall others :: SameShape(others, records) && Closed(others) ==>
               Flatten(ReadsFrom(others, 0, count)) == Flatten(others)) <==> Fit(records, count)
  {
    if Fit(records, count) {
      forall others | SameShape(others, records) && Closed(others)
        ensures Flatten(ReadsFrom(others, 0, count)) == Flatten(others)
      {
        SequentialReads(others, count);
      }
    } else {
      var i := FirstOversize(records, count);
      var bad := MarkedLike(records);
      OversizeRepeats(bad, i, count);
      FlattenAt(bad, i, count);
    }
  }

  lemma FirstOversize(records: seq<string>, count: nat) returns (i: nat)
    requires !Fit(records, count)
    ensures i < |records| && |records[i]| > count && Fit(records[..i], count)
  {
    i := 0;
    while |records[i]| <= count
      invariant i < |records| && Fit(records[..i], count)
      invariant exists j :: i <= j < |records| && |records[j]| > count
      decreases |records| - i
    {
      i := i + 1;
    }
  }

  /** The read after an oversize record's first part starts that record again. */
  lemma OversizeReadTwice(records: seq<string>, i: nat, count: nat)
    requires count > 0 && i < |records| && |records[i]| > count
    ensures var start, part := |Flatten(records[..i])|, records[i][..count];
      ReadsFrom(records, start, count) == [part] + ([part] + ReadsFrom(records, start + 2 * count, count))
  {
    var start, part := |Flatten(records[..i])|, records[i][..count];
    ReadAtRecord(records, i, 0, count);
    assert ReadsFrom(records, start, count) == [part] + ReadsFrom(records, start + count, count);
    ReadAtRecord(records, i, count, count);
  }

  lemma OversizeRepeats(records: seq<string>, i: nat, count: nat)
    requires NoneEmpty(records) && count > 0
    requires i < |records| && |records[i]| > count && Fit(records[..i], count)
    ensures var pos, sent := |Flatten(records[..i])| + count, Flatten(ReadsFrom(records, 0, count));
      |sent| > pos && sent[pos] == records[i][0]
  {
    ReadsFromBoundary(records, 0, i, count);
    OversizeReadTwice(records, i, count);
    assert records[..0] == [];
    var part := records[i][..count];
    var rest := ReadsFrom(records, |Flatten(records[..i])| + 2 * count, count);
    RepeatedPart(records[..i], part, rest);
  }

  lemma RepeatedPart(before: seq<string>, part: string, rest: seq<string>)
    ensures Flatten(before + ([part] + ([part] + rest))) == Flatten(before) + part + part + Flatten(rest)
  {
    FlattenAppend(before, [part] + ([part] + rest));
    FlattenCons(part, [part] + rest);
    FlattenCons(part, rest);
  }
}
