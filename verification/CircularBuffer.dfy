/** The ten-slot ring of the character driver (aesd-circular-buffer.c): an
    entry array used modulo ten, refining the sequence of the last ten entries. */
module RingBuffer {
  import opened Bytes

  const SLOTS := 10
  const NULL := 0
  /** size_t arithmetic is modulo 2^64. */
  const SIZE_T := 0x1_0000_0000_0000_0000

  /** A block address and the number of bytes stored there. */
  datatype Entry = Entry(buffptr: nat, size: nat)

  const ZEROED := Entry(NULL, 0)

  datatype Found = Missing | At(slot: nat, byte: nat)

  /** Bytes held by the entries together. */
  function TotalSize(es: seq<Entry>): (n: nat) {
    if es == [] then 0 else TotalSize(es[..|es| - 1]) + es[|es| - 1].size
  }

  lemma {:induction false} TotalSizeMonotone(es: seq<Entry>, i: nat, j: nat)
    requires i <= j <= |es|
    ensures TotalSize(es[..i]) <= TotalSize(es[..j])
  {
    if i < j {
      assert es[..j][..j - 1] == es[..j - 1];
      TotalSizeMonotone(es, i, j - 1);
    }
  }

  lemma TotalSizeStep(es: seq<Entry>, i: nat)
    requires i < |es|
    ensures TotalSize(es[..i + 1]) == TotalSize(es[..i]) + es[i].size
  {
    assert es[..i + 1][..i] == es[..i];
  }

  /** Bytes of the first `i` entries; the slots past the last add nothing. */
  ghost function SizeBefore(es: seq<Entry>, i: nat): nat {
    TotalSize(if i <= |es| then es[..i] else es)
  }

  /** The running offset of the search never passes the total, and once past a
      non-empty entry it is not zero. */
  lemma SizeBeforeStep(es: seq<Entry>, i: nat)
    requires forall k :: 0 <= k < |es| ==> es[k].size > 0
    ensures SizeBefore(es, 0) == 0
    ensures SizeBefore(es, i + 1) == SizeBefore(es, i) + if i < |es| then es[i].size else 0
    ensures SizeBefore(es, i + 1) <= TotalSize(es)
    ensures i > 0 && es != [] ==> SizeBefore(es, i) > 0
    ensures i >= |es| ==> SizeBefore(es, i) == TotalSize(es)
  {
    assert es[..|es|] == es;
    if i < |es| {
      TotalSizeStep(es, i);
      TotalSizeMonotone(es, i + 1, |es|);
      if i > 0 {
        TotalSizeStep(es, 0);
        TotalSizeMonotone(es, 1, i);
      }
    } else if es != [] {
      TotalSizeStep(es, 0);
      TotalSizeMonotone(es, 1, |es|);
    }
  }

  /** Byte `off` of the concatenation is byte `byte` of entry `k`. */
  ghost predicate Holds(es: seq<Entry>, off: nat, k: nat, byte: nat) {
    k < |es| && byte < es[k].size && TotalSize(es[..k]) + byte == off
  }

  /** The entry holding an offset is unique, and there is none past the end. */
  lemma HoldsUnique(es: seq<Entry>, off: nat, k: nat, byte: nat, k': nat, byte': nat)
    requires Holds(es, off, k, byte) && Holds(es, off, k', byte')
    ensures k == k' && byte == byte' && off < TotalSize(es)
  {
    assert es[..|es|] == es;
    TotalSizeStep(es, k);
    TotalSizeStep(es, k');
    TotalSizeMonotone(es, k + 1, |es|);
    if k < k' {
      TotalSizeMonotone(es, k + 1, k');
    } else if k' < k {
      TotalSizeMonotone(es, k' + 1, k);
    }
  }

  function NextIdx(index: nat): (r: nat)
    requires index < SLOTS
    ensures r < SLOTS && r == (index + 1) % SLOTS
  {
    if index + 1 >= SLOTS then 0 else index + 1
  }

  /** size_t addition and subtraction, wrapping at 2^64. */
  function AddSize(a: nat, b: nat): (r: nat)
    requires a < SIZE_T && b < SIZE_T
    ensures r == if a + b < SIZE_T then a + b else a + b - SIZE_T
  {
    (a + b) % SIZE_T
  }

  function SubSize(a: nat, b: nat): (r: nat)
    requires a < SIZE_T && b < SIZE_T
    ensures r == if b <= a then a - b else SIZE_T + a - b
  {
    (a - b) % SIZE_T
  }

  /** The slot `offset` places after `start`. */
  function SlotAfter(start: nat, offset: nat): (r: nat)
    requires start < SLOTS
    ensures r < SLOTS
    ensures offset < SLOTS ==> r == if start + offset < SLOTS then start + offset else start + offset - SLOTS
  {
    (start + offset) % SLOTS
  }

  lemma SizeFits(es: seq<Entry>, i: nat)
    ensures i < |es| ==> es[i].size <= TotalSize(es)
  {
    if i < |es| {
      assert es[..|es|] == es;
      TotalSizeStep(es, i);
      TotalSizeMonotone(es, i + 1, |es|);
    }
  }

  /** One slot of the search. The test on wrapped sums is met by exactly the live
      entry that holds the offset; on an unused slot `size - 1` wraps to
      2^64 - 1, which takes one off the running offset, and the test fails. */
  lemma SearchStep(es: seq<Entry>, i: nat, charOffset: nat, size: nat)
    requires forall k :: 0 <= k < |es| ==> es[k].size > 0
    requires es != [] && TotalSize(es) < SIZE_T && charOffset < SIZE_T
    requires size == (if i < |es| then es[i].size else 0) && size < SIZE_T
    requires SizeBefore(es, i) <= charOffset
    ensures var before := SizeBefore(es, i);
      && before < SIZE_T && SizeBefore(es, i + 1) == AddSize(before, size)
      && (if AddSize(before, SubSize(size, 1)) >= charOffset
          then Holds(es, charOffset, i, SubSize(charOffset, before)) && charOffset < TotalSize(es)
          else SizeBefore(es, i + 1) <= charOffset)
  {
    SizeBeforeStep(es, i);
  }

  /** Overwriting a slot of a full ring drops the oldest entry and adds the new
      one; using the next free slot of an unfull one only adds. */
  lemma OverwriteKeepsLast(slots: seq<Entry>, at: nat, e: Entry)
    requires |slots| == SLOTS && at < SLOTS
    ensures var after, next := slots[at := e], NextIdx(at);
      && after[next..] + after[..next] == LastN((slots[at..] + slots[..at]) + [e], SLOTS)
      && after[..at + 1] == LastN(slots[..at] + [e], SLOTS)
      && (next == 0 ==> after[0..] + after[..0] == LastN(slots[..at] + [e], SLOTS))
  {
  }

  class CircularBuffer {
    const entry: array<Entry>
    var inOffs: nat
    var outOffs: nat
    var full: bool

    /** Every ring reachable from initialisation: an unfull ring starts at slot
        zero and is zeroed from `inOffs` on; a full one has its two indices
        equal; and no live entry is empty. */
    ghost predicate Valid()
      reads this, entry
    {
      && entry.Length == SLOTS
      && inOffs < SLOTS && outOffs < SLOTS
      && (full ==> inOffs == outOffs)
      && (!full ==> outOffs == 0 && forall i :: inOffs <= i < SLOTS ==> entry[i] == ZEROED)
      && (forall i :: 0 <= i < (if full then SLOTS else inOffs) ==> entry[i].size > 0)
    }

    /** The live entries, oldest first. */
    ghost function Live(): (s: seq<Entry>)
      requires Valid()
      reads this, entry
    {
      if full then entry[outOffs..] + entry[..outOffs] else entry[..inOffs]
    }

    constructor ()
      ensures Valid() && fresh(entry) && Live() == [] && !full
    {
      entry := new Entry[SLOTS](_ => ZEROED);
      inOffs, outOffs, full := 0, 0, false;
    }

    predicate IsEmpty()
      reads this
    {
      !full && inOffs == outOffs
    }

    /** The slot `offset` places after `outOffs`, or nothing in an empty ring. */
    function Peek(offset: nat): (r: Found)
      requires Valid()
      reads this, entry
      ensures r.Missing? <==> Live() == []
      ensures r.At? ==> r.slot < SLOTS
      ensures r.At? && offset < |Live()| ==> entry[r.slot] == Live()[offset]
      ensures r.At? && |Live()| <= offset < SLOTS ==> entry[r.slot] == ZEROED
    {
      if IsEmpty() then Missing else At(SlotAfter(outOffs, offset), 0)
    }

    /** The search computes in size_t, so on an unused slot `size - 1` wraps to
        2^64 - 1; it still finds exactly the live entry and byte at
        `charOffset`, and nothing exactly when the offset is past the end. */
    method FindEntryOffsetForFpos(charOffset: nat) returns (r: Found, ghost k: nat)
      requires Valid()
      requires charOffset < SIZE_T && TotalSize(Live()) < SIZE_T
      ensures r.Missing? <==> TotalSize(Live()) <= charOffset
      ensures r.At? ==> Holds(Live(), charOffset, k, r.byte)
      ensures r.At? ==> r.slot == SlotAfter(outOffs, k) && entry[r.slot] == Live()[k]
    {
      ghost var live := Live();
      k := 0;
      var currentCharOffset := 0;
      var peekIdx := 0;
      SizeBeforeStep(live, 0);
      SizeBeforeStep(live, SLOTS);
      while peekIdx < SLOTS
        invariant peekIdx <= SLOTS
        invariant currentCharOffset == SizeBefore(live, peekIdx) <= charOffset
      {
        var current := Peek(peekIdx);
        if current.Missing? {
          return Missing, 0;
        }
        var size := entry[current.slot].size;
        SizeFits(live, peekIdx);
        SearchStep(live, peekIdx, charOffset, size);
        var currentMaxOffset := AddSize(currentCharOffset, SubSize(size, 1));
        if currentMaxOffset >= charOffset {
          k := peekIdx;
          return At(current.slot, SubSize(charOffset, currentCharOffset)), k;
        }
        currentCharOffset := AddSize(currentCharOffset, size);
        peekIdx := peekIdx + 1;
      }
      r := Missing;
    }

    /** Adding an entry keeps the last ten and hands back the block pushed out;
        an empty entry is refused. */
    method AddEntry(e: Entry) returns (replaced: nat)
      requires Valid()
      modifies this, entry
      ensures Valid()
      ensures e.size == 0 ==> replaced == NULL && entry[..] == old(entry[..])
      ensures e.size == 0 ==> (inOffs, outOffs, full) == (old(inOffs), old(outOffs), old(full))
      ensures e.size > 0 ==> Live() == LastN(old(Live()) + [e], 10)
      ensures e.size > 0 ==> replaced == if |old(Live())| == SLOTS then old(Live())[0].buffptr else NULL
      ensures old(full) ==> full
      ensures full <==> |Live()| == SLOTS
    {
      if e.size == 0 {
        return NULL;
      }
      ghost var before, slots, at := Live(), entry[..], inOffs;
      replaced := NULL;
      if full {
        replaced := entry[inOffs].buffptr;
      }
      entry[inOffs] := e;
      inOffs := NextIdx(inOffs);
      assert entry[..] == slots[at := e];
      OverwriteKeepsLast(slots, at, e);
      if full {
        outOffs := inOffs;
      } else if inOffs == outOffs {
        full := true;
      }
    }

    /** How many slots, from zero, hold live entries. */
    ghost function Used(): (n: nat)
      requires Valid()
      reads this, entry
      ensures n == |Live()| <= SLOTS
    {
      if full then SLOTS else inOffs
    }

    /** Where the entry of a used slot stands among the live ones. */
    ghost function LiveIndex(slot: nat): (k: nat)
      requires Valid() && slot < Used()
      reads this, entry
      ensures k < |Live()| && Live()[k] == entry[slot]
    {
      if slot >= outOffs then slot - outOffs else SLOTS - outOffs + slot
    }

    ghost function SlotIndex(k: nat): (slot: nat)
      requires Valid() && k < |Live()|
      reads this, entry
      ensures slot < Used() && LiveIndex(slot) == k
    {
      SlotAfter(outOffs, k)
    }
  }
}
