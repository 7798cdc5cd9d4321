/** The driver's entry points (main.c of the driver) over the ring, the staging
    entry and the kernel heap; each call is the device machine's step. */
module CharDriver {
  import opened Bytes
  import opened RingBuffer
  import opened KernelHeap
  import opened CharDevice
  import RecordLog
  import Reads

  /** The records a reader can see. */
  function Visible(d: Device): (r: seq<string>) {
    RecordLog.Visible(LogOf(d))
  }

  /** The visible records are the live entries' blocks. */
  lemma VisibleIs(d: Device, k: nat)
    requires Inv(d)
    ensures |Visible(d)| == |d.live|
    ensures k < |d.live| ==>
      Backed(d.live[k], d.heap) && Visible(d)[k] == d.heap.blocks[d.live[k].buffptr] && |Visible(d)[k]| == d.live[k].size
  {
  }

  /** Offsets into the ring's entries are offsets into the visible records. */
  lemma {:induction false} SizesAreLengths(d: Device, k: nat)
    requires Inv(d) && k <= |d.live|
    ensures k <= |Visible(d)| && |Flatten(Visible(d)[..k])| == TotalSize(d.live[..k])
  {
    VisibleIs(d, 0);
    if k > 0 {
      SizesAreLengths(d, k - 1);
      VisibleIs(d, k - 1);
      FlattenStep(Visible(d), k - 1);
      TotalSizeStep(d.live, k - 1);
    } else {
      assert Visible(d)[..0] == [] && d.live[..0] == [];
    }
  }

  /** Reading inside entry `k` of the ring, and past the last one. */
  lemma ReadIsRecord(d: Device, fpos: nat, k: nat, byte: nat, count: nat)
    requires Inv(d) && Holds(d.live, fpos, k, byte)
    ensures Backed(d.live[k], d.heap)
    ensures Reads.ReadAt(Visible(d), fpos, count) == d.heap.blocks[d.live[k].buffptr][..Reads.Min(count, d.live[k].size)]
  {
    SizesAreLengths(d, k);
    VisibleIs(d, k);
    Reads.ReadAtRecord(Visible(d), k, byte, count);
  }

  lemma ReadIsNothing(d: Device, fpos: nat, count: nat)
    requires Inv(d) && TotalSize(d.live) <= fpos
    ensures Reads.ReadAt(Visible(d), fpos, count) == ""
  {
    SizesAreLengths(d, |d.live|);
    assert d.live[..|d.live|] == d.live && Visible(d)[..|d.live|] == Visible(d);
  }

  class AesdDevice {
    const ring: CircularBuffer
    var staging: Entry
    var heap: Heap
    ghost var committed: seq<string>

    ghost function State(): (d: Device)
      requires ring.Valid()
      reads this, ring, ring.entry
    {
      Device(ring.Live(), staging, heap, committed)
    }

    ghost predicate Valid()
      reads this, ring, ring.entry
    {
      ring.Valid() && Inv(State())
    }

    /** aesd_init_module. */
    constructor ()
      ensures Valid() && fresh(ring) && fresh(ring.entry)
      ensures State() == INITIAL
    {
      ring := new CircularBuffer();
      staging, heap, committed := ZEROED, KernelHeap.EMPTY, [];
      new;
      InitialInv();
    }

    /** The first half of aesd_write: memory for `count` more staged bytes. A
        failure clears the pointer and nothing else. */
    method AllocateStaging(c: WriteCall) returns (ok: bool, stagingOffset: nat)
      requires Valid() && Served(c)
      modifies this`staging, this`heap
      ensures ok <==> c.alloc != Fails
      ensures ok ==> (staging, heap) == Grow(old(staging), old(heap), c) && stagingOffset == old(staging.size)
      ensures !ok ==> staging == Entry(NULL, old(staging.size)) && heap == old(heap)
    {
      var count := |c.buf|;
      stagingOffset := 0;
      if staging.size == 0 {
        if c.alloc == Fails {
          staging := staging.(buffptr := NULL);
          return false, 0;
        }
        var (h, p) := Kmalloc(heap, count, c.junk);
        heap, staging := h, Entry(p, count);
      } else {
        if c.alloc == Fails {
          staging := staging.(buffptr := NULL);
          heap := Kfree(heap, NULL);
          return false, 0;
        }
        var (h, p) := Krealloc(heap, staging.buffptr, staging.size + count, c.alloc, c.junk);
        stagingOffset := staging.size;
        heap, staging := h, Entry(p, staging.size + count);
      }
      ok := true;
    }

    /** The last part of aesd_write: into the ring, and free what falls out. */
    method CommitStaging()
      requires ring.Valid() && Backed(staging, heap) && NULL !in heap.blocks
      modifies this, ring, ring.entry
      ensures ring.Valid() && State() == Commit(old(State()))
    {
      committed := committed + [BytesOf(staging, heap)];
      var replaced := ring.AddEntry(staging);
      if replaced != NULL {
        heap := Kfree(heap, replaced);
      }
      staging := ZEROED;
    }

    /** aesd_write up to the scan: the bytes staged, and what memchr looks at,
        which is only the bytes of this call. */
    method StageBytes(c: WriteCall) returns (ok: bool, scanned: string)
      requires Valid() && Served(c)
      modifies this`staging, this`heap
      ensures ok <==> c.alloc != Fails
      ensures ok ==> State() == Stage(old(State()), c) && scanned == Arrived(c)
      ensures !ok ==> staging == Entry(NULL, old(staging.size)) && heap == old(heap)
    {
      ghost var before := State();
      var stagingOffset;
      ok, stagingOffset := AllocateStaging(c);
      if !ok {
        return false, "";
      }
      GrowOwns(before, c);
      heap := CopyIn(heap, staging.buffptr, stagingOffset, Arrived(c));
      assert State() == Stage(before, c);
      scanned := BytesOf(staging, heap)[stagingOffset..];
      assert scanned == Arrived(c);
    }

    /** aesd_write: one step of the device machine, whatever the kernel does. */
    method Write(c: WriteCall, fpos: nat) returns (ret: int, fpos': nat)
      requires Valid() && Served(c)
      modifies this, ring, ring.entry
      ensures Valid()
      ensures var r := CharDevice.Write(old(State()), c);
        State() == r.dev && ret == r.ret && fpos' == if ret < 0 then fpos else fpos + ret
      ensures ret == -ENOMEM <==> c.alloc == Fails
      ensures c.alloc != Fails ==> ret == |c.buf| - c.uncopied
      ensures
        if c.alloc != Fails && exists i :: 0 <= i < |c.buf| && Arrived(c)[i] == '\n' then
          && staging == ZEROED && |committed| == |old(committed)| + 1 && old(committed) <= committed
          && IsSuffix(Arrived(c), committed[|old(committed)|])
          && (!Broken(old(State())) ==> committed[|old(committed)|] == old(Staged(State())) + Arrived(c))
        else committed == old(committed) && ring.Live() == old(ring.Live())
    {
      ghost var before := State();
      WriteKeeps(before, c);
      WriteCommits(before, c);
      var ok, scanned := StageBytes(c);
      if !ok {
        return -ENOMEM, fpos;
      }
      ret := |c.buf| - c.uncopied;
      fpos' := fpos + ret;
      if RecordLog.HasNewline(scanned) {
        CopyKeeps(before, c);
        CommitStaging();
      }
    }

    /** The bytes aesd_read copies out: none when no entry holds the position. */
    method EntryBytes(fpos: nat, count: nat) returns (bytes: string)
      requires Valid() && fpos < SIZE_T && TotalSize(State().live) < SIZE_T
      ensures bytes == Reads.ReadAt(Visible(State()), fpos, count)
    {
      var found, k := ring.FindEntryOffsetForFpos(fpos);
      if found.Missing? {
        ReadIsNothing(State(), fpos, count);
        return "";
      }
      ReadIsRecord(State(), fpos, k, found.byte, count);
      var e := ring.entry[found.slot];
      bytes := heap.blocks[e.buffptr][..Reads.Min(count, e.size)];
    }

    /** aesd_read: the start of the record holding the position, less what
        copy_to_user left uncopied. */
    method Read(fpos: nat, count: nat, uncopied: nat) returns (data: string, fpos': nat)
      requires Valid() && fpos < SIZE_T && TotalSize(State().live) < SIZE_T
      ensures var whole := Reads.ReadAt(Visible(State()), fpos, count);
        data == whole[..|whole| - Reads.Min(uncopied, |whole|)] && fpos' == fpos + |data|
    {
      var whole := EntryBytes(fpos, count);
      data := whole[..|whole| - Reads.Min(uncopied, |whole|)];
      fpos' := fpos + |data|;
    }

    /** A slot's pointer is NULL, or a live block that no slot before it has. */
    lemma SlotPtr(slot: nat)
      requires Valid() && slot < SLOTS
      ensures var p := ring.entry[slot].buffptr;
        p == NULL || (p in heap.blocks && p in LivePtrs(State()) && p !in PtrsOf(ring.entry[..slot]))
    {
      if slot < ring.Used() {
        assert ring.Live()[ring.LiveIndex(slot)] == ring.entry[slot];
        forall i | 0 <= i < slot
          ensures ring.entry[i].buffptr != ring.entry[slot].buffptr
        {
          assert ring.LiveIndex(i) != ring.LiveIndex(slot);
        }
      }
    }

    /** Walking the ten slots from zero meets every live block once. */
    lemma SlotPtrs()
      requires Valid()
      ensures forall i :: 0 <= i < SLOTS && ring.entry[i].buffptr != NULL ==>
        ring.entry[i].buffptr in heap.blocks && ring.entry[i].buffptr !in PtrsOf(ring.entry[..i])
      ensures PtrsOf(ring.entry[..]) - {NULL} == LivePtrs(State())
    {
      forall i | 0 <= i < SLOTS {
        SlotPtr(i);
      }
      forall k | 0 <= k < |ring.Live()|
        ensures ring.Live()[k].buffptr in PtrsOf(ring.entry[..])
      {
        assert ring.entry[..][ring.SlotIndex(k)] == ring.Live()[k];
      }
    }

    /** aesd_cleanup_module frees each owned block once, and nothing else: what
        stays allocated is exactly what had leaked. */
    method Cleanup()
      requires Valid()
      modifies this`heap
      ensures Sound(heap)
      ensures heap.blocks.Keys == old(Leaked(State()))
      ensures heap.freed == old(heap.freed) + old(Owned(State()))
      ensures old(Leaked(State())) == {} ==> forall p :: FIRST_BLOCK <= p < old(heap.next) ==> p in heap.freed
    {
      ghost var d := State();
      SlotPtrs();
      for index := 0 to SLOTS
        invariant Sound(heap) && heap.next == d.heap.next
        invariant heap.blocks.Keys == d.heap.blocks.Keys - PtrsOf(ring.entry[..index])
        invariant heap.freed == d.heap.freed + (PtrsOf(ring.entry[..index]) - {NULL})
      {
        var p := ring.entry[index].buffptr;
        assert ring.entry[..index + 1] == ring.entry[..index] + [ring.entry[index]];
        PtrsSnoc(ring.entry[..index], ring.entry[index]);
        if p != NULL {
          heap := Kfree(heap, p);
        }
      }
      assert ring.entry[..SLOTS] == ring.entry[..];
      if staging.buffptr != NULL {
        heap := Kfree(heap, staging.buffptr);
      }
    }
  }
}
