/** The kernel allocator as the driver sees it. Every allocation is a block of
    its own, numbered and never reused, so "freed once" can be said of a block. */
module KernelHeap {
  import opened RingBuffer

  /** What kmalloc(0) returns: not NULL, and not a block. */
  const ZERO_SIZE_PTR := 16
  const FIRST_BLOCK := 17

  /** `blocks` are allocated, `freed` were, and `badFrees` counts the calls of
      kfree on anything that was neither a live block nor nothing. */
  datatype Heap = Heap(blocks: map<nat, string>, freed: set<nat>, next: nat, badFrees: nat)

  const EMPTY := Heap(map[], {}, FIRST_BLOCK, 0)

  /** How an allocation turns out; a successful krealloc may move the block. */
  datatype Alloc = Fails | InPlace | Moves

  predicate IsNothing(p: nat) {
    p == NULL || p == ZERO_SIZE_PTR
  }

  /** `n` bytes of unknown memory: what `junk` says, and zeros after it. */
  function Fit(junk: string, n: nat): (r: string)
    ensures |r| == n
  {
    if n <= |junk| then junk[..n] else junk + seq(n - |junk|, _ => '\0')
  }

  /** Every block ever allocated is live or freed, never both, and no free went wrong. */
  ghost predicate Sound(h: Heap) {
    && FIRST_BLOCK <= h.next
    && h.blocks.Keys !! h.freed
    && (forall p :: p in h.blocks || p in h.freed <==> FIRST_BLOCK <= p < h.next)
    && h.badFrees == 0
  }

  /** A successful kmalloc. */
  function Kmalloc(h: Heap, size: nat, junk: string): (r: (Heap, nat))
    ensures Sound(h) ==> Sound(r.0)
    ensures size > 0 ==> r.1 == h.next
  {
    if size == 0 then (h, ZERO_SIZE_PTR)
    else (h.(blocks := h.blocks[h.next := Fit(junk, size)], next := h.next + 1), h.next)
  }

  function Kfree(h: Heap, p: nat): (r: Heap)
    ensures Sound(h) && (IsNothing(p) || p in h.blocks) ==> Sound(r)
    ensures Sound(h) && p in h.blocks ==> r.blocks == h.blocks - {p} && r.freed == h.freed + {p}
  {
    if p in h.blocks then h.(blocks := h.blocks - {p}, freed := h.freed + {p})
    else if IsNothing(p) then h
    else h.(badFrees := h.badFrees + 1)
  }

  /** A successful krealloc: the old bytes stay in front, and a NULL block is a
      plain allocation. */
  function Krealloc(h: Heap, p: nat, size: nat, alloc: Alloc, junk: string): (r: (Heap, nat))
    requires alloc != Fails
    requires p in h.blocks ==> |h.blocks[p]| <= size
    ensures Sound(h) && (p == NULL || p in h.blocks) ==> Sound(r.0)
  {
    if p !in h.blocks then Kmalloc(h, size, junk)
    else
      var bytes := h.blocks[p] + Fit(junk, size - |h.blocks[p]|);
      if alloc == InPlace then (h.(blocks := h.blocks[p := bytes]), p)
      else
        var moved := h.(blocks := h.blocks[h.next := bytes], next := h.next + 1);
        (Kfree(moved, p), h.next)
  }

  /** Bytes written over the end of a live block. */
  function CopyIn(h: Heap, p: nat, offset: nat, bytes: string): (r: Heap)
    requires p in h.blocks ==> offset <= |h.blocks[p]|
    ensures Sound(h) ==> Sound(r)
  {
    if p in h.blocks then h.(blocks := h.blocks[p := h.blocks[p][..offset] + bytes]) else h
  }
}
