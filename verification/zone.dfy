/** zone: a bump allocator over a list of chunks, with alignment, undo, clear and finalizers. */
module Zones {
  import opened Bytes
  import opened Sizing

  /** The payload of a malloc'ed chunk. */
  datatype Chunk = Chunk(base: nat, size: nat) {
    function End(): nat { base + size }
  }

  /** A block handed out and still in use, with the alignment asked for and the chunk it was taken from. */
  datatype Block = Block(addr: nat, size: nat, align: nat, home: Chunk) {
    function End(): nat { addr + size }
  }

  /** chunks: newest first; free and ptr: m_free and m_ptr of the newest chunk. */
  datatype Zone = Zone(chunkSize: nat, chunks: seq<Chunk>, free: nat, ptr: nat, live: seq<Block>)

  ghost predicate Apart(c: Chunk, d: Chunk) {
    c.base != d.base && (c.End() <= d.base || d.End() <= c.base)
  }

  ghost predicate Disjoint(a: Block, b: Block) {
    a.End() <= b.addr || b.End() <= a.addr
  }

  /** The block lies in a chunk of the zone, below the free part if that is the newest chunk. */
  ghost predicate Owned(z: Zone, b: Block)
    requires z.chunks != []
  {
    && b.home in z.chunks && b.align > 0 && Multiple(b.addr, b.align)
    && b.home.base <= b.addr && b.End() <= b.home.End()
    && (b.home == z.chunks[0] ==> b.End() <= z.ptr)
  }

  /** The chunk accounting: used part plus free part make up the payload of the newest chunk. */
  ghost predicate ChunksOk(z: Zone) {
    && z.chunks != []
    && z.chunks[0].base <= z.ptr && z.ptr + z.free == z.chunks[0].End()
    && z.chunks[|z.chunks| - 1].size == z.chunkSize
    && forall i, j | 0 <= i < j < |z.chunks| :: Apart(z.chunks[i], z.chunks[j])
  }

  ghost predicate LiveOk(z: Zone)
    requires z.chunks != []
  {
    && (forall i | 0 <= i < |z.live| :: Owned(z, z.live[i]))
    && (forall i, j | 0 <= i < j < |z.live| :: Disjoint(z.live[i], z.live[j]))
  }

  /** The invariant of every run. */
  ghost predicate Inv(z: Zone) {
    ChunksOk(z) && LiveOk(z)
  }

  lemma HeadChunk(z: Zone)
    requires Inv(z)
    ensures ChunksOk(z) && z.chunks != [] && z.ptr + z.free == z.chunks[0].End()
  {
  }

  // ---- operations ----

  function NewZone(chunkSize: nat, base: nat): Zone {
    Zone(chunkSize, [Chunk(base, chunkSize)], chunkSize, base, [])
  }

  /** Take [addr, addr + size) and move the free part up to ptr. */
  function Place(z: Zone, addr: nat, size: nat, align: nat, ptr: nat): Zone
    requires z.chunks != [] && ptr <= z.chunks[0].End()
  {
    z.(ptr := ptr, free := z.chunks[0].End() - ptr, live := z.live + [Block(addr, size, align, z.chunks[0])])
  }

  /** A new chunk whose payload starts at base. */
  function Extend(z: Zone, base: nat, size: nat): Zone {
    z.(chunks := [Chunk(base, size)] + z.chunks, ptr := base, free := size)
  }

  /** Whether allocate_align has to call allocate_expand. */
  predicate NeedsChunk(z: Zone, size: nat, align: nat)
    requires align > 0
  {
    z.free < size + (AlignUp(z.ptr, align) - z.ptr)
  }

  /** allocate_align; base is the payload of the chunk malloc would return. */
  function AllocateAlign(z: Zone, size: nat, align: nat, base: nat): (r: (Zone, nat))
    requires ChunksOk(z) && align > 0 && z.chunkSize < TWO_64 && size + align < TWO_64
  {
    AlignUpIsNext(z.ptr, align);
    if !NeedsChunk(z, size, align) then
      var a := AlignUp(z.ptr, align);
      (Place(z, a, size, align, a + size), a)
    else
      var need := size + align - 1;
      var a := AlignDown(base, align);
      (Place(Extend(z, base, GrownSize(z.chunkSize, need)), a, size, align, base + need), a)
  }

  function AllocateNoAlign(z: Zone, size: nat, base: nat): (r: (Zone, nat))
    requires ChunksOk(z) && z.chunkSize < TWO_64 && size < TWO_64
  {
    if z.free < size then (Place(Extend(z, base, GrownSize(z.chunkSize, size)), base, size, 1, base + size), base)
    else (Place(z, z.ptr, size, 1, z.ptr + size), z.ptr)
  }

  /** undo_allocate, right after the allocation of a block of this size. */
  function Undo(z: Zone, size: nat): Zone
    requires size <= z.ptr && z.live != []
  {
    z.(ptr := z.ptr - size, free := z.free + size, live := z.live[..|z.live| - 1])
  }

  /** clear: only the oldest chunk stays. */
  function Clear(z: Zone): Zone
    requires z.chunks != []
  {
    var oldest := z.chunks[|z.chunks| - 1];
    Zone(z.chunkSize, [oldest], z.chunkSize, oldest.base, [])
  }

  /** What malloc promises: the new chunk overlaps no chunk of the zone. */
  ghost predicate FreshChunk(z: Zone, base: nat, size: nat) {
    forall i | 0 <= i < |z.chunks| :: Apart(Chunk(base, size), z.chunks[i])
  }

  // ---- every operation keeps the invariant ----

  lemma OutsideHead(z: Zone, b: Block)
    requires ChunksOk(z) && Owned(z, b) && b.home != z.chunks[0]
    ensures b.End() <= z.chunks[0].base || z.chunks[0].End() <= b.addr
  {
    var k :| 0 <= k < |z.chunks| && z.chunks[k] == b.home;
    assert Apart(z.chunks[0], z.chunks[k]);
  }

  lemma PlaceKeeps(z: Zone, addr: nat, size: nat, align: nat, ptr: nat)
    requires Inv(z) && z.ptr <= addr && addr + size <= ptr <= z.chunks[0].End() && align > 0 && Multiple(addr, align)
    ensures Inv(Place(z, addr, size, align, ptr))
  {
    var z', b := Place(z, addr, size, align, ptr), Block(addr, size, align, z.chunks[0]);
    forall i | 0 <= i < |z.live| ensures Owned(z', z.live[i]) && Disjoint(z.live[i], b) {
      if z.live[i].home != z.chunks[0] {
        OutsideHead(z, z.live[i]);
      }
    }
  }

  lemma ExtendKeeps(z: Zone, base: nat, size: nat)
    requires Inv(z) && FreshChunk(z, base, size)
    ensures Inv(Extend(z, base, size))
  {
    var z' := Extend(z, base, size);
    forall i, j | 0 <= i < j < |z'.chunks| ensures Apart(z'.chunks[i], z'.chunks[j]) {
      if i > 0 {
        assert z'.chunks[i] == z.chunks[i - 1] && z'.chunks[j] == z.chunks[j - 1];
      }
    }
    forall i | 0 <= i < |z.live| ensures Owned(z', z.live[i]) {
      var k :| 0 <= k < |z.chunks| && z.chunks[k] == z.live[i].home;
      assert z'.chunks[k + 1] == z.chunks[k] && Apart(z'.chunks[0], z'.chunks[k + 1]);
    }
  }

  /**
   * allocate_align is safe: the block is aligned, lies in an owned chunk and is disjoint from every
   * other live block, provided a new chunk's payload is itself aligned.
   */
  lemma AllocateAlignKeeps(z: Zone, size: nat, align: nat, base: nat)
    requires Inv(z) && align > 0 && z.chunkSize < TWO_64 && size + align < TWO_64
    requires NeedsChunk(z, size, align) ==>
               Multiple(base, align) && FreshChunk(z, base, GrownSize(z.chunkSize, size + align - 1))
    ensures var (z', a) := AllocateAlign(z, size, align, base);
            && Inv(z') && Multiple(a, align)
            && z'.live == z.live + [Block(a, size, align, z'.chunks[0])]
  {
    hide AlignUp, AlignDown, GrownSize, Multiple, Owned, Disjoint, Apart, FreshChunk;
    AlignUpIsNext(z.ptr, align);
    AlignDownIsPrevious(base, align);
    if NeedsChunk(z, size, align) {
      var sz := GrownSize(z.chunkSize, size + align - 1);
      ExtendKeeps(z, base, sz);
      PlaceKeeps(Extend(z, base, sz), base, size, align, base + (size + align - 1));
    } else {
      var a := AlignUp(z.ptr, align);
      PlaceKeeps(z, a, size, align, a + size);
    }
  }

  /**
   * The proviso is exact: a new chunk whose payload is not aligned makes allocate_align round
   * down to an address below that payload, outside every chunk of the zone.
   */
  lemma AllocateAlignKeepsIff(z: Zone, size: nat, align: nat, base: nat)
    requires Inv(z) && align > 0 && z.chunkSize < TWO_64 && size + align < TWO_64
    requires NeedsChunk(z, size, align) && FreshChunk(z, base, GrownSize(z.chunkSize, size + align - 1))
    ensures Inv(AllocateAlign(z, size, align, base).0) <==> Multiple(base, align)
    ensures AllocateAlign(z, size, align, base).1 < base <==> !Multiple(base, align)
  {
    hide AlignUp, AlignDown, GrownSize, Multiple;
    AlignDownIsPrevious(base, align);
    if Multiple(base, align) {
      AllocateAlignKeeps(z, size, align, base);
    } else {
      var z' := AllocateAlign(z, size, align, base).0;
      assert !Owned(z', z'.live[|z.live|]);
    }
  }

  lemma AllocateNoAlignKeeps(z: Zone, size: nat, base: nat)
    requires Inv(z) && z.chunkSize < TWO_64 && size < TWO_64
    requires z.free < size ==> FreshChunk(z, base, GrownSize(z.chunkSize, size))
    ensures var (z', a) := AllocateNoAlign(z, size, base);
            Inv(z') && z'.live == z.live + [Block(a, size, 1, z'.chunks[0])]
  {
    hide GrownSize;
    if z.free < size {
      var sz := GrownSize(z.chunkSize, size);
      ExtendKeeps(z, base, sz);
      PlaceKeeps(Extend(z, base, sz), base, size, 1, base + size);
    } else {
      PlaceKeeps(z, z.ptr, size, 1, z.ptr + size);
    }
  }

  /** Undoing the last allocation gives back all blocks but that one, and keeps the invariant. */
  lemma UndoKeeps(z: Zone, size: nat, align: nat, base: nat)
    requires Inv(z) && align > 0 && z.chunkSize < TWO_64 && size + align < TWO_64
    requires NeedsChunk(z, size, align) ==>
               Multiple(base, align) && FreshChunk(z, base, GrownSize(z.chunkSize, size + align - 1))
    ensures var z' := AllocateAlign(z, size, align, base).0;
            size <= z'.ptr && Inv(Undo(z', size)) && Undo(z', size).live == z.live
  {
    hide AlignUp, AlignDown, GrownSize, Multiple;
    AlignUpIsNext(z.ptr, align);
    AllocateAlignKeeps(z, size, align, base);
    var z' := AllocateAlign(z, size, align, base).0;
    var u := Undo(z', size);
    forall i | 0 <= i < |z.live| ensures Owned(u, z.live[i]) {
      assert z'.live[i] == z.live[i] && Owned(z', z.live[i]) && Owned(z, z.live[i]);
      if NeedsChunk(z, size, align) {
        HomeIsOld(z, z', z.live[i]);
      }
    }
  }

  /** The last allocation of the newest chunk can be undone. */
  ghost predicate Undoable(z: Zone, size: nat) {
    && z.chunks != [] && z.live != [] && z.chunks[0].base + size <= z.ptr
    && var last := z.live[|z.live| - 1];
       && last.home == z.chunks[0] && last.size == size && last.End() == z.ptr
       && (forall i | 0 <= i < |z.live| - 1 && z.live[i].home == z.chunks[0] :: z.live[i].addr < z.ptr)
  }

  /** Undoing it keeps the invariant, whatever came before. */
  lemma UndoLast(z: Zone, size: nat)
    requires Inv(z) && Undoable(z, size)
    ensures Inv(Undo(z, size))
  {
    var u, n := Undo(z, size), |z.live| - 1;
    forall i | 0 <= i < n ensures Owned(u, z.live[i]) {
      assert Owned(z, z.live[i]) && Disjoint(z.live[i], z.live[n]);
    }
  }

  /** A block of z does not live in a chunk that is new in z'. */
  lemma HomeIsOld(z: Zone, z': Zone, b: Block)
    requires ChunksOk(z) && ChunksOk(z') && Owned(z, b)
    requires z'.chunks == [z'.chunks[0]] + z.chunks
    ensures b.home != z'.chunks[0]
  {
    var k :| 0 <= k < |z.chunks| && z.chunks[k] == b.home;
    assert Apart(z'.chunks[0], z'.chunks[k + 1]);
  }

  lemma ClearKeeps(z: Zone)
    requires Inv(z)
    ensures Inv(Clear(z)) && Clear(z).live == []
  {
  }

  lemma NewZoneInv(chunkSize: nat, base: nat)
    ensures Inv(NewZone(chunkSize, base))
  {
  }

  // ---- runs ----

  /** Undone: allocated and given back at once, as allocate<T> does when construction throws. */
  datatype Op =
    | Aligned(size: nat, align: nat, base: nat)
    | Unaligned(size: nat, base: nat)
    | Undone(size: nat, align: nat, base: nat)
    | Cleared

  /** What the caller passes, and what malloc returns if a chunk is needed. */
  ghost predicate Ready(z: Zone, op: Op)
    requires z.chunkSize < TWO_64
  {
    match op
    case Aligned(size, align, base) => AlignedReady(z, size, align, base)
    case Undone(size, align, base) => AlignedReady(z, size, align, base)
    case Unaligned(size, base) => size < TWO_64 && (z.free < size ==> FreshChunk(z, base, GrownSize(z.chunkSize, size)))
    case Cleared => true
  }

  ghost predicate AlignedReady(z: Zone, size: nat, align: nat, base: nat)
    requires z.chunkSize < TWO_64
  {
    && align > 0 && size + align < TWO_64
    && (NeedsChunk(z, size, align) ==>
          Multiple(base, align) && FreshChunk(z, base, GrownSize(z.chunkSize, size + align - 1)))
  }

  ghost function Apply(z: Zone, op: Op): (z': Zone)
    requires Inv(z) && z.chunkSize < TWO_64 && Ready(z, op)
    ensures z'.chunkSize == z.chunkSize
  {
    match op
    case Aligned(size, align, base) => AllocateAlign(z, size, align, base).0
    case Unaligned(size, base) => AllocateNoAlign(z, size, base).0
    case Undone(size, align, base) =>
      UndoKeeps(z, size, align, base);
      Undo(AllocateAlign(z, size, align, base).0, size)
    case Cleared => Clear(z)
  }

  /** The operations lead from z to z'; once the invariant is broken they may lead anywhere. */
  ghost predicate Reaches(z: Zone, ops: seq<Op>, z': Zone)
    requires z.chunkSize < TWO_64
    decreases ops
  {
    if ops == [] then z == z'
    else Ready(z, ops[0]) && (Inv(z) ==> Reaches(Apply(z, ops[0]), ops[1..], z'))
  }

  lemma StepKeeps(z: Zone, op: Op)
    requires Inv(z) && z.chunkSize < TWO_64 && Ready(z, op)
    ensures Inv(Apply(z, op))
  {
    hide Inv, GrownSize, AlignUp, AlignDown;
    match op
    case Aligned(size, align, base) => AllocateAlignKeeps(z, size, align, base);
    case Unaligned(size, base) => AllocateNoAlignKeeps(z, size, base);
    case Undone(size, align, base) => UndoKeeps(z, size, align, base);
    case Cleared => ClearKeeps(z);
  }

  /**
   * Over every sequence of allocations, undone allocations and clears: each live block has the
   * alignment it was asked for and lies in a chunk of the zone, below the free part of the newest;
   * live blocks are pairwise disjoint; used and free part make up the payload of the newest chunk.
   */
  lemma {:induction false} RunKeeps(z: Zone, ops: seq<Op>, z': Zone)
    requires z.chunkSize < TWO_64 && Inv(z) && Reaches(z, ops, z')
    ensures Inv(z')
    ensures forall i | 0 <= i < |z'.live| ::
              Owned(z', z'.live[i]) && Multiple(z'.live[i].addr, z'.live[i].align)
    ensures forall i, j | 0 <= i < j < |z'.live| :: Disjoint(z'.live[i], z'.live[j])
    decreases ops
  {
    hide Ready, Apply;
    if ops != [] {
      StepKeeps(z, ops[0]);
      RunKeeps(Apply(z, ops[0]), ops[1..], z');
    }
  }
}
