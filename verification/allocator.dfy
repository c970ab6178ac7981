/** zone as an object: chunk_list, finalizer_array and the allocation functions, updated in place. */
module Allocators {
  import opened Bytes
  import opened Sizing
  import opened Zones

  datatype Finalizer = Finalizer(func: nat, data: nat)

  function Reversed(fs: seq<Finalizer>): (rs: seq<Finalizer>)
    ensures |rs| == |fs| && forall i | 0 <= i < |fs| :: rs[i] == fs[|fs| - 1 - i]
  {
    seq(|fs|, i requires 0 <= i < |fs| => fs[|fs| - 1 - i])
  }

  /** finalizer_array */
  class FinalizerArray {
    var arr: array<Finalizer>       // m_array .. m_end
    var tail: nat                   // m_tail - m_array
    ghost var ran: seq<Finalizer>   // every finalizer call so far

    ghost predicate Valid()
      reads this
    {
      tail <= arr.Length
    }

    /** The finalizers pushed and not yet called, in push order. */
    ghost function Contents(): seq<Finalizer>
      requires Valid()
      reads this, arr
    {
      arr[..tail]
    }

    constructor ()
      ensures Valid() && Contents() == [] && ran == [] && fresh(arr)
    {
      arr := new Finalizer[0];
      tail, ran := 0, [];
    }

    method Push(f: Finalizer)
      requires Valid()
      modifies this`arr, this`tail, arr
      ensures Valid() && Contents() == old(Contents()) + [f]
      ensures arr == old(arr) || fresh(arr)
    {
      if tail == arr.Length {
        PushExpand(f);
        return;
      }
      arr[tail] := f;
      tail := tail + 1;
    }

    /** realloc to 72 / sizeof(finalizer) = 4 entries at first, then to twice as many. */
    method PushExpand(f: Finalizer)
      requires Valid() && tail == arr.Length
      modifies this`arr, this`tail
      ensures Valid() && Contents() == old(Contents()) + [f] && fresh(arr)
      ensures arr.Length == if old(arr.Length) == 0 then 4 else 2 * old(arr.Length)
    {
      var nused := arr.Length;
      var nnext := if nused == 0 then 72 / 16 else nused * 2;
      var was := arr;
      var tmp := new Finalizer[nnext](_ => f);
      var k := 0;
      while k < nused
        invariant k <= nused && tmp[..k] == was[..k]
      {
        tmp[k] := was[k];
        k := k + 1;
      }
      tmp[nused] := f;
      assert tmp[..nused] == was[..nused];
      arr, tail := tmp, nused + 1;
    }

    /** call(): every pushed finalizer, last pushed first. */
    method Call()
      requires Valid()
      modifies this`ran
      ensures ran == old(ran) + Reversed(Contents())
    {
      var fin := tail;
      while fin != 0
        invariant 0 <= fin <= tail
        decreases fin
        invariant ran == old(ran) + Reversed(arr[..tail])[..tail - fin]
      {
        ran := ran + [arr[fin - 1]];
        fin := fin - 1;
      }
    }

    method Clear()
      requires Valid()
      modifies this`ran, this`tail
      ensures Valid() && Contents() == [] && ran == old(ran) + Reversed(old(Contents()))
    {
      Call();
      tail := 0;
    }

    /** --m_tail, when the object just registered could not be constructed. */
    method Pop()
      requires Valid() && tail > 0
      modifies this`tail
      ensures Valid() && Contents() == old(Contents())[..old(tail) - 1]
    {
      tail := tail - 1;
    }
  }

  /** How the constructor call inside allocate<T> can end. */
  datatype Construction = Constructed | PushFailed | Threw

  class Allocator {
    const chunkSize: nat
    var chunks: seq<Chunk>
    var free: nat
    var ptr: nat
    ghost var live: seq<Block>
    const fins: FinalizerArray

    ghost function Abs(): Zone
      reads this
    {
      Zone(chunkSize, chunks, free, ptr, live)
    }

    ghost predicate Valid()
      reads this, fins
    {
      Inv(Abs()) && chunkSize < TWO_64 && fins.Valid()
    }

    constructor (size: nat, base: nat)
      requires size < TWO_64
      ensures Valid() && Abs() == NewZone(size, base) && fresh(fins) && fresh(fins.arr)
      ensures fins.Contents() == [] && fins.ran == []
    {
      chunkSize := size;
      chunks, free, ptr, live := [Chunk(base, size)], size, base, [];
      fins := new FinalizerArray();
      new;
      NewZoneInv(size, base);
    }

    /** allocate_expand: a new chunk with `need` bytes taken from its start. */
    method AllocateExpand(need: nat, base: nat) returns (addr: nat)
      requires chunkSize < TWO_64 && need < TWO_64
      modifies this`chunks, this`free, this`ptr
      ensures addr == base
      ensures chunks == [Chunk(base, GrownSize(chunkSize, need))] + old(chunks)
      ensures ptr == base + need && free == GrownSize(chunkSize, need) - need
    {
      var sz := GrowSize(chunkSize, need);
      chunks := [Chunk(base, sz)] + chunks;
      free := sz - need;
      ptr := base + need;
      return base;
    }

    method AllocateAlign(size: nat, align: nat, base: nat) returns (addr: nat)
      requires Valid() && align > 0 && size + align < TWO_64
      requires NeedsChunk(Abs(), size, align) ==>
                 Multiple(base, align) && FreshChunk(Abs(), base, GrownSize(chunkSize, size + align - 1))
      modifies this`chunks, this`free, this`ptr, this`live
      ensures Valid() && (Abs(), addr) == Zones.AllocateAlign(old(Abs()), size, align, base)
    {
      hide GrownSize, AlignUp, AlignDown, Multiple, FreshChunk, Inv, ChunksOk;
      HeadChunk(Abs());
      AllocateAlignKeeps(Abs(), size, align, base);
      AlignUpIsNext(ptr, align);
      var aligned := AlignUp(ptr, align);
      var adjusted := size + (aligned - ptr);
      if free >= adjusted {
        free := free - adjusted;
        ptr := ptr + adjusted;
        addr := aligned;
      } else {
        var p := AllocateExpand(size + (align - 1), base);
        addr := AlignDown(p, align);
      }
      live := live + [Block(addr, size, align, chunks[0])];
    }

    method AllocateNoAlign(size: nat, base: nat) returns (addr: nat)
      requires Valid() && size < TWO_64
      requires free < size ==> FreshChunk(Abs(), base, GrownSize(chunkSize, size))
      modifies this`chunks, this`free, this`ptr, this`live
      ensures Valid() && (Abs(), addr) == Zones.AllocateNoAlign(old(Abs()), size, base)
    {
      hide GrownSize;
      AllocateNoAlignKeeps(Abs(), size, base);
      if free < size {
        addr := AllocateExpand(size, base);
      } else {
        addr := ptr;
        free := free - size;
        ptr := ptr + size;
      }
      live := live + [Block(addr, size, 1, chunks[0])];
    }

    /** clear(): run the finalizers, free every chunk but the oldest. */
    method Clear()
      requires Valid()
      modifies this`chunks, this`free, this`ptr, this`live, fins`ran, fins`tail
      ensures Valid() && Abs() == Zones.Clear(old(Abs()))
      ensures fins.Contents() == [] && fins.ran == old(fins.ran) + Reversed(old(fins.Contents()))
    {
      ClearKeeps(Abs());
      fins.Clear();
      var k := 0;
      while k + 1 < |chunks|
        invariant k < |chunks|
      {
        k := k + 1;
      }
      chunks := [chunks[k]];
      free, ptr, live := chunkSize, chunks[0].base, [];
    }

    /** allocate<T>: a block with a registered destructor, or no trace of it. */
    method Allocate(size: nat, func: nat, base: nat, how: Construction) returns (addr: nat)
      requires Valid() && size + 8 < TWO_64
      requires NeedsChunk(Abs(), size, 8) ==>
                 Multiple(base, 8) && FreshChunk(Abs(), base, GrownSize(chunkSize, size + 7))
      modifies this`chunks, this`free, this`ptr, this`live, fins, fins.arr
      ensures Valid()
      ensures how.Constructed? ==>
                && Multiple(addr, 8) && live == old(live) + [Block(addr, size, 8, chunks[0])]
                && fins.Contents() == old(fins.Contents()) + [Finalizer(func, addr)]
      ensures !how.Constructed? ==> live == old(live) && fins.Contents() == old(fins.Contents())
      ensures fins.ran == old(fins.ran)
    {
      hide GrownSize, Inv;
      UndoKeeps(Abs(), size, 8, base);
      AllocateAlignKeeps(Abs(), size, 8, base);
      addr := AllocateAlign(size, 8, base);
      match how {
        case PushFailed =>
          UndoAllocate(size);
        case Threw =>
          fins.Push(Finalizer(func, addr));
          fins.Pop();
          UndoAllocate(size);
        case Constructed =>
          fins.Push(Finalizer(func, addr));
      }
    }

    /**
     * undo_allocate: size bytes go from the used to the free part of the newest chunk; if they are
     * its last block, the zone is valid again without that block.
     */
    method UndoAllocate(size: nat)
      requires size <= ptr && live != []
      modifies this`free, this`ptr, this`live
      ensures Abs() == Undo(old(Abs()), size)
      ensures ptr + free == old(ptr + free) && chunks == old(chunks)
      ensures old(Valid()) && Undoable(old(Abs()), size) ==> Valid()
      ensures forall i | 0 <= i < |live| :: live[i] == old(live)[i]
    {
      hide Inv;
      if old(Valid()) && Undoable(Abs(), size) {
        UndoLast(Abs(), size);
      }
      ptr := ptr - size;
      free := free + size;
      live := live[..|live| - 1];
    }
  }
}
