/** The slab allocator: for every size and alignment a list of chunks whose slot counts double up to
    a cap, and one bitset over all slots in which a set bit marks a free slot. */
module Slabs {
  import opened Alignment
  import opened Arith

  /** A range of memory. */
  datatype Block = Block(start: nat, len: nat) {
    predicate Disjoint(other: Block) { start + len <= other.start || other.start + other.len <= start }

    predicate Inside(other: Block) { other.start <= start && start + len <= other.start + other.len }
  }

  function Min(a: nat, b: nat): nat { if a < b then a else b }

  function Pow2(n: nat): (p: nat)
    ensures p >= 1
  {
    if n == 0 then 1 else 2 * Pow2(n - 1)
  }

  /** The shift amount is a 6-bit number, so the doubling stops at 2^63. */
  function ChunkSize(index: nat, max: nat): (size: nat)
    ensures max >= 1 ==> size >= 1
    ensures size <= max
  {
    Min(Pow2(Min(63, index)), max)
  }

  /** The first chunk has one slot, and each chunk twice the slots of the one before until the maximum is reached. */
  lemma ChunksDouble(index: nat, max: nat)
    requires max >= 1
    ensures ChunkSize(0, max) == 1
    ensures index < 63 ==> ChunkSize(index + 1, max) == Min(2 * ChunkSize(index, max), max)
    ensures index >= 63 ==> ChunkSize(index, max) == ChunkSize(63, max)
  {
  }

  /** The bitset index of the first slot of a chunk. */
  function FirstSlot(chunk: nat, max: nat): nat {
    if chunk == 0 then 0 else FirstSlot(chunk - 1, max) + ChunkSize(chunk - 1, max)
  }

  lemma FirstSlotMonotone(a: nat, b: nat, max: nat)
    requires a <= b && max >= 1
    ensures FirstSlot(a, max) + (b - a) <= FirstSlot(b, max)
    decreases b - a
  {
    if a < b { FirstSlotMonotone(a, b - 1, max); }
  }

  /** A bitset index determines its chunk and slot. */
  lemma SlotUnique(c: nat, s: nat, c': nat, s': nat, max: nat)
    requires max >= 1 && s < ChunkSize(c, max) && s' < ChunkSize(c', max)
    requires FirstSlot(c, max) + s == FirstSlot(c', max) + s'
    ensures c == c' && s == s'
  {
    if c < c' { FirstSlotMonotone(c + 1, c', max); }
    if c' < c { FirstSlotMonotone(c' + 1, c, max); }
  }

  /** The next chunk is never larger than all earlier ones together plus one. */
  lemma {:induction false} ChunkAtMostDoubles(n: nat, max: nat)
    requires max >= 1
    ensures ChunkSize(n, max) <= FirstSlot(n, max) + 1
  {
    if n > 0 {
      ChunkAtMostDoubles(n - 1, max);
      assert Pow2(Min(63, n)) <= 2 * Pow2(Min(63, n - 1));
    }
  }

  /** Chunk of a bitset index, searching from chunk `c` with `index` counted from its first slot. */
  function ChunkFrom(index: nat, c: nat, max: nat): (chunk: nat)
    requires max >= 1
    ensures c <= chunk && FirstSlot(chunk, max) <= FirstSlot(c, max) + index < FirstSlot(chunk + 1, max)
    decreases index
  {
    if index < ChunkSize(c, max) then c else ChunkFrom(index - ChunkSize(c, max), c + 1, max)
  }

  function ChunkOf(index: nat, max: nat): (chunk: nat)
    requires max >= 1
    ensures FirstSlot(chunk, max) <= index < FirstSlot(chunk + 1, max)
  {
    ChunkFrom(index, 0, max)
  }

  lemma ChunkInRange(index: nat, chunks: nat, max: nat)
    requires max >= 1 && index < FirstSlot(chunks, max)
    ensures ChunkOf(index, max) < chunks
  {
    if chunks <= ChunkOf(index, max) { FirstSlotMonotone(chunks, ChunkOf(index, max), max); }
  }

  function CountFree(bits: seq<bool>): (n: nat)
    ensures n <= |bits|
  {
    if bits == [] then 0 else CountFree(bits[..|bits| - 1]) + (if bits[|bits| - 1] then 1 else 0)
  }

  lemma CountUpdate(bits: seq<bool>, i: nat, b: bool)
    requires i < |bits| && bits[i] != b
    ensures CountFree(bits[i := b]) == CountFree(bits) + (if b then 1 else -1)
  {
    var last := |bits| - 1;
    if i == last {
      assert bits[i := b][..last] == bits[..last];
    } else {
      assert bits[i := b][..last] == bits[..last][i := b];
      CountUpdate(bits[..last], i, b);
    }
  }

  lemma CountGrow(bits: seq<bool>, n: nat)
    ensures CountFree(bits + seq(n, _ => true)) == CountFree(bits) + n
  {
    if n == 0 {
      assert bits + seq(n, _ => true) == bits;
    } else {
      var more := bits + seq(n, _ => true);
      assert more[..|more| - 1] == bits + seq(n - 1, _ => true);
      CountGrow(bits, n - 1);
    }
  }

  lemma NoneFree(bits: seq<bool>)
    requires forall i :: 0 <= i < |bits| ==> !bits[i]
    ensures CountFree(bits) == 0
  {
  }

  lemma AllFree(bits: seq<bool>)
    requires forall i :: 0 <= i < |bits| ==> bits[i]
    ensures CountFree(bits) == |bits|
  {
  }

  // ----- one slab

  /** The bytes that `n` items take, counted one item at a time. */
  function Bytes(n: nat, itemSize: nat): nat { if n == 0 then 0 else Bytes(n - 1, itemSize) + itemSize }

  lemma {:induction false} BytesProduct(n: nat, itemSize: nat)
    ensures Bytes(n, itemSize) == n * itemSize
  {
    if n > 0 { BytesProduct(n - 1, itemSize); }
  }

  lemma {:induction false} BytesGrow(m: nat, n: nat, itemSize: nat)
    requires m < n
    ensures Bytes(m, itemSize) + itemSize <= Bytes(n, itemSize)
  {
    if m + 1 < n { BytesGrow(m, n - 1, itemSize); }
  }

  lemma {:induction false} BytesAligned(n: nat, itemSize: nat, align: nat)
    requires align > 0 && itemSize % align == 0
    ensures Bytes(n, itemSize) % align == 0
  {
    if n > 0 {
      BytesAligned(n - 1, itemSize, align);
      DividesSum(align, Bytes(n - 1, itemSize), itemSize);
    }
  }

  /** The lengths of a slab's chunks follow the doubling rule, and no two chunks overlap. */
  ghost predicate GoodChunks(chunks: seq<Block>, itemSize: nat, max: nat) {
    && (forall i :: 0 <= i < |chunks| ==> chunks[i].len == Bytes(ChunkSize(i, max), itemSize))
    && (forall i, j :: 0 <= i < j < |chunks| ==> chunks[i].Disjoint(chunks[j]))
  }

  ghost predicate AlignedChunks(chunks: seq<Block>, itemSize: nat, align: nat) {
    Aligned(itemSize, align) && forall i :: 0 <= i < |chunks| ==> Aligned(chunks[i].start, align)
  }

  /** The memory of a slot. */
  function SlotBlock(chunks: seq<Block>, itemSize: nat, max: nat, index: nat): (b: Block)
    requires max >= 1 && index < FirstSlot(|chunks|, max)
    ensures b.len == itemSize
  {
    ChunkInRange(index, |chunks|, max);
    var c := ChunkOf(index, max);
    Block(chunks[c].start + Bytes(index - FirstSlot(c, max), itemSize), itemSize)
  }

  /** Every slot lies inside its chunk. */
  lemma SlotInside(chunks: seq<Block>, itemSize: nat, max: nat, index: nat)
    requires max >= 1 && GoodChunks(chunks, itemSize, max) && index < FirstSlot(|chunks|, max)
    ensures ChunkOf(index, max) < |chunks|
    ensures SlotBlock(chunks, itemSize, max, index).Inside(chunks[ChunkOf(index, max)])
  {
    ChunkInRange(index, |chunks|, max);
    var c := ChunkOf(index, max);
    BytesGrow(index - FirstSlot(c, max), ChunkSize(c, max), itemSize);
  }

  lemma SlotAligned(chunks: seq<Block>, itemSize: nat, align: nat, max: nat, index: nat)
    requires max >= 1 && AlignedChunks(chunks, itemSize, align) && index < FirstSlot(|chunks|, max)
    ensures Aligned(SlotBlock(chunks, itemSize, max, index).start, align)
  {
    ChunkInRange(index, |chunks|, max);
    var c := ChunkOf(index, max);
    BytesAligned(index - FirstSlot(c, max), itemSize, align);
    DividesSum(align, chunks[c].start, Bytes(index - FirstSlot(c, max), itemSize));
  }

  /** Different slots never overlap. */
  lemma SlotsDisjoint(chunks: seq<Block>, itemSize: nat, max: nat, i: nat, j: nat)
    requires max >= 1 && itemSize > 0 && GoodChunks(chunks, itemSize, max)
    requires i < FirstSlot(|chunks|, max) && j < FirstSlot(|chunks|, max) && i != j
    ensures SlotBlock(chunks, itemSize, max, i).Disjoint(SlotBlock(chunks, itemSize, max, j))
  {
    hide ChunkOf, FirstSlot, Bytes;
    SlotInside(chunks, itemSize, max, i);
    SlotInside(chunks, itemSize, max, j);
    var c, d := ChunkOf(i, max), ChunkOf(j, max);
    if c == d {
      var s, t := i - FirstSlot(c, max), j - FirstSlot(c, max);
      if s < t { BytesGrow(s, t, itemSize); } else { BytesGrow(t, s, itemSize); }
    }
  }

  /** The address arithmetic of allocation and release. */
  lemma SlotAt(chunks: seq<Block>, itemSize: nat, max: nat, index: nat)
    requires max >= 1 && itemSize > 0 && index < FirstSlot(|chunks|, max)
    ensures var c, s := ChunkOf(index, max), index - FirstSlot(ChunkOf(index, max), max);
            && c < |chunks| && SlotBlock(chunks, itemSize, max, index)
                == Block(chunks[c].start + s * itemSize, itemSize)
            && (s * itemSize) / itemSize == s
  {
    hide ChunkOf, FirstSlot, Bytes;
    ChunkInRange(index, |chunks|, max);
    var s := index - FirstSlot(ChunkOf(index, max), max);
    BytesProduct(s, itemSize);
    MultipleDivides(itemSize, s);
  }

  lemma SlotKeeps(chunks: seq<Block>, more: Block, itemSize: nat, max: nat, index: nat)
    requires max >= 1 && index < FirstSlot(|chunks|, max)
    ensures index < FirstSlot(|chunks + [more]|, max)
    ensures SlotBlock(chunks + [more], itemSize, max, index) == SlotBlock(chunks, itemSize, max, index)
  {
    FirstSlotMonotone(|chunks|, |chunks| + 1, max);
    ChunkInRange(index, |chunks|, max);
  }

  // ----- which slots are held

  /** A bit is clear exactly when its slot is held. */
  ghost predicate Accounted(bits: seq<bool>, chunks: seq<Block>, itemSize: nat, max: nat, held: set<nat>)
    requires max >= 1 && |bits| == FirstSlot(|chunks|, max)
  {
    && (forall i :: 0 <= i < |bits| && !bits[i] ==> SlotBlock(chunks, itemSize, max, i).start in held)
    && (forall a :: a in held ==>
          exists i :: 0 <= i < |bits| && !bits[i] && SlotBlock(chunks, itemSize, max, i).start == a)
  }

  lemma HeldSlot(bits: seq<bool>, chunks: seq<Block>, itemSize: nat, max: nat, held: set<nat>, a: nat) returns (i: nat)
    requires max >= 1 && |bits| == FirstSlot(|chunks|, max) && Accounted(bits, chunks, itemSize, max, held) && a in held
    ensures i < |bits| && !bits[i] && SlotBlock(chunks, itemSize, max, i).start == a
  {
    i :| 0 <= i < |bits| && !bits[i] && SlotBlock(chunks, itemSize, max, i).start == a;
  }

  lemma Take(bits: seq<bool>, chunks: seq<Block>, itemSize: nat, max: nat, held: set<nat>, i: nat)
    requires max >= 1 && itemSize > 0 && |bits| == FirstSlot(|chunks|, max) && GoodChunks(chunks, itemSize, max)
    requires Accounted(bits, chunks, itemSize, max, held) && i < |bits| && bits[i]
    ensures var a := SlotBlock(chunks, itemSize, max, i).start;
            a !in held && Accounted(bits[i := false], chunks, itemSize, max, held + {a})
  {
    var a := SlotBlock(chunks, itemSize, max, i).start;
    if a in held {
      var j :| 0 <= j < |bits| && !bits[j] && SlotBlock(chunks, itemSize, max, j).start == a;
      SlotsDisjoint(chunks, itemSize, max, i, j);
    }
    var taken := bits[i := false];
    forall b | b in held + {a}
      ensures exists j :: 0 <= j < |taken| && !taken[j] && SlotBlock(chunks, itemSize, max, j).start == b
    {
      if b == a {
        assert !taken[i];
      } else {
        var j :| 0 <= j < |bits| && !bits[j] && SlotBlock(chunks, itemSize, max, j).start == b;
        assert !taken[j];
      }
    }
  }

  lemma Give(bits: seq<bool>, chunks: seq<Block>, itemSize: nat, max: nat, held: set<nat>, i: nat)
    requires max >= 1 && itemSize > 0 && |bits| == FirstSlot(|chunks|, max) && GoodChunks(chunks, itemSize, max)
    requires Accounted(bits, chunks, itemSize, max, held) && i < |bits| && !bits[i]
    ensures var a := SlotBlock(chunks, itemSize, max, i).start;
            Accounted(bits[i := true], chunks, itemSize, max, held - {a})
  {
    var a := SlotBlock(chunks, itemSize, max, i).start;
    var given := bits[i := true];
    forall j | 0 <= j < |given| && !given[j]
      ensures SlotBlock(chunks, itemSize, max, j).start in held - {a}
    {
      SlotsDisjoint(chunks, itemSize, max, i, j);
    }
    forall b | b in held - {a}
      ensures exists j :: 0 <= j < |given| && !given[j] && SlotBlock(chunks, itemSize, max, j).start == b
    {
      var j :| 0 <= j < |bits| && !bits[j] && SlotBlock(chunks, itemSize, max, j).start == b;
      assert !given[j];
    }
  }

  lemma Grow(bits: seq<bool>, chunks: seq<Block>, itemSize: nat, max: nat, held: set<nat>, chunk: Block)
    requires max >= 1 && |bits| == FirstSlot(|chunks|, max) && Accounted(bits, chunks, itemSize, max, held)
    ensures var more := bits + seq(ChunkSize(|chunks|, max), _ => true);
            && |more| == FirstSlot(|chunks + [chunk]|, max)
            && Accounted(more, chunks + [chunk], itemSize, max, held)
  {
    var more := bits + seq(ChunkSize(|chunks|, max), _ => true);
    assert |more| == FirstSlot(|chunks + [chunk]|, max);
    hide FirstSlot, SlotBlock, ChunkSize;
    forall i | 0 <= i < |bits|
      ensures SlotBlock(chunks + [chunk], itemSize, max, i) == SlotBlock(chunks, itemSize, max, i)
    {
      SlotKeeps(chunks, chunk, itemSize, max, i);
    }
    forall a | a in held
      ensures exists i :: 0 <= i < |more| && !more[i] && SlotBlock(chunks + [chunk], itemSize, max, i).start == a
    {
      var i :| 0 <= i < |bits| && !bits[i] && SlotBlock(chunks, itemSize, max, i).start == a;
      assert !more[i];
    }
  }

  /** The first slot of the last chunk is at its start. */
  lemma FirstOfLast(chunks: seq<Block>, itemSize: nat, max: nat)
    requires max >= 1 && chunks != []
    ensures var i := FirstSlot(|chunks| - 1, max);
            && i < FirstSlot(|chunks|, max)
            && SlotBlock(chunks, itemSize, max, i) == Block(chunks[|chunks| - 1].start, itemSize)
  {
    var n := |chunks| - 1;
    var i := FirstSlot(n, max);
    SlotUnique(n, 0, ChunkOf(i, max), i - FirstSlot(ChunkOf(i, max), max), max);
  }

  /** The capacity never runs far ahead of what was held at the busiest moment. */
  predicate Bounded(total: nat, free: nat, peak: nat, max: nat) {
    && free <= total && total - free <= peak
    && (total > 0 ==> total <= 2 * peak - 1 && total < peak + max)
  }

  class Slab {
    const align: nat
    const itemSize: nat
    const max: nat
    /** A set bit marks a free slot. */
    var bitset: seq<bool>
    var chunks: seq<Block>
    /** Start addresses of the slots that callers hold, and the most ever held at once. */
    ghost var held: set<nat>
    ghost var peak: nat

    ghost predicate Shape()
      reads this
    {
      && max >= 1 && itemSize > 0
      && |bitset| == FirstSlot(|chunks|, max)
      && GoodChunks(chunks, itemSize, max) && AlignedChunks(chunks, itemSize, align)
    }

    ghost predicate Valid()
      reads this
    {
      && Shape()
      && Accounted(bitset, chunks, itemSize, max, held)
      && Bounded(|bitset|, CountFree(bitset), peak, max)
    }

    constructor (align: nat, itemSize: nat, max: nat)
      requires max >= 1 && itemSize > 0 && Aligned(itemSize, align)
      ensures Valid() && bitset == [] && chunks == [] && held == {} && peak == 0
      ensures this.align == align && this.itemSize == itemSize && this.max == max
    {
      this.align, this.itemSize, this.max := align, itemSize, max;
      bitset, chunks := [], [];
      held, peak := {}, 0;
    }

    method ToBitsetIndex(chunk: nat, slot: nat) returns (index: nat)
      ensures index == FirstSlot(chunk, max) + slot
    {
      var offset := 0;
      for i := 0 to chunk
        invariant offset == FirstSlot(i, max)
      {
        offset := offset + ChunkSize(i, max);
      }
      index := offset + slot;
    }

    method ToChunkAndSlotIndices(index: nat) returns (chunk: nat, slot: nat)
      requires max >= 1 && index < FirstSlot(|chunks|, max)
      ensures chunk < |chunks| && slot < ChunkSize(chunk, max)
      ensures FirstSlot(chunk, max) + slot == index && chunk == ChunkOf(index, max)
    {
      var offset := 0;
      chunk := 0;
      slot := 0;
      while chunk < |chunks|
        invariant chunk <= |chunks| && offset == FirstSlot(chunk, max) <= index
      {
        var size := ChunkSize(chunk, max);
        if index < offset + size {
          slot := index - offset;
          var c := ChunkOf(index, max);
          SlotUnique(chunk, slot, c, index - FirstSlot(c, max), max);
          return;
        }
        offset := offset + size;
        chunk := chunk + 1;
      }
      assert false;
    }

    method FindFirstSet() returns (found: bool, index: nat)
      ensures found ==> index < |bitset| && bitset[index]
      ensures forall i :: 0 <= i < |bitset| && (found ==> i < index) ==> !bitset[i]
    {
      index := 0;
      while index < |bitset|
        invariant index <= |bitset| && forall i :: 0 <= i < index ==> !bitset[i]
      {
        if bitset[index] {
          return true, index;
        }
        index := index + 1;
      }
      found := false;
    }

    /** What the child allocator answers when asked for the next chunk. */
    ghost predicate NextChunk(chunk: Block)
      reads this
    {
      && chunk.len == Bytes(ChunkSize(|chunks|, max), itemSize) && Aligned(chunk.start, align)
      && forall i :: 0 <= i < |chunks| ==> chunks[i].Disjoint(chunk)
    }

    method AllocateChunk(chunk: Block)
      requires Shape() && NextChunk(chunk)
      modifies this`chunks, this`bitset
      ensures Shape() && chunks == old(chunks) + [chunk]
      ensures bitset == old(bitset) + seq(ChunkSize(|old(chunks)|, max), _ => true)
    {
      var next := ChunkSize(|chunks|, max);
      chunks := chunks + [chunk];
      bitset := bitset + seq(next, _ => true);
    }

    /** Grows by one chunk when every slot is held. */
    method Extend(chunk: Block)
      requires Valid() && NextChunk(chunk) && true !in bitset
      modifies this`chunks, this`bitset
      ensures Shape() && Accounted(bitset, chunks, itemSize, max, held)
      ensures chunks == old(chunks) + [chunk]
      ensures bitset == old(bitset) + seq(ChunkSize(|old(chunks)|, max), _ => true)
      ensures CountFree(bitset) == |bitset| - |old(bitset)| <= |old(bitset)| + 1
      ensures |bitset| - |old(bitset)| <= max && |old(bitset)| < |bitset| && |old(bitset)| <= peak
      ensures SlotBlock(chunks, itemSize, max, |old(bitset)|) == Block(chunk.start, itemSize)
    {
      hide SlotBlock, GoodChunks, AlignedChunks, Accounted;
      NoneFree(bitset);
      CountGrow(bitset, ChunkSize(|chunks|, max));
      ChunkAtMostDoubles(|chunks|, max);
      Grow(bitset, chunks, itemSize, max, held, chunk);
      AllocateChunk(chunk);
      FirstOfLast(chunks, itemSize, max);
    }

    /** Hands out the lowest free slot; only when every slot is held it grows by one chunk and hands
        out that chunk's first slot. `slot` is the bitset index of the block. */
    method Alloc(chunk: Block) returns (block: Block, ghost slot: nat)
      requires Valid() && NextChunk(chunk)
      modifies this
      ensures Valid()
      ensures chunks == if true in old(bitset) then old(chunks) else old(chunks) + [chunk]
      ensures slot < |bitset| && block == SlotBlock(chunks, itemSize, max, slot)
      ensures bitset == (if true in old(bitset) then old(bitset)
                         else old(bitset) + seq(ChunkSize(|old(chunks)|, max), _ => true))[slot := false]
      ensures forall j :: 0 <= j < slot ==> !bitset[j]
      ensures slot < |old(bitset)| ==> old(bitset)[slot]
      ensures block.start !in old(held) && held == old(held) + {block.start}
      ensures peak >= old(peak)
    {
      hide SlotBlock, GoodChunks, AlignedChunks, Accounted, CountFree, ChunkOf, ChunkSize;
      var found, index := FindFirstSet();
      if found {
        assert bitset[index] in bitset;
        var c, s := ToChunkAndSlotIndices(index);
        SlotAt(chunks, itemSize, max, index);
        block := Block(chunks[c].start + s * itemSize, itemSize);
      } else {
        index := |bitset|;
        Extend(chunk);
        block := Block(chunks[|chunks| - 1].start, itemSize);
      }
      Take(bitset, chunks, itemSize, max, held, index);
      CountUpdate(bitset, index, false);
      bitset := bitset[index := false];
      slot := index;
      held := held + {block.start};
      peak := if |bitset| - CountFree(bitset) > peak then |bitset| - CountFree(bitset) else peak;
    }

    /** Marks free exactly the slot whose block starts at `addr`. */
    method Free(addr: nat) returns (ghost slot: nat)
      requires Valid() && addr in held
      modifies this`bitset, this`held
      ensures Valid() && held == old(held) - {addr}
      ensures slot < |old(bitset)| && !old(bitset)[slot] && SlotBlock(chunks, itemSize, max, slot).start == addr
      ensures bitset == old(bitset)[slot := true]
    {
      hide ChunkOf, FirstSlot, GoodChunks, AlignedChunks, Accounted, SlotBlock, CountFree;
      slot := HeldSlot(bitset, chunks, itemSize, max, held, addr);
      ghost var c := ChunkOf(slot, max);
      SlotInside(chunks, itemSize, max, slot);
      SlotAt(chunks, itemSize, max, slot);
      Give(bitset, chunks, itemSize, max, held, slot);
      CountUpdate(bitset, slot, true);
      var i := FindChunk(addr, c);
      var index := ToBitsetIndex(i, (addr - chunks[i].start) / itemSize);
      bitset := bitset[index := true];
      held := held - {addr};
    }

    /** The chunk that contains an address; `c` is a chunk that does. */
    method FindChunk(addr: nat, ghost c: nat) returns (i: nat)
      requires Shape() && c < |chunks| && chunks[c].start <= addr < chunks[c].start + chunks[c].len
      ensures i == c
    {
      i := 0;
      while i < |chunks|
        invariant i <= c
      {
        if chunks[i].start <= addr < chunks[i].start + chunks[i].len {
          return;
        }
        i := i + 1;
      }
      assert false;
    }

    /** Keeps the chunks and frees every slot. */
    method Reset()
      requires Valid()
      modifies this`bitset, this`held
      ensures Valid() && held == {} && |bitset| == |old(bitset)|
      ensures forall i :: 0 <= i < |bitset| ==> bitset[i]
    {
      bitset := seq(|bitset|, _ => true);
      held := {};
      AllFree(bitset);
    }

    method Stats() returns (total: nat, used: nat, free: nat)
      requires Valid()
      ensures used + free == total == FirstSlot(|chunks|, max) && used <= peak
      ensures total > 0 ==> total <= 2 * peak - 1 && total < peak + max
    {
      total := |bitset|;
      free := CountFree(bitset);
      used := total - free;
    }
  }

  // ----- the allocator over all sizes

  class SlabAllocator {
    const max: nat
    var slabs: map<SlabKey, Slab>

    /** The slabs are distinct objects, each serves its own key, and no two share memory. */
    ghost predicate Valid()
      reads this, slabs.Values
    {
      && max >= 1
      && (forall k :: k in slabs ==>
            slabs[k].Valid() && slabs[k].itemSize == k.size && slabs[k].align == k.align && slabs[k].max == max)
      && (forall k, l :: k in slabs && l in slabs && k != l ==>
            slabs[k] != slabs[l] && Apart(slabs[k].chunks, slabs[l].chunks))
    }

    constructor (max: nat)
      requires max >= 1
      ensures Valid() && slabs == map[] && this.max == max
    {
      this.max := max;
      slabs := map[];
    }

    /** The child allocator's answer to a request of this key: the right size, aligned, and apart
        from everything it handed out before. */
    ghost predicate ChildChunk(key: SlabKey, chunk: Block)
      reads this, slabs.Values
    {
      && chunk.len == Bytes(ChunkSize(if key in slabs then |slabs[key].chunks| else 0, max), key.size)
      && Aligned(chunk.start, key.align)
      && forall k :: k in slabs ==> Apart(slabs[k].chunks, [chunk])
    }

    /** The blocks that callers hold. */
    ghost predicate Holds(key: SlabKey, addr: nat)
      reads this, slabs.Values
    {
      key in slabs && addr in slabs[key].held
    }

    /** Creates the slab of a key on its first use. */
    method GetOrPut(key: SlabKey)
      requires Valid() && key.size > 0 && Aligned(key.size, key.align)
      modifies this
      ensures Valid() && key in slabs && slabs.Keys == old(slabs.Keys) + {key}
      ensures forall k :: k in old(slabs) ==> slabs[k] == old(slabs[k])
      ensures key !in old(slabs) ==> fresh(slabs[key]) && slabs[key].chunks == [] && slabs[key].held == {}
    {
      hide GoodChunks, AlignedChunks, Accounted, CountFree, ChunkSize, FirstSlot, Bounded;
      if key !in slabs {
        var slab := new Slab(key.align, key.size, max);
        slabs := slabs[key := slab];
      }
    }

    /** What the allocator uses of a slab's answer. */
    method AllocFrom(slab: Slab, chunk: Block) returns (whole: Block)
      requires slab.Valid() && slab.NextChunk(chunk)
      modifies slab
      ensures slab.Valid() && (slab.chunks == old(slab.chunks) || slab.chunks == old(slab.chunks) + [chunk])
      ensures whole.len == slab.itemSize && Aligned(whole.start, slab.align) && InOne(whole, slab.chunks)
      ensures whole.start !in old(slab.held) && slab.held == old(slab.held) + {whole.start}
    {
      ghost var slot;
      whole, slot := slab.Alloc(chunk);
      SlotInside(slab.chunks, slab.itemSize, slab.max, slot);
      SlotAligned(slab.chunks, slab.itemSize, slab.align, slab.max, slot);
    }

    /** The slab of the key answers; the other slabs' memory stays apart from what it now has. */
    method Serve(key: SlabKey, chunk: Block) returns (whole: Block)
      requires Valid() && key in slabs && slabs[key].NextChunk(chunk)
      requires forall k :: k in slabs ==> Apart(slabs[k].chunks, [chunk])
      modifies slabs[key]
      ensures Valid()
      ensures whole.len == key.size && Aligned(whole.start, key.align) && InOne(whole, slabs[key].chunks)
      ensures whole.start !in old(slabs[key].held) && slabs[key].held == old(slabs[key].held) + {whole.start}
    {
      hide GoodChunks, AlignedChunks, Accounted, SlotBlock, CountFree, ChunkSize, ChunkOf, FirstSlot, Bounded, Bytes,
           AlignForward, Slab.Valid, Slab.Shape, Slab.NextChunk, Apart;
      var slab := slabs[key];
      ghost var before := slab.chunks;
      whole := AllocFrom(slab, chunk);
      forall k | k in slabs && k != key
        ensures Apart(slabs[k].chunks, slab.chunks) && Apart(slab.chunks, slabs[k].chunks)
      {
        ApartGrow(before, chunk, slabs[k].chunks);
      }
    }

    /** Serves a request from the slab of its key; `chunk` is used only if that slab is full. The block has the length
        asked for, is aligned as asked for and lies in one chunk of the slab. */
    method Alloc(len: nat, align: nat, chunk: Block) returns (block: Block)
      requires Valid() && len > 0 && align > 0 && ChildChunk(KeyFor(len, align), chunk)
      modifies this, slabs.Values
      ensures Valid() && fresh(slabs.Values - old(slabs.Values))
      ensures block.len == len && Aligned(block.start, align) && !old(Holds(KeyFor(len, align), block.start))
      ensures KeyFor(len, align) in slabs && InOne(block, slabs[KeyFor(len, align)].chunks)
      ensures forall k, a :: Holds(k, a) <==> old(Holds(k, a)) || (k == KeyFor(len, align) && a == block.start)
    {
      hide GoodChunks, AlignedChunks, Accounted, SlotBlock, CountFree, ChunkSize, ChunkOf, FirstSlot, Bounded, Bytes,
           AlignForward, Slab.Valid, Slab.Shape, Apart;
      var key := KeyFor(len, align);
      KeyServes(len, align, 0);
      GetOrPut(key);
      ApartFrom(slabs[key].chunks, chunk);
      NothingApart(chunk);
      var whole := Serve(key, chunk);
      block := Block(whole.start, len);
      ShorterInside(whole, len, slabs[key].chunks);
    }

    method Free(addr: nat, len: nat, align: nat)
      requires Valid() && align > 0 && Holds(KeyFor(len, align), addr)
      modifies slabs.Values
      ensures Valid()
      ensures forall k, a :: Holds(k, a) <==> old(Holds(k, a)) && !(k == KeyFor(len, align) && a == addr)
    {
      hide GoodChunks, AlignedChunks, Accounted, SlotBlock, CountFree, ChunkSize, ChunkOf, FirstSlot, Bounded, Bytes,
          AlignForward;
      var key := KeyFor(len, align);
      var slot := slabs[key].Free(addr);
    }

    /** The reset that keeps all chunks. */
    method Reset()
      requires Valid()
      modifies slabs.Values
      ensures Valid() && forall k, a :: !Holds(k, a)
    {
      hide GoodChunks, AlignedChunks, Accounted, SlotBlock, CountFree, ChunkSize, ChunkOf, FirstSlot, Bounded, Bytes,
           Slab.Valid, Slab.Shape, Apart;
      var todo := slabs.Keys;
      while todo != {}
        invariant todo <= slabs.Keys && Valid()
        invariant forall k :: k in slabs && k !in todo ==> slabs[k].held == {}
        decreases todo
      {
        var key :| key in todo;
        slabs[key].Reset();
        todo := todo - {key};
      }
    }

    /** Everything handed out and not given back is aligned as asked for, lies in one chunk with all of the length asked
        for, and is disjoint from everything else handed out, within a slab and across slabs. */
    lemma HeldBlocksDisjoint(a: nat, len: nat, align: nat, b: nat, len': nat, align': nat)
      requires Valid() && align > 0 && align' > 0 && Holds(KeyFor(len, align), a) && Holds(KeyFor(len', align'), b)
      ensures Aligned(a, align) && InOne(Block(a, len), slabs[KeyFor(len, align)].chunks)
      ensures a != b || KeyFor(len, align) != KeyFor(len', align') ==> Block(a, len).Disjoint(Block(b, len'))
    {
      hide GoodChunks, AlignedChunks, Accounted, SlotBlock, CountFree, ChunkSize, ChunkOf, FirstSlot, Bounded, Bytes,
           AlignForward;
      KeyServes(len, align, 0);
      KeyServes(len', align', 0);
      var k, l := KeyFor(len, align), KeyFor(len', align');
      SlotsHeldDisjoint(k, a, l, b);
      ShorterInside(Block(a, k.size), len, slabs[k].chunks);
    }

    /** The same for whole slots. */
    lemma SlotsHeldDisjoint(k: SlabKey, a: nat, l: SlabKey, b: nat)
      requires Valid() && Holds(k, a) && Holds(l, b)
      ensures Aligned(a, k.align) && InOne(Block(a, k.size), slabs[k].chunks)
      ensures (k, a) != (l, b) ==> Block(a, k.size).Disjoint(Block(b, l.size))
    {
      hide GoodChunks, AlignedChunks, Accounted, SlotBlock, CountFree, ChunkSize, ChunkOf, FirstSlot, Bounded, Bytes;
      var s, t := slabs[k], slabs[l];
      var i := HeldSlot(s.bitset, s.chunks, s.itemSize, s.max, s.held, a);
      var j := HeldSlot(t.bitset, t.chunks, t.itemSize, t.max, t.held, b);
      SlotInside(s.chunks, s.itemSize, s.max, i);
      SlotInside(t.chunks, t.itemSize, t.max, j);
      SlotAligned(s.chunks, s.itemSize, s.align, s.max, i);
      if k == l {
        if i != j { SlotsDisjoint(s.chunks, s.itemSize, s.max, i, j); }
      } else {
        assert Apart(s.chunks, t.chunks);
      }
    }
  }

  ghost predicate InOne(block: Block, chunks: seq<Block>) {
    exists c :: 0 <= c < |chunks| && block.Inside(chunks[c])
  }

  lemma ShorterInside(block: Block, len: nat, chunks: seq<Block>)
    requires len <= block.len && InOne(block, chunks)
    ensures InOne(Block(block.start, len), chunks)
  {
    var c :| 0 <= c < |chunks| && block.Inside(chunks[c]);
    assert Block(block.start, len).Inside(chunks[c]);
  }

  ghost predicate Apart(a: seq<Block>, b: seq<Block>) {
    forall i, j :: 0 <= i < |a| && 0 <= j < |b| ==> a[i].Disjoint(b[j])
  }

  lemma ApartFrom(a: seq<Block>, chunk: Block)
    requires Apart(a, [chunk])
    ensures forall i :: 0 <= i < |a| ==> a[i].Disjoint(chunk)
  {
    assert [chunk][0] == chunk;
  }

  lemma NothingApart(chunk: Block)
    ensures Apart([], [chunk])
  {
  }

  lemma ApartGrow(a: seq<Block>, chunk: Block, b: seq<Block>)
    requires Apart(a, b) && Apart(b, [chunk])
    ensures Apart(b, a) && Apart(a + [chunk], b) && Apart(b, a + [chunk])
  {
    ApartFrom(b, chunk);
  }
}
