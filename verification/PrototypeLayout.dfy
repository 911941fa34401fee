/** Layout of a prototype chain in one memory block. Allocation lays the types out from root to leaf;
    destruction starts at the leaf and adds the sizes up towards the root. Both sizes, rounded up to
    the largest alignment, must be the same, or the block is returned to a slab that does not hold it. */
module PrototypeLayout {
  import opened Alignment
  import opened Arith

  /** Size and alignment of a type, in bytes. */
  datatype Type = Type(size: nat, align: nat)

  predicate WellFormed(t: Type) { PowerOfTwo(t.align) && t.size % t.align == 0 }

  predicate WellFormedChain(ts: seq<Type>) { forall i :: 0 <= i < |ts| ==> WellFormed(ts[i]) }

  // ----- the layouts

  function Max(a: nat, b: nat): nat { if a > b then a else b }

  /** Where the last of `ts` ends when each is placed at the first aligned offset from `start` on. */
  function GreedyEnd(ts: seq<Type>, start: nat): nat
    requires WellFormedChain(ts)
  {
    if ts == [] then start else GreedyEnd(ts[1..], AlignForward(start, ts[0].align) + ts[0].size)
  }

  function GreedyOffsets(ts: seq<Type>, start: nat): (os: seq<nat>)
    requires WellFormedChain(ts)
    ensures |os| == |ts|
  {
    if ts == [] then [] else
      var o := AlignForward(start, ts[0].align);
      [o] + GreedyOffsets(ts[1..], o + ts[0].size)
  }

  function MaxAlignOf(ts: seq<Type>, least: nat): (m: nat)
    requires WellFormedChain(ts) && PowerOfTwo(least)
    ensures PowerOfTwo(m) && m >= least
    ensures forall i :: 0 <= i < |ts| ==> ts[i].align <= m
    ensures m == least || exists i :: 0 <= i < |ts| && ts[i].align == m
  {
    if ts == [] then least else MaxAlignOf(ts[1..], Max(least, ts[0].align))
  }

  method TotalSize(ts: seq<Type>) returns (size: nat)
    requires WellFormedChain(ts)
    ensures size == GreedyEnd(ts, 0)
  {
    size := 0;
    for i := 0 to |ts|
      invariant GreedyEnd(ts, 0) == GreedyEnd(ts[i..], size)
    {
      assert ts[i..][1..] == ts[i + 1..];
      size := AlignForward(size, ts[i].align);
      size := size + ts[i].size;
    }
  }

  method MaxAlign(ts: seq<Type>) returns (align: nat)
    requires WellFormedChain(ts)
    ensures align == MaxAlignOf(ts, 1)
  {
    align := 1;
    for i := 0 to |ts|
      invariant PowerOfTwo(align) && MaxAlignOf(ts, 1) == MaxAlignOf(ts[i..], align)
    {
      assert ts[i..][1..] == ts[i + 1..];
      align := Max(align, ts[i].align);
    }
  }

  /** The offset of the `index`-th type, found by the same walk as the size. */
  method Get(ts: seq<Type>, index: nat) returns (offset: nat)
    requires WellFormedChain(ts) && index < |ts|
    ensures offset == GreedyOffsets(ts, 0)[index]
  {
    offset := 0;
    for i := 0 to |ts|
      invariant i <= index
      invariant GreedyOffsets(ts, 0)[index] == GreedyOffsets(ts[i..], offset)[index - i]
    {
      assert ts[i..][1..] == ts[i + 1..];
      offset := AlignForward(offset, ts[i].align);
      if i == index {
        return;
      }
      offset := offset + ts[i].size;
    }
  }

  /** Walks from leaf to root with the size and alignment gathered so far, and returns the block
      that is handed to the allocator. */
  function DestroyChain(leafFirst: seq<Type>, oldSize: nat, oldAlign: nat): SlabKey
    requires WellFormedChain(leafFirst) && leafFirst != [] && PowerOfTwo(oldAlign)
  {
    var t := leafFirst[0];
    var newSize := AlignForward(oldSize, t.align) + t.size;
    var newAlign := Max(oldAlign, t.align);
    if |leafFirst| > 1 then DestroyChain(leafFirst[1..], newSize, newAlign)
    else SlabKey(AlignForward(newSize, newAlign), newAlign)
  }

  function Reverse(ts: seq<Type>): (r: seq<Type>)
    ensures |r| == |ts|
    ensures forall i :: 0 <= i < |ts| ==> r[i] == ts[|ts| - 1 - i]
  {
    if ts == [] then [] else Reverse(ts[1..]) + [ts[0]]
  }

  // ----- every layout is at least as long as the greedy one

  /** `os` places `ts` in order, aligned and without overlap, between `lo` and `hi`. */
  ghost predicate Fits(ts: seq<Type>, os: seq<int>, lo: int, hi: int)
    requires WellFormedChain(ts)
  {
    |os| == |ts| &&
    if ts == [] then lo <= hi
    else lo <= os[0] && os[0] % ts[0].align == 0 && Fits(ts[1..], os[1..], os[0] + ts[0].size, hi)
  }

  lemma {:induction false} GreedyFits(ts: seq<Type>, lo: nat)
    requires WellFormedChain(ts)
    ensures Fits(ts, GreedyOffsets(ts, lo), lo, GreedyEnd(ts, lo))
  {
    if ts != [] {
      var o := AlignForward(lo, ts[0].align);
      AlignForwardLeast(lo, ts[0].align, 0);
      GreedyFits(ts[1..], o + ts[0].size);
      assert GreedyOffsets(ts, lo)[1..] == GreedyOffsets(ts[1..], o + ts[0].size);
    }
  }

  lemma {:induction false} GreedyMonotone(ts: seq<Type>, a: nat, b: nat)
    requires WellFormedChain(ts) && a <= b
    ensures GreedyEnd(ts, a) <= GreedyEnd(ts, b)
  {
    if ts != [] {
      AlignForwardLeast(b, ts[0].align, 0);
      AlignForwardLeast(a, ts[0].align, AlignForward(b, ts[0].align));
      GreedyMonotone(ts[1..], AlignForward(a, ts[0].align) + ts[0].size, AlignForward(b, ts[0].align) + ts[0].size);
    }
  }

  /** No layout ends before the greedy one. */
  lemma {:induction false} GreedyIsLeast(ts: seq<Type>, os: seq<int>, lo: nat, hi: int)
    requires WellFormedChain(ts) && Fits(ts, os, lo, hi)
    ensures GreedyEnd(ts, lo) <= hi
  {
    if ts != [] {
      AlignForwardLeast(lo, ts[0].align, os[0]);
      GreedyIsLeast(ts[1..], os[1..], os[0] + ts[0].size, hi);
      GreedyMonotone(ts[1..], AlignForward(lo, ts[0].align) + ts[0].size, os[0] + ts[0].size);
    }
  }

  lemma {:induction false} FitsWithin(ts: seq<Type>, os: seq<int>, lo: int, hi: int, end: int)
    requires WellFormedChain(ts) && Fits(ts, os, lo, hi) && hi <= end
    ensures Fits(ts, os, lo, end)
  {
    if ts != [] { FitsWithin(ts[1..], os[1..], os[0] + ts[0].size, hi, end); }
  }

  lemma {:induction false} FitsAppend(ts: seq<Type>, os: seq<int>, lo: int, mid: int, t: Type, o: int, hi: int)
    requires WellFormedChain(ts) && WellFormed(t) && Fits(ts, os, lo, mid)
    requires mid <= o && o % t.align == 0 && o + t.size <= hi
    ensures WellFormedChain(ts + [t]) && Fits(ts + [t], os + [o], lo, hi)
  {
    if ts == [] {
      assert ts + [t] == [t] && os + [o] == [o];
    } else {
      FitsAppend(ts[1..], os[1..], os[0] + ts[0].size, mid, t, o, hi);
      assert (ts + [t])[1..] == ts[1..] + [t] && (os + [o])[1..] == os[1..] + [o];
    }
  }

  function Reflected(ts: seq<Type>, os: seq<int>, l: int): (r: seq<int>)
    requires |os| == |ts|
  {
    if ts == [] then [] else Reflected(ts[1..], os[1..], l) + [l - os[0] - ts[0].size]
  }

  /** A layout read from the other end of a block, whose length every alignment divides, is a layout
      of the reversed chain: sizes are multiples of alignments. */
  lemma {:induction false} Reflection(ts: seq<Type>, os: seq<int>, lo: int, hi: int, l: int)
    requires WellFormedChain(ts) && Fits(ts, os, lo, hi)
    requires forall i :: 0 <= i < |ts| ==> l % ts[i].align == 0
    ensures WellFormedChain(Reverse(ts)) && Fits(Reverse(ts), Reflected(ts, os, l), l - hi, l - lo)
  {
    if ts != [] {
      Reflection(ts[1..], os[1..], os[0] + ts[0].size, hi, l);
      DividesSum(ts[0].align, l, os[0]);
      DividesSum(ts[0].align, l - os[0], ts[0].size);
      FitsAppend(Reverse(ts[1..]), Reflected(ts[1..], os[1..], l), l - hi, l - os[0] - ts[0].size,
                 ts[0], l - os[0] - ts[0].size, l - lo);
    }
  }

  // ----- the sizes agree

  lemma ReversedNotLonger(ts: seq<Type>, m: nat)
    requires WellFormedChain(ts) && PowerOfTwo(m) && forall i :: 0 <= i < |ts| ==> ts[i].align <= m
    ensures WellFormedChain(Reverse(ts))
    ensures AlignForward(GreedyEnd(Reverse(ts), 0), m) <= AlignForward(GreedyEnd(ts, 0), m)
  {
    var l := AlignForward(GreedyEnd(ts, 0), m);
    AlignForwardLeast(GreedyEnd(ts, 0), m, 0);
    forall i | 0 <= i < |ts|
      ensures l % ts[i].align == 0
    {
      PowersDivide(ts[i].align, m);
      DividesThrough(ts[i].align, m, l);
    }
    GreedyFits(ts, 0);
    FitsWithin(ts, GreedyOffsets(ts, 0), 0, GreedyEnd(ts, 0), l);
    Reflection(ts, GreedyOffsets(ts, 0), 0, l, l);
    GreedyIsLeast(Reverse(ts), Reflected(ts, GreedyOffsets(ts, 0), l), 0, l);
    AlignForwardLeast(GreedyEnd(Reverse(ts), 0), m, l);
  }

  /** The walk from the leaf computes the greedy end of the chain it walks. */
  lemma {:induction false} DestroyChainIs(leafFirst: seq<Type>, size: nat, align: nat)
    requires WellFormedChain(leafFirst) && leafFirst != [] && PowerOfTwo(align)
    ensures var m := MaxAlignOf(leafFirst, align);
            DestroyChain(leafFirst, size, align) == KeyFor(GreedyEnd(leafFirst, size), m)
  {
    var t := leafFirst[0];
    if |leafFirst| > 1 {
      DestroyChainIs(leafFirst[1..], AlignForward(size, t.align) + t.size, Max(align, t.align));
    } else {
      assert leafFirst[1..] == [];
    }
  }

  lemma SameMaxAlign(ts: seq<Type>)
    requires WellFormedChain(ts)
    ensures WellFormedChain(Reverse(ts)) && MaxAlignOf(Reverse(ts), 1) == MaxAlignOf(ts, 1)
  {
    var r := Reverse(ts);
    forall i | 0 <= i < |ts|
      ensures ts[i] == r[|ts| - 1 - i]
    {
      assert r[|ts| - 1 - i] == ts[|ts| - 1 - (|ts| - 1 - i)];
    }
  }

  /** Either direction of the walk rounds up to the same key. */
  lemma SameKey(ts: seq<Type>, m: nat)
    requires WellFormedChain(ts) && PowerOfTwo(m) && forall i :: 0 <= i < |ts| ==> ts[i].align <= m
    ensures WellFormedChain(Reverse(ts))
    ensures KeyFor(GreedyEnd(Reverse(ts), 0), m) == KeyFor(GreedyEnd(ts, 0), m)
  {
    ReversedNotLonger(ts, m);
    ReversedNotLonger(Reverse(ts), m);
    assert Reverse(Reverse(ts)) == ts;
  }

  /** Every chain is released under the slab key that it was allocated with; that key has the largest alignment of the
      chain, and its size is that of the layout, rounded up to that alignment. */
  lemma FreedUnderAllocationKey(ts: seq<Type>)
    requires WellFormedChain(ts) && ts != []
    ensures WellFormedChain(Reverse(ts)) && DestroyChain(Reverse(ts), 0, 1).align > 0
    ensures var freed := DestroyChain(Reverse(ts), 0, 1);
            && (forall i :: 0 <= i < |ts| ==> ts[i].align <= freed.align)
            && (exists i :: 0 <= i < |ts| && ts[i].align == freed.align)
            && freed.size % freed.align == 0
            && GreedyEnd(ts, 0) <= freed.size < GreedyEnd(ts, 0) + freed.align
    ensures var freed := DestroyChain(Reverse(ts), 0, 1);
            KeyFor(freed.size, freed.align) == KeyFor(GreedyEnd(ts, 0), MaxAlignOf(ts, 1))
  {
    var m := MaxAlignOf(ts, 1);
    SameMaxAlign(ts);
    DestroyChainIs(Reverse(ts), 0, 1);
    SameKey(ts, m);
    KeyServes(GreedyEnd(ts, 0), m, 0);
    KeyIdempotent(GreedyEnd(Reverse(ts), 0), m);
    assert m >= ts[0].align;
  }

  lemma {:induction false} FittedOffsets(ts: seq<Type>, os: seq<int>, lo: int, hi: int, i: nat)
    requires WellFormedChain(ts) && Fits(ts, os, lo, hi) && i < |ts|
    ensures lo <= os[i] && os[i] + ts[i].size <= hi && os[i] % ts[i].align == 0
    ensures forall j :: i < j < |ts| ==> os[i] + ts[i].size <= os[j]
  {
    if i > 0 {
      FittedOffsets(ts[1..], os[1..], os[0] + ts[0].size, hi, i - 1);
      forall j | i < j < |ts|
        ensures os[i] + ts[i].size <= os[j]
      {
        assert os[1..][j - 1] == os[j];
      }
    } else {
      EndAfter(ts[1..], os[1..], os[0] + ts[0].size, hi);
    }
  }

  lemma {:induction false} EndAfter(ts: seq<Type>, os: seq<int>, lo: int, hi: int)
    requires WellFormedChain(ts) && Fits(ts, os, lo, hi)
    ensures lo <= hi
    ensures forall j :: 0 <= j < |ts| ==> lo <= os[j]
  {
    if ts != [] {
      EndAfter(ts[1..], os[1..], os[0] + ts[0].size, hi);
      forall j | 0 < j < |ts|
        ensures lo <= os[j]
      {
        assert os[1..][j - 1] == os[j];
      }
    }
  }

  /** The parts of a chain are disjoint and inside the block, with the root at its start. */
  lemma PartsDisjoint(ts: seq<Type>, i: nat, j: nat)
    requires WellFormedChain(ts) && i < j < |ts|
    ensures var os := GreedyOffsets(ts, 0);
            os[0] == 0 && 0 <= os[i] && os[i] + ts[i].size <= os[j] && os[j] + ts[j].size <= GreedyEnd(ts, 0)
  {
    RootFirst(ts);
    GreedyFits(ts, 0);
    FittedOffsets(ts, GreedyOffsets(ts, 0), 0, GreedyEnd(ts, 0), i);
    FittedOffsets(ts, GreedyOffsets(ts, 0), 0, GreedyEnd(ts, 0), j);
  }

  /** Each part is aligned in memory, for any block address aligned as the allocator aligns it. */
  lemma PartAligned(ts: seq<Type>, base: nat, i: nat, m: nat)
    requires WellFormedChain(ts) && i < |ts| && PowerOfTwo(m) && ts[i].align <= m
    requires Aligned(base, m)
    ensures Aligned(base + GreedyOffsets(ts, 0)[i], ts[i].align)
  {
    GreedyFits(ts, 0);
    FittedAligned(ts, GreedyOffsets(ts, 0), 0, GreedyEnd(ts, 0), i, base, m);
  }

  lemma FittedAligned(ts: seq<Type>, os: seq<int>, lo: int, hi: int, i: nat, base: nat, m: nat)
    requires WellFormedChain(ts) && i < |ts| && Fits(ts, os, lo, hi)
    requires PowerOfTwo(m) && ts[i].align <= m && Aligned(base, m)
    ensures Aligned(base + os[i], ts[i].align)
  {
    FittedOffsets(ts, os, lo, hi, i);
    AlignedAt(base, m, ts[i], os[i]);
  }

  lemma RootFirst(ts: seq<Type>)
    requires WellFormedChain(ts) && ts != []
    ensures GreedyOffsets(ts, 0)[0] == 0 && PowerOfTwo(1)
  {
    AlignForwardLeast(0, ts[0].align, 0);
  }

  lemma AlignedAt(base: nat, m: nat, t: Type, o: int)
    requires WellFormed(t) && PowerOfTwo(m) && t.align <= m && base % m == 0 && o % t.align == 0
    ensures (base + o) % t.align == 0
  {
    PowersDivide(t.align, m);
    DividesThrough(t.align, m, base);
    DividesSum(t.align, base, o);
  }
}
