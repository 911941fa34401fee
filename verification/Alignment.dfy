/** Alignments, rounding up, and the key that selects a slab. */
module Alignment {
  import opened Arith

  predicate PowerOfTwo(n: nat) { n == 1 || (n > 1 && n % 2 == 0 && PowerOfTwo(n / 2)) }

  /** Of two powers of two the smaller divides the larger. */
  lemma {:induction false} PowersDivide(a: nat, b: nat)
    requires PowerOfTwo(a) && PowerOfTwo(b) && a <= b
    ensures b % a == 0
  {
    if a > 1 {
      PowersDivide(a / 2, b / 2);
      var k := (b / 2) / (a / 2);
      assert b / 2 == k * (a / 2);
      assert b == k * a;
      MultipleDivides(a, k);
    }
  }

  /** They begin with 1 and double. */
  lemma PowersDouble(n: nat)
    ensures PowerOfTwo(1) && !PowerOfTwo(0) && !PowerOfTwo(2 * n + 3)
    ensures PowerOfTwo(2 * n) <==> PowerOfTwo(n)
  {
  }

  predicate Aligned(address: int, align: nat) { align > 0 && address % align == 0 }

  function AlignForward(x: nat, align: nat): (r: nat)
    requires align > 0
  {
    (x + align - 1) / align * align
  }

  /** Rounding up gives the least multiple that is not below. */
  lemma AlignForwardLeast(x: nat, align: nat, bound: nat)
    requires align > 0
    ensures x <= AlignForward(x, align) < x + align
    ensures AlignForward(x, align) % align == 0
    ensures bound % align == 0 && x <= bound ==> AlignForward(x, align) <= bound
  {
    RoundedUp(x, align);
    if bound % align == 0 && x <= bound { RoundedUpLeast(x, align, bound); }
  }

  datatype SlabKey = SlabKey(size: nat, align: nat)

  /** The slab that serves a request, on allocation and on release alike. */
  function KeyFor(len: nat, align: nat): SlabKey
    requires align > 0
  {
    SlabKey(AlignForward(len, align), align)
  }

  /** The slots of that slab are the shortest that hold the request and keep one another aligned. */
  lemma KeyServes(len: nat, align: nat, slot: nat)
    requires align > 0
    ensures var key := KeyFor(len, align);
            && len <= key.size < len + align && key.size % align == 0 && key.align == align
            && (slot % align == 0 && len <= slot ==> key.size <= slot)
  {
    AlignForwardLeast(len, align, slot);
  }

  /** What is released with the rounded length goes to the slab it came from. */
  lemma KeyIdempotent(len: nat, align: nat)
    requires align > 0
    ensures KeyFor(KeyFor(len, align).size, align) == KeyFor(len, align)
  {
    var size := AlignForward(len, align);
    AlignForwardLeast(len, align, 0);
    AlignForwardLeast(size, align, size);
  }
}
