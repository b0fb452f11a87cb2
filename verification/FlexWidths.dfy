/** The choice of widths: the search ends, its answer is the least, and what it leaves room for is enough. */
module FlexWidths {
  import opened Bytes
  import opened FlexReader
  import opened FlexBuilder

  /** The distance can be stored in `w` bytes. */
  predicate FitsIn(u: int, size: nat, index: nat, w: nat)
    requires IsWidth(w)
  {
    Distance(u, size, index, w) < Range(w)
  }

  lemma WidthUFits(n: nat)
    requires n < 0x1_0000_0000_0000_0000
    ensures n < Range(WidthU(n))
    ensures forall w | IsWidth(w) && n < Range(w) :: WidthU(n) <= w
  {
    Ranges();
  }

  /** The source finds the width with a mask of the low bits. */
  lemma WidthUBits(u: bv64)
    ensures u & !0xFF == 0 <==> u < 0x100
    ensures u & !0xFFFF == 0 <==> u < 0x1_0000
    ensures u & !0xFFFF_FFFF == 0 <==> u < 0x1_0000_0000
  {
  }

  lemma Half4(n: nat)
    ensures n % 4 == n % 2 || n % 4 == n % 2 + 2
  {
    var q, r := n / 4, n % 4;
    if r < 2 {
      Residue2(2 * q, r);
    } else {
      Residue2(2 * q + 1, r - 2);
    }
  }

  lemma Half8(n: nat)
    ensures n % 8 == n % 4 || n % 8 == n % 4 + 4
  {
    var q, r := n / 8, n % 8;
    if r < 4 {
      Residue4(2 * q, r);
    } else {
      Residue4(2 * q + 1, r - 4);
    }
  }

  lemma Residue2(q: nat, r: nat)
    requires r < 2
    ensures (2 * q + r) % 2 == r
  {
  }

  lemma Residue4(q: nat, r: nat)
    requires r < 4
    ensures (4 * q + r) % 4 == r
  {
  }

  lemma RemHalf(size: nat, w: nat)
    requires w == 1 || w == 2 || w == 4
    ensures Rem(size, 2 * w) == Rem(size, w) || Rem(size, 2 * w) == Rem(size, w) + w
  {
    Half4(size);
    Half8(size);
    if w == 1 {
      assert 2 * w == 2;
    } else if w == 2 {
      assert 2 * w == 4;
    } else {
      assert 2 * w == 8;
    }
  }

  lemma PadGrows(size: nat, w: nat)
    requires w == 1 || w == 2 || w == 4
    ensures PaddingBytes(size, w) <= PaddingBytes(size, 2 * w) < 2 * w
  {
    hide Rem;
    RemHalf(size, w);
  }

  /** A larger width moves the place further back, but by less than what it gains in range. */
  lemma DistanceGrows(u: int, size: nat, index: nat, w: nat)
    requires (w == 1 || w == 2 || w == 4) && u <= size
    ensures 0 <= Distance(u, size, index, w) <= Distance(u, size, index, 2 * w)
    ensures Distance(u, size, index, 2 * w) < 2 * Distance(u, size, index, w) + 2 * w
  {
    PadGrows(size, w);
    hide PaddingBytes;
  }

  lemma FitsOn(u: int, size: nat, index: nat, w: nat)
    requires (w == 1 || w == 2 || w == 4) && u <= size && FitsIn(u, size, index, w)
    ensures FitsIn(u, size, index, 2 * w)
  {
    Ranges();
    DistanceGrows(u, size, index, w);
    hide Distance;
  }

  /** The search finds a width, and it is the least that fits; eight bytes are taken to fit any distance. */
  lemma {:induction false} SearchFinds(u: int, size: nat, index: nat, w: nat)
    requires IsWidth(w) && u <= size
    requires w > 1 ==> !FitsIn(u, size, index, w / 2)
    ensures SearchWidth(u, size, index, w).Some?
    ensures var r := SearchWidth(u, size, index, w).value;
      && r >= w && (r < 8 ==> FitsIn(u, size, index, r))
      && (forall k: nat | IsWidth(k) && w <= k < r :: !FitsIn(u, size, index, k))
    decreases 8 - w
  {
    Ranges();
    if w > 1 {
      DistanceGrows(u, size, index, w / 2);
    }
    hide Distance;
    if WidthU(Distance(u, size, index, w)) != w && w < 8 {
      assert !FitsIn(u, size, index, w);
      SearchFinds(u, size, index, 2 * w);
    }
  }

  lemma {:induction false} FitsFrom(u: int, size: nat, index: nat, w: nat, large: nat)
    requires IsWidth(w) && IsWidth(large) && w <= large && u <= size && FitsIn(u, size, index, w)
    ensures FitsIn(u, size, index, large)
    decreases large - w
  {
    hide FitsIn;
    if w < large {
      FitsOn(u, size, index, w);
      FitsFrom(u, size, index, 2 * w, large);
    }
  }

  lemma DistanceEarlier(u: int, size: nat, k: nat, index: nat, w: nat)
    requires IsWidth(w) && k <= index
    ensures Distance(u, size, k, w) <= Distance(u, size, index, w)
  {
    hide PaddingBytes;
  }

  /**
    An element whose width was taken into account can be stored: at any larger width, and at any place no later
    than the one assumed. So the assertion in `WriteOffset` holds, with the places of map elements counted twice.
   */
  lemma OffsetFits(v: Value, size: nat, k: nat, index: nat, w: nat)
    requires ValueOk(v, size) && !IsInline(v.kind) && IsWidth(w) && k <= index
    requires ElemWidth(v, size, index) <= w
    requires size + PaddingBytes(size, w) + Scale(k, w) < 0x1_0000_0000_0000_0000
    ensures 0 <= Distance(v.u, size, k, w) < Range(w)
  {
    Ranges();
    SearchFinds(v.u, size, index, 1);
    var r := ElemWidth(v, size, index);
    if r < 8 {
      FitsFrom(v.u, size, index, r, w);
      DistanceEarlier(v.u, size, k, index, w);
    }
  }

  /** A signed number of the width found for it survives being cut to any larger one. */
  lemma IntSurvives(i: int, w: nat)
    requires IsWidth(w) && WidthI(i) <= w && -0x8000_0000_0000_0000 <= i < 0x8000_0000_0000_0000
    ensures var u := i % Range(w); u < Range(w) && i == if 2 * u < Range(w) then u else u - Range(w)
  {
    Ranges();
    IntCut(i);
    hide Range;
  }

  lemma IntCut(i: int)
    ensures -0x80 <= i < 0x80 ==> i % 0x100 == if i >= 0 then i else i + 0x100
    ensures -0x8000 <= i < 0x8000 ==> i % 0x1_0000 == if i >= 0 then i else i + 0x1_0000
    ensures -0x8000_0000 <= i < 0x8000_0000 ==>
      i % 0x1_0000_0000 == if i >= 0 then i else i + 0x1_0000_0000
    ensures -0x8000_0000_0000_0000 <= i < 0x8000_0000_0000_0000 ==>
      i % 0x1_0000_0000_0000_0000 == if i >= 0 then i else i + 0x1_0000_0000_0000_0000
  {
  }

  lemma UIntSurvives(u: nat, w: nat)
    requires IsWidth(w) && WidthU(u) <= w && u < 0x1_0000_0000_0000_0000
    ensures u % Range(w) == u < Range(w)
  {
    Ranges();
    WidthUFits(u);
  }

  /**
    `WidthI` works on the number shifted left, complemented if it is negative: that is `2 * i`, or twice the
    complement of `i`, which is `-i - 1`, and one.
   */
  lemma WidthIBits(i: bv64)
    ensures i & 0x8000_0000_0000_0000 == 0 ==> (i << 1) == i + i && i <= 0x7FFF_FFFF_FFFF_FFFF
    ensures i & 0x8000_0000_0000_0000 != 0 ==> !(i << 1) == (!i) + (!i) + 1 && !i <= 0x7FFF_FFFF_FFFF_FFFF
  {
  }

  /** The least width for a signed number: at half the range the next one is needed, on either side of zero. */
  lemma WidthIFits(i: int)
    requires -0x8000_0000_0000_0000 <= i < 0x8000_0000_0000_0000
    ensures 0 - Range(WidthI(i)) <= 2 * i < Range(WidthI(i))
    ensures forall w | IsWidth(w) && 0 - Range(w) <= 2 * i < Range(w) :: WidthI(i) <= w
  {
    Ranges();
  }
}
