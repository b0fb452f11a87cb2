/** What each builder operation leaves in the buffer: the bytes before it, behind the object it wrote. */
module FlatObjects {
  import opened Bytes
  import opened FlatLayout
  import opened FlatBuilder

  /** `d1` is `d0` with bytes added at its front. */
  predicate Extends(d1: seq<Byte>, d0: seq<Byte>) {
    |d0| <= |d1| && d1[|d1| - |d0|..] == d0
  }

  /** The object at offset `off`, counted from the end. */
  ghost predicate HoldsAt(d: seq<Byte>, m: nat, off: nat, o: Obj) {
    0 < off <= |d| && Holds(d, m, |d| - off, o)
  }

  /** The buffer only grew at its front, and is padded for at least the same alignments. */
  predicate Grows(r: Builder, s: Builder) {
    Extends(r.data, s.data) && s.minalign <= r.minalign
  }

  lemma ExtendsPush(pre: seq<Byte>, d: seq<Byte>)
    ensures Extends(pre + d, d)
  {
  }

  lemma ExtendsTrans(d2: seq<Byte>, d1: seq<Byte>, d0: seq<Byte>)
    requires Extends(d2, d1) && Extends(d1, d0)
    ensures Extends(d2, d0)
  {
    assert d2[|d2| - |d0|..] == d2[|d2| - |d1|..][|d1| - |d0|..];
  }

  lemma ExtendsSplit(d1: seq<Byte>, d0: seq<Byte>) returns (pre: seq<Byte>)
    requires Extends(d1, d0)
    ensures d1 == pre + d0 && |pre| == |d1| - |d0|
  {
    pre := d1[..|d1| - |d0|];
  }

  lemma HoldsAtExtends(d1: seq<Byte>, m1: nat, d0: seq<Byte>, m0: nat, off: nat, o: Obj)
    requires Extends(d1, d0) && m0 <= m1 && HoldsAt(d0, m0, off, o)
    ensures HoldsAt(d1, m1, off, o)
  {
    hide Holds;
    var pre := ExtendsSplit(d1, d0);
    HoldsShift(pre, d0, m0, m1, |d0| - off, o);
    assert |pre| + (|d0| - off) == |d1| - off;
  }

  lemma PushAligned(s: Builder, n: nat, w: nat)
    requires IsWidth(w) && Rem(|s.data|, w) == 0
    ensures PushElement(s, n, w) == TrackMinAlign(s, w).(data := LE(n, w) + s.data)
  {
    assert Zeros(0) + s.data == s.data;
  }

  lemma StringHolds(s: Builder, chars: seq<Byte>)
    requires |chars| < MAX_BUFFER_SIZE
    ensures var r := CreateString(s, chars);
      Grows(r, s) && HoldsAt(r.data, r.minalign, |r.data|, Str(chars))
  {
    hide LE;
    hide At;
    var r := CreateString(s, chars);
    var s1 := PreAlign(s, |chars| + 1, 4);
    var s2 := Push(Push(s1, [0]), chars);
    assert |s2.data| % 4 == 0;
    PushAligned(s2, |chars|, 4);
    StringBytes(s.data, Zeros(PaddingBytes(|s.data| + |chars| + 1, 4)), chars, r.data);
  }

  lemma StringBytes(d0: seq<Byte>, pad: seq<Byte>, chars: seq<Byte>, d: seq<Byte>)
    requires d == LE(|chars|, 4) + (chars + ([0] + (pad + d0)))
    ensures Extends(d, d0) && At(d, 0, LE(|chars|, 4) + chars + [0])
  {
    hide LE;
    hide At;
    Assoc(LE(|chars|, 4), chars, [0] + (pad + d0));
    Assoc(LE(|chars|, 4) + chars, [0], pad + d0);
    AtFront(LE(|chars|, 4) + chars + [0], pad + d0);
    Assoc(LE(|chars|, 4) + chars + [0], pad, d0);
    ExtendsPush(LE(|chars|, 4) + chars + [0] + pad, d0);
  }

  /** Padding for the wider of the two alignments keeps the narrower one. */
  lemma PadTwice(size: nat, bytes: nat, w: nat)
    requires IsWidth(w)
    ensures var p := PaddingBytes(size + bytes, 4);
      var q := PaddingBytes(size + p + bytes, w);
      (size + p + q + bytes) % 4 == 0 && Rem(size + p + q + bytes, w) == 0
  {
    hide Rem;
    hide PaddingBytes;
    var m := size + PaddingBytes(size + bytes, 4) + bytes;
    Rem4(m);
    assert size + bytes + PaddingBytes(size + bytes, 4) == m;
    var n := m + PaddingBytes(m, w);
    if w == 8 {
      RemDivides(n, 4, 8);
      Rem4(n);
    } else {
      RemDivides(m, w, 4);
    }
    assert n == size + PaddingBytes(size + bytes, 4) + PaddingBytes(m, w) + bytes;
  }

  lemma StartVectorAligned(s: Builder, len: nat, w: nat)
    requires IsWidth(w) && len > 0
    ensures var r := StartVector(s, len, w);
      (|r.data| + Scale(len, w)) % 4 == 0 && Rem(|r.data| + Scale(len, w), w) == 0
  {
    hide PaddingBytes;
    hide Rem;
    hide Scale;
    PadTwice(|s.data|, Scale(len, w), w);
  }

  lemma StartVectorExtends(s: Builder, len: nat, w: nat)
    requires IsWidth(w)
    ensures Grows(StartVector(s, len, w), s)
    ensures len > 0 ==> w <= StartVector(s, len, w).minalign
  {
    hide PaddingBytes;
    PreAlignExtends(s.(nested := true), Scale(len, w), 4);
    var s1 := PreAlign(s.(nested := true), Scale(len, w), 4);
    PreAlignExtends(s1, Scale(len, w), w);
    ExtendsTrans(StartVector(s, len, w).data, s1.data, s.data);
  }

  lemma PreAlignExtends(s: Builder, len: nat, a: nat)
    requires IsAlign(a)
    ensures Extends(PreAlign(s, len, a).data, s.data)
  {
  }

  lemma EndVectorShape(s: Builder, len: nat)
    ensures var r := EndVector(s, len);
      Grows(r, s) && 4 <= r.minalign && |r.data| % 4 == 0 && At(r.data, 0, LE(len, 4))
    ensures |s.data| % 4 == 0 ==> EndVector(s, len).data == LE(len, 4) + s.data
  {
    var pad := Zeros(PaddingBytes(|s.data|, 4));
    var r := EndVector(s, len);
    assert r.data == [] + LE(len, 4) + (pad + s.data);
    AtMiddle([], LE(len, 4), pad + s.data);
    assert r.data == (LE(len, 4) + pad) + s.data;
    ExtendsPush(LE(len, 4) + pad, s.data);
    if |s.data| % 4 == 0 {
      PushAligned(s.(nested := false), len, 4);
    }
  }

  lemma VectorShape(s: Builder, w: nat, xs: seq<nat>)
    requires IsWidth(w)
    ensures VectorShaped(s.data, CreateVector(s, w, xs).data, w, xs)
    ensures var r := CreateVector(s, w, xs);
      s.minalign <= r.minalign && 4 <= r.minalign && (xs != [] ==> w <= r.minalign)
  {
    var s1 := StartVector(s, |xs|, w);
    var s2 := Push(s1, Encode(w, xs));
    StartVectorExtends(s, |xs|, w);
    if xs != [] {
      StartVectorAligned(s, |xs|, w);
    }
    EndVectorShape(s2, |xs|);
    VectorShapeFrom(s.data, s1.data, s2.data, EndVector(s2, |xs|).data, w, xs);
  }

  predicate VectorShaped(d0: seq<Byte>, d: seq<Byte>, w: nat, xs: seq<nat>)
    requires IsWidth(w)
  {
    && Extends(d, d0) && |d| % 4 == 0 && |d| > 0
    && (xs != [] ==> Rem(|d| - 4, w) == 0)
    && At(d, 0, LE(|xs|, 4) + Encode(w, xs))
  }

  lemma VectorShapeFrom(d0: seq<Byte>, d1: seq<Byte>, d2: seq<Byte>, d: seq<Byte>, w: nat, xs: seq<nat>)
    requires IsWidth(w)
    requires Extends(d1, d0) && d2 == Encode(w, xs) + d1
    requires Extends(d, d2) && |d| % 4 == 0 && At(d, 0, LE(|xs|, 4))
    requires |d2| % 4 == 0 ==> d == LE(|xs|, 4) + d2
    requires xs != [] ==> (|d1| + Scale(|xs|, w)) % 4 == 0 && Rem(|d1| + Scale(|xs|, w), w) == 0
    ensures VectorShaped(d0, d, w, xs)
  {
    hide *;
    VectorFront(d0, d1, d2, d, w, xs);
    if xs == [] {
      EncodeNone(w);
      assert LE(0, 4) + Encode(w, []) == LE(0, 4);
    } else {
      VectorBytes(d1, d2, d, w, xs);
    }
    VectorShapedBy(d0, d, w, xs);
  }

  lemma VectorFront(d0: seq<Byte>, d1: seq<Byte>, d2: seq<Byte>, d: seq<Byte>, w: nat, xs: seq<nat>)
    requires IsWidth(w)
    requires Extends(d1, d0) && d2 == Encode(w, xs) + d1 && Extends(d, d2) && At(d, 0, LE(|xs|, 4))
    ensures Extends(d, d0) && |d| > 0
    ensures |d2| == |d1| + Scale(|xs|, w)
  {
    hide Encode;
    hide LE;
    hide Scale;
    ExtendsPush(Encode(w, xs), d1);
    ExtendsTrans(d2, d1, d0);
    ExtendsTrans(d, d2, d0);
  }

  lemma VectorShapedBy(d0: seq<Byte>, d: seq<Byte>, w: nat, xs: seq<nat>)
    requires IsWidth(w) && Extends(d, d0) && |d| % 4 == 0 && |d| > 0
    requires xs != [] ==> Rem(|d| - 4, w) == 0
    requires At(d, 0, LE(|xs|, 4) + Encode(w, xs))
    ensures VectorShaped(d0, d, w, xs)
  {
  }

  lemma EncodeNone(w: nat)
    requires IsWidth(w)
    ensures Encode(w, []) == []
  {
  }

  lemma VectorBytes(d1: seq<Byte>, d2: seq<Byte>, d: seq<Byte>, w: nat, xs: seq<nat>)
    requires IsWidth(w)
    requires d2 == Encode(w, xs) + d1 && d == LE(|xs|, 4) + d2
    ensures At(d, 0, LE(|xs|, 4) + Encode(w, xs))
    ensures |d| - 4 == |d1| + Scale(|xs|, w)
  {
    hide LE;
    hide Encode;
    hide Scale;
    hide At;
    Assoc(LE(|xs|, 4), Encode(w, xs), d1);
    AtFront(LE(|xs|, 4) + Encode(w, xs), d1);
  }

  lemma VectorHolds(s: Builder, w: nat, xs: seq<nat>)
    requires IsWidth(w) && |xs| < MAX_BUFFER_SIZE
    requires forall i | 0 <= i < |xs| :: xs[i] < Range(w)
    ensures var r := CreateVector(s, w, xs);
      Grows(r, s) && HoldsAt(r.data, r.minalign, |r.data|, Scalars(w, xs))
  {
    hide CreateVector;
    hide Encode;
    hide LE;
    VectorShape(s, w, xs);
    var r := CreateVector(s, w, xs);
    assert |r.data| - 0 - 4 == |r.data| - (0 + 4);
  }

  lemma PushOffsetShape(s: Builder, off: nat)
    requires off <= |s.data|
    ensures var r, a := PushOffset(s, off), Align(s, 4);
      && r.data == LE(ReferTo(s, off), 4) + a.data
      && Grows(r, s) && |r.data| % 4 == 0 && 4 <= r.minalign
    ensures |s.data| % 4 == 0 ==> |PushOffset(s, off).data| == |s.data| + 4
  {
    hide LE;
    hide Extends;
    var r, a := PushOffset(s, off), Align(s, 4);
    assert |a.data| % 4 == 0;
    PushAligned(a, ReferTo(s, off), 4);
    ExtendsPush(Zeros(PaddingBytes(|s.data|, 4)), s.data);
    ExtendsPush(LE(ReferTo(s, off), 4), a.data);
    ExtendsTrans(r.data, a.data, s.data);
  }

  lemma PushOffsetHolds(s: Builder, off: nat, o: Obj)
    requires HoldsAt(s.data, s.minalign, off, o)
    requires |PushOffset(s, off).data| < MAX_BUFFER_SIZE
    ensures var r := PushOffset(s, off);
      Grows(r, s) && |r.data| % 4 == 0 && HoldsRef(r.data, r.minalign, 0, o)
    ensures |s.data| % 4 == 0 ==> |PushOffset(s, off).data| == |s.data| + 4
  {
    hide LE;
    hide Holds;
    hide ReadLE;
    hide PushElement;
    var r, a := PushOffset(s, off), Align(s, 4);
    var u := ReferTo(s, off);
    PushOffsetShape(s, off);
    HoldsAtExtends(r.data, r.minalign, s.data, s.minalign, off, o);
    assert r.data == [] + LE(u, 4) + a.data;
    AtMiddle([], LE(u, 4), a.data);
    Ranges();
    ReadOfAt(r.data, 0, u, 4);
  }

  /** Each offset is that of the object at the same place. */
  ghost predicate AllHold(d: seq<Byte>, m: nat, offs: seq<nat>, os: seq<Obj>) {
    |offs| == |os| && forall i | 0 <= i < |os| :: HoldsAt(d, m, offs[i], os[i])
  }

  lemma AllHoldExtends(d1: seq<Byte>, m1: nat, d0: seq<Byte>, m0: nat, offs: seq<nat>, os: seq<Obj>)
    requires Extends(d1, d0) && m0 <= m1 && AllHold(d0, m0, offs, os)
    ensures AllHold(d1, m1, offs, os)
  {
    forall i | 0 <= i < |os| ensures HoldsAt(d1, m1, offs[i], os[i]) {
      HoldsAtExtends(d1, m1, d0, m0, offs[i], os[i]);
    }
  }

  /** Offsets stored one after the other from position `p`. */
  ghost predicate AllRefs(d: seq<Byte>, m: nat, p: nat, os: seq<Obj>) {
    forall i | 0 <= i < |os| :: HoldsRef(d, m, p + 4 * i, os[i])
  }

  lemma AllRefsCons(pre: seq<Byte>, d: seq<Byte>, m: nat, n: nat, os: seq<Obj>)
    requires os != [] && |pre| == 4 && m <= n
    requires HoldsRef(pre + d, n, 0, os[0]) && AllRefs(d, m, 0, os[1..])
    ensures AllRefs(pre + d, n, 0, os)
  {
    hide HoldsRef;
    forall i | 0 <= i < |os| ensures HoldsRef(pre + d, n, 0 + 4 * i, os[i]) {
      if i > 0 {
        assert os[1..][i - 1] == os[i];
        HoldsRefShift(pre, d, m, n, 0 + 4 * (i - 1), os[i]);
      }
    }
  }

  lemma {:induction false} PushOffsetsHold(s: Builder, offs: seq<nat>, os: seq<Obj>)
    requires |s.data| % 4 == 0
    requires AllHold(s.data, s.minalign, offs, os)
    requires |s.data| + 4 * |offs| < MAX_BUFFER_SIZE
    ensures OffsetsIn(s, offs)
    ensures var r := PushOffsets(s, offs);
      Grows(r, s) && |r.data| == |s.data| + 4 * |offs| && AllRefs(r.data, r.minalign, 0, os)
  {
    hide HoldsRef;
    hide Holds;
    hide PushOffset;
    AllHoldIn(s, offs, os);
    if offs != [] {
      assert AllHold(s.data, s.minalign, offs[1..], os[1..]);
      PushOffsetsHold(s, offs[1..], os[1..]);
      var s1 := PushOffsets(s, offs[1..]);
      HoldsAtExtends(s1.data, s1.minalign, s.data, s.minalign, offs[0], os[0]);
      PushOffsetShape(s1, offs[0]);
      PushOffsetHolds(s1, offs[0], os[0]);
      var r := PushOffset(s1, offs[0]);
      ExtendsTrans(r.data, s1.data, s.data);
      var pre := ExtendsSplit(r.data, s1.data);
      AllRefsCons(pre, s1.data, s1.minalign, r.minalign, os);
    }
  }

  lemma AllHoldIn(s: Builder, offs: seq<nat>, os: seq<Obj>)
    requires AllHold(s.data, s.minalign, offs, os)
    ensures OffsetsIn(s, offs)
  {
    hide Holds;
    forall i | 0 <= i < |offs| ensures offs[i] <= |s.data| {
      assert HoldsAt(s.data, s.minalign, offs[i], os[i]);
    }
  }

  lemma {:induction false} PushOffsetsMinalign(s: Builder, offs: seq<nat>)
    requires OffsetsIn(s, offs)
    ensures s.minalign <= PushOffsets(s, offs).minalign
  {
    if offs != [] {
      hide PushOffset;
      PushOffsetsMinalign(s, offs[1..]);
      PushOffsetShape(PushOffsets(s, offs[1..]), offs[0]);
    }
  }

  lemma OffsetsHold(s: Builder, offs: seq<nat>, os: seq<Obj>)
    requires AllHold(s.data, s.minalign, offs, os) && OffsetsIn(s, offs)
    requires |CreateOffsets(s, offs).data| < MAX_BUFFER_SIZE
    ensures var r := CreateOffsets(s, offs);
      Grows(r, s) && HoldsAt(r.data, r.minalign, |r.data|, Refs(os))
  {
    hide Holds;
    hide PreAlign;
    hide PushElement;
    hide PushOffsets;
    var s1 := StartVector(s, |offs|, 4);
    StartVectorExtends(s, |offs|, 4);
    if offs != [] {
      StartVectorAligned(s, |offs|, 4);
    }
    AllHoldExtends(s1.data, s1.minalign, s.data, s.minalign, offs, os);
    PushOffsetsMinalign(s1, offs);
    EndVectorShape(PushOffsets(s1, offs), |offs|);
    OffsetsHoldFrom(s.data, s1, offs, os, CreateOffsets(s, offs).data, CreateOffsets(s, offs).minalign);
  }

  lemma OffsetsHoldFrom(d0: seq<Byte>, s1: Builder, offs: seq<nat>, os: seq<Obj>, d: seq<Byte>, m: nat)
    requires Extends(s1.data, d0) && AllHold(s1.data, s1.minalign, offs, os) && OffsetsIn(s1, offs)
    requires offs != [] ==> |s1.data| % 4 == 0
    requires |d| < MAX_BUFFER_SIZE && PushOffsets(s1, offs).minalign <= m && 4 <= m
    requires var d2 := PushOffsets(s1, offs).data;
      && Extends(d, d2) && |d| % 4 == 0 && At(d, 0, LE(|offs|, 4))
      && (|d2| % 4 == 0 ==> d == LE(|offs|, 4) + d2)
    ensures Extends(d, d0) && HoldsAt(d, m, |d|, Refs(os))
  {
    hide HoldsRef;
    hide Holds;
    hide LE;
    var s2 := PushOffsets(s1, offs);
    ExtendsRefs(s1, s2, offs, os);
    ExtendsTrans(s2.data, s1.data, d0);
    ExtendsTrans(d, s2.data, d0);
    if offs != [] {
      RefsShift(LE(|offs|, 4), s2.data, s2.minalign, m, os);
    }
    assert |d| > 0;
    RefsHold(d, m, os);
  }

  lemma ExtendsRefs(s1: Builder, s2: Builder, offs: seq<nat>, os: seq<Obj>)
    requires AllHold(s1.data, s1.minalign, offs, os) && OffsetsIn(s1, offs)
    requires offs != [] ==> |s1.data| % 4 == 0
    requires s2 == PushOffsets(s1, offs) && |s2.data| < MAX_BUFFER_SIZE
    ensures Extends(s2.data, s1.data)
    ensures offs != [] ==> |s2.data| % 4 == 0
    ensures s1.minalign <= s2.minalign
    ensures AllRefs(s2.data, s2.minalign, 0, os)
    ensures |os| <= |s2.data|
  {
    if offs != [] {
      hide *;
      PushOffsetsLength(s1, offs);
      AllHoldCount(s1.data, s1.minalign, offs, os);
      PushOffsetsHold(s1, offs, os);
      GrowsBy(s2, s1);
    }
  }

  lemma GrowsBy(r: Builder, s: Builder)
    requires Grows(r, s)
    ensures Extends(r.data, s.data) && s.minalign <= r.minalign
  {
  }

  lemma AllHoldCount(d: seq<Byte>, m: nat, offs: seq<nat>, os: seq<Obj>)
    requires AllHold(d, m, offs, os)
    ensures |offs| == |os|
  {
  }

  lemma RefsShift(pre: seq<Byte>, d: seq<Byte>, m: nat, n: nat, os: seq<Obj>)
    requires AllRefs(d, m, 0, os) && m <= n
    ensures AllRefs(pre + d, n, |pre|, os)
  {
    hide HoldsRef;
    forall i | 0 <= i < |os| ensures HoldsRef(pre + d, n, |pre| + 4 * i, os[i]) {
      HoldsRefShift(pre, d, m, n, 0 + 4 * i, os[i]);
    }
  }

  lemma RefsHold(d: seq<Byte>, m: nat, os: seq<Obj>)
    requires |d| % 4 == 0 && |d| > 0 && |os| < MAX_BUFFER_SIZE && 4 <= m
    requires At(d, 0, LE(|os|, 4)) && AllRefs(d, m, 4, os)
    ensures HoldsAt(d, m, |d|, Refs(os))
  {
    Ranges();
    ReadOfAt(d, 0, |os|, 4);
    forall i | 0 <= i < |os| ensures HoldsRef(d, m, 0 + 4 + 4 * i, os[i]) {
      assert HoldsRef(d, m, 4 + 4 * i, os[i]);
    }
  }

  lemma PushOffsetsCons(s: Builder, offs: seq<nat>)
    requires OffsetsIn(s, offs) && offs != []
    ensures OffsetsIn(s, offs[1..])
    ensures offs[0] <= |PushOffsets(s, offs[1..]).data|
    ensures PushOffsets(s, offs) == PushOffset(PushOffsets(s, offs[1..]), offs[0])
  {
  }

  lemma PushOffsetsNil(s: Builder)
    ensures PushOffsets(s, []) == s
  {
  }

  lemma {:induction false} PushOffsetsLength(s: Builder, offs: seq<nat>)
    requires |s.data| % 4 == 0 && OffsetsIn(s, offs)
    ensures |PushOffsets(s, offs).data| == |s.data| + 4 * |offs|
  {
    hide *;
    if offs == [] {
      PushOffsetsNil(s);
    } else {
      PushOffsetsCons(s, offs);
      PushOffsetsLength(s, offs[1..]);
      PushOffsetLength(PushOffsets(s, offs[1..]), offs[0]);
    }
  }

  lemma PushOffsetLength(s: Builder, off: nat)
    requires off <= |s.data| && |s.data| % 4 == 0
    ensures |PushOffset(s, off).data| == |s.data| + 4
  {
    hide PushOffset;
    PushOffsetShape(s, off);
  }
}
