/** Vectors of two to four numbers, whose length is part of their type. */
module FlexFixed {
  import opened Bytes
  import opened FlexReader
  import opened FlexBuilder
  import opened FlexValues
  import opened FlexVectors

  /** The type leads back to element type and length. */
  lemma FixedElementIs(kind: nat, n: nat)
    requires IsFixedElement(kind) && 2 <= n <= 4
    ensures FixedElement(ToFixedVector(kind, n)) == (kind, n)
    ensures !IsInline(ToFixedVector(kind, n)) && VECTOR_INT2 <= ToFixedVector(kind, n) <= BOOL + 10
  {
  }

  /** What is written for the elements, behind the padding. */
  lemma FixedExtends(b: seq<Byte>, vs: seq<Value>, minWidth: nat)
    requires ValuesOk(vs, |b|) && IsWidth(minWidth) && CanFix(vs)
    ensures var (r, v) := CreateFixed(b, vs, minWidth);
      |b| <= v.u <= |r| && r[..|b|] == b
  {
    hide PaddingBytes;
    hide WriteAny;
    hide VectorWidth;
    var w := VectorWidth(b, vs, 1, None, minWidth);
    var head := Pad(b, w);
    ValuesGrow(vs, |b|, |head|);
    WriteAllExtends(head, vs, w);
    assert WriteAll(head, vs, w)[..|b|] == head[..|b|] == b;
  }

  /** Element `k` is where the reader will look for it, and its width is enough. */
  lemma FixedWritten(b: seq<Byte>, vs: seq<Value>, minWidth: nat, k: nat)
    requires ValuesOk(vs, |b|) && IsWidth(minWidth) && CanFix(vs) && k < |vs|
    ensures var (r, v) := CreateFixed(b, vs, minWidth);
      var q := v.u + Scale(k, v.width);
      && IsWidth(v.width) && v.u >= 0 && v.kind == ToFixedVector(vs[0].kind, |vs|)
      && At(r, q, SlotBytes(vs[k], q, v.width)) && IsInline(vs[k].kind) && vs[k].width <= v.width
  {
    hide PaddingBytes;
    hide VectorWidth;
    hide WriteAll;
    hide At;
    var w := VectorWidth(b, vs, 1, None, minWidth);
    var head := Pad(b, w);
    WidthCovers(b, vs, 1, None, minWidth);
    InlineWidth(vs[k], |b|, Index(1, k, None));
    ValuesGrow(vs, |b|, |head|);
    WriteAllAt(head, vs, w, k);
  }

  lemma FixedElemReads(b: seq<Byte>, vs: seq<Value>, ts: seq<Tree>, minWidth: nat, k: nat)
    requires AllHold(b, vs, ts) && ValuesOk(vs, |b|) && IsWidth(minWidth) && CanFix(vs) && k < |vs|
    ensures var (r, v) := CreateFixed(b, vs, minWidth);
      && IsWidth(v.width) && VECTOR_INT2 <= v.kind && k < |ts|
      && Reads(r, FixedVectorAt(v.u, v.width, v.kind, k), ts[k])
  {
    var (r, v) := CreateFixed(b, vs, minWidth);
    FixedExtends(b, vs, minWidth);
    FixedElementIs(vs[0].kind, |vs|);
    FixedWritten(b, vs, minWidth, k);
    AllHoldAt(b, vs, ts, k);
    hide CreateFixed;
    hide Holds;
    hide AllHold;
    hide ValuesOk;
    hide Reads;
    hide At;
    hide SlotBytes;
    hide ToFixedVector;
    hide FixedElement;
    hide Scale;
    SlotReads(r, b, v.u + Scale(k, v.width), v.width, vs[k], 1, ts[k]);
  }

  lemma FixedHolds(b: seq<Byte>, vs: seq<Value>, ts: seq<Tree>, minWidth: nat)
    requires AllHold(b, vs, ts) && ValuesOk(vs, |b|) && IsWidth(minWidth) && CanFix(vs)
    ensures var (r, v) := CreateFixed(b, vs, minWidth);
      && |b| <= |r| && r[..|b|] == b && Holds(r, v, TFixed(vs[0].kind, ts))
  {
    var (r, v) := CreateFixed(b, vs, minWidth);
    FixedExtends(b, vs, minWidth);
    FixedElementIs(vs[0].kind, |vs|);
    hide Reads;
    hide VectorWidth;
    hide WriteAll;
    hide PaddingBytes;
    assert |ts| == |vs|;
    forall k | 0 <= k < |ts| ensures Reads(r, FixedVectorAt(v.u, v.width, v.kind, k), ts[k]) {
      FixedElemReads(b, vs, ts, minWidth, k);
    }
    hide CreateFixed;
    VectorValue(r, v, TFixed(vs[0].kind, ts));
  }

  /** Numbers are stored as they are, so no assertion on offsets can fail. */
  lemma FixedSafe(b: seq<Byte>, vs: seq<Value>, minWidth: nat)
    requires ValuesOk(vs, |b|) && IsWidth(minWidth) && CanFix(vs)
    ensures VectorAsserts(b, vs, 1, None, minWidth)
  {
    hide VectorWidth;
    hide VectorHead;
    hide SearchWidth;
    hide Scale;
  }
}
