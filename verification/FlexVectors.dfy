/** Vectors: what `CreateVector` writes reads back as the trees its values stand for. */
module FlexVectors {
  import opened Bytes
  import opened FlexReader
  import opened FlexBuilder
  import opened FlexWidths
  import opened FlexValues

  /** Each value stands for its tree. */
  ghost predicate AllHold(b: seq<Byte>, vs: seq<Value>, ts: seq<Tree>) {
    |vs| == |ts| && forall i | 0 <= i < |vs| :: Holds(b, vs[i], ts[i])
  }

  lemma AllHoldOk(b: seq<Byte>, vs: seq<Value>, ts: seq<Tree>)
    requires AllHold(b, vs, ts)
    ensures ValuesOk(vs, |b|) && CanPack(vs)
  {
    hide Stands;
  }

  lemma AllHoldAppend(b1: seq<Byte>, b0: seq<Byte>, vs: seq<Value>, ts: seq<Tree>)
    requires AllHold(b0, vs, ts) && |b0| <= |b1| && b1[..|b0|] == b0
    ensures AllHold(b1, vs, ts)
  {
    hide Holds;
    var more := Grown(b1, b0);
    forall i | 0 <= i < |vs| ensures Holds(b1, vs[i], ts[i]) {
      HoldsAppend(b0, more, vs[i], ts[i]);
    }
  }

  lemma {:induction false} ElemsWidthCovers(vs: seq<Value>, size: nat, step: nat, prefix: nat, w: nat, k: nat)
    requires ValuesOk(vs, size) && IsWidth(w) && k < |vs|
    ensures ElemWidth(vs[k], size, step * k + prefix) <= ElemsWidth(vs, size, step, prefix, w)
    decreases |vs|
  {
    hide ElemWidth;
    var n := |vs| - 1;
    if k < n {
      ElemsWidthCovers(vs[..n], size, step, prefix, w, k);
    }
  }

  /** What is known of the width chosen for a vector. */
  lemma WidthCovers(b: seq<Byte>, vs: seq<Value>, step: nat, keys: Option<Value>, minWidth: nat)
    requires ValuesOk(vs, |b|) && (keys.Some? ==> ValueOk(keys.value, |b|)) && IsWidth(minWidth)
    ensures var w := VectorWidth(b, vs, step, keys, minWidth);
      && minWidth <= w && WidthU(|vs|) <= w && (keys.Some? ==> ElemWidth(keys.value, |b|, 0) <= w)
      && forall k | 0 <= k < |vs| :: ElemWidth(vs[k], |b|, Index(step, k, keys)) <= w
  {
    hide ElemWidth;
    hide WidthU;
    var w0 := Max(minWidth, WidthU(|vs|));
    var w1 := if keys.Some? then Max(w0, ElemWidth(keys.value, |b|, 0)) else w0;
    forall k | 0 <= k < |vs|
      ensures ElemWidth(vs[k], |b|, Index(step, k, keys)) <= VectorWidth(b, vs, step, keys, minWidth)
    {
      ElemsWidthCovers(vs, |b|, step, Prefix(keys), w1, k);
    }
  }

  /** The size stands right in front of the first element. */
  lemma HeadSize(b: seq<Byte>, n: nat, w: nat, keys: Option<Value>)
    requires IsWidth(w) && (keys.Some? ==> ValueOk(keys.value, |b|) && !IsInline(keys.value.kind))
    ensures var h := VectorHead(b, n, w, keys);
      && |h| >= w && At(h, |h| - w, LE(n, w))
      && |b| <= |h| && h[..|b|] == b
      && |h| == |b| + PaddingBytes(|b|, w) + Scale(Prefix(keys), w)
  {
    hide LE;
    hide PaddingBytes;
    var b1 := Pad(b, w);
    var b2 := if keys.Some? then WriteOffset(b1, keys.value.u, w) + LE(keys.value.width, w) else b1;
    AtLast(b2, LE(n, w));
  }

  /** And before it the distance to the keys and their width. */
  lemma HeadKeys(b: seq<Byte>, n: nat, w: nat, keys: Value)
    requires IsWidth(w) && ValueOk(keys, |b|) && !IsInline(keys.kind)
    ensures var h := VectorHead(b, n, w, Some(keys));
      && |h| >= 3 * w && |h| - 3 * w >= keys.u
      && At(h, |h| - 3 * w, LE(|h| - 3 * w - keys.u, w)) && At(h, |h| - 2 * w, LE(keys.width, w))
  {
    hide LE;
    hide PaddingBytes;
    hide At;
    var b1 := Pad(b, w);
    var o := LE(|b1| - keys.u, w);
    AtLast(b1, o);
    AtLast(b1 + o, LE(keys.width, w));
    AtAppend(b1 + o, LE(keys.width, w), |b1|, o);
    AtAppend(b1 + o + LE(keys.width, w), LE(n, w), |b1|, o);
    AtAppend(b1 + o + LE(keys.width, w), LE(n, w), |b1| + w, LE(keys.width, w));
  }

  /** What is written behind the head leaves it alone. */
  lemma VectorExtends(
    b: seq<Byte>, vs: seq<Value>, step: nat, typed: bool, keys: Option<Value>, minWidth: nat)
    requires ValuesOk(vs, |b|) && IsWidth(minWidth) && CanPack(vs)
    requires keys.Some? ==> ValueOk(keys.value, |b|) && !IsInline(keys.value.kind)
    requires typed ==> SameKinds(vs)
    ensures var (r, v) := CreateVector(b, vs, step, typed, keys, minWidth);
      var head := VectorHead(b, |vs|, v.width, keys);
      && v.u == |head| <= |r| && r[..|head|] == head && |b| <= |r| && r[..|b|] == b
      && WriteAll(head, vs, v.width) <= r
      && |r| >= v.u + Scale(|vs|, v.width)
  {
    hide VectorHead;
    hide VectorWidth;
    var (r, v) := CreateVector(b, vs, step, typed, keys, minWidth);
    HeadSize(b, |vs|, v.width, keys);
    var head := VectorHead(b, |vs|, v.width, keys);
    WriteAllExtends(head, vs, v.width);
    assert r[..|head|] == WriteAll(head, vs, v.width)[..|head|];
    assert r[..|b|] == head[..|b|];
  }

  /** Element `k` of a vector just created reads as its tree; `bw` is the width its type byte tells, if there is one. */
  lemma ElemReads(
    b: seq<Byte>, vs: seq<Value>, ts: seq<Tree>, step: nat, typed: bool, keys: Option<Value>, minWidth: nat,
    k: nat, bw: nat)
    requires AllHold(b, vs, ts) && ValuesOk(vs, |b|) && IsWidth(minWidth) && CanPack(vs) && step >= 1
    requires keys.Some? ==> ValueOk(keys.value, |b|) && !IsInline(keys.value.kind)
    requires typed ==> SameKinds(vs)
    requires |CreateVector(b, vs, step, typed, keys, minWidth).0| < MAX_UINT64
    requires k < |vs| && IsWidth(bw) && (!IsInline(vs[k].kind) ==> bw == vs[k].width)
    ensures var (r, v) := CreateVector(b, vs, step, typed, keys, minWidth);
      Reads(r, Ref(v.u + Scale(k, v.width), v.width, bw, vs[k].kind), ts[k])
  {
    hide *;
    ElemWritten(b, vs, step, typed, keys, minWidth, k);
    AllHoldAt(b, vs, ts, k);
    ElemFits(b, vs, step, typed, keys, minWidth, k);
    var (r, v) := CreateVector(b, vs, step, typed, keys, minWidth);
    SlotReads(r, b, v.u + Scale(k, v.width), v.width, vs[k], bw, ts[k]);
  }

  /** Where the element is, and what is written there. */
  lemma ElemWritten(
    b: seq<Byte>, vs: seq<Value>, step: nat, typed: bool, keys: Option<Value>, minWidth: nat, k: nat)
    requires ValuesOk(vs, |b|) && IsWidth(minWidth) && CanPack(vs) && k < |vs|
    requires keys.Some? ==> ValueOk(keys.value, |b|) && !IsInline(keys.value.kind)
    requires typed ==> SameKinds(vs)
    ensures var (r, v) := CreateVector(b, vs, step, typed, keys, minWidth);
      && IsWidth(v.width) && v.u >= 0 && |b| <= |r| && r[..|b|] == b
      && var q := v.u + Scale(k, v.width);
      && (!IsInline(vs[k].kind) ==> 0 <= vs[k].u <= q)
      && At(r, q, SlotBytes(vs[k], q, v.width))
      && q == |b| + PaddingBytes(|b|, v.width) + Scale(k + Prefix(keys), v.width) && q < |r|
  {
    hide *;
    VectorExtends(b, vs, step, typed, keys, minWidth);
    var (r, v) := CreateVector(b, vs, step, typed, keys, minWidth);
    var w := v.width;
    WidthIs(b, vs, step, typed, keys, minWidth);
    HeadSize(b, |vs|, w, keys);
    var q := v.u + Scale(k, w);
    PlaceOf(v.u, |b|, k, |vs|, w, keys);
    ValuesGrow(vs, |b|, v.u);
    ValueInside(vs, k, |b|);
    WidthPositive(w);
    WriteAllAt(VectorHead(b, |vs|, w, keys), vs, w, k);
    AtPrefix(WriteAll(VectorHead(b, |vs|, w, keys), vs, w), r, q, SlotBytes(vs[k], q, w));
  }

  lemma WidthPositive(w: nat)
    requires IsWidth(w)
    ensures w >= 1
  {
  }

  /** And that it fits the width. */
  lemma ElemFits(
    b: seq<Byte>, vs: seq<Value>, step: nat, typed: bool, keys: Option<Value>, minWidth: nat, k: nat)
    requires ValuesOk(vs, |b|) && IsWidth(minWidth) && CanPack(vs) && step >= 1 && k < |vs|
    requires keys.Some? ==> ValueOk(keys.value, |b|) && !IsInline(keys.value.kind)
    requires typed ==> SameKinds(vs)
    requires |CreateVector(b, vs, step, typed, keys, minWidth).0| < MAX_UINT64
    ensures var (r, v) := CreateVector(b, vs, step, typed, keys, minWidth);
      && IsWidth(v.width)
      && if IsInline(vs[k].kind) then vs[k].width <= v.width
         else v.u + Scale(k, v.width) - vs[k].u < Range(v.width)
  {
    assert MAX_UINT64 == 0x1_0000_0000_0000_0000;
    hide *;
    ElemWritten(b, vs, step, typed, keys, minWidth, k);
    var w := CreateVector(b, vs, step, typed, keys, minWidth).1.width;
    ValueOkAt(vs, k, |b|);
    var index := Index(step, k, keys);
    assert ElemWidth(vs[k], |b|, index) <= w by {
      WidthIs(b, vs, step, typed, keys, minWidth);
      WidthCovers(b, vs, step, keys, minWidth);
    }
    StepsAhead(step, k, keys);
    ValueFits(vs[k], |b|, k + Prefix(keys), index, w);
  }

  lemma SearchSafe(v: Value, size: nat, index: nat)
    requires ValueOk(v, size)
    ensures SearchEnds(v, size, index)
  {
    hide SearchWidth;
    if !IsInline(v.kind) {
      SearchFinds(v.u, size, index, 1);
    }
  }

  lemma ElemSafe(
    b: seq<Byte>, vs: seq<Value>, step: nat, typed: bool, keys: Option<Value>, minWidth: nat, k: nat)
    requires ValuesOk(vs, |b|) && IsWidth(minWidth) && CanPack(vs) && step >= 1 && k < |vs|
    requires keys.Some? ==> ValueOk(keys.value, |b|) && !IsInline(keys.value.kind)
    requires typed ==> SameKinds(vs)
    requires |CreateVector(b, vs, step, typed, keys, minWidth).0| < MAX_UINT64
    ensures var w := VectorWidth(b, vs, step, keys, minWidth);
      && ValueOk(vs[k], |b|)
      && ElemAsserts(vs[k], |b|, Index(step, k, keys), |VectorHead(b, |vs|, w, keys)| + Scale(k, w), w)
  {
    hide *;
    ValueOkAt(vs, k, |b|);
    SearchSafe(vs[k], |b|, Index(step, k, keys));
    VectorExtends(b, vs, step, typed, keys, minWidth);
    WidthIs(b, vs, step, typed, keys, minWidth);
    ElemFits(b, vs, step, typed, keys, minWidth, k);
    var v := CreateVector(b, vs, step, typed, keys, minWidth).1;
    Stored(vs[k], |b|, Index(step, k, keys), v.u + Scale(k, v.width), v.width);
  }

  lemma Stored(v: Value, size: nat, index: nat, q: int, w: nat)
    requires ValueOk(v, size) && IsWidth(w) && SearchEnds(v, size, index)
    requires IsInline(v.kind) || q - v.u < Range(w)
    ensures ElemAsserts(v, size, index, q, w)
  {
    hide SearchEnds;
  }

  /** So no assertion fails while the vector is written. */
  lemma VectorSafe(
    b: seq<Byte>, vs: seq<Value>, step: nat, typed: bool, keys: Option<Value>, minWidth: nat)
    requires ValuesOk(vs, |b|) && IsWidth(minWidth) && CanPack(vs) && step >= 1
    requires keys.Some? ==> ValueOk(keys.value, |b|) && !IsInline(keys.value.kind)
    requires typed ==> SameKinds(vs)
    requires |CreateVector(b, vs, step, typed, keys, minWidth).0| < MAX_UINT64
    requires var w := VectorWidth(b, vs, step, keys, minWidth);
      keys.Some? ==> ElemAsserts(keys.value, |b|, 0, |Pad(b, w)|, w)
    ensures VectorAsserts(b, vs, step, keys, minWidth)
  {
    hide CreateVector;
    hide VectorWidth;
    hide VectorHead;
    hide ElemAsserts;
    hide Scale;
    hide Pad;
    var w := VectorWidth(b, vs, step, keys, minWidth);
    forall k | 0 <= k < |vs|
      ensures ElemAsserts(vs[k], |b|, Index(step, k, keys), |VectorHead(b, |vs|, w, keys)| + Scale(k, w), w)
    {
      ElemSafe(b, vs, step, typed, keys, minWidth, k);
    }
  }

  lemma ValueFits(v: Value, size: nat, place: nat, index: nat, w: nat)
    requires ValueOk(v, size) && IsWidth(w) && place <= index && ElemWidth(v, size, index) <= w
    requires size + PaddingBytes(size, w) + Scale(place, w) < 0x1_0000_0000_0000_0000
    ensures if IsInline(v.kind) then v.width <= w
      else size + PaddingBytes(size, w) + Scale(place, w) - v.u < Range(w)
  {
    hide PaddingBytes;
    hide Scale;
    if IsInline(v.kind) {
      InlineWidth(v, size, index);
    } else {
      OffsetFits(v, size, place, index, w);
    }
  }

  lemma ValueOkAt(vs: seq<Value>, k: nat, size: nat)
    requires ValuesOk(vs, size) && k < |vs|
    ensures ValueOk(vs[k], size)
  {
  }

  lemma ValuesGrow(vs: seq<Value>, size: nat, larger: nat)
    requires ValuesOk(vs, size) && size <= larger
    ensures ValuesOk(vs, larger)
  {
  }

  lemma ValueInside(vs: seq<Value>, k: nat, size: nat)
    requires ValuesOk(vs, size) && k < |vs|
    ensures IsInline(vs[k].kind) || 0 <= vs[k].u <= size
  {
  }

  lemma WidthIs(b: seq<Byte>, vs: seq<Value>, step: nat, typed: bool, keys: Option<Value>, minWidth: nat)
    requires ValuesOk(vs, |b|) && IsWidth(minWidth) && CanPack(vs)
    requires keys.Some? ==> ValueOk(keys.value, |b|) && !IsInline(keys.value.kind)
    requires typed ==> SameKinds(vs)
    ensures CreateVector(b, vs, step, typed, keys, minWidth).1.width == VectorWidth(b, vs, step, keys, minWidth)
  {
    hide VectorWidth;
    hide VectorHead;
    hide WriteAll;
  }

  lemma PlaceOf(p: nat, size: nat, k: nat, n: nat, w: nat, keys: Option<Value>)
    requires IsWidth(w) && p == size + PaddingBytes(size, w) + Scale(Prefix(keys), w) && k < n
    ensures p + Scale(k, w) == size + PaddingBytes(size, w) + Scale(k + Prefix(keys), w)
    ensures Scale(k, w) + w <= Scale(n, w) && k < k + 1 <= n
  {
    hide PaddingBytes;
  }

  lemma StepsAhead(step: nat, k: nat, keys: Option<Value>)
    requires step >= 1
    ensures k + Prefix(keys) <= Index(step, k, keys)
  {
  }

  lemma AllHoldAt(b: seq<Byte>, vs: seq<Value>, ts: seq<Tree>, k: nat)
    requires AllHold(b, vs, ts) && k < |vs|
    ensures k < |ts| && Holds(b, vs[k], ts[k]) && ValueOk(vs[k], |b|)
  {
    hide Stands;
  }

  lemma InlineWidth(v: Value, size: nat, index: nat)
    requires ValueOk(v, size) && IsInline(v.kind)
    ensures ElemWidth(v, size, index) == v.width
  {
  }

  lemma AtPrefix(b: seq<Byte>, r: seq<Byte>, p: int, s: seq<Byte>)
    requires At(b, p, s) && b <= r
    ensures At(r, p, s)
  {
    assert r[p..p + |s|] == b[p..p + |s|];
  }

  /** The size of a vector just created. */
  lemma SizeReads(
    b: seq<Byte>, vs: seq<Value>, step: nat, typed: bool, keys: Option<Value>, minWidth: nat)
    requires ValuesOk(vs, |b|) && IsWidth(minWidth) && CanPack(vs)
    requires keys.Some? ==> ValueOk(keys.value, |b|) && !IsInline(keys.value.kind)
    requires typed ==> SameKinds(vs)
    requires |CreateVector(b, vs, step, typed, keys, minWidth).0| < MAX_UINT64
    ensures var (r, v) := CreateVector(b, vs, step, typed, keys, minWidth);
      IsWidth(v.width) && SizeBefore(r, v.u, v.width) == Ok(|vs|)
  {
    hide *;
    var (r, v) := CreateVector(b, vs, step, typed, keys, minWidth);
    VectorExtends(b, vs, step, typed, keys, minWidth);
    WidthIs(b, vs, step, typed, keys, minWidth);
    WidthCovers(b, vs, step, keys, minWidth);
    HeadSize(b, |vs|, v.width, keys);
    AtPrefix(VectorHead(b, |vs|, v.width, keys), r, v.u - v.width, LE(|vs|, v.width));
    CountFits(|vs|, v.width);
    SizeRead(r, v.u, v.width, |vs|);
  }

  lemma CountFits(n: nat, w: nat)
    requires IsWidth(w) && WidthU(n) <= w && Scale(n, w) < MAX_UINT64
    ensures n < Range(w)
  {
    UIntSurvives(n, w);
  }

  lemma SizeRead(b: seq<Byte>, p: int, w: nat, n: nat)
    requires IsWidth(w) && At(b, p - w, LE(n, w)) && n < Range(w)
    ensures SizeBefore(b, p, w) == Ok(n)
  {
    ReadOfAt(b, p - w, n, w);
  }

  /** The types of an untyped vector stand behind its elements. */
  lemma TypesRead(
    b: seq<Byte>, vs: seq<Value>, step: nat, keys: Option<Value>, minWidth: nat, k: nat)
    requires ValuesOk(vs, |b|) && IsWidth(minWidth) && CanPack(vs) && k < |vs|
    requires keys.Some? ==> ValueOk(keys.value, |b|) && !IsInline(keys.value.kind)
    ensures var (r, v) := CreateVector(b, vs, step, false, keys, minWidth);
      && IsWidth(v.width)
      && ReadLE(r, v.u + Scale(|vs|, v.width) + k, 1) == Ok(PackedByte(vs[k], v.width) as nat)
  {
    hide VectorHead;
    hide VectorWidth;
    hide WriteAll;
    hide PackedByte;
    hide Scale;
    var (r, v) := CreateVector(b, vs, step, false, keys, minWidth);
    var types := TypeBytes(vs, v.width);
    var elems := WriteAll(VectorHead(b, |vs|, v.width, keys), vs, v.width);
    assert r[|elems| + k..|elems| + k + 1] == [types[k]];
    OneByte(types[k]);
  }

  lemma OneByte(x: Byte)
    ensures Val([x]) == x as nat
  {
    assert [x][1..] == [];
  }

  /** An element of an untyped vector, or a value of a map, reads as its tree. */
  lemma UntypedReads(
    b: seq<Byte>, vs: seq<Value>, ts: seq<Tree>, step: nat, keys: Option<Value>, minWidth: nat, k: nat)
    requires AllHold(b, vs, ts) && ValuesOk(vs, |b|) && IsWidth(minWidth) && CanPack(vs) && step >= 1
    requires keys.Some? ==> ValueOk(keys.value, |b|) && !IsInline(keys.value.kind)
    requires |CreateVector(b, vs, step, false, keys, minWidth).0| < MAX_UINT64
    requires k < |vs|
    ensures var (r, v) := CreateVector(b, vs, step, false, keys, minWidth);
      IsWidth(v.width) && k < |ts| && ReadsAt(r, VectorAt(r, v.u, v.width, k), ts[k])
  {
    hide *;
    var (r, v) := CreateVector(b, vs, step, false, keys, minWidth);
    SizeReads(b, vs, step, false, keys, minWidth);
    TypesRead(b, vs, step, keys, minWidth, k);
    AllHoldAt(b, vs, ts, k);
    PackOk(vs, k, |b|);
    PackedReads(vs[k], v.width);
    var packed := PackedByte(vs[k], v.width) as nat;
    ElemReads(b, vs, ts, step, false, keys, minWidth, k, ByteWidth(packed % 4));
    VectorAtIs(r, v.u, v.width, |vs|, k, packed);
    ReadsOk(r, Ref(v.u + Scale(k, v.width), v.width, ByteWidth(packed % 4), vs[k].kind), ts[k]);
  }

  lemma PackOk(vs: seq<Value>, k: nat, size: nat)
    requires CanPack(vs) && k < |vs|
    ensures IsWidth(vs[k].width) && vs[k].kind <= BOOL + 10
  {
  }

  lemma VectorAtIs(b: seq<Byte>, p: int, w: nat, n: nat, k: nat, packed: nat)
    requires IsWidth(w) && SizeBefore(b, p, w) == Ok(n) && k < n
    requires ReadLE(b, p + Scale(n, w) + k, 1) == Ok(packed)
    ensures VectorAt(b, p, w, k) == Ok(Ref(p + Scale(k, w), w, ByteWidth(packed % 4), packed / 4))
  {
  }

  lemma ReadsOk(b: seq<Byte>, r: Ref, t: Tree)
    requires Reads(b, r, t)
    ensures ReadsAt(b, Ok(r), t)
  {
  }

  /** An element of a typed vector reads as its tree. */
  lemma TypedReads(
    b: seq<Byte>, vs: seq<Value>, ts: seq<Tree>, step: nat, minWidth: nat, k: nat)
    requires AllHold(b, vs, ts) && ValuesOk(vs, |b|) && IsWidth(minWidth) && CanPack(vs) && step >= 1
    requires SameKinds(vs) && k < |vs|
    requires |CreateVector(b, vs, step, true, None, minWidth).0| < MAX_UINT64
    ensures var (r, v) := CreateVector(b, vs, step, true, None, minWidth);
      IsWidth(v.width) && k < |ts| && ReadsAt(r, TypedVectorAt(r, v.u, v.width, vs[0].kind, k), ts[k])
  {
    hide *;
    var (r, v) := CreateVector(b, vs, step, true, None, minWidth);
    SizeReads(b, vs, step, true, None, minWidth);
    AllHoldAt(b, vs, ts, k);
    TypedElem(b, vs, ts, k);
    ElemReads(b, vs, ts, step, true, None, minWidth, k, 1);
    TypedAtIs(r, v.u, v.width, |vs|, vs[0].kind, k);
    ReadsOk(r, Ref(v.u + Scale(k, v.width), v.width, 1, vs[0].kind), ts[k]);
  }

  lemma TypedElem(b: seq<Byte>, vs: seq<Value>, ts: seq<Tree>, k: nat)
    requires SameKinds(vs) && AllHold(b, vs, ts) && k < |vs|
    ensures vs[k].kind == vs[0].kind && IsWidth(1) && (!IsInline(vs[k].kind) ==> vs[k].width == 1)
  {
    hide Stands;
  }

  lemma TypedAtIs(b: seq<Byte>, p: int, w: nat, n: nat, kind: nat, k: nat)
    requires IsWidth(w) && SizeBefore(b, p, w) == Ok(n) && k < n
    ensures TypedVectorAt(b, p, w, kind, k) == Ok(Ref(p + Scale(k, w), w, 1, kind))
  {
  }

  /** A vector of mixed values. */
  lemma VectorHolds(b: seq<Byte>, vs: seq<Value>, ts: seq<Tree>, minWidth: nat)
    requires AllHold(b, vs, ts) && ValuesOk(vs, |b|) && CanPack(vs) && IsWidth(minWidth)
    requires |CreateVector(b, vs, 1, false, None, minWidth).0| < MAX_UINT64
    ensures var (r, v) := CreateVector(b, vs, 1, false, None, minWidth);
      && |b| <= |r| && r[..|b|] == b && Holds(r, v, TVector(ts))
  {
    var (r, v) := CreateVector(b, vs, 1, false, None, minWidth);
    VectorExtends(b, vs, 1, false, None, minWidth);
    SizeReads(b, vs, 1, false, None, minWidth);
    forall k | 0 <= k < |vs| ensures ReadsAt(r, VectorAt(r, v.u, v.width, k), ts[k]) {
      UntypedReads(b, vs, ts, 1, None, minWidth, k);
    }
    hide Reads;
    hide VectorAt;
    hide WriteAll;
    hide TypeBytes;
    hide VectorHead;
    hide VectorWidth;
    hide Holds;
    assert Stands(r, v.u, v.width, VECTOR, TVector(ts));
    VectorValue(r, v, TVector(ts));
  }

  lemma VectorValue(r: seq<Byte>, v: Value, t: Tree)
    requires Stands(r, v.u, v.width, v.kind, t) && 0 <= v.u <= |r|
    requires t.TVector? || t.TTyped? || t.TFixed? || t.TMap?
    ensures Holds(r, v, t)
  {
  }

  /** The type of a typed vector: that of its elements, keys if there are none. */
  function ElementKind(vs: seq<Value>): nat {
    if vs == [] then KEY else vs[0].kind
  }

  lemma TypedHolds(b: seq<Byte>, vs: seq<Value>, ts: seq<Tree>, step: nat, minWidth: nat)
    requires AllHold(b, vs, ts) && ValuesOk(vs, |b|) && CanPack(vs) && SameKinds(vs) && IsWidth(minWidth) && step >= 1
    requires |CreateVector(b, vs, step, true, None, minWidth).0| < MAX_UINT64
    ensures var (r, v) := CreateVector(b, vs, step, true, None, minWidth);
      && |b| <= |r| && r[..|b|] == b && v.kind == ToTypedVector(ElementKind(vs))
      && Holds(r, v, TTyped(ElementKind(vs), ts))
  {
    var (r, v) := CreateVector(b, vs, step, true, None, minWidth);
    VectorExtends(b, vs, step, true, None, minWidth);
    SizeReads(b, vs, step, true, None, minWidth);
    forall k | 0 <= k < |vs| ensures ReadsAt(r, TypedVectorAt(r, v.u, v.width, ElementKind(vs), k), ts[k]) {
      TypedReads(b, vs, ts, step, minWidth, k);
    }
    hide Reads;
    hide TypedVectorAt;
    hide WriteAll;
    hide VectorHead;
    hide VectorWidth;
    hide Holds;
    assert Stands(r, v.u, v.width, v.kind, TTyped(ElementKind(vs), ts));
    VectorValue(r, v, TTyped(ElementKind(vs), ts));
  }

  /** Behind its last element a vector, typed or not, of fixed length or not, gives null. */
  lemma BeyondIsNull(b: seq<Byte>, p: int, w: nat, n: nat, kind: nat, i: nat)
    requires IsWidth(w) && n <= i
    ensures SizeBefore(b, p, w) == Ok(n) ==>
      ReadsAt(b, VectorAt(b, p, w, i), TNull) && ReadsAt(b, TypedVectorAt(b, p, w, kind, i), TNull)
    ensures VECTOR_INT2 <= kind && FixedElement(kind).1 == n ==> Reads(b, FixedVectorAt(p, w, kind, i), TNull)
  {
  }
}
