/** Values on the stack, and what storing one as an element of a vector makes readable. */
module FlexValues {
  import opened Bytes
  import opened FlexReader
  import opened FlexBuilder
  import opened FlexWidths

  const MAX_UINT64 := 0x1_0000_0000_0000_0000
  const MAX_INT64 := 0x8000_0000_0000_0000

  /** The value stands for the tree: it is the number itself, or leads to the object in the buffer. */
  ghost predicate Holds(b: seq<Byte>, v: Value, t: Tree) {
    && ValueOk(v, |b|) && v.kind <= BOOL + 10 && (v.kind == KEY ==> v.width == 1)
    && match t
       case TNull => v == Value(0, NULL, 1)
       case TBool(x) => v == Value(if x then 1 else 0, BOOL, 1)
       case TInt(i) => -MAX_INT64 <= i < MAX_INT64 && v == Value(i, INT, WidthI(i))
       case TUInt(u) => u < MAX_UINT64 && v == Value(u, UINT, WidthU(u))
       case _ => !IsInline(v.kind) && Stands(b, v.u, v.width, v.kind, t)
  }

  lemma HoldsAppend(b: seq<Byte>, more: seq<Byte>, v: Value, t: Tree)
    requires Holds(b, v, t)
    ensures Holds(b + more, v, t)
  {
    hide Stands;
    if !t.TNull? && !t.TBool? && !t.TInt? && !t.TUInt? {
      StandsAppend(b, more, v.u, v.width, v.kind, t);
    }
  }

  /** What `WriteAny` leaves at position `q`. */
  function SlotBytes(v: Value, q: nat, w: nat): (s: seq<Byte>)
    requires IsWidth(w) && (!IsInline(v.kind) ==> 0 <= v.u <= q)
    ensures |s| == w
  {
    if IsInline(v.kind) then IntBytes(v.u, w) else LE(q - v.u, w)
  }

  lemma AtLast(b: seq<Byte>, s: seq<Byte>)
    ensures At(b + s, |b|, s)
  {
  }

  lemma {:induction false} WriteAllAt(b: seq<Byte>, vs: seq<Value>, w: nat, k: nat)
    requires IsWidth(w) && ValuesOk(vs, |b|) && k < |vs|
    ensures At(WriteAll(b, vs, w), |b| + Scale(k, w), SlotBytes(vs[k], |b| + Scale(k, w), w))
    decreases |vs|
  {
    hide At;
    hide Scale;
    hide SlotBytes;
    var n := |vs| - 1;
    ScaleStep(n, w);
    var front := WriteAll(b, vs[..n], w);
    WriteAnyIs(front, vs[n], w);
    if k < n {
      WriteAllAt(b, vs[..n], w, k);
      AtAppend(front, SlotBytes(vs[n], |front|, w), |b| + Scale(k, w), SlotBytes(vs[k], |b| + Scale(k, w), w));
    } else {
      AtLast(front, SlotBytes(vs[n], |front|, w));
    }
  }

  lemma WriteAnyIs(b: seq<Byte>, v: Value, w: nat)
    requires IsWidth(w) && ValueOk(v, |b|)
    ensures WriteAny(b, v, w) == b + SlotBytes(v, |b|, w)
  {
  }

  /** Only appended to. */
  lemma {:induction false} WriteAllExtends(b: seq<Byte>, vs: seq<Value>, w: nat)
    requires IsWidth(w) && ValuesOk(vs, |b|)
    ensures |b| <= |WriteAll(b, vs, w)| && WriteAll(b, vs, w)[..|b|] == b
    decreases |vs|
  {
    hide Scale;
    if vs != [] {
      var n := |vs| - 1;
      WriteAllExtends(b, vs[..n], w);
      WriteAnyIs(WriteAll(b, vs[..n], w), vs[n], w);
    }
  }

  /** What follows a buffer that was only appended to. */
  lemma Grown(b1: seq<Byte>, b0: seq<Byte>) returns (more: seq<Byte>)
    requires |b0| <= |b1| && b1[..|b0|] == b0
    ensures b1 == b0 + more
  {
    more := b1[|b0|..];
  }

  /** The element stored at `q` with width `w` reads as the tree its value stands for. */
  lemma SlotReads(b: seq<Byte>, b0: seq<Byte>, q: nat, w: nat, v: Value, bw: nat, t: Tree)
    requires IsWidth(w) && IsWidth(bw) && Holds(b0, v, t) && |b0| <= |b| && b[..|b0|] == b0
    requires !IsInline(v.kind) ==> v.u <= q && bw == v.width
    requires At(b, q, SlotBytes(v, q, w))
    requires if IsInline(v.kind) then v.width <= w else q - v.u < Range(w)
    ensures Reads(b, Ref(q, w, bw, v.kind), t)
  {
    hide Stands;
    hide LE;
    hide At;
    hide Range;
    hide ReadLE;
    match t
    case TNull =>
    case TBool(x) => UIntSlot(b, q, w, if x then 1 else 0);
    case TInt(i) => IntSlot(b, q, w, i);
    case TUInt(u) => UIntSlot(b, q, w, u);
    case _ => OffsetSlot(b, b0, q, w, v, t);
  }

  lemma OffsetSlot(b: seq<Byte>, b0: seq<Byte>, q: nat, w: nat, v: Value, t: Tree)
    requires IsWidth(w) && !IsInline(v.kind) && 0 <= v.u <= q && q - v.u < Range(w)
    requires Stands(b0, v.u, v.width, v.kind, t) && |b0| <= |b| && b[..|b0|] == b0
    requires At(b, q, LE(q - v.u, w))
    ensures Indirect(b, q, w) == Ok(v.u) && Stands(b, v.u, v.width, v.kind, t)
  {
    hide Stands;
    hide LE;
    hide At;
    hide Range;
    hide ReadLE;
    ReadOfAt(b, q, q - v.u, w);
    var more := Grown(b, b0);
    StandsAppend(b0, more, v.u, v.width, v.kind, t);
  }

  lemma UIntSlot(b: seq<Byte>, q: nat, w: nat, u: nat)
    requires IsWidth(w) && u < MAX_UINT64 && WidthU(u) <= w && At(b, q, IntBytes(u, w))
    ensures ReadLE(b, q, w) == Ok(u)
  {
    hide LE;
    hide At;
    UIntSurvives(u, w);
    ReadOfAt(b, q, u, w);
  }

  lemma IntSlot(b: seq<Byte>, q: nat, w: nat, i: int)
    requires IsWidth(w) && -MAX_INT64 <= i < MAX_INT64 && WidthI(i) <= w && At(b, q, IntBytes(i, w))
    ensures ReadInt(b, q, w) == Ok(i)
  {
    hide LE;
    hide At;
    IntSurvives(i, w);
    ReadOfAt(b, q, i % Range(w), w);
  }

  /** The packed type tells the type, and the width of what an offset leads to. */
  lemma PackedReads(v: Value, parent: nat)
    requires IsWidth(parent) && IsWidth(v.width) && v.kind <= BOOL + 10
    ensures var p := PackedByte(v, parent) as nat;
      p / 4 == v.kind && IsWidth(ByteWidth(p % 4)) && (!IsInline(v.kind) ==> ByteWidth(p % 4) == v.width)
  {
  }
}
