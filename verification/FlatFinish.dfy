/** Finishing a buffer, and what a reader that knows nothing of the builder finds in it. */
module FlatFinish {
  import opened Bytes
  import opened FlatReader
  import opened FlatLayout
  import opened FlatBuilder
  import opened FlatObjects
  import opened FlatRun
  import opened FlatRoundTrip

  /** Every accessor, used on the object at `p`, returns what `o` says. */
  ghost predicate Reads(b: seq<Byte>, p: int, o: Obj)
    decreases o, 0
  {
    match o
    case Str(s) =>
      && VectorSize(b, p) == Ok(|s|)
      && (forall i | 0 <= i < |s| :: ReadLE(b, p + 4 + i, 1) == Ok(s[i] as nat))
      && ReadLE(b, p + 4 + |s|, 1) == Ok(0)
    case Scalars(w, xs) =>
      && IsWidth(w) && VectorSize(b, p) == Ok(|xs|)
      && forall i | 0 <= i < |xs| :: VectorScalar(b, p, w, i) == Ok(xs[i])
    case Refs(os) =>
      && VectorSize(b, p) == Ok(|os|)
      && forall i | 0 <= i < |os| :: ReadsAt(b, VectorRef(b, p, i), os[i])
    case Table(slots) =>
      && VTableTight(b, p)
      && (forall id | IsFieldId(id) && !HasId(slots, id) :: FieldOffset(b, p, id) == Ok(0))
      && forall i | 0 <= i < |slots| :: ReadsSlot(b, p, slots[i])
  }

  ghost predicate ReadsAt(b: seq<Byte>, r: Read<int>, o: Obj)
    decreases o, 1
  {
    r.Ok? && Reads(b, r.value, o)
  }

  ghost predicate ReadsSlot(b: seq<Byte>, t: int, slot: Slot)
    decreases slot
  {
    match slot.value
    case Scalar(w, n, default) => GetField(b, t, slot.id, w, default) == Ok(n)
    case Ref(o) =>
      (match GetPointer(b, t, slot.id)
       case Ok(Some(q)) => Reads(b, q, o)
       case _ => false)
    case Null => GetPointer(b, t, slot.id) == Ok(None)
    case Struct(bytes, _) =>
      (match GetStruct(b, t, slot.id)
       case Ok(Some(q)) => At(b, q, bytes)
       case _ => false)
  }

  lemma ReadByte(b: seq<Byte>, p: int, x: Byte)
    requires At(b, p, [x])
    ensures ReadLE(b, p, 1) == Ok(x as nat)
  {
    assert b[p..p + 1] == [x];
    assert [x][1..] == [];
    assert Val([x]) == x as nat + 256 * Val([]);
  }

  lemma {:induction false} HoldsReads(b: seq<Byte>, m: nat, p: int, o: Obj)
    requires Holds(b, m, p, o)
    ensures Reads(b, p, o)
    decreases o, 0
  {
    match o
    case Str(s) => StringReads(b, p, s);
    case Scalars(w, xs) => VectorReads(b, p, w, xs);
    case Refs(os) =>
      forall i | 0 <= i < |os| ensures ReadsAt(b, VectorRef(b, p, i), os[i]) {
        HoldsRefReads(b, m, p + 4 + 4 * i, os[i]);
      }
    case Table(slots) =>
      forall i | 0 <= i < |slots| ensures ReadsSlot(b, p, slots[i]) {
        HoldsSlotReads(b, m, p, slots[i]);
      }
  }

  lemma StringReads(b: seq<Byte>, p: int, s: seq<Byte>)
    requires |s| < 0x8000_0000 && At(b, p, LE(|s|, 4) + s + [0])
    ensures Reads(b, p, Str(s))
  {
    hide LE;
    hide ReadLE;
    AtSplit(b, p, LE(|s|, 4) + s, [0]);
    AtSplit(b, p, LE(|s|, 4), s);
    Ranges();
    ReadOfAt(b, p, |s|, 4);
    ReadByte(b, p + 4 + |s|, 0);
    forall i | 0 <= i < |s| ensures ReadLE(b, p + 4 + i, 1) == Ok(s[i] as nat) {
      AtInner(b, p + 4, s, i, [s[i]]);
      ReadByte(b, p + 4 + i, s[i]);
    }
  }

  lemma VectorReads(b: seq<Byte>, p: int, w: nat, xs: seq<nat>)
    requires IsWidth(w) && |xs| < 0x8000_0000 && At(b, p, LE(|xs|, 4) + Encode(w, xs))
    requires forall i | 0 <= i < |xs| :: xs[i] < Range(w)
    ensures Reads(b, p, Scalars(w, xs))
  {
    hide LE;
    hide ReadLE;
    hide Encode;
    AtSplit(b, p, LE(|xs|, 4), Encode(w, xs));
    Ranges();
    ReadOfAt(b, p, |xs|, 4);
    forall i | 0 <= i < |xs| ensures VectorScalar(b, p, w, i) == Ok(xs[i]) {
      ReadOfEncode(b, p + 4, w, xs, i);
    }
  }

  lemma {:induction false} HoldsRefReads(b: seq<Byte>, m: nat, p: int, o: Obj)
    requires HoldsRef(b, m, p, o)
    ensures ReadsAt(b, Deref(b, p), o)
    decreases o, 1
  {
    HoldsReads(b, m, p + ReadLE(b, p, 4).value, o);
  }

  lemma {:induction false} HoldsSlotReads(b: seq<Byte>, m: nat, t: int, slot: Slot)
    requires HoldsSlot(b, m, t, slot)
    ensures ReadsSlot(b, t, slot)
    decreases slot
  {
    match slot.value
    case Ref(o) => HoldsRefReads(b, m, t + FieldOffset(b, t, slot.id).value, o);
    case _ =>
  }

  /** Everything in the object at `p` starts at a multiple of its size or alignment from the front. */
  ghost predicate FrontAligned(b: seq<Byte>, p: int, o: Obj)
    decreases o, 0
  {
    && p % 4 == 0
    && match o
       case Str(_) => true
       case Scalars(w, xs) => IsWidth(w) && (xs != [] ==> Rem(p + 4, w) == 0)
       case Refs(os) => forall i | 0 <= i < |os| :: FrontAlignedAt(b, VectorRef(b, p, i), os[i])
       case Table(slots) => forall i | 0 <= i < |slots| :: SlotFrontAligned(b, p, slots[i])
  }

  ghost predicate FrontAlignedAt(b: seq<Byte>, r: Read<int>, o: Obj)
    decreases o, 1
  {
    r.Ok? && FrontAligned(b, r.value, o)
  }

  ghost predicate SlotFrontAligned(b: seq<Byte>, t: int, slot: Slot)
    decreases slot
  {
    match FieldOffset(b, t, slot.id)
    case Oob => false
    case Ok(o) =>
      o == 0 ||
      match slot.value
      case Scalar(w, _, _) => IsWidth(w) && Rem(t + o, w) == 0
      case Ref(obj) => (t + o) % 4 == 0 && FrontAlignedAt(b, Deref(b, t + o), obj)
      case Null => true
      case Struct(_, a) => IsAlign(a) && Rem(t + o, a) == 0
  }

  /** A buffer padded for `m` turns distances from the end into distances from the front. */
  lemma FromFront(b: seq<Byte>, m: nat, p: int, a: nat)
    requires IsAlign(m) && Rem(|b|, m) == 0 && IsAlign(a) && AlignedBy(b, m, p, a)
    ensures Rem(p, a) == 0
  {
    RemDivides(|b|, a, m);
    hide Rem;
    RemSum(|b|, |b| - p, a);
    assert |b| - (|b| - p) == p;
  }

  lemma {:induction false} HoldsFrontAligned(b: seq<Byte>, m: nat, p: int, o: Obj)
    requires IsAlign(m) && Rem(|b|, m) == 0 && Holds(b, m, p, o)
    ensures FrontAligned(b, p, o)
    decreases o, 0
  {
    hide AlignedBy;
    FromFront(b, m, p, 4);
    match o
    case Str(s) =>
    case Scalars(w, xs) =>
      if xs != [] {
        FromFront(b, m, p + 4, w);
      }
    case Refs(os) =>
      forall i | 0 <= i < |os| ensures FrontAlignedAt(b, VectorRef(b, p, i), os[i]) {
        RefFrontAligned(b, m, p + 4 + 4 * i, os[i]);
      }
    case Table(slots) =>
      forall i | 0 <= i < |slots| ensures SlotFrontAligned(b, p, slots[i]) {
        HoldsSlotFrontAligned(b, m, p, slots[i]);
      }
  }

  lemma {:induction false} RefFrontAligned(b: seq<Byte>, m: nat, p: int, o: Obj)
    requires IsAlign(m) && Rem(|b|, m) == 0 && HoldsRef(b, m, p, o)
    ensures p % 4 == 0 && FrontAlignedAt(b, Deref(b, p), o)
    decreases o, 1
  {
    FromFront(b, m, p, 4);
    HoldsFrontAligned(b, m, p + ReadLE(b, p, 4).value, o);
  }

  lemma {:induction false} HoldsSlotFrontAligned(b: seq<Byte>, m: nat, t: int, slot: Slot)
    requires IsAlign(m) && Rem(|b|, m) == 0 && HoldsSlot(b, m, t, slot)
    ensures SlotFrontAligned(b, t, slot)
    decreases slot
  {
    hide AlignedBy;
    var o := FieldOffset(b, t, slot.id).value;
    match slot.value
    case Scalar(w, n, d) =>
      if o != 0 {
        FromFront(b, m, t + o, w);
      }
    case Ref(obj) => RefFrontAligned(b, m, t + o, obj);
    case Null =>
    case Struct(_, a) => FromFront(b, m, t + o, a);
  }

  predicate IsIdent(ident: seq<Byte>) {
    |ident| == 0 || |ident| == 4
  }

  /** Where the root offset of a finished buffer is stored. */
  function RootAt(sizePrefix: bool): nat {
    if sizePrefix then 4 else 0
  }

  /** What `Finish` pads with before the header. */
  function FinishPad(size: nat, m: nat, ident: seq<Byte>, sizePrefix: bool): (pad: seq<Byte>)
    requires IsAlign(m)
    ensures |pad| < m <= 32
  {
    Zeros(PaddingBytes(size + RootAt(sizePrefix) + 4 + |ident|, m))
  }

  /** From the root offset on: root offset, identifier, padding, objects. */
  function FinishTail(d: seq<Byte>, m: nat, root: nat, ident: seq<Byte>, sizePrefix: bool): (r: seq<Byte>)
    requires IsAlign(m) && root <= |d|
    ensures |r| == 4 + |ident| + |FinishPad(|d|, m, ident, sizePrefix)| + |d|
  {
    var rest := ident + (FinishPad(|d|, m, ident, sizePrefix) + d);
    LE(|rest| - root + 4, 4) + rest
  }

  function FinishBytes(d: seq<Byte>, m: nat, root: nat, ident: seq<Byte>, sizePrefix: bool): seq<Byte>
    requires IsAlign(m) && root <= |d|
  {
    var tail := FinishTail(d, m, root, ident, sizePrefix);
    if sizePrefix then LE(|tail|, 4) + tail else tail
  }

  lemma FinishIs(s: Builder, root: nat, ident: seq<Byte>, sizePrefix: bool)
    requires root <= |s.data| && IsAlign(s.minalign) && 4 <= s.minalign && IsIdent(ident)
    ensures Finish(s, root, ident, sizePrefix) ==
      s.(data := FinishBytes(s.data, s.minalign, root, ident, sizePrefix), vtables := [], finished := true)
  {
    hide LE;
    hide PushOffset;
    hide PushElement;
    hide Rem;
    hide PaddingBytes;
    hide FinishPad;
    FinishPadded(s.(vtables := []), ident, sizePrefix);
    var s2 := Push(PreAlign(s.(vtables := []), RootAt(sizePrefix) + 4 + |ident|, s.minalign), ident);
    PushOffsetExact(s2, root);
    var s3 := PushOffset(s2, root);
    assert s3.data == FinishTail(s.data, s.minalign, root, ident, sizePrefix);
    if sizePrefix {
      assert |s3.data| % 4 == 0;
      PushExact(s3, |s3.data|);
    }
  }

  lemma PushExact(s: Builder, n: nat)
    requires |s.data| % 4 == 0 && 4 <= s.minalign
    ensures PushElement(s, n, 4) == s.(data := LE(n, 4) + s.data)
  {
    PushAligned(s, n, 4);
  }

  lemma FinishPadded(s: Builder, ident: seq<Byte>, sizePrefix: bool)
    requires IsAlign(s.minalign) && 4 <= s.minalign && IsIdent(ident)
    ensures var r := Push(PreAlign(s, RootAt(sizePrefix) + 4 + |ident|, s.minalign), ident);
      && r == s.(data := ident + (FinishPad(|s.data|, s.minalign, ident, sizePrefix) + s.data))
      && |r.data| % 4 == 0
  {
    hide Rem;
    var pad := FinishPad(|s.data|, s.minalign, ident, sizePrefix);
    FinishRem(|pad| + |s.data|, RootAt(sizePrefix) + 4 + |ident|, s.minalign);
  }

  lemma FinishRem(size: nat, len: nat, m: nat)
    requires IsAlign(m) && 4 <= m && len % 4 == 0 && Rem(size + len, m) == 0
    ensures size % 4 == 0
  {
    hide Rem;
    RemDivides(size + len, 4, m);
    Rem4(size + len);
  }

  lemma PushOffsetExact(s: Builder, off: nat)
    requires off <= |s.data| && |s.data| % 4 == 0 && 4 <= s.minalign
    ensures PushOffset(s, off) == s.(data := LE(|s.data| - off + 4, 4) + s.data)
  {
    hide LE;
    PushAligned(Align(s, 4), ReferTo(s, off), 4);
    assert Zeros(0) + s.data == s.data;
  }

  /** The length of the finished buffer is a multiple of the largest alignment in it. */
  lemma FinishLength(d: seq<Byte>, m: nat, root: nat, ident: seq<Byte>, sizePrefix: bool)
    requires IsAlign(m) && root <= |d|
    ensures Rem(|FinishBytes(d, m, root, ident, sizePrefix)|, m) == 0
    ensures var least := |d| + RootAt(sizePrefix) + 4 + |ident|;
      least <= |FinishBytes(d, m, root, ident, sizePrefix)| < least + m
  {
    hide LE;
    hide PaddingBytes;
    hide Rem;
    var pad := FinishPad(|d|, m, ident, sizePrefix);
    var total := |FinishBytes(d, m, root, ident, sizePrefix)|;
    assert total == |d| + RootAt(sizePrefix) + 4 + |ident| + |pad|;
  }

  lemma FinishRoot(d: seq<Byte>, m: nat, root: nat, ident: seq<Byte>, sizePrefix: bool)
    requires IsAlign(m) && root <= |d|
    requires |FinishBytes(d, m, root, ident, sizePrefix)| < MAX_BUFFER_SIZE
    ensures var b := FinishBytes(d, m, root, ident, sizePrefix);
      && Extends(b, d)
      && GetRoot(b, RootAt(sizePrefix)) == Ok(|b| - root)
      && At(b, RootAt(sizePrefix) + 4, ident)
      && (sizePrefix ==> ReadLE(b, 0, 4) == Ok(|b| - 4))
  {
    hide LE;
    hide ReadLE;
    hide At;
    hide Extends;
    var pad := FinishPad(|d|, m, ident, sizePrefix);
    var tail := FinishTail(d, m, root, ident, sizePrefix);
    var rest := ident + (pad + d);
    var b := FinishBytes(d, m, root, ident, sizePrefix);
    Ranges();
    AtFront(LE(|rest| - root + 4, 4), rest);
    AtFront(ident, pad + d);
    AtShift(LE(|rest| - root + 4, 4), rest, 0, ident);
    ExtendsPush(pad, d);
    ExtendsPush(ident, pad + d);
    ExtendsPush(LE(|rest| - root + 4, 4), rest);
    ExtendsTrans(rest, pad + d, d);
    ExtendsTrans(tail, rest, d);
    ReadOfAt(tail, 0, |rest| - root + 4, 4);
    if sizePrefix {
      AtFront(LE(|tail|, 4), tail);
      AtShift(LE(|tail|, 4), tail, 4, ident);
      ReadOfAt(b, 0, |tail|, 4);
      ReadShift(LE(|tail|, 4), tail, 0, 4);
      ExtendsPush(LE(|tail|, 4), tail);
      ExtendsTrans(b, tail, d);
    }
  }

  /** The buffer that results from a run and a call of `Finish` with the object `root`. */
  ghost predicate Finished(
    ops: seq<Op>, force: bool, dedup: bool, root: nat, ident: seq<Byte>, sizePrefix: bool, b: seq<Byte>)
  {
    && OpsOk(ops) && root < |ops| && IsIdent(ident)
    && match Run(ops, force, dedup)
       case Done(st) =>
         && CanReferTo(st.b, st.offs[root]) && IsAlign(st.b.minalign)
         && b == Finish(st.b, st.offs[root], ident, sizePrefix).data
         && |b| < MAX_BUFFER_SIZE
       case _ => false
  }

  /** What is known of a finished buffer: where the root is, that it holds, and how the buffer is padded. */
  lemma FinishedHolds(
    ops: seq<Op>, force: bool, dedup: bool, root: nat, ident: seq<Byte>, sizePrefix: bool, b: seq<Byte>)
    returns (m: nat)
    requires Finished(ops, force, dedup, root, ident, sizePrefix, b)
    ensures IsAlign(m) && 4 <= m && Rem(|b|, m) == 0
    ensures GetRoot(b, RootAt(sizePrefix)).Ok?
    ensures Holds(b, m, GetRoot(b, RootAt(sizePrefix)).value, Meaning(ops)[root])
    ensures At(b, RootAt(sizePrefix) + 4, ident)
    ensures sizePrefix ==> ReadLE(b, 0, 4) == Ok(|b| - 4)
    ensures |b| > GetRoot(b, RootAt(sizePrefix)).value >= RootAt(sizePrefix) + 4 + |ident|
  {
    hide *;
    var st, off := FinishedState(ops, force, dedup, root, ident, sizePrefix, b);
    RunHolds(ops, force, dedup);
    AllHoldAt(st.b.data, st.b.minalign, st.offs, Meaning(ops), root);
    m := st.b.minalign;
    FinishHolds(st.b, off, ident, sizePrefix, Meaning(ops)[root], b);
  }

  lemma FinishedState(
    ops: seq<Op>, force: bool, dedup: bool, root: nat, ident: seq<Byte>, sizePrefix: bool, b: seq<Byte>)
    returns (st: State, off: nat)
    requires Finished(ops, force, dedup, root, ident, sizePrefix, b)
    ensures OpsOk(ops) && root < |ops| && root < |st.offs| && off == st.offs[root]
    ensures Run(ops, force, dedup).Done? && Run(ops, force, dedup).value == st
    ensures FinishesTo(st.b, off, ident, sizePrefix, b)
  {
    st := Run(ops, force, dedup).value;
    off := st.offs[root];
  }

  ghost predicate FinishesTo(s: Builder, off: nat, ident: seq<Byte>, sizePrefix: bool, b: seq<Byte>) {
    && IsIdent(ident) && CanReferTo(s, off) && IsAlign(s.minalign)
    && b == Finish(s, off, ident, sizePrefix).data && |b| < MAX_BUFFER_SIZE
  }

  lemma FinishHolds(s: Builder, off: nat, ident: seq<Byte>, sizePrefix: bool, o: Obj, b: seq<Byte>)
    requires FinishesTo(s, off, ident, sizePrefix, b)
    requires HoldsAt(s.data, s.minalign, off, o)
    ensures var m := s.minalign;
      && IsAlign(m) && 4 <= m && Rem(|b|, m) == 0
      && GetRoot(b, RootAt(sizePrefix)).Ok?
      && Holds(b, m, GetRoot(b, RootAt(sizePrefix)).value, o)
      && At(b, RootAt(sizePrefix) + 4, ident)
      && (sizePrefix ==> ReadLE(b, 0, 4) == Ok(|b| - 4))
      && |b| > GetRoot(b, RootAt(sizePrefix)).value >= RootAt(sizePrefix) + 4 + |ident|
  {
    hide Holds;
    hide At;
    hide ReadLE;
    hide FinishBytes;
    hide GetRoot;
    hide Finish;
    hide Rem;
    MinalignFour(s, off, o);
    FinishIs(s, off, ident, sizePrefix);
    FinishLength(s.data, s.minalign, off, ident, sizePrefix);
    FinishRoot(s.data, s.minalign, off, ident, sizePrefix);
    HoldsAtExtends(b, s.minalign, s.data, s.minalign, off, o);
  }

  /**
    The round trip. Whatever was built, in whatever order, with vtables shared or not and defaults elided or
    not: reading from the root gives exactly the object described.
   */
  lemma RoundTrip(
    ops: seq<Op>, force: bool, dedup: bool, root: nat, ident: seq<Byte>, sizePrefix: bool, b: seq<Byte>)
    requires Finished(ops, force, dedup, root, ident, sizePrefix, b)
    ensures ReadsAt(b, GetRoot(b, RootAt(sizePrefix)), Meaning(ops)[root])
  {
    var m := FinishedHolds(ops, force, dedup, root, ident, sizePrefix, b);
    HoldsReads(b, m, GetRoot(b, RootAt(sizePrefix)).value, Meaning(ops)[root]);
  }

  /** Everything reachable from the root is aligned, counted from the front, once the buffer is. */
  lemma FinishedAligned(
    ops: seq<Op>, force: bool, dedup: bool, root: nat, ident: seq<Byte>, sizePrefix: bool, b: seq<Byte>)
    requires Finished(ops, force, dedup, root, ident, sizePrefix, b)
    ensures Rem(|b|, Run(ops, force, dedup).value.b.minalign) == 0
    ensures FrontAlignedAt(b, GetRoot(b, RootAt(sizePrefix)), Meaning(ops)[root])
  {
    hide Holds;
    RunHolds(ops, force, dedup);
    var st := Run(ops, force, dedup).value;
    AllHoldAt(st.b.data, st.b.minalign, st.offs, Meaning(ops), root);
    MinalignFour(st.b, st.offs[root], Meaning(ops)[root]);
    FinishIs(st.b, st.offs[root], ident, sizePrefix);
    FinishLength(st.b.data, st.b.minalign, st.offs[root], ident, sizePrefix);
    var m := FinishedHolds(ops, force, dedup, root, ident, sizePrefix, b);
    HoldsFrontAligned(b, m, GetRoot(b, RootAt(sizePrefix)).value, Meaning(ops)[root]);
  }

  lemma MinalignFour(s: Builder, off: nat, o: Obj)
    requires HoldsAt(s.data, s.minalign, off, o)
    ensures 4 <= s.minalign
  {
  }
}
