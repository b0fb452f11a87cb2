/**
  What the header of a buffer and of each vtable says about sizes and alignment, in terms of what was stored:
  how long a vtable is, how large its table, and for which alignment the buffer is padded.
 */
module FlatSizes {
  import opened Bytes
  import opened FlatReader
  import opened FlatLayout
  import opened FlatBuilder
  import opened FlatObjects
  import opened FlatFields
  import opened FlatRun
  import opened FlatRoundTrip
  import opened FlatFinish
  import opened FlatDedupFits

  /** The first entry of a vtable is 4 when no field is stored, otherwise 2 more than the largest id that is. */
  lemma VTableSizeIs(b: seq<Byte>, t: int)
    requires HasVTable(b, t) && VTableTight(b, t)
    ensures VTable(b, t).Ok? && ReadLE(b, VTable(b, t).value, 2).Ok?
    ensures var size := ReadLE(b, VTable(b, t).value, 2).value;
      && (size == 4 <==> forall id: nat | IsFieldId(id) :: FieldOffset(b, t, id) == Ok(0))
      && (forall id: nat | IsFieldId(id) && FieldOffset(b, t, id) != Ok(0) :: id + 2 <= size)
      && (size > 4 ==> IsFieldId(size - 2) && FieldOffset(b, t, size - 2) != Ok(0))
  {
    ReadBound(b, VTable(b, t).value, 2);
    Ranges();
    hide ReadLE;
  }

  /** The second entry is the size of the table from its start to the end of its fields. */
  lemma TableBuilt(b: Builder, offs: seq<nat>, os: seq<Obj>, adds: seq<Add>)
    requires Idle(b) && AllHold(b.data, b.minalign, offs, os) && |offs| == |os| && AddsOk(adds, |os|)
    requires BuildOne(b, offs, MakeTable(adds)).Done?
    ensures var (r, off) := BuildOne(b, offs, MakeTable(adds)).value;
      && off - |b.data| == TableSize(|b.data|, adds, b.forceDefaults, |offs|)
      && TableSizeAt(r.data, off, off - |b.data|)
  {
    hide HoldsAt;
    hide AllHold;
    hide InTable;
    hide AddAll;
    hide TableOffset;
    hide TableSize;
    hide TableSizeAt;
    hide VTableChosen;
    StartTableIn(b);
    AddAllIn(StartTable(b), |b.data|, offs, os, adds);
    var s := AddAll(StartTable(b), offs, adds).value;
    assert Extends(s.data, b.data);
    VTablesExtend(s.data, b.data, b.vtables);
    TableSizeIs(b, offs, adds);
    EndTableHolds(s, |b.data|, Slots(adds, os));
  }

  /**
    If step `i` of the run makes a table, then the second entry of its vtable is what the table takes from the
    place where the buffer ended before it, whatever was built since.
   */
  predicate TableSized(d: seq<Byte>, offs: seq<nat>, ops: seq<Op>, force: bool, dedup: bool, i: nat)
    requires OpsOk(ops) && i < |ops|
  {
    ops[i].MakeTable? ==>
      match Run(ops[..i], force, dedup)
      case Done(before) =>
        var start := |before.b.data|;
        && i < |offs| && offs[i] - start == TableSize(start, ops[i].adds, force, i)
        && TableSizeAt(d, offs[i], offs[i] - start)
      case _ => false
  }

  lemma TableSizedExtends(
    d1: seq<Byte>, d0: seq<Byte>, offs: seq<nat>, ops: seq<Op>, force: bool, dedup: bool, i: nat)
    requires OpsOk(ops) && i < |ops| && Extends(d1, d0) && TableSized(d0, offs, ops, force, dedup, i)
    ensures TableSized(d1, offs, ops, force, dedup, i)
  {
    hide TableSizeAt;
    hide TableSize;
    hide Run;
    if ops[i].MakeTable? {
      TableSizeExtends(d1, d0, offs[i], offs[i] - |Run(ops[..i], force, dedup).value.b.data|);
    }
  }

  lemma TableSizedBefore(
    d: seq<Byte>, offs: seq<nat>, off: nat, ops: seq<Op>, force: bool, dedup: bool, i: nat)
    requires OpsOk(ops) && i < |ops| - 1 && TableSized(d, offs, ops[..|ops| - 1], force, dedup, i)
    ensures i < |offs| ==> TableSized(d, offs + [off], ops, force, dedup, i)
  {
    hide TableSizeAt;
    hide TableSize;
    hide Run;
    assert ops[..|ops| - 1][..i] == ops[..i];
  }

  lemma TableSizedLast(b: Builder, offs: seq<nat>, ops: seq<Op>, force: bool, dedup: bool)
    requires OpsOk(ops) && ops != [] && |offs| == |ops| - 1
    requires Run(ops[..|ops| - 1], force, dedup) == Done(State(b, offs)) && b.forceDefaults == force
    requires Idle(b) && AllHold(b.data, b.minalign, offs, Meaning(ops[..|ops| - 1]))
    requires BuildOne(b, offs, ops[|ops| - 1]).Done?
    ensures var (r, off) := BuildOne(b, offs, ops[|ops| - 1]).value;
      TableSized(r.data, offs + [off], ops, force, dedup, |ops| - 1)
  {
    hide TableSizeAt;
    hide TableSize;
    hide Run;
    hide HoldsAt;
    hide Idle;
    hide BuildOne;
    var op := ops[|ops| - 1];
    if op.MakeTable? {
      TableBuilt(b, offs, Meaning(ops[..|ops| - 1]), op.adds);
    }
  }

  lemma {:induction false} RunTableSizes(ops: seq<Op>, force: bool, dedup: bool, i: nat)
    requires OpsOk(ops) && Run(ops, force, dedup).Done? && i < |ops|
    ensures var st := Run(ops, force, dedup).value; TableSized(st.b.data, st.offs, ops, force, dedup, i)
    decreases |ops|
  {
    hide HoldsAt;
    hide Idle;
    hide BuildOne;
    hide TableSized;
    var n := |ops| - 1;
    var st := Run(ops[..n], force, dedup).value;
    RunHolds(ops[..n], force, dedup);
    var (r, off) := BuildOne(st.b, st.offs, ops[n]).value;
    if i == n {
      RunForce(ops[..n], force, dedup);
      TableSizedLast(st.b, st.offs, ops, force, dedup);
    } else {
      RunTableSizes(ops[..n], force, dedup, i);
      BuildOneHolds(st.b, st.offs, ops[n], Meaning(ops[..n]));
      TableSizedExtends(r.data, st.b.data, st.offs, ops[..n], force, dedup, i);
      TableSizedBefore(r.data, st.offs, off, ops, force, dedup, i);
    }
  }

  /** `n` is the next multiple of the alignment from `least` on. */
  predicate Next(n: int, least: int, a: nat)
    requires IsAlign(a)
  {
    Rem(n, a) == 0 && least <= n < least + a
  }

  /** A string takes its length, its characters, the NUL and no more padding than it needs. */
  lemma StringTight(s: Builder, chars: seq<Byte>)
    ensures Next(|CreateString(s, chars).data|, |s.data| + |chars| + 5, 4)
  {
    hide LE;
  }

  /** And so does a vector, of scalars or of offsets. */
  lemma VectorTight(s: Builder, w: nat, xs: seq<nat>)
    requires IsWidth(w)
    ensures var n := |CreateVector(s, w, xs).data|;
      if xs == [] then Next(n, |s.data| + 4, 4)
      else Next(n - 4, |s.data| + Scale(|xs|, w), if w == 8 then 8 else 4)
  {
    var bytes := Scale(|xs|, w);
    assert xs == [] ==> bytes == 0;
    hide *;
    VectorIs(s, w, xs);
    if xs == [] {
      EmptyVectorTight(s);
    } else {
      FullVectorTight(s, bytes, w);
    }
  }

  /** The size of a vector is that of its start, of its elements and of its end. */
  lemma VectorIs(s: Builder, w: nat, xs: seq<nat>)
    requires IsWidth(w)
    ensures |CreateVector(s, w, xs).data| == VectorEnd(|StartVectorOf(s, Scale(|xs|, w), w).data| + Scale(|xs|, w))
  {
    hide LE;
    hide Encode;
    hide Scale;
    hide StartVectorOf;
  }

  function VectorEnd(size: nat): nat {
    size + PaddingBytes(size, 4) + 4
  }

  lemma EmptyVectorTight(s: Builder)
    ensures forall w | IsWidth(w) :: Next(VectorEnd(|StartVectorOf(s, 0, w).data|), |s.data| + 4, 4)
  {
  }

  lemma FullVectorTight(s: Builder, bytes: nat, w: nat)
    requires IsWidth(w) && bytes > 0
    ensures Next(VectorEnd(|StartVectorOf(s, bytes, w).data| + bytes) - 4, |s.data| + bytes, if w == 8 then 8 else 4)
  {
    PadBoth(|s.data|, bytes, w);
    PadTwice(|s.data|, bytes, w);
    hide PaddingBytes;
    hide Rem;
    assert |StartVectorOf(s, bytes, w).data| ==
      |s.data| + PaddingBytes(|s.data| + bytes, 4)
      + PaddingBytes(|s.data| + PaddingBytes(|s.data| + bytes, 4) + bytes, w);
    ExactPad(|StartVectorOf(s, bytes, w).data| + bytes);
  }

  lemma ExactPad(size: nat)
    requires size % 4 == 0
    ensures PaddingBytes(size, 4) == 0
  {
  }

  lemma PadBoth(size: nat, bytes: nat, w: nat)
    requires IsWidth(w)
    ensures var p := PaddingBytes(size + bytes, 4);
      var a: nat := if w == 8 then 8 else 4;
      p + PaddingBytes(size + p + bytes, w) < a && Rem(size + p + PaddingBytes(size + p + bytes, w) + bytes, a) == 0
  {
  }

  lemma OffsetsTight(s: Builder, offs: seq<nat>)
    requires OffsetsIn(s, offs)
    ensures Next(|CreateOffsets(s, offs).data|, |s.data| + 4 * |offs| + 4, 4)
  {
    assert IsWidth(4);
    hide *;
    var s1 := StartVector(s, |offs|, 4);
    StartLength(s, |offs|);
    StartInside(s, offs);
    OffsetsLength(s1, offs);
    EndLength(PushOffsets(s1, offs), |offs|);
    OffsetsEnd(s, offs);
    Together(|s.data|, |s1.data|, |PushOffsets(s1, offs).data|, |CreateOffsets(s, offs).data|, |offs|);
  }

  lemma StartInside(s: Builder, offs: seq<nat>)
    requires OffsetsIn(s, offs)
    ensures OffsetsIn(StartVector(s, |offs|, 4), offs)
  {
    hide StartVector;
    StartVectorExtends(s, |offs|, 4);
  }

  lemma OffsetsEnd(s: Builder, offs: seq<nat>)
    requires OffsetsIn(s, offs) && OffsetsIn(StartVector(s, |offs|, 4), offs)
    ensures CreateOffsets(s, offs) == EndVector(PushOffsets(StartVector(s, |offs|, 4), offs), |offs|)
  {
    hide StartVector;
    hide PushOffsets;
    hide EndVector;
  }

  lemma Together(size: nat, started: nat, pushed: nat, ended: nat, count: nat)
    requires if count == 0 then started == size && pushed == started else Next(started, size, 4)
    requires started % 4 == 0 ==> pushed == started + 4 * count
    requires Next(ended, pushed + 4, 4)
    ensures Next(ended, size + 4 * count + 4, 4)
  {
  }

  lemma StartLength(s: Builder, len: nat)
    ensures var n := |StartVector(s, len, 4).data|; if len == 0 then n == |s.data| else Next(n, |s.data|, 4)
  {
  }

  lemma EndLength(s: Builder, len: nat)
    ensures Next(|EndVector(s, len).data|, |s.data| + 4, 4)
  {
    hide LE;
  }

  lemma {:induction false} OffsetsLength(s: Builder, offs: seq<nat>)
    requires OffsetsIn(s, offs)
    ensures |s.data| % 4 == 0 ==> |PushOffsets(s, offs).data| == |s.data| + 4 * |offs|
    ensures offs == [] ==> PushOffsets(s, offs) == s
  {
    hide PushOffset;
    if offs != [] {
      OffsetsLength(s, offs[1..]);
      PushOffsetShape(PushOffsets(s, offs[1..]), offs[0]);
    }
  }

  /** The alignment of what an addition stores, 1 if it stores nothing. */
  function AddAlign(a: Add, force: bool): nat {
    match a
    case AddScalar(_, w, n, d) => if n == d && !force then 1 else w
    case AddRef(_, h) => if h.Some? then 4 else 1
    case AddBytes(_, p, a) => if p.Some? then a else 1
  }

  function AddsAlign(adds: seq<Add>, force: bool): nat {
    if adds == [] then 1 else Max(AddsAlign(adds[..|adds| - 1], force), AddAlign(adds[|adds| - 1], force))
  }

  /** Every object has something of four bytes in it: a length, or the distance to a vtable. */
  function OpAlign(op: Op, force: bool): nat {
    match op
    case MakeVector(w, xs) => if xs == [] then 4 else Max(4, w)
    case MakeTable(adds) => Max(4, AddsAlign(adds, force))
    case _ => 4
  }

  /** The largest alignment of all that a run stores. */
  function RunAlign(ops: seq<Op>, force: bool): nat {
    if ops == [] then 1 else Max(RunAlign(ops[..|ops| - 1], force), OpAlign(ops[|ops| - 1], force))
  }

  lemma AddOneAlign(s: Builder, offs: seq<nat>, a: Add)
    requires AddOk(a, |offs|) && AddOne(s, offs, a).Done? && s.minalign >= 1
    ensures var r := AddOne(s, offs, a).value;
      r.minalign == Max(s.minalign, AddAlign(a, s.forceDefaults)) && r.forceDefaults == s.forceDefaults
  {
    hide LE;
    match a
    case AddRef(id, Some(h)) => AddOffsetPushes(s, id, offs[h]);
    case _ =>
  }

  lemma {:induction false} AddAllAlign(s: Builder, offs: seq<nat>, adds: seq<Add>)
    requires forall i | 0 <= i < |adds| :: AddOk(adds[i], |offs|)
    requires AddAll(s, offs, adds).Done? && s.minalign >= 1
    ensures var r := AddAll(s, offs, adds).value;
      r.minalign == Max(s.minalign, AddsAlign(adds, s.forceDefaults)) && r.forceDefaults == s.forceDefaults
    decreases |adds|
  {
    hide AddOne;
    hide AddAlign;
    if adds != [] {
      var n := |adds| - 1;
      AddAllAlign(s, offs, adds[..n]);
      AddOneAlign(AddAll(s, offs, adds[..n]).value, offs, adds[n]);
    }
  }

  lemma {:induction false} PushOffsetsAlign(s: Builder, offs: seq<nat>)
    requires OffsetsIn(s, offs)
    ensures PushOffsets(s, offs).minalign == if offs == [] then s.minalign else Max(s.minalign, 4)
  {
    hide LE;
    if offs != [] {
      PushOffsetsAlign(s, offs[1..]);
    }
  }

  lemma VectorAlign(s: Builder, w: nat, xs: seq<nat>)
    requires IsWidth(w)
    ensures CreateVector(s, w, xs).minalign == Max(s.minalign, if xs == [] then 4 else Max(4, w))
  {
    hide LE;
    hide Encode;
  }

  lemma OffsetsAlign(s: Builder, offs: seq<nat>)
    requires OffsetsIn(s, offs)
    ensures CreateOffsets(s, offs).minalign == Max(s.minalign, 4)
  {
    hide LE;
    hide PushOffsets;
    PushOffsetsAlign(StartVector(s, |offs|, 4), offs);
  }

  lemma StringAlign(s: Builder, chars: seq<Byte>)
    ensures CreateString(s, chars).minalign == Max(s.minalign, 4)
  {
    hide LE;
  }

  lemma EndTableAlign(s: Builder, start: nat)
    requires CanEndTable(s, start)
    ensures EndTable(s, start).minalign == Max(s.minalign, 4)
  {
    hide LE;
    hide NewVTable;
  }

  lemma BuildOneAlign(s: Builder, offs: seq<nat>, op: Op)
    requires OpOk(op, |offs|) && BuildOne(s, offs, op).Done? && s.minalign >= 1
    ensures BuildOne(s, offs, op).value.0.minalign == Max(s.minalign, OpAlign(op, s.forceDefaults))
  {
    hide CreateString;
    hide CreateVector;
    hide CreateOffsets;
    hide AddAll;
    hide EndTable;
    hide CanEndTable;
    hide TableOffset;
    match op
    case MakeString(chars) => StringAlign(s, chars);
    case MakeShared(chars) => StringAlign(s, chars);
    case MakeVector(w, xs) => VectorAlign(s, w, xs);
    case MakeOffsets(hs) => OffsetsAlign(s, Args(offs, hs));
    case MakeTable(adds) =>
      AddAllAlign(StartTable(s), offs, adds);
      EndTableAlign(AddAll(StartTable(s), offs, adds).value, |s.data|);
  }

  /** `minalign` is that alignment, and 1 before anything was stored. */
  lemma {:induction false} RunMinalign(ops: seq<Op>, force: bool, dedup: bool)
    requires OpsOk(ops) && Run(ops, force, dedup).Done?
    ensures Run(ops, force, dedup).value.b.minalign == RunAlign(ops, force) >= 1
    decreases |ops|
  {
    hide BuildOne;
    hide OpAlign;
    if ops != [] {
      var n := |ops| - 1;
      RunMinalign(ops[..n], force, dedup);
      RunForce(ops[..n], force, dedup);
      var st := Run(ops[..n], force, dedup).value;
      BuildOneAlign(st.b, st.offs, ops[n]);
    }
  }

  /** A finished buffer is padded to the next multiple of it and no further. */
  lemma FinishedSize(
    ops: seq<Op>, force: bool, dedup: bool, root: nat, ident: seq<Byte>, sizePrefix: bool, b: seq<Byte>)
    requires Finished(ops, force, dedup, root, ident, sizePrefix, b)
    ensures Run(ops, force, dedup).Done? && IsAlign(RunAlign(ops, force)) && Rem(|b|, RunAlign(ops, force)) == 0
    ensures var least := |Run(ops, force, dedup).value.b.data| + RootAt(sizePrefix) + 4 + |ident|;
      least <= |b| < least + RunAlign(ops, force)
  {
    hide *;
    var st, off := FinishedState(ops, force, dedup, root, ident, sizePrefix, b);
    RunMinalign(ops, force, dedup);
    RunHolds(ops, force, dedup);
    AllHoldAt(st.b.data, st.b.minalign, st.offs, Meaning(ops), root);
    MinalignFour(st.b, off, Meaning(ops)[root]);
    FinishesIs(st.b, off, ident, sizePrefix, b);
    FinishLength(st.b.data, st.b.minalign, off, ident, sizePrefix);
  }

  lemma FinishesIs(s: Builder, off: nat, ident: seq<Byte>, sizePrefix: bool, b: seq<Byte>)
    requires FinishesTo(s, off, ident, sizePrefix, b) && 4 <= s.minalign
    ensures IsAlign(s.minalign) && off <= |s.data| && b == FinishBytes(s.data, s.minalign, off, ident, sizePrefix)
  {
    hide Finish;
    hide FinishBytes;
    FinishIs(s, off, ident, sizePrefix);
  }

  /** Finishing leaves all objects of a run where they were from the end. */
  lemma FinishedExtends(
    ops: seq<Op>, force: bool, dedup: bool, root: nat, ident: seq<Byte>, sizePrefix: bool, b: seq<Byte>)
    returns (st: State)
    requires Finished(ops, force, dedup, root, ident, sizePrefix, b)
    ensures OpsOk(ops) && Run(ops, force, dedup) == Done(st)
    ensures Extends(b, st.b.data) && AllHold(st.b.data, st.b.minalign, st.offs, Meaning(ops))
  {
    hide *;
    var off;
    st, off := FinishedState(ops, force, dedup, root, ident, sizePrefix, b);
    RunHolds(ops, force, dedup);
    AllHoldAt(st.b.data, st.b.minalign, st.offs, Meaning(ops), root);
    MinalignFour(st.b, off, Meaning(ops)[root]);
    FinishesIs(st.b, off, ident, sizePrefix, b);
    FinishedLess(st.b, off, ident, sizePrefix, b);
    FinishRoot(st.b.data, st.b.minalign, off, ident, sizePrefix);
  }

  /** Every table among the objects has a vtable that ends where it should. */
  ghost predicate AllTight(b: seq<Byte>, offs: seq<nat>, os: seq<Obj>) {
    && |offs| == |os|
    && forall i | 0 <= i < |os| && os[i].Table? :: HasVTable(b, |b| - offs[i]) && VTableTight(b, |b| - offs[i])
  }

  lemma HoldsTight(b: seq<Byte>, m: nat, offs: seq<nat>, os: seq<Obj>)
    requires AllHold(b, m, offs, os)
    ensures AllTight(b, offs, os)
  {
    hide HasVTable;
    hide VTableTight;
    forall i | 0 <= i < |os| && os[i].Table?
      ensures HasVTable(b, |b| - offs[i]) && VTableTight(b, |b| - offs[i])
    {
      assert HoldsAt(b, m, offs[i], os[i]);
    }
  }

  /** The first entries of vtables are exact in the finished buffer, too. */
  lemma FinishedVTables(
    ops: seq<Op>, force: bool, dedup: bool, root: nat, ident: seq<Byte>, sizePrefix: bool, b: seq<Byte>)
    requires Finished(ops, force, dedup, root, ident, sizePrefix, b)
    ensures OpsOk(ops) && Run(ops, force, dedup).Done?
    ensures AllTight(b, Run(ops, force, dedup).value.offs, Meaning(ops))
  {
    hide *;
    var st := FinishedExtends(ops, force, dedup, root, ident, sizePrefix, b);
    AllHoldExtends(b, st.b.minalign, st.b.data, st.b.minalign, st.offs, Meaning(ops));
    HoldsTight(b, st.b.minalign, st.offs, Meaning(ops));
  }

  /** And so are the second. */
  lemma FinishedTableSize(
    ops: seq<Op>, force: bool, dedup: bool, root: nat, ident: seq<Byte>, sizePrefix: bool, b: seq<Byte>, i: nat)
    requires Finished(ops, force, dedup, root, ident, sizePrefix, b) && i < |ops|
    ensures OpsOk(ops) && Run(ops, force, dedup).Done?
    ensures TableSized(b, Run(ops, force, dedup).value.offs, ops, force, dedup, i)
  {
    hide *;
    var st := FinishedExtends(ops, force, dedup, root, ident, sizePrefix, b);
    RunTableSizes(ops, force, dedup, i);
    TableSizedExtends(b, st.b.data, st.offs, ops, force, dedup, i);
  }

  lemma FinishedLess(s: Builder, off: nat, ident: seq<Byte>, sizePrefix: bool, b: seq<Byte>)
    requires FinishesTo(s, off, ident, sizePrefix, b)
    ensures |b| < MAX_BUFFER_SIZE
  {
    hide Finish;
  }
}
