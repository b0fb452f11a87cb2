/**
  Whether a run goes through with shared vtables when it does without them. Though the buffer is never longer,
  it is not always so: a table that starts elsewhere can be padded differently, and then exceed the size its
  vtable can hold.
 */
module FlatDedupFits {
  import opened Bytes
  import opened FlatLayout
  import opened FlatBuilder
  import opened FlatObjects
  import opened FlatFields
  import opened FlatRun
  import opened FlatRoundTrip
  import opened FlatFinish
  import opened FlatDedup

  /** `size` bytes, padded to a multiple of `a`, and then `n` more. */
  function Placed(size: nat, a: nat, n: nat): nat
    requires IsAlign(a)
  {
    size + PaddingBytes(size, a) + n
  }

  /** The size of the buffer after an addition; what else is in it does not matter. */
  function SizeAfterAdd(size: nat, a: Add, force: bool, k: nat): nat
    requires AddOk(a, k)
  {
    match a
    case AddScalar(_, w, n, d) => if n == d && !force then size else Placed(size, w, w)
    case AddRef(_, h) => if h.None? then size else Placed(size, 4, 4)
    case AddBytes(_, p, a) => if p.None? then size else Placed(size, a, |p.value|)
  }

  function SizeAfter(size: nat, adds: seq<Add>, force: bool, k: nat): nat
    requires forall i | 0 <= i < |adds| :: AddOk(adds[i], k)
    decreases |adds|
  {
    if adds == [] then size else
    SizeAfterAdd(SizeAfter(size, adds[..|adds| - 1], force, k), adds[|adds| - 1], force, k)
  }

  /** The size of a table from its start to its fields' end when it is begun behind `start` bytes. */
  function TableSize(start: nat, adds: seq<Add>, force: bool, k: nat): int
    requires forall i | 0 <= i < |adds| :: AddOk(adds[i], k)
  {
    Placed(SizeAfter(start, adds, force, k), 4, 4) - start
  }

  /** What `EndTable` asserts of the size of a table: it fits the two bytes it has in the vtable. */
  predicate TableFits(start: nat, op: Op, force: bool, k: nat)
    requires OpOk(op, k)
  {
    op.MakeTable? ==> TableSize(start, op.adds, force, k) < 0x1_0000
  }

  /** All tables do, where they come to lie with shared vtables. */
  predicate TablesFit(ops: seq<Op>, force: bool)
    requires OpsOk(ops)
    decreases |ops|
  {
    ops == [] ||
    var n := |ops| - 1;
    && TablesFit(ops[..n], force)
    && match Run(ops[..n], force, true)
       case Done(st) => TableFits(|st.b.data|, ops[n], force, n)
       case _ => true
  }

  lemma AddOneSize(s: Builder, offs: seq<nat>, a: Add)
    requires AddOk(a, |offs|) && AddOne(s, offs, a).Done?
    ensures var r := AddOne(s, offs, a).value;
      |r.data| == SizeAfterAdd(|s.data|, a, s.forceDefaults, |offs|) && r.forceDefaults == s.forceDefaults
  {
    hide LE;
    match a
    case AddRef(id, Some(h)) => AddOffsetPushes(s, id, offs[h]);
    case _ =>
  }

  lemma {:induction false} AddAllSize(s: Builder, offs: seq<nat>, adds: seq<Add>)
    requires forall i | 0 <= i < |adds| :: AddOk(adds[i], |offs|)
    requires AddAll(s, offs, adds).Done?
    ensures var r := AddAll(s, offs, adds).value;
      |r.data| == SizeAfter(|s.data|, adds, s.forceDefaults, |offs|) && r.forceDefaults == s.forceDefaults
    decreases |adds|
  {
    hide AddOne;
    hide SizeAfterAdd;
    if adds != [] {
      var n := |adds| - 1;
      AddAllSize(s, offs, adds[..n]);
      AddOneSize(AddAll(s, offs, adds[..n]).value, offs, adds[n]);
    }
  }

  lemma TableSizeIs(s: Builder, offs: seq<nat>, adds: seq<Add>)
    requires forall i | 0 <= i < |adds| :: AddOk(adds[i], |offs|)
    requires AddAll(StartTable(s), offs, adds).Done?
    ensures TableOffset(AddAll(StartTable(s), offs, adds).value) - |s.data| ==
      TableSize(|s.data|, adds, s.forceDefaults, |offs|)
  {
    hide LE;
    hide AddAll;
    AddAllSize(StartTable(s), offs, adds);
  }

  lemma TableDone(s: Builder, t: Builder, xs: seq<nat>, ys: seq<nat>, adds: seq<Add>)
    requires Leq(s, t) && |xs| == |ys| && AddsOk(adds, |xs|) && |t.data| < MAX_BUFFER_SIZE
    requires !BuildOne(s, xs, MakeTable(adds)).Misuse? && BuildOne(t, ys, MakeTable(adds)).Done?
    ensures BuildOne(s, xs, MakeTable(adds)).Done? <==>
      TableSize(|s.data|, adds, s.forceDefaults, |xs|) < 0x1_0000
  {
    hide AddAll;
    hide Leq;
    hide CanEndTable;
    hide TableOffset;
    hide EndTable;
    hide TableSize;
    StartTableLeq(s, t);
    AddAllLeq(StartTable(s), StartTable(t), xs, ys, adds);
    TableSizeIs(s, xs, adds);
    OpenedLeq(AddAll(StartTable(s), xs, adds).value, AddAll(StartTable(t), ys, adds).value);
  }

  lemma OpenedLeq(s: Builder, t: Builder)
    requires Leq(s, t)
    ensures TableOffset(s) <= TableOffset(t) && s.maxVoffset == t.maxVoffset
  {
    PushElementLeq(s, t, 0, 0, 4);
  }

  /** One object: where it can be built without sharing, the size of a table is all that can be in the way. */
  lemma BuildOneDone(s: Builder, t: Builder, xs: seq<nat>, ys: seq<nat>, os: seq<Obj>, op: Op)
    requires NoLonger(s, t) && Idle(s) && Idle(t)
    requires AllHold(s.data, s.minalign, xs, os) && AllHold(t.data, t.minalign, ys, os)
    requires |xs| == |os| && |ys| == |os| && OpOk(op, |os|)
    requires BuildOne(t, ys, op).Done?
    ensures BuildOne(s, xs, op).Done? <==> TableFits(|s.data|, op, s.forceDefaults, |os|)
  {
    assert |t.data| < MAX_BUFFER_SIZE;
    TableArgs(op, |os|);
    FitsIs(|s.data|, op, s.forceDefaults, |os|);
    hide *;
    BuildOneHolds(s, xs, op, os);
    LeqOf(s, t);
    if op.MakeTable? {
      TableDone(s, t, xs, ys, op.adds);
    } else if op.MakeShared? {
      SharedDone(s, t, xs, ys, op.chars);
    } else {
      OtherLeq(s, t, xs, ys, op);
    }
  }

  lemma FitsIs(start: nat, op: Op, force: bool, k: nat)
    requires OpOk(op, k)
    ensures TableFits(start, op, force, k) <==> op.MakeTable? ==> TableSize(start, op.adds, force, k) < 0x1_0000
  {
  }

  lemma SharedDone(s: Builder, t: Builder, xs: seq<nat>, ys: seq<nat>, chars: seq<Byte>)
    requires Leq(s, t) && !BuildOne(s, xs, MakeShared(chars)).Misuse? && BuildOne(t, ys, MakeShared(chars)).Done?
    ensures BuildOne(s, xs, MakeShared(chars)).Done?
  {
    hide CreateString;
    CreateStringLeq(s, t, chars);
  }

  lemma BuildOneForce(s: Builder, offs: seq<nat>, os: seq<Obj>, op: Op)
    requires Idle(s) && AllHold(s.data, s.minalign, offs, os) && |offs| == |os| && OpOk(op, |os|)
    requires BuildOne(s, offs, op).Done?
    ensures BuildOne(s, offs, op).value.0.forceDefaults == s.forceDefaults
  {
    hide AllHold;
    hide CreateString;
    if op.MakeShared? {
      assert IsAlign(s.minalign);
      CreateStringGrows(s, op.chars);
    } else {
      hide *;
      BuildOneKeepsPool(s, offs, os, op);
    }
  }

  lemma {:induction false} RunForce(ops: seq<Op>, force: bool, dedup: bool)
    requires OpsOk(ops) && Run(ops, force, dedup).Done?
    ensures Run(ops, force, dedup).value.b.forceDefaults == force
    decreases |ops|
  {
    hide BuildOne;
    hide Idle;
    hide HoldsAt;
    if ops != [] {
      var n := |ops| - 1;
      RunForce(ops[..n], force, dedup);
      RunHolds(ops[..n], force, dedup);
      var st := Run(ops[..n], force, dedup).value;
      BuildOneForce(st.b, st.offs, Meaning(ops[..n]), ops[n]);
    }
  }

  /**
    A run that goes through without sharing goes through with shared vtables exactly when no table becomes
    larger than its vtable can say.
   */
  lemma {:induction false} DedupFits(ops: seq<Op>, force: bool)
    requires OpsOk(ops) && Run(ops, force, false).Done?
    ensures Run(ops, force, true).Done? <==> TablesFit(ops, force)
    decreases |ops|
  {
    hide BuildOne;
    hide TableFits;
    if ops != [] {
      var n := |ops| - 1;
      DedupFits(ops[..n], force);
      if Run(ops[..n], force, true).Done? {
        var s, t := Run(ops[..n], force, true).value, Run(ops[..n], force, false).value;
        RunNoLonger(ops[..n], force);
        RunHolds(ops[..n], force, true);
        RunHolds(ops[..n], force, false);
        RunForce(ops[..n], force, true);
        BuildOneDone(s.b, t.b, s.offs, t.offs, Meaning(ops[..n]), ops[n]);
      }
    }
  }

  /** Such a buffer can be finished, too, and is no longer than the other. */
  lemma DedupFinishes(ops: seq<Op>, force: bool, root: nat, ident: seq<Byte>, sizePrefix: bool, c: seq<Byte>)
    returns (b: seq<Byte>)
    requires Finished(ops, force, false, root, ident, sizePrefix, c) && TablesFit(ops, force)
    ensures Finished(ops, force, true, root, ident, sizePrefix, b) && |b| <= |c|
  {
    hide TablesFit;
    hide Finish;
    hide Idle;
    hide HoldsAt;
    DedupFits(ops, force);
    RunHolds(ops, force, true);
    RunNoLonger(ops, force);
    var st := Run(ops, force, true).value;
    var tt, ott := FinishedState(ops, force, false, root, ident, sizePrefix, c);
    AllHoldAt(st.b.data, st.b.minalign, st.offs, Meaning(ops), root);
    LeqOf(st.b, tt.b);
    assert IsAlign(st.b.minalign);
    b := Finish(st.b, st.offs[root], ident, sizePrefix).data;
    FinishNoLonger(st.b, st.offs[root], tt.b, ott, ident, sizePrefix, b, c);
  }

  /** The most that an addition can take, wherever it comes to lie. */
  function AddBound(a: Add): nat {
    match a
    case AddScalar(_, w, _, _) => 2 * w
    case AddRef(_, _) => 8
    case AddBytes(_, p, a) => if p.None? then 0 else a + |p.value|
  }

  function AddsBound(adds: seq<Add>): nat {
    if adds == [] then 0 else AddsBound(adds[..|adds| - 1]) + AddBound(adds[|adds| - 1])
  }

  /** What a caller can look at beforehand: no table comes near the limit. */
  predicate Roomy(ops: seq<Op>) {
    forall i | 0 <= i < |ops| :: ops[i].MakeTable? ==> AddsBound(ops[i].adds) + 8 < 0x1_0000
  }

  lemma {:induction false} SizeBound(size: nat, adds: seq<Add>, force: bool, k: nat)
    requires forall i | 0 <= i < |adds| :: AddOk(adds[i], k)
    ensures SizeAfter(size, adds, force, k) <= size + AddsBound(adds)
    decreases |adds|
  {
    hide PaddingBytes;
    if adds != [] {
      SizeBound(size, adds[..|adds| - 1], force, k);
    }
  }

  /** Then sharing vtables never makes a run fail. */
  lemma {:induction false} RoomyFits(ops: seq<Op>, force: bool)
    requires OpsOk(ops) && Roomy(ops)
    ensures TablesFit(ops, force)
    decreases |ops|
  {
    if ops != [] {
      var n := |ops| - 1;
      RoomyFits(ops[..n], force);
      if Run(ops[..n], force, true).Done? && ops[n].MakeTable? {
        SizeBound(|Run(ops[..n], force, true).value.b.data|, ops[n].adds, force, n);
      }
    }
  }

  /** Two tables without fields and then one with a struct that nearly fills it. */
  function LargeTable(): seq<Op> {
    [MakeTable([]), MakeTable([]), MakeTable([AddBytes(4, Some(Zeros(65528)), 8)])]
  }

  const EMPTY_VTABLE: seq<Byte> := LE(4, 2) + LE(4, 2)

  /** A table without fields, its vtable included if that is new. */
  lemma EmptyTable(s: Builder, offs: seq<nat>)
    requires !s.nested && s.fields == [] && s.maxVoffset == 0 && |s.data| % 4 == 0 && |s.data| < 100
    ensures BuildOne(s, offs, MakeTable([])).Done?
    ensures var r := BuildOne(s, offs, MakeTable([])).value.0;
      var known := if s.dedup then FindVTable(Zeros(4) + s.data, s.vtables, EMPTY_VTABLE) else None;
      && !r.nested && r.fields == [] && r.maxVoffset == 0 && r.dedup == s.dedup && r.forceDefaults == s.forceDefaults
      && match known
         case Some(_) => |r.data| == |s.data| + 4 && r.vtables == s.vtables
         case None =>
           && |r.data| == |s.data| + 8 && EMPTY_VTABLE <= r.data
           && r.vtables == s.vtables + [|s.data| + 8]
  {
    var s0 := StartTable(s);
    assert AddAll(s0, offs, []) == Done(s0);
    assert Opened(s0).data == Zeros(4) + s.data by {
      assert LE(0, 4) == Zeros(4);
      assert PaddingBytes(|s.data|, 4) == 0;
    }
    hide LE;
    hide FindVTable;
    assert NewVTable(s0, |s.data|) == EMPTY_VTABLE;
  }

  lemma LargeTableSize(force: bool, k: nat)
    ensures var add := AddBytes(4, Some(Zeros(65528)), 8);
      && AddOk(add, k)
      && TableSize(16, [add], force, k) == 65532 && TableSize(12, [add], force, k) == 65536
  {
  }

  lemma LargeBuilt(s: Builder, offs: seq<nat>, add: Add)
    requires !s.nested && s.fields == [] && (|s.data| == 16 || |s.data| == 12) && |offs| == 2
    requires add == AddBytes(4, Some(Zeros(65528)), 8) && AddOk(add, 2)
    ensures BuildOne(s, offs, MakeTable([add])).TooLarge? <==> |s.data| == 12
  {
    LargeTableSize(s.forceDefaults, 2);
    hide Zeros;
    hide PaddingBytes;
    hide TableSize;
    hide TableOffset;
    hide CanEndTable;
    hide EndTable;
    var s0 := StartTable(s);
    assert [add][..0] == [];
    assert AddAll(s0, offs, []) == Done(s0);
    assert AddAll(s0, offs, [add]) == AddOne(s0, offs, add);
    TableSizeIs(s, offs, [add]);
  }

  lemma TwoEmpty(force: bool, dedup: bool)
    ensures OpsOk([MakeTable([]), MakeTable([])])
    ensures var r := Run([MakeTable([]), MakeTable([])], force, dedup);
      && r.Done? && !r.value.b.nested && r.value.b.fields == []
      && |r.value.b.data| == if dedup then 12 else 16
  {
    hide BuildOne;
    var e := MakeTable([]);
    var s0 := New(force, dedup);
    assert [e][..0] == [] && [e, e][..1] == [e];
    EmptyTable(s0, []);
    var s1 := BuildOne(s0, [], e).value;
    assert Run([], force, dedup) == Done(State(s0, []));
    assert [] + [s1.1] == [s1.1];
    assert Run([e], force, dedup) == Done(State(s1.0, [s1.1]));
    EmptyTable(s1.0, [s1.1]);
    assert At(Zeros(4) + s1.0.data, 4, EMPTY_VTABLE);
    assert Run([e, e], force, dedup).Done?;
  }

  /** Without sharing this run goes through, with it the last table is too large. */
  lemma DedupTooLarge(force: bool)
    ensures OpsOk(LargeTable())
    ensures Run(LargeTable(), force, false).Done? && Run(LargeTable(), force, true) == TooLarge
  {
    hide BuildOne;
    hide Idle;
    hide HoldsAt;
    var add := AddBytes(4, Some(Zeros(65528)), 8);
    LargeTableSize(force, 2);
    assert LargeTable()[..2] == [MakeTable([]), MakeTable([])];
    forall dedup: bool
      ensures if dedup then Run(LargeTable(), force, dedup) == TooLarge else Run(LargeTable(), force, dedup).Done?
    {
      TwoEmpty(force, dedup);
      RunHolds(LargeTable(), force, dedup);
      var st := Run(LargeTable()[..2], force, dedup).value;
      LargeBuilt(st.b, st.offs, add);
    }
  }
}
