/** The round trip: a reader finds in the finished buffer exactly the objects the run describes. */
module FlatRoundTrip {
  import opened Bytes
  import opened FlatLayout
  import opened FlatBuilder
  import opened FlatObjects
  import opened FlatFields
  import opened FlatPool
  import opened FlatRun

  /** The builder between two objects. */
  ghost predicate Idle(b: Builder) {
    && !b.nested && b.fields == [] && b.maxVoffset == 0
    && |b.data| < MAX_BUFFER_SIZE && IsAlign(b.minalign)
    && VTablesIn(b.data, b.vtables) && PoolOk(b.data, b.minalign, b.pool)
  }

  lemma VTablesExtend(d1: seq<Byte>, d0: seq<Byte>, vtables: seq<nat>)
    requires Extends(d1, d0) && VTablesIn(d0, vtables)
    ensures VTablesIn(d1, vtables)
  {
  }

  /** An operation other than a table leaves everything but the buffer, the alignment and the pool. */
  predicate OnlyGrows(r: Builder, b: Builder) {
    && Extends(r.data, b.data) && b.minalign <= r.minalign
    && r == b.(data := r.data, minalign := r.minalign)
  }

  lemma IdleGrows(r: Builder, b: Builder)
    requires Idle(b) && OnlyGrows(r, b) && |r.data| < MAX_BUFFER_SIZE && IsAlign(r.minalign)
    ensures Idle(r)
  {
    PoolExtends(r.data, r.minalign, b.data, b.minalign, b.pool);
  }

  lemma CreateStringGrows(b: Builder, chars: seq<Byte>)
    requires |CreateString(b, chars).data| < MAX_BUFFER_SIZE && IsAlign(b.minalign)
    ensures OnlyGrows(CreateString(b, chars), b) && IsAlign(CreateString(b, chars).minalign)
  {
    CreateStringLength(b, chars);
    StringHolds(b, chars);
  }

  lemma CreateVectorGrows(b: Builder, w: nat, xs: seq<nat>)
    requires IsWidth(w) && IsAlign(b.minalign) && !b.nested
    ensures OnlyGrows(CreateVector(b, w, xs), b) && IsAlign(CreateVector(b, w, xs).minalign)
  {
    VectorShape(b, w, xs);
  }

  lemma {:induction false} PushOffsetsGrow(b: Builder, offs: seq<nat>)
    requires OffsetsIn(b, offs) && IsAlign(b.minalign)
    ensures var r := PushOffsets(b, offs);
      && r == b.(data := r.data, minalign := r.minalign)
      && b.minalign <= r.minalign && IsAlign(r.minalign)
      && Extends(r.data, b.data)
  {
    if offs != [] {
      PushOffsetsGrow(b, offs[1..]);
      var s := PushOffsets(b, offs[1..]);
      PushOffsetShape(s, offs[0]);
      ExtendsTrans(PushOffset(s, offs[0]).data, s.data, b.data);
    }
  }

  lemma StartVectorKeeps(b: Builder, len: nat, w: nat)
    requires IsWidth(w) && IsAlign(b.minalign)
    ensures var r := StartVector(b, len, w);
      && r == b.(nested := true, data := r.data, minalign := r.minalign)
      && b.minalign <= r.minalign && IsAlign(r.minalign)
  {
  }

  lemma EndVectorKeeps(b: Builder, len: nat)
    requires IsAlign(b.minalign)
    ensures var r := EndVector(b, len);
      && r == b.(nested := false, data := r.data, minalign := r.minalign)
      && b.minalign <= r.minalign && IsAlign(r.minalign)
  {
  }

  lemma CreateOffsetsGrows(b: Builder, offs: seq<nat>)
    requires OffsetsIn(b, offs) && IsAlign(b.minalign) && !b.nested
    ensures OnlyGrows(CreateOffsets(b, offs), b) && IsAlign(CreateOffsets(b, offs).minalign)
  {
    hide StartVector;
    hide PushOffsets;
    hide EndVector;
    hide LE;
    var s1 := StartVector(b, |offs|, 4);
    StartVectorExtends(b, |offs|, 4);
    StartVectorKeeps(b, |offs|, 4);
    assert OffsetsIn(s1, offs);
    PushOffsetsGrow(s1, offs);
    var s2 := PushOffsets(s1, offs);
    EndVectorShape(s2, |offs|);
    EndVectorKeeps(s2, |offs|);
    ExtendsTrans(s2.data, s1.data, b.data);
    ExtendsTrans(EndVector(s2, |offs|).data, s2.data, b.data);
  }

  /** What a run of additions keeps besides the fields. */
  predicate FieldsGrow(r: Builder, b: Builder) {
    && Grows(r, b) && |r.data| < MAX_BUFFER_SIZE && IsAlign(r.minalign)
    && r == b.(data := r.data, minalign := r.minalign, fields := r.fields, maxVoffset := r.maxVoffset)
  }

  lemma FieldsGrowTrans(r2: Builder, r1: Builder, b: Builder)
    requires FieldsGrow(r2, r1) && FieldsGrow(r1, b)
    ensures FieldsGrow(r2, b)
  {
    ExtendsTrans(r2.data, r1.data, b.data);
  }

  lemma AllHoldAt(d: seq<Byte>, m: nat, offs: seq<nat>, os: seq<Obj>, h: nat)
    requires AllHold(d, m, offs, os) && h < |os|
    ensures HoldsAt(d, m, offs[h], os[h]) && 0 < offs[h] <= |d|
  {
  }

  /** What an addition keeps besides the buffer and the fields. */
  predicate Tracks(r: Builder, b: Builder) {
    && IsAlign(r.minalign)
    && r == b.(data := r.data, minalign := r.minalign, fields := r.fields, maxVoffset := r.maxVoffset)
  }

  lemma AddElementTracks(b: Builder, id: nat, n: nat, w: nat, d: nat)
    requires IsAlign(b.minalign) && IsWidth(w)
    ensures Tracks(AddElement(b, id, n, w, d), b)
  {
  }

  lemma AddOffsetTracks(b: Builder, id: nat, off: nat)
    requires IsAlign(b.minalign) && off <= |b.data|
    ensures Tracks(AddOffset(b, id, off), b)
  {
    hide AddElement;
    AddElementTracks(Align(b, 4), id, ReferTo(b, off), 4, 0);
  }

  lemma AddStructTracks(b: Builder, id: nat, bytes: seq<Byte>, a: nat)
    requires IsAlign(b.minalign) && IsAlign(a)
    ensures Tracks(AddStruct(b, id, Some(bytes), a), b)
  {
  }

  lemma FieldsGrowOf(r: Builder, b: Builder)
    requires Grows(r, b) && Tracks(r, b) && |r.data| < MAX_BUFFER_SIZE
    ensures FieldsGrow(r, b)
  {
  }

  lemma NoStruct(b: Builder, id: nat, a: nat)
    requires IsAlign(a)
    ensures AddStruct(b, id, None, a) == b
  {
  }

  lemma AddOneIn(b: Builder, start: nat, slots: seq<Slot>, offs: seq<nat>, os: seq<Obj>, a: Add)
    requires InTable(b, start, slots) && AllHold(b.data, b.minalign, offs, os) && AddOk(a, |os|)
    requires !HasId(slots, a.id) && IsAlign(b.minalign) && |b.data| < MAX_BUFFER_SIZE
    ensures !AddOne(b, offs, a).Misuse?
    ensures AddOne(b, offs, a).Done? ==>
      var r := AddOne(b, offs, a).value;
      FieldsGrow(r, b) && InTable(r, start, slots + [Slot(a.id, AddMeaning(a, os))])
  {
    hide InTable;
    hide HoldsAt;
    hide AllHold;
    hide HasId;
    hide Grows;
    hide Tracks;
    hide FieldsGrow;
    hide AddElement;
    hide AddOffset;
    hide AddStruct;
    AllHoldLength(b.data, b.minalign, offs, os);
    match a
    case AddScalar(id, w, n, d) =>
      AddElementIn(b, start, slots, id, n, w, d);
      AddElementTracks(b, id, n, w, d);
      var r := AddElement(b, id, n, w, d);
      if |r.data| < MAX_BUFFER_SIZE {
        FieldsGrowOf(r, b);
      }
    case AddRef(id, Some(h)) =>
      AllHoldAt(b.data, b.minalign, offs, os, h);
      AddOffsetTracks(b, id, offs[h]);
      var r := AddOffset(b, id, offs[h]);
      if |r.data| < MAX_BUFFER_SIZE {
        AddOffsetIn(b, start, slots, id, offs[h], os[h]);
        FieldsGrowOf(r, b);
      }
    case AddRef(id, None) =>
      SkipField(b, start, slots, Slot(id, Null));
      FieldsGrowSelf(b);
    case AddBytes(id, None, align) =>
      NoStruct(b, id, align);
      SkipField(b, start, slots, Slot(id, Null));
      FieldsGrowSelf(b);
    case AddBytes(id, Some(bytes), align) =>
      AddStructIn(b, start, slots, id, bytes, align);
      AddStructTracks(b, id, bytes, align);
      var r := AddStruct(b, id, Some(bytes), align);
      if |r.data| < MAX_BUFFER_SIZE {
        FieldsGrowOf(r, b);
      }
  }

  lemma FieldsGrowSelf(b: Builder)
    requires |b.data| < MAX_BUFFER_SIZE && IsAlign(b.minalign)
    ensures FieldsGrow(b, b)
  {
  }

  lemma SlotsStep(adds: seq<Add>, os: seq<Obj>)
    requires adds != [] && AddsOk(adds, |os|)
    ensures var n := |adds| - 1;
      && AddsOk(adds[..n], |os|)
      && Slots(adds, os) == Slots(adds[..n], os) + [Slot(adds[n].id, AddMeaning(adds[n], os))]
      && !HasId(Slots(adds[..n], os), adds[n].id)
  {
  }

  lemma {:induction false} AddAllIn(b: Builder, start: nat, offs: seq<nat>, os: seq<Obj>, adds: seq<Add>)
    requires InTable(b, start, []) && AllHold(b.data, b.minalign, offs, os) && AddsOk(adds, |os|)
    requires IsAlign(b.minalign) && |b.data| < MAX_BUFFER_SIZE
    ensures !AddAll(b, offs, adds).Misuse?
    ensures AddAll(b, offs, adds).Done? ==>
      var r := AddAll(b, offs, adds).value;
      FieldsGrow(r, b) && InTable(r, start, Slots(adds, os))
    decreases |adds|
  {
    hide InTable;
    hide AllHold;
    hide AddOne;
    if adds == [] {
      assert b.data[|b.data| - |b.data|..] == b.data;
      assert Slots(adds, os) == [];
    } else {
      AllHoldLength(b.data, b.minalign, offs, os);
      SlotsStep(adds, os);
      var n := |adds| - 1;
      AddAllIn(b, start, offs, os, adds[..n]);
      if AddAll(b, offs, adds[..n]).Done? {
        var b1 := AddAll(b, offs, adds[..n]).value;
        AllHoldExtends(b1.data, b1.minalign, b.data, b.minalign, offs, os);
        AddOneIn(b1, start, Slots(adds[..n], os), offs, os, adds[n]);
        if AddOne(b1, offs, adds[n]).Done? {
          FieldsGrowTrans(AddOne(b1, offs, adds[n]).value, b1, b);
        }
      }
    }
  }

  lemma AllHoldLength(d: seq<Byte>, m: nat, offs: seq<nat>, os: seq<Obj>)
    requires AllHold(d, m, offs, os)
    ensures |offs| == |os|
  {
  }

  lemma ArgsHold(d: seq<Byte>, m: nat, offs: seq<nat>, os: seq<Obj>, hs: seq<nat>)
    requires AllHold(d, m, offs, os) && forall i | 0 <= i < |hs| :: hs[i] < |os|
    ensures AllHold(d, m, Args(offs, hs), seq(|hs|, i requires 0 <= i < |hs| => os[hs[i]]))
    ensures forall i | 0 <= i < |hs| :: 0 < Args(offs, hs)[i] <= |d|
  {
    hide HoldsAt;
    forall i | 0 <= i < |hs| ensures 0 < Args(offs, hs)[i] <= |d| {
      AllHoldAt(d, m, offs, os, hs[i]);
    }
  }

  /** One object built on top of others: it holds, they still hold, and no assertion but size can fail. */
  lemma BuildOneHolds(b: Builder, offs: seq<nat>, op: Op, os: seq<Obj>)
    requires Idle(b) && AllHold(b.data, b.minalign, offs, os) && OpOk(op, |os|)
    ensures !BuildOne(b, offs, op).Misuse?
    ensures BuildOne(b, offs, op).Done? ==>
      var (r, off) := BuildOne(b, offs, op).value;
      Idle(r) && Grows(r, b) && HoldsAt(r.data, r.minalign, off, OpMeaning(op, os))
  {
    hide HoldsAt;
    hide AllHold;
    hide PoolOk;
    hide CreateString;
    hide CreateVector;
    hide CreateOffsets;
    hide CreateSharedString;
    hide AddAll;
    AllHoldLength(b.data, b.minalign, offs, os);
    if BuildOne(b, offs, op).TooLarge? {
      return;
    }
    match op
    case MakeString(s) =>
      CreateStringGrows(b, s);
      CreateStringLength(b, s);
      StringHolds(b, s);
      IdleGrows(CreateString(b, s), b);
    case MakeShared(s) => SharedIdle(b, s);
    case MakeVector(w, xs) =>
      CreateVectorLength(b, w, xs);
      CreateVectorGrows(b, w, xs);
      VectorHolds(b, w, xs);
      IdleGrows(CreateVector(b, w, xs), b);
    case MakeOffsets(hs) =>
      ArgsHold(b.data, b.minalign, offs, os, hs);
      var args := Args(offs, hs);
      CreateOffsetsGrows(b, args);
      OffsetsHold(b, args, seq(|hs|, i requires 0 <= i < |hs| => os[hs[i]]));
      IdleGrows(CreateOffsets(b, args), b);
    case MakeTable(adds) => TableIdle(b, offs, adds, os);
  }

  lemma CreateVectorLength(b: Builder, w: nat, xs: seq<nat>)
    requires IsWidth(w)
    ensures |CreateVector(b, w, xs).data| > |xs|
  {
  }

  lemma SharedIdle(b: Builder, chars: seq<Byte>)
    requires Idle(b) && |CreateString(b, chars).data| < MAX_BUFFER_SIZE
    ensures var (r, off) := CreateSharedString(b, chars);
      Idle(r) && Grows(r, b) && HoldsAt(r.data, r.minalign, off, Str(chars))
  {
    hide HoldsAt;
    hide PoolOk;
    hide CreateString;
    CreateStringGrows(b, chars);
    SharedStringHolds(b, chars);
    VTablesExtend(CreateString(b, chars).data, b.data, b.vtables);
  }

  lemma TableIdle(b: Builder, offs: seq<nat>, adds: seq<Add>, os: seq<Obj>)
    requires Idle(b) && AllHold(b.data, b.minalign, offs, os) && AddsOk(adds, |os|) && |offs| == |os|
    requires !BuildOne(b, offs, MakeTable(adds)).TooLarge?
    ensures BuildOne(b, offs, MakeTable(adds)).Done?
    ensures var (r, off) := BuildOne(b, offs, MakeTable(adds)).value;
      Idle(r) && Grows(r, b) && HoldsAt(r.data, r.minalign, off, Table(Slots(adds, os)))
  {
    hide InTable;
    hide HoldsAt;
    hide AllHold;
    hide PoolOk;
    hide AddAll;
    hide TableOffset;
    StartTableIn(b);
    AddAllIn(StartTable(b), |b.data|, offs, os, adds);
    var b1 := AddAll(StartTable(b), offs, adds).value;
    assert Extends(b1.data, b.data);
    VTablesExtend(b1.data, b.data, b.vtables);
    InTableFields(b1, |b.data|, Slots(adds, os));
    EndTableHolds(b1, |b.data|, Slots(adds, os));
    var r := EndTable(b1, |b.data|);
    EndTableShape(b1, |b.data|);
    ExtendsTrans(r.data, b1.data, b.data);
    PoolExtends(r.data, r.minalign, b.data, b.minalign, b.pool);
    TableSizes(b1, |b.data|);
  }

  lemma TableSizes(s: Builder, start: nat)
    requires CanEndTable(s, start)
    ensures TableOffset(s) <= |EndTable(s, start).data| <= TableOffset(s) + VTableSize(s.maxVoffset)
    ensures KnownVTable(s, start).Some? ==>
      |EndTable(s, start).data| == TableOffset(s)
    ensures KnownVTable(s, start).None? ==>
      |EndTable(s, start).data| == TableOffset(s) + VTableSize(s.maxVoffset)
  {
    hide TableOffset;
  }

  /**
    The run theorem: after any run every offset handed out is that of the object it was handed out for,
    whatever was built afterwards, and no assertion but one on sizes can have failed.
   */
  lemma {:induction false} RunHolds(ops: seq<Op>, force: bool, dedup: bool)
    requires OpsOk(ops)
    ensures !Run(ops, force, dedup).Misuse?
    ensures Run(ops, force, dedup).Done? ==>
      var st := Run(ops, force, dedup).value;
      Idle(st.b) && AllHold(st.b.data, st.b.minalign, st.offs, Meaning(ops))
  {
    hide HoldsAt;
    hide Idle;
    hide BuildOne;
    if ops == [] {
      IdleNew(force, dedup);
    } else {
      var n := |ops| - 1;
      RunHolds(ops[..n], force, dedup);
      if Run(ops[..n], force, dedup).Done? {
        var st := Run(ops[..n], force, dedup).value;
        var os := Meaning(ops[..n]);
        BuildOneHolds(st.b, st.offs, ops[n], os);
        if BuildOne(st.b, st.offs, ops[n]).Done? {
          var (r, off) := BuildOne(st.b, st.offs, ops[n]).value;
          AllHoldExtends(r.data, r.minalign, st.b.data, st.b.minalign, st.offs, os);
        }
      }
    }
  }

  lemma IdleNew(force: bool, dedup: bool)
    ensures Idle(New(force, dedup))
  {
  }
}
