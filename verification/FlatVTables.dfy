/** Between tables the scratch stack lists exactly the vtables in use; with sharing on no two are alike. */
module FlatVTables {
  import opened Bytes
  import opened FlatReader
  import opened FlatLayout
  import opened FlatBuilder
  import opened FlatObjects
  import opened FlatFields
  import opened FlatPool
  import opened FlatRun
  import opened FlatRoundTrip

  /** The offset of the vtable that the table at offset `off` refers to. */
  function VTableOf(d: seq<Byte>, off: nat): int {
    match VTable(d, |d| - off)
    case Ok(vt) => |d| - vt
    case Oob => -1
  }

  predicate VTableFits(d: seq<Byte>, v: nat) {
    match ReadLE(d, |d| - v, 2)
    case Ok(size) => size <= v <= |d|
    case Oob => false
  }

  function VTableBytes(d: seq<Byte>, v: nat): seq<Byte>
    requires VTableFits(d, v)
  {
    var p := |d| - v;
    d[p..p + ReadLE(d, p, 2).value]
  }

  /** One of the objects made is a table with the vtable at offset `v`. */
  ghost predicate InUse(d: seq<Byte>, offs: seq<nat>, os: seq<Obj>, v: nat)
    requires |offs| == |os|
  {
    exists i | 0 <= i < |os| :: os[i].Table? && VTableOf(d, offs[i]) == v
  }

  /** The list holds exactly the vtables in use. */
  ghost predicate ListsLive(d: seq<Byte>, vtables: seq<nat>, offs: seq<nat>, os: seq<Obj>) {
    && |offs| == |os|
    && (forall i | 0 <= i < |os| && os[i].Table? :: exists j | 0 <= j < |vtables| :: vtables[j] == VTableOf(d, offs[i]))
    && (forall j | 0 <= j < |vtables| :: InUse(d, offs, os, vtables[j]))
  }

  predicate AllDiffer(d: seq<Byte>, vtables: seq<nat>) {
    && (forall j | 0 <= j < |vtables| :: VTableFits(d, vtables[j]))
    && (forall j, k | 0 <= j < k < |vtables| :: VTableBytes(d, vtables[j]) != VTableBytes(d, vtables[k]))
  }

  lemma VTableOfExtends(d1: seq<Byte>, d0: seq<Byte>, off: nat)
    requires Extends(d1, d0) && VTable(d0, |d0| - off).Ok?
    ensures VTableOf(d1, off) == VTableOf(d0, off)
  {
    var pre := ExtendsSplit(d1, d0);
    VTableShift(pre, d0, |d0| - off);
    assert |pre| + (|d0| - off) == |d1| - off;
  }

  lemma VTableBytesExtends(d1: seq<Byte>, d0: seq<Byte>, v: nat)
    requires Extends(d1, d0) && VTableFits(d0, v)
    ensures VTableFits(d1, v) && VTableBytes(d1, v) == VTableBytes(d0, v)
  {
    var pre := ExtendsSplit(d1, d0);
    var p := |d0| - v;
    ReadShift(pre, d0, p, 2);
    AtShift(pre, d0, p, VTableBytes(d0, v));
    assert |pre| + p == |d1| - v;
  }

  lemma TableHasVTable(d: seq<Byte>, m: nat, off: nat, o: Obj)
    requires HoldsAt(d, m, off, o) && o.Table?
    ensures VTable(d, |d| - off).Ok?
  {
  }

  lemma AllDifferExtends(d1: seq<Byte>, d0: seq<Byte>, vtables: seq<nat>)
    requires Extends(d1, d0) && AllDiffer(d0, vtables)
    ensures AllDiffer(d1, vtables)
    ensures forall j | 0 <= j < |vtables| :: VTableBytes(d1, vtables[j]) == VTableBytes(d0, vtables[j])
  {
    hide VTableFits;
    hide VTableBytes;
    forall j | 0 <= j < |vtables|
      ensures VTableFits(d1, vtables[j]) && VTableBytes(d1, vtables[j]) == VTableBytes(d0, vtables[j])
    {
      VTableBytesExtends(d1, d0, vtables[j]);
    }
  }

  /** One more object that is no table, or a table with a listed vtable, on top of the others. */
  lemma ListsLiveStep(
    d1: seq<Byte>, d0: seq<Byte>, m: nat, vtables: seq<nat>, more: seq<nat>,
    offs: seq<nat>, os: seq<Obj>, off: nat, o: Obj)
    requires Extends(d1, d0) && AllHold(d0, m, offs, os) && ListsLive(d0, vtables, offs, os)
    requires !o.Table? ==> more == []
    requires o.Table? ==>
      || (more == [] && exists j | 0 <= j < |vtables| :: vtables[j] == VTableOf(d1, off))
      || (VTableOf(d1, off) >= 0 && more == [VTableOf(d1, off)])
    ensures ListsLive(d1, vtables + more, offs + [off], os + [o])
  {
    hide HoldsAt;
    hide VTableOf;
    var all, os1, offs1 := vtables + more, os + [o], offs + [off];
    forall i | 0 <= i < |os1| && os1[i].Table?
      ensures exists j | 0 <= j < |all| :: all[j] == VTableOf(d1, offs1[i])
    {
      if i < |os| {
        TableHasVTable(d0, m, offs[i], os[i]);
        VTableOfExtends(d1, d0, offs[i]);
        var j :| 0 <= j < |vtables| && vtables[j] == VTableOf(d0, offs[i]);
        assert all[j] == VTableOf(d1, offs1[i]);
      } else if more == [] {
        var j :| 0 <= j < |vtables| && vtables[j] == VTableOf(d1, off);
        assert all[j] == VTableOf(d1, offs1[i]);
      } else {
        assert all[|vtables|] == VTableOf(d1, offs1[i]);
      }
    }
    forall j | 0 <= j < |all| ensures InUse(d1, offs1, os1, all[j]) {
      if j < |vtables| {
        var i :| 0 <= i < |os| && os[i].Table? && VTableOf(d0, offs[i]) == vtables[j];
        TableHasVTable(d0, m, offs[i], os[i]);
        VTableOfExtends(d1, d0, offs[i]);
        assert os1[i].Table? && VTableOf(d1, offs1[i]) == all[j];
      } else {
        assert os1[|os|].Table? && VTableOf(d1, offs1[|os|]) == all[j];
      }
    }
  }

  /** What closing a table adds to the list of vtables. */
  function Added(before: seq<nat>, after: seq<nat>): seq<nat> {
    if |before| <= |after| then after[|before|..] else []
  }

  lemma ChosenListed(s: Builder, start: nat, r: Builder)
    requires CanEndTable(s, start) && VTableChosen(s, start, r)
    ensures r.vtables == s.vtables + Added(s.vtables, r.vtables)
    ensures var v := VTableOf(r.data, TableOffset(s));
      || (Added(s.vtables, r.vtables) == [] && exists j | 0 <= j < |s.vtables| :: s.vtables[j] == v)
      || (v >= 0 && Added(s.vtables, r.vtables) == [v])
  {
    hide NewVTable;
    hide VTable;
    hide ReadLE;
    hide TableOffset;
    match KnownVTable(s, start)
    case Some(known) =>
      var j :| 0 <= j < |s.vtables| && s.vtables[j] == known;
      assert Added(s.vtables, r.vtables) == [];
    case None =>
      assert Added(s.vtables, r.vtables) == [TableOffset(s) + |NewVTable(s, start)|];
  }

  lemma ChosenDiffers(s: Builder, start: nat, r: Builder)
    requires CanEndTable(s, start) && VTableChosen(s, start, r)
    requires s.dedup && AllDiffer(s.data, s.vtables) && Grows(r, s) && Extends(Opened(s).data, s.data)
    ensures AllDiffer(r.data, r.vtables)
  {
    hide NewVTable;
    hide VTable;
    hide TableOffset;
    hide VTableFits;
    hide VTableBytes;
    hide Extends;
    hide SameVTable;
    hide ReadLE;
    hide At;
    GrowsBy(r, s);
    AllDifferExtends(r.data, s.data, s.vtables);
    AllDifferExtends(Opened(s).data, s.data, s.vtables);
    if KnownVTable(s, start).None? {
      var t, vt := TableOffset(s), NewVTable(s, start);
      NewBytes(r.data, vt, t + |vt|);
      forall j | 0 <= j < |s.vtables| ensures VTableBytes(r.data, s.vtables[j]) != vt {
        BytesSame(Opened(s).data, s.vtables[j], vt);
      }
      DifferAppend(r.data, s.vtables, t + |vt|);
    }
  }

  lemma NewBytes(d: seq<Byte>, vt: seq<Byte>, v: nat)
    requires v == |d| && At(d, 0, vt) && ReadLE(d, 0, 2) == Ok(|vt|)
    ensures VTableFits(d, v) && VTableBytes(d, v) == vt
  {
  }

  lemma BytesSame(d: seq<Byte>, v: nat, vt: seq<Byte>)
    requires VTableFits(d, v) && !SameVTable(d, v, vt)
    ensures VTableBytes(d, v) != vt
  {
  }

  lemma DifferAppend(d: seq<Byte>, vtables: seq<nat>, v: nat)
    requires AllDiffer(d, vtables) && VTableFits(d, v)
    requires forall j | 0 <= j < |vtables| :: VTableBytes(d, vtables[j]) != VTableBytes(d, v)
    ensures AllDiffer(d, vtables + [v])
  {
    hide VTableFits;
    hide VTableBytes;
  }

  lemma OpenedExtends(s: Builder)
    ensures Extends(Opened(s).data, s.data)
  {
    hide PushElement;
    PushElementShape(s, 0, 4);
  }

  lemma BuildOneLists(b: Builder, offs: seq<nat>, os: seq<Obj>, op: Op)
    requires Idle(b) && AllHold(b.data, b.minalign, offs, os) && |offs| == |os| && OpOk(op, |os|)
    requires ListsLive(b.data, b.vtables, offs, os)
    requires b.dedup ==> AllDiffer(b.data, b.vtables)
    requires BuildOne(b, offs, op).Done?
    ensures var (r, off) := BuildOne(b, offs, op).value;
      && r.dedup == b.dedup
      && ListsLive(r.data, r.vtables, offs + [off], os + [OpMeaning(op, os)])
      && (b.dedup ==> AllDiffer(r.data, r.vtables))
  {
    hide HoldsAt;
    hide AllHold;
    hide ListsLive;
    hide AllDiffer;
    hide Extends;
    var (r, off) := BuildOne(b, offs, op).value;
    BuildOneHolds(b, offs, op, os);
    if op.MakeTable? {
      TableLists(b, offs, os, op.adds);
    } else {
      BuildOneKeepsVTables(b, offs, os, op);
      ListsLiveStep(r.data, b.data, b.minalign, b.vtables, [], offs, os, off, OpMeaning(op, os));
      assert b.vtables + [] == b.vtables;
      if b.dedup {
        AllDifferExtends(r.data, b.data, b.vtables);
      }
    }
  }

  lemma BuildOneKeepsVTables(b: Builder, offs: seq<nat>, os: seq<Obj>, op: Op)
    requires Idle(b) && AllHold(b.data, b.minalign, offs, os) && |offs| == |os| && OpOk(op, |os|)
    requires BuildOne(b, offs, op).Done? && !op.MakeTable?
    ensures var r := BuildOne(b, offs, op).value.0; r.vtables == b.vtables && r.dedup == b.dedup
  {
    hide HoldsAt;
    hide AllHold;
    hide CreateString;
    hide CreateVector;
    hide CreateOffsets;
    hide PoolOk;
    match op
    case MakeString(chars) => CreateStringGrows(b, chars);
    case MakeShared(chars) => CreateStringGrows(b, chars);
    case MakeVector(w, xs) => CreateVectorGrows(b, w, xs);
    case MakeOffsets(hs) => CreateOffsetsGrows(b, Args(offs, hs));
  }

  lemma TableLists(b: Builder, offs: seq<nat>, os: seq<Obj>, adds: seq<Add>)
    requires Idle(b) && AllHold(b.data, b.minalign, offs, os) && |offs| == |os| && AddsOk(adds, |os|)
    requires ListsLive(b.data, b.vtables, offs, os)
    requires b.dedup ==> AllDiffer(b.data, b.vtables)
    requires BuildOne(b, offs, MakeTable(adds)).Done?
    ensures var (r, off) := BuildOne(b, offs, MakeTable(adds)).value;
      && r.dedup == b.dedup
      && ListsLive(r.data, r.vtables, offs + [off], os + [Table(Slots(adds, os))])
      && (b.dedup ==> AllDiffer(r.data, r.vtables))
  {
    hide HoldsAt;
    hide AllHold;
    hide AllDiffer;
    hide ListsLive;
    hide InTable;
    hide AddAll;
    hide TableOffset;
    hide PoolOk;
    hide VTableChosen;
    hide Extends;
    StartTableIn(b);
    AddAllIn(StartTable(b), |b.data|, offs, os, adds);
    var s := AddAll(StartTable(b), offs, adds).value;
    VTablesExtend(s.data, b.data, b.vtables);
    EndTableHolds(s, |b.data|, Slots(adds, os));
    var r := EndTable(s, |b.data|);
    ChosenListed(s, |b.data|, r);
    EndTableDedup(s, |b.data|);
    ExtendsTrans(r.data, s.data, b.data);
    ListsLiveStep(r.data, b.data, b.minalign, b.vtables, Added(b.vtables, r.vtables),
                  offs, os, TableOffset(s), Table(Slots(adds, os)));
    if b.dedup {
      AllDifferExtends(s.data, b.data, b.vtables);
      OpenedExtends(s);
      ChosenDiffers(s, |b.data|, r);
    }
  }

  lemma EndTableDedup(s: Builder, start: nat)
    requires CanEndTable(s, start)
    ensures EndTable(s, start).dedup == s.dedup
  {
  }

  /** After any run the list holds exactly the vtables in use and, if they are shared, no two alike. */
  lemma {:induction false} RunListsVTables(ops: seq<Op>, force: bool, dedup: bool)
    requires OpsOk(ops) && Run(ops, force, dedup).Done?
    ensures var st := Run(ops, force, dedup).value;
      && ListsLive(st.b.data, st.b.vtables, st.offs, Meaning(ops))
      && st.b.dedup == dedup
      && (dedup ==> AllDiffer(st.b.data, st.b.vtables))
  {
    hide HoldsAt;
    hide Idle;
    hide BuildOne;
    hide ListsLive;
    hide AllDiffer;
    if ops == [] {
      NothingListed(force, dedup);
    } else {
      var n := |ops| - 1;
      RunListsVTables(ops[..n], force, dedup);
      RunHolds(ops[..n], force, dedup);
      var st := Run(ops[..n], force, dedup).value;
      BuildOneLists(st.b, st.offs, Meaning(ops[..n]), ops[n]);
    }
  }

  lemma NothingListed(force: bool, dedup: bool)
    ensures ListsLive(New(force, dedup).data, New(force, dedup).vtables, [], [])
    ensures AllDiffer(New(force, dedup).data, New(force, dedup).vtables)
  {
  }
}
