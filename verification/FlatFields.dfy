/** Building one table: each field added is recorded, and closing the table makes them readable. */
module FlatFields {
  import opened Bytes
  import opened FlatReader
  import opened FlatLayout
  import opened FlatBuilder
  import opened FlatObjects
  import opened FlatTables

  /** Between `StartTable`, when the buffer had `start` bytes, and `EndTable`. */
  ghost predicate InTable(s: Builder, start: nat, slots: seq<Slot>) {
    && s.nested && start <= |s.data|
    && s.maxVoffset % 2 == 0 && s.maxVoffset <= 0xFFFC && LargestTracked(s)
    && FieldsTracked(s, start)
    && SlotsStored(s.data, s.minalign, s.fields, slots)
  }

  predicate FieldsTracked(s: Builder, start: nat) {
    DistinctIds(s.fields) && forall i | 0 <= i < |s.fields| ::
      IsFieldId(s.fields[i].id) && s.fields[i].id <= s.maxVoffset && start < s.fields[i].off <= |s.data|
  }

  /** `maxVoffset` is the largest id there is. */
  predicate LargestTracked(s: Builder) {
    if s.fields == [] then s.maxVoffset == 0
    else exists i | 0 <= i < |s.fields| :: s.fields[i].id == s.maxVoffset
  }

  lemma TrackFieldLargest(s: Builder, id: nat, off: nat)
    requires LargestTracked(s)
    ensures LargestTracked(TrackField(s, id, off))
  {
    var r := TrackField(s, id, off);
    if s.fields != [] && id < s.maxVoffset {
      var i :| 0 <= i < |s.fields| && s.fields[i].id == s.maxVoffset;
      assert r.fields[i].id == r.maxVoffset;
    } else {
      assert r.fields[|s.fields|].id == r.maxVoffset;
    }
  }

  lemma LargestSize(s: Builder)
    requires LargestTracked(s) && s.maxVoffset <= 0xFFFC
    ensures var n := VTableSize(s.maxVoffset); n == 4 || (n > 4 && Loc(s.fields, n - 2).Some?)
  {
    LocIn(s.fields, s.maxVoffset);
  }

  lemma StartTableIn(s: Builder)
    requires s.fields == [] && s.maxVoffset == 0
    ensures InTable(StartTable(s), |s.data|, [])
  {
  }

  /** A field left out, because it is null or has its default value. */
  lemma SkipField(s: Builder, start: nat, slots: seq<Slot>, slot: Slot)
    requires InTable(s, start, slots) && IsFieldId(slot.id) && !HasId(slots, slot.id)
    requires match slot.value
      case Scalar(w, n, d) => IsWidth(w) && n < Range(w) && n == d
      case Null => true
      case _ => false
    ensures InTable(s, start, slots + [slot])
  {
    hide HoldsRef;
    hide HoldsScalar;
    assert Loc(s.fields, slot.id).None?;
    forall id | Loc(s.fields, id).Some? ensures HasId(slots + [slot], id) {
      HasIdAppend(slots, slot, id);
    }
  }

  lemma HasIdAppend(slots: seq<Slot>, slot: Slot, id: nat)
    ensures HasId(slots + [slot], id) <==> HasId(slots, id) || slot.id == id
  {
    var all := slots + [slot];
    if HasId(slots, id) {
      var i :| 0 <= i < |slots| && slots[i].id == id;
      assert all[i].id == id;
    }
    if slot.id == id {
      assert all[|slots|].id == id;
    }
    if HasId(all, id) {
      var i :| 0 <= i < |all| && all[i].id == id;
      if i < |slots| {
        assert slots[i].id == id;
      }
    }
  }

  lemma LocAppend(fields: seq<FieldLoc>, f: FieldLoc, id: nat)
    ensures Loc(fields + [f], id) == if f.id == id then Some(f.off) else Loc(fields, id)
  {
    assert (fields + [f])[..|fields|] == fields;
  }

  /** A field written at the front of the buffer `d1`, grown from that of `s`. */
  lemma TrackFieldIn(s: Builder, start: nat, slots: seq<Slot>, s1: Builder, slot: Slot)
    requires InTable(s, start, slots) && IsFieldId(slot.id) && !HasId(slots, slot.id)
    requires Grows(s1, s) && |s1.data| > |s.data|
    requires s1.nested && s1.fields == s.fields && s1.maxVoffset == s.maxVoffset
    requires match slot.value
      case Scalar(w, n, _) => IsWidth(w) && n < Range(w) && HoldsScalar(s1.data, s1.minalign, 0, n, w)
      case Ref(o) => HoldsRef(s1.data, s1.minalign, 0, o)
      case Null => false
      case Struct(bytes, a) => IsAlign(a) && AlignedBy(s1.data, s1.minalign, 0, a) && At(s1.data, 0, bytes)
    ensures InTable(TrackField(s1, slot.id, |s1.data|), start, slots + [slot])
  {
    hide HoldsRef;
    hide HoldsScalar;
    hide Loc;
    var r := TrackField(s1, slot.id, |s1.data|);
    var f := FieldLoc(|s1.data|, slot.id);
    TrackFieldLargest(s1, slot.id, |s1.data|);
    hide LargestTracked;
    LocAppend(s.fields, f, slot.id);
    LocIn(s.fields, slot.id);
    assert SlotStored(r.data, r.minalign, r.fields, slot);
    forall i | 0 <= i < |slots| ensures SlotStored(r.data, r.minalign, r.fields, slots[i]) {
      assert slots[i].id != slot.id;
      LocAppend(s.fields, f, slots[i].id);
      SlotStoredExtends(s1.data, s1.minalign, s.data, s.minalign, s.fields, slots[i]);
    }
    forall id | Loc(r.fields, id).Some? ensures HasId(slots + [slot], id) {
      LocAppend(s.fields, f, id);
      HasIdAppend(slots, slot, id);
    }
  }

  lemma PushElementShape(s: Builder, n: nat, w: nat)
    requires IsWidth(w)
    ensures var r := PushElement(s, n, w);
      && Grows(r, s) && |r.data| > |s.data| && w <= r.minalign
      && Rem(|r.data|, w) == 0 && At(r.data, 0, LE(n, w))
  {
    hide LE;
    var pad := Zeros(PaddingBytes(|s.data|, w));
    var r := PushElement(s, n, w);
    assert r.data == [] + LE(n, w) + (pad + s.data);
    AtMiddle([], LE(n, w), pad + s.data);
    assert r.data == (LE(n, w) + pad) + s.data;
    ExtendsPush(LE(n, w) + pad, s.data);
    RemSum(|pad| + |s.data|, w, w);
  }

  lemma AddElementIn(s: Builder, start: nat, slots: seq<Slot>, id: nat, n: nat, w: nat, d: nat)
    requires InTable(s, start, slots) && IsFieldId(id) && !HasId(slots, id)
    requires IsWidth(w) && n < Range(w)
    ensures var r := AddElement(s, id, n, w, d);
      Grows(r, s) && InTable(r, start, slots + [Slot(id, Scalar(w, n, d))])
  {
    hide LE;
    hide SlotsStored;
    hide FieldsTracked;
    if n == d && !s.forceDefaults {
      SkipField(s, start, slots, Slot(id, Scalar(w, n, d)));
    } else {
      var s1 := PushElement(s, n, w);
      PushElementShape(s, n, w);
      ReadOfAt(s1.data, 0, n, w);
      TrackFieldIn(s, start, slots, s1, Slot(id, Scalar(w, n, d)));
    }
  }

  lemma AddOffsetIn(s: Builder, start: nat, slots: seq<Slot>, id: nat, off: nat, o: Obj)
    requires InTable(s, start, slots) && IsFieldId(id) && !HasId(slots, id)
    requires HoldsAt(s.data, s.minalign, off, o)
    requires |AddOffset(s, id, off).data| < MAX_BUFFER_SIZE
    ensures var r := AddOffset(s, id, off);
      Grows(r, s) && InTable(r, start, slots + [Slot(id, Ref(o))])
  {
    hide Holds;
    hide HoldsRef;
    hide PushElement;
    hide SlotsStored;
    hide FieldsTracked;
    var s1 := PushOffset(s, off);
    AddOffsetPushes(s, id, off);
    PushOffsetShape(s, off);
    PushOffsetHolds(s, off, o);
    PushElementKeeps(Align(s, 4), ReferTo(s, off), 4);
    TrackFieldIn(s, start, slots, s1, Slot(id, Ref(o)));
  }

  /** A stored offset is at least 4, so it is never taken for the default value 0. */
  lemma AddOffsetPushes(s: Builder, id: nat, off: nat)
    requires 0 < off <= |s.data|
    ensures ReferTo(s, off) >= 4
    ensures var s1 := PushOffset(s, off); AddOffset(s, id, off) == TrackField(s1, id, |s1.data|)
  {
  }

  lemma PushElementKeeps(s: Builder, n: nat, w: nat)
    requires IsWidth(w)
    ensures PushElement(s, n, w) == s.(data := PushElement(s, n, w).data, minalign := Max(s.minalign, w))
  {
  }

  lemma AddStructIn(s: Builder, start: nat, slots: seq<Slot>, id: nat, bytes: seq<Byte>, a: nat)
    requires InTable(s, start, slots) && IsFieldId(id) && !HasId(slots, id)
    requires IsAlign(a) && |bytes| > 0 && Rem(|bytes|, a) == 0
    ensures var r := AddStruct(s, id, Some(bytes), a);
      Grows(r, s) && InTable(r, start, slots + [Slot(id, Struct(bytes, a))])
  {
    hide SlotsStored;
    hide FieldsTracked;
    var pad := Zeros(PaddingBytes(|s.data|, a));
    var s1 := Push(Align(s, a), bytes);
    assert s1.data == [] + bytes + (pad + s.data);
    AtMiddle([], bytes, pad + s.data);
    assert s1.data == (bytes + pad) + s.data;
    ExtendsPush(bytes + pad, s.data);
    RemSum(|pad| + |s.data|, |bytes|, a);
    TrackFieldIn(s, start, slots, s1, Slot(id, Struct(bytes, a)));
  }

  /** The vtables remembered between tables. */
  predicate VTablesIn(d: seq<Byte>, vtables: seq<nat>) {
    forall i | 0 <= i < |vtables| :: vtables[i] <= |d| && vtables[i] % 2 == 0
  }

  lemma InTableFields(s: Builder, start: nat, slots: seq<Slot>)
    requires InTable(s, start, slots) && TableOffset(s) - start < 0x1_0000
    ensures CanEndTable(s, start)
    ensures VTableSize(s.maxVoffset) == Max(s.maxVoffset + 2, 4) && VTableSize(s.maxVoffset) % 2 == 0
    ensures VTableSize(s.maxVoffset) < 0x1_0000
  {
    hide SlotsStored;
    OpenedLonger(s);
    hide TableOffset;
    var n := VTableSize(s.maxVoffset);
    assert n == Max(s.maxVoffset + 2, 4) && n % 2 == 0 && n < 0x1_0000;
    assert FieldsFit(s.fields, n, TableOffset(s));
  }

  lemma OpenedLonger(s: Builder)
    ensures TableOffset(s) >= |s.data| + 4
  {
  }

  function TableEnded(s: Builder, data: seq<Byte>, vtables: seq<nat>): Builder {
    s.(data := data, vtables := vtables, fields := [], maxVoffset := 0, nested := false,
       minalign := Max(s.minalign, 4))
  }

  lemma EndTableShape(s: Builder, start: nat)
    requires CanEndTable(s, start) && VTablesIn(s.data, s.vtables)
    ensures var t, vt := TableOffset(s), NewVTable(s, start);
      && t % 4 == 0 && t >= |s.data| + 4
      && match KnownVTable(s, start)
         case Some(known) =>
           && known <= |s.data| && known % 2 == 0
           && SameVTable(Opened(s).data, known, vt)
           && EndTable(s, start) == TableEnded(s, SignedLE(known - t) + TableBody(s), s.vtables)
         case None =>
           EndTable(s, start) ==
           TableEnded(s, vt + (SignedLE(|vt|) + TableBody(s)), s.vtables + [t + |vt|])
  {
    hide LE;
    hide NewVTable;
    assert (PaddingBytes(|s.data|, 4) + |s.data|) % 4 == 0;
    assert |Opened(s).data| == 4 + PaddingBytes(|s.data|, 4) + |s.data|;
  }

  lemma BodyExtends(s: Builder)
    ensures Extends(TableBody(s), s.data)
    ensures TableBody(s) == Opened(s).data[4..]
  {
    hide LE;
    assert TableBody(s) == Zeros(PaddingBytes(|s.data|, 4)) + s.data;
  }

  /** The second entry of its vtable gives the size of the table whose offset is `off`. */
  predicate TableSizeAt(d: seq<Byte>, off: nat, n: int) {
    match VTable(d, |d| - off)
    case Ok(vt) => n >= 0 && ReadLE(d, vt + 2, 2) == Ok(n as nat)
    case Oob => false
  }

  lemma TableSizeExtends(d1: seq<Byte>, d0: seq<Byte>, off: nat, n: int)
    requires Extends(d1, d0) && TableSizeAt(d0, off, n)
    ensures TableSizeAt(d1, off, n)
  {
    var pre := ExtendsSplit(d1, d0);
    VTableShift(pre, d0, |d0| - off);
    assert |pre| + (|d0| - off) == |d1| - off;
    ReadShift(pre, d0, VTable(d0, |d0| - off).value + 2, 2);
  }

  /** Which vtable the table that ended refers to, and what is remembered. */
  predicate VTableChosen(s: Builder, start: nat, r: Builder)
    requires CanEndTable(s, start)
  {
    var t, vt := TableOffset(s), NewVTable(s, start);
    match KnownVTable(s, start)
    case Some(known) =>
      r.vtables == s.vtables && VTable(r.data, |r.data| - t) == Ok(|r.data| - known)
    case None =>
      && r.vtables == s.vtables + [t + |vt|] && |r.data| == t + |vt|
      && VTable(r.data, |r.data| - t) == Ok(0)
      && At(r.data, 0, vt) && ReadLE(r.data, 0, 2) == Ok(|vt|)
  }

  lemma ChosenKnown(s: Builder, start: nat, r: Builder, known: nat)
    requires CanEndTable(s, start)
    requires KnownVTable(s, start) == Some(known)
    requires r.vtables == s.vtables && VTable(r.data, |r.data| - TableOffset(s)) == Ok(|r.data| - known)
    ensures VTableChosen(s, start, r)
  {
    hide KnownVTable;
    hide NewVTable;
    hide VTable;
    hide ReadLE;
    hide TableOffset;
  }

  lemma ChosenNew(s: Builder, start: nat, r: Builder)
    requires CanEndTable(s, start)
    requires KnownVTable(s, start).None?
    requires var t, vt := TableOffset(s), NewVTable(s, start);
      && r.vtables == s.vtables + [t + |vt|] && |r.data| == t + |vt|
      && VTable(r.data, |r.data| - t) == Ok(0)
      && At(r.data, 0, vt) && ReadLE(r.data, 0, 2) == Ok(|vt|)
    ensures VTableChosen(s, start, r)
  {
    hide KnownVTable;
    hide NewVTable;
    hide VTable;
    hide ReadLE;
    hide TableOffset;
  }

  lemma EndTableHolds(s: Builder, start: nat, slots: seq<Slot>)
    requires InTable(s, start, slots) && TableOffset(s) - start < 0x1_0000
    requires VTablesIn(s.data, s.vtables)
    requires TableOffset(s) + VTableSize(s.maxVoffset) < MAX_BUFFER_SIZE
    ensures CanEndTable(s, start)
    ensures var r := EndTable(s, start);
      && Grows(r, s) && HoldsAt(r.data, r.minalign, TableOffset(s), Table(slots))
      && VTablesIn(r.data, r.vtables)
    ensures VTableChosen(s, start, EndTable(s, start))
    ensures TableSizeAt(EndTable(s, start).data, TableOffset(s), TableOffset(s) - start)
  {
    hide *;
    InTableFields(s, start, slots);
    EndTableShape(s, start);
    if KnownVTable(s, start).Some? {
      EndTableShared(s, start, slots, KnownVTable(s, start).value);
    } else {
      EndTableFresh(s, start, slots);
    }
  }

  lemma EndTableShared(s: Builder, start: nat, slots: seq<Slot>, known: nat)
    requires InTable(s, start, slots) && CanEndTable(s, start) && VTablesIn(s.data, s.vtables)
    requires TableOffset(s) + VTableSize(s.maxVoffset) < MAX_BUFFER_SIZE
    requires KnownVTable(s, start) == Some(known)
    ensures var r := EndTable(s, start);
      && Grows(r, s) && HoldsAt(r.data, r.minalign, TableOffset(s), Table(slots))
      && VTablesIn(r.data, r.vtables) && VTableChosen(s, start, r)
      && TableSizeAt(r.data, TableOffset(s), TableOffset(s) - start)
  {
    hide *;
    InTableSizes(s, start, slots);
    InTableFields(s, start, slots);
    EndTableShape(s, start);
    BodyExtends(s);
    var r, d := EndTable(s, start), known as int - TableOffset(s);
    EndTableKnown(s, start, slots, known, SignedLE(d) + TableBody(s), Max(s.minalign, 4));
    TableEndedGrows(s, r, SignedLE(d) + TableBody(s), s.vtables, 0);
    ChosenKnown(s, start, r, known);
  }

  lemma EndTableFresh(s: Builder, start: nat, slots: seq<Slot>)
    requires InTable(s, start, slots) && CanEndTable(s, start) && VTablesIn(s.data, s.vtables)
    requires TableOffset(s) + VTableSize(s.maxVoffset) < MAX_BUFFER_SIZE
    requires KnownVTable(s, start).None?
    ensures var r := EndTable(s, start);
      && Grows(r, s) && HoldsAt(r.data, r.minalign, TableOffset(s), Table(slots))
      && VTablesIn(r.data, r.vtables) && VTableChosen(s, start, r)
      && TableSizeAt(r.data, TableOffset(s), TableOffset(s) - start)
  {
    hide *;
    InTableSizes(s, start, slots);
    InTableFields(s, start, slots);
    EndTableShape(s, start);
    BodyExtends(s);
    var r, t, vt := EndTable(s, start), TableOffset(s), NewVTable(s, start);
    EndTableNew(s, start, slots, vt + (SignedLE(|vt|) + TableBody(s)), Max(s.minalign, 4));
    TableEndedGrows(s, r, vt + (SignedLE(|vt|) + TableBody(s)), s.vtables + [t + |vt|], t + |vt|);
    ChosenNew(s, start, r);
  }

  lemma InTableSizes(s: Builder, start: nat, slots: seq<Slot>)
    requires CanEndTable(s, start)
    ensures TableOffset(s) - start < 0x1_0000
  {
  }

  lemma TableEndedGrows(s: Builder, r: Builder, data: seq<Byte>, vtables: seq<nat>, v: nat)
    requires r == TableEnded(s, data, vtables) && Extends(data, s.data)
    requires VTablesIn(s.data, s.vtables)
    requires vtables == s.vtables ||
      (vtables == s.vtables + [v] && v <= |data| && v % 2 == 0)
    ensures Grows(r, s) && VTablesIn(r.data, r.vtables) && r.data == data && r.vtables == vtables
    ensures r.minalign == Max(s.minalign, 4)
  {
  }

  lemma EndTableKnown(s: Builder, start: nat, slots: seq<Slot>, known: nat, d: seq<Byte>, m: nat)
    requires InTable(s, start, slots) && CanEndTable(s, start)
    requires TableOffset(s) % 4 == 0 && TableOffset(s) >= |s.data| + 4
    requires TableOffset(s) < MAX_BUFFER_SIZE && m == Max(s.minalign, 4)
    requires VTableSize(s.maxVoffset) % 2 == 0 && VTableSize(s.maxVoffset) < 0x1_0000
    requires known <= |s.data| && known % 2 == 0
    requires SameVTable(Opened(s).data, known, NewVTable(s, start))
    requires d == SignedLE(known as int - TableOffset(s)) + TableBody(s)
    ensures Extends(d, s.data) && HoldsAt(d, m, TableOffset(s), Table(slots))
    ensures VTable(d, |d| - TableOffset(s)) == Ok(|d| - known)
    ensures TableSizeAt(d, TableOffset(s), TableOffset(s) - start)
  {
    hide *;
    BodyExtends(s);
    var t := TableOffset(s);
    var so := SignedLE(known as int - t);
    ExtendsLength(TableBody(s), s.data);
    OldVTableAt(Opened(s).data, TableBody(s), known, NewVTable(s, start), so, d);
    ExtendsPush(so, TableBody(s));
    AtFront(so, TableBody(s));
    ExtendsTrans(d, TableBody(s), s.data);
    SameVTableAt(d, known, NewVTable(s, start));
    MaxAtLeast(s.minalign, 4);
    TableEnds(s, start, slots, d, m, |d| - known);
  }

  lemma MaxAtLeast(x: nat, y: nat)
    ensures x <= Max(x, y) && y <= Max(x, y)
  {
  }

  lemma ExtendsLength(d1: seq<Byte>, d0: seq<Byte>)
    requires Extends(d1, d0)
    ensures |d0| <= |d1|
  {
  }

  lemma SameVTableAt(d: seq<Byte>, off: nat, vt: seq<Byte>)
    requires SameVTable(d, off, vt)
    ensures At(d, |d| - off, vt) && 0 <= |d| - off && |vt| <= off
  {
  }

  lemma EndTableNew(s: Builder, start: nat, slots: seq<Slot>, d: seq<Byte>, m: nat)
    requires InTable(s, start, slots) && CanEndTable(s, start)
    requires TableOffset(s) % 4 == 0 && TableOffset(s) >= |s.data| + 4
    requires TableOffset(s) + VTableSize(s.maxVoffset) < MAX_BUFFER_SIZE && m == Max(s.minalign, 4)
    requires VTableSize(s.maxVoffset) % 2 == 0 && VTableSize(s.maxVoffset) < 0x1_0000
    requires var vt := NewVTable(s, start); d == vt + (SignedLE(|vt|) + TableBody(s))
    ensures Extends(d, s.data) && HoldsAt(d, m, TableOffset(s), Table(slots))
    ensures |d| == TableOffset(s) + |NewVTable(s, start)|
    ensures VTable(d, |d| - TableOffset(s)) == Ok(0)
    ensures At(d, 0, NewVTable(s, start)) && ReadLE(d, 0, 2) == Ok(|NewVTable(s, start)|)
    ensures TableSizeAt(d, TableOffset(s), TableOffset(s) - start)
  {
    hide *;
    BodyExtends(s);
    var vt := NewVTable(s, start);
    NewVTableAt(vt, SignedLE(|vt|), TableBody(s), d);
    ExtendsTrans(d, TableBody(s), s.data);
    MaxAtLeast(s.minalign, 4);
    TableEnds(s, start, slots, d, m, 0);
  }

  lemma OldVTableAt(d1: seq<Byte>, body: seq<Byte>, known: nat, vt: seq<Byte>, so: seq<Byte>, d: seq<Byte>)
    requires |d1| >= 4 && body == d1[4..] && |so| == 4 && d == so + body
    requires known <= |body| && SameVTable(d1, known, vt)
    ensures SameVTable(d, known, vt)
  {
    var p := |d| - known;
    assert d[p..p + |vt|] == d1[p..p + |vt|];
  }

  lemma NewVTableAt(vt: seq<Byte>, so: seq<Byte>, body: seq<Byte>, d: seq<Byte>)
    requires d == vt + (so + body)
    ensures At(d, 0, vt) && At(d, |vt|, so) && Extends(d, body)
  {
    AtMiddle([], vt, so + body);
    assert [] + (vt + (so + body)) == d;
    AtMiddle(vt, so, body);
    assert d == (vt + so) + body;
    ExtendsPush(vt + so, body);
  }

  lemma TableEnds(s: Builder, start: nat, slots: seq<Slot>, d: seq<Byte>, m: nat, vp: int)
    requires InTable(s, start, slots) && CanEndTable(s, start)
    requires s.minalign <= m && 4 <= m && VTableSize(s.maxVoffset) + 4 <= |d|
    requires Extends(d, s.data) && TableOffset(s) <= |d| < MAX_BUFFER_SIZE
    requires TableOffset(s) % 4 == 0 && TableOffset(s) >= |s.data| + 4
    requires VTableSize(s.maxVoffset) % 2 == 0 && VTableSize(s.maxVoffset) < 0x1_0000
    requires 0 <= vp <= |d| && (|d| - vp) % 2 == 0
    requires At(d, vp, NewVTable(s, start))
    requires At(d, |d| - TableOffset(s), SignedLE(|d| - TableOffset(s) - vp))
    ensures HoldsAt(d, m, TableOffset(s), Table(slots))
    ensures VTable(d, |d| - TableOffset(s)) == Ok(vp) && ReadLE(d, vp, 2) == Ok(|NewVTable(s, start)|)
    ensures TableSizeAt(d, TableOffset(s), TableOffset(s) - start)
  {
    hide *;
    EndedFields(s, start, slots, d, vp);
    EndedSlots(s, start, slots, d, m);
    LargestSize(s);
    EndedAligned(s, start, d, m, vp);
    var off := TableOffset(s);
    TableHolds(d, m, |d| - off, vp, s.fields, VTableSize(s.maxVoffset), off - start, slots);
    HasFieldsVTable(d, |d| - off, vp, s.fields, VTableSize(s.maxVoffset), off - start);
    EndedSize(d, m, off, vp, off - start, slots);
  }

  lemma EndedAligned(s: Builder, start: nat, d: seq<Byte>, m: nat, vp: int)
    requires CanEndTable(s, start) && 4 <= m && (|d| - vp) % 2 == 0 && TableOffset(s) % 4 == 0
    ensures Aligned(d, vp, 2) && AlignedBy(d, m, |d| - TableOffset(s), 4)
    ensures 0 <= TableOffset(s) - start < 0x1_0000
    ensures VTableSize(s.maxVoffset) == |NewVTable(s, start)| && TableOffset(s) > 0
  {
    hide NewVTable;
    hide PushElement;
    OpenedLonger(s);
  }

  lemma EndedSize(d: seq<Byte>, m: nat, off: nat, vp: int, n: int, slots: seq<Slot>)
    requires VTable(d, |d| - off) == Ok(vp) && 0 <= n && ReadLE(d, vp + 2, 2) == Ok(n as nat)
    requires 0 < off <= |d| && Holds(d, m, |d| - off, Table(slots))
    ensures TableSizeAt(d, off, n) && HoldsAt(d, m, off, Table(slots))
  {
    hide Holds;
  }

  lemma EndedFields(s: Builder, start: nat, slots: seq<Slot>, d: seq<Byte>, vp: int)
    requires InTable(s, start, slots) && CanEndTable(s, start)
    requires VTableSize(s.maxVoffset) + 4 <= |d| && TableOffset(s) <= |d| < MAX_BUFFER_SIZE
    requires TableOffset(s) >= |s.data| + 4
    requires VTableSize(s.maxVoffset) % 2 == 0 && VTableSize(s.maxVoffset) < 0x1_0000
    requires 0 <= vp <= |d| && At(d, vp, NewVTable(s, start))
    requires At(d, |d| - TableOffset(s), SignedLE(|d| - TableOffset(s) - vp))
    ensures HasFields(d, |d| - TableOffset(s), vp, s.fields, VTableSize(s.maxVoffset), TableOffset(s) - start)
  {
    hide TableOffset;
    hide SignedLE;
    hide SlotsStored;
    hide LargestTracked;
    ReadSignedOfAt(d, |d| - TableOffset(s), |d| - TableOffset(s) - vp);
  }

  lemma EndedSlots(s: Builder, start: nat, slots: seq<Slot>, d: seq<Byte>, m: nat)
    requires InTable(s, start, slots) && s.minalign <= m && Extends(d, s.data)
    ensures SlotsStored(d, m, s.fields, slots) && LargestTracked(s) && s.maxVoffset <= 0xFFFC
  {
    hide SlotStored;
    hide FieldsTracked;
    hide LargestTracked;
    forall i | 0 <= i < |slots| ensures SlotStored(d, m, s.fields, slots[i]) {
      SlotStoredExtends(d, m, s.data, s.minalign, s.fields, slots[i]);
    }
  }
}
