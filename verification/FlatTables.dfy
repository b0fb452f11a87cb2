/** Tables: the vtable leads to every field that was added, and to no other. */
module FlatTables {
  import opened Bytes
  import opened FlatReader
  import opened FlatLayout
  import opened FlatBuilder
  import opened FlatObjects

  /** Where field `id` was written, as the offset of its first byte from the end. */
  function Loc(fields: seq<FieldLoc>, id: nat): Option<nat> {
    if fields == [] then None else
    var f := fields[|fields| - 1];
    if f.id == id then Some(f.off) else Loc(fields[..|fields| - 1], id)
  }

  lemma {:induction false} LocIn(fields: seq<FieldLoc>, id: nat)
    ensures Loc(fields, id).Some? ==> FieldLoc(Loc(fields, id).value, id) in fields
    ensures Loc(fields, id).None? ==> forall i | 0 <= i < |fields| :: fields[i].id != id
  {
    if fields != [] {
      LocIn(fields[..|fields| - 1], id);
    }
  }

  lemma WriteAtSame(b: seq<Byte>, i: nat, bytes: seq<Byte>)
    requires i + |bytes| <= |b|
    ensures WriteAt(b, i, bytes)[i..i + |bytes|] == bytes
  {
  }

  lemma WriteAtOther(b: seq<Byte>, i: nat, bytes: seq<Byte>, j: nat, n: nat)
    requires i + |bytes| <= |b| && j + n <= |b|
    requires j + n <= i || i + |bytes| <= j
    ensures WriteAt(b, i, bytes)[j..j + n] == b[j..j + n]
  {
    var r := WriteAt(b, i, bytes);
    forall k | j <= k < j + n ensures r[k] == b[k] {
    }
  }

  lemma {:induction false} FillVTableAt(vt: seq<Byte>, fields: seq<FieldLoc>, table: nat, id: nat)
    requires FieldsFit(fields, |vt|, table) && id % 2 == 0 && id + 2 <= |vt|
    ensures Loc(fields, id).Some? ==> Loc(fields, id).value <= table
    ensures FillVTable(vt, fields, table)[id..id + 2] ==
      match Loc(fields, id)
      case Some(off) => LE(table - off, 2)
      case None => vt[id..id + 2]
  {
    hide LE;
    hide WriteAt;
    if fields != [] {
      var n := |fields| - 1;
      var f := fields[n];
      assert f.id % 2 == 0;
      FillVTableAt(vt, fields[..n], table, id);
      var inner := FillVTable(vt, fields[..n], table);
      if f.id == id {
        WriteAtSame(inner, id, LE(table - f.off, 2));
      } else {
        assert f.id + 2 <= id || id + 2 <= f.id;
        WriteAtOther(inner, f.id, LE(table - f.off, 2), id, 2);
      }
    }
  }

  lemma EmptyVTableAt(size: nat, tableSize: nat, id: nat)
    requires size >= 4 && id % 2 == 0
    ensures EmptyVTable(size, tableSize)[..2] == LE(size, 2)
    ensures EmptyVTable(size, tableSize)[2..4] == LE(tableSize, 2)
    ensures 4 <= id && id + 2 <= size ==> EmptyVTable(size, tableSize)[id..id + 2] == LE(0, 2)
  {
    LEOfZero(2);
  }

  /** The vtable at `vp` is the one for `fields`, and the table at `t`, offset `|d| - t`, points to it. */
  predicate HasFields(d: seq<Byte>, t: int, vp: int, fields: seq<FieldLoc>, size: nat, tableSize: nat) {
    && 0 <= t <= |d|
    && ReadSigned(d, t) == Ok(t - vp)
    && 4 <= size < 0x1_0000 && size % 2 == 0 && size + 4 <= |d|
    && FieldsFit(fields, size, |d| - t)
    && (forall i | 0 <= i < |fields| :: 0 < |d| - t - fields[i].off < 0x1_0000)
    && At(d, vp, FillVTable(EmptyVTable(size, tableSize), fields, |d| - t))
  }

  lemma HasFieldsVTable(d: seq<Byte>, t: int, vp: int, fields: seq<FieldLoc>, size: nat, tableSize: nat)
    requires HasFields(d, t, vp, fields, size, tableSize)
    requires Aligned(d, vp, 2)
    ensures HasVTable(d, t) && VTable(d, t) == Ok(vp) && ReadLE(d, vp, 2) == Ok(size)
    ensures tableSize < 0x1_0000 ==> ReadLE(d, vp + 2, 2) == Ok(tableSize)
  {
    hide LE;
    var vt := FillVTable(EmptyVTable(size, tableSize), fields, |d| - t);
    FillVTableAt(EmptyVTable(size, tableSize), fields, |d| - t, 0);
    LocIn(fields, 0);
    EmptyVTableAt(size, tableSize, 0);
    AtInner(d, vp, vt, 0, LE(size, 2));
    Ranges();
    ReadOfAt(d, vp, size, 2);
    FillVTableAt(EmptyVTable(size, tableSize), fields, |d| - t, 2);
    LocIn(fields, 2);
    AtInner(d, vp, vt, 2, LE(tableSize, 2));
    if tableSize < 0x1_0000 {
      ReadOfAt(d, vp + 2, tableSize, 2);
    }
  }

  /** A reader finds each field at the place where it was written, and nothing for the other ids. */
  lemma FieldOffsetOf(
    d: seq<Byte>, t: int, vp: int, fields: seq<FieldLoc>, size: nat, tableSize: nat, id: nat)
    requires HasFields(d, t, vp, fields, size, tableSize)
    requires Aligned(d, vp, 2)
    requires 4 <= id && id % 2 == 0
    ensures FieldOffset(d, t, id) == Ok(match Loc(fields, id) case Some(off) => |d| - t - off case None => 0)
    ensures Loc(fields, id).Some? ==> 0 < |d| - t - Loc(fields, id).value
  {
    hide LE;
    hide ReadLE;
    hide At;
    hide FillVTable;
    hide ReadSigned;
    HasFieldsVTable(d, t, vp, fields, size, tableSize);
    LocIn(fields, id);
    if id + 2 <= size {
      var vt := FillVTable(EmptyVTable(size, tableSize), fields, |d| - t);
      FillVTableAt(EmptyVTable(size, tableSize), fields, |d| - t, id);
      EmptyVTableAt(size, tableSize, id);
      var n := match Loc(fields, id) case Some(off) => |d| - t - off case None => 0;
      AtInner(d, vp, vt, id, LE(n, 2));
      Ranges();
      ReadOfAt(d, vp + id, n, 2);
    }
  }

  /** The value of `slot` stands where the fields say it does. */
  ghost predicate SlotStored(d: seq<Byte>, m: nat, fields: seq<FieldLoc>, slot: Slot) {
    IsFieldId(slot.id) &&
    match Loc(fields, slot.id)
    case None =>
      (match slot.value
       case Scalar(w, n, default) => IsWidth(w) && n < Range(w) && n == default
       case Null => true
       case _ => false)
    case Some(off) =>
      match slot.value
      case Scalar(w, n, _) => IsWidth(w) && n < Range(w) && HoldsScalar(d, m, |d| - off, n, w)
      case Ref(o) => HoldsRef(d, m, |d| - off, o)
      case Null => false
      case Struct(bytes, a) => IsAlign(a) && AlignedBy(d, m, |d| - off, a) && At(d, |d| - off, bytes)
  }

  lemma SlotStoredExtends(
    d1: seq<Byte>, m1: nat, d0: seq<Byte>, m0: nat, fields: seq<FieldLoc>, slot: Slot)
    requires Extends(d1, d0) && m0 <= m1 && SlotStored(d0, m0, fields, slot)
    ensures SlotStored(d1, m1, fields, slot)
  {
    var pre := ExtendsSplit(d1, d0);
    match Loc(fields, slot.id)
    case None =>
    case Some(off) =>
      var p := |d0| - off;
      assert |pre| + p == |d1| - off;
      match slot.value
      case Scalar(w, n, _) => ReadShift(pre, d0, p, w);
      case Ref(o) => HoldsRefShift(pre, d0, m0, m1, p, o);
      case Null =>
      case Struct(bytes, a) => AtShift(pre, d0, p, bytes);
  }

  /** `fields` records exactly `slots`, all of them stored in `d`. */
  ghost predicate SlotsStored(d: seq<Byte>, m: nat, fields: seq<FieldLoc>, slots: seq<Slot>) {
    && (forall i | 0 <= i < |slots| :: SlotStored(d, m, fields, slots[i]))
    && (forall id | Loc(fields, id).Some? :: HasId(slots, id))
  }

  lemma TableHolds(
    d: seq<Byte>, m: nat, t: int, vp: int, fields: seq<FieldLoc>, size: nat, tableSize: nat, slots: seq<Slot>)
    requires HasFields(d, t, vp, fields, size, tableSize)
    requires Aligned(d, vp, 2) && AlignedBy(d, m, t, 4)
    requires SlotsStored(d, m, fields, slots)
    requires size == 4 || (size > 4 && Loc(fields, size - 2).Some?)
    ensures Holds(d, m, t, Table(slots))
  {
    HasFieldsVTable(d, t, vp, fields, size, tableSize);
    TightHolds(d, t, vp, fields, size, tableSize);
    hide HasFields;
    forall id | IsFieldId(id) && !HasId(slots, id) ensures FieldOffset(d, t, id) == Ok(0) {
      FieldOffsetOf(d, t, vp, fields, size, tableSize, id);
    }
    forall i | 0 <= i < |slots| ensures HoldsSlot(d, m, t, slots[i]) {
      SlotHolds(d, m, t, vp, fields, size, tableSize, slots[i]);
    }
  }

  lemma TightHolds(d: seq<Byte>, t: int, vp: int, fields: seq<FieldLoc>, size: nat, tableSize: nat)
    requires HasFields(d, t, vp, fields, size, tableSize) && Aligned(d, vp, 2)
    requires size == 4 || (size > 4 && Loc(fields, size - 2).Some?)
    ensures VTableTight(d, t)
  {
    HasFieldsVTable(d, t, vp, fields, size, tableSize);
    if size > 4 {
      assert size % 2 == 0;
      hide *;
      FieldOffsetOf(d, t, vp, fields, size, tableSize, size - 2);
      TightIs(d, t, vp, size);
    }
  }

  lemma TightIs(d: seq<Byte>, t: int, vp: int, size: nat)
    requires VTable(d, t) == Ok(vp) && ReadLE(d, vp, 2) == Ok(size) && size > 4
    requires FieldOffset(d, t, size - 2).Ok? && FieldOffset(d, t, size - 2).value > 0
    ensures VTableTight(d, t)
  {
    hide FieldOffset;
  }

  lemma SlotHolds(
    d: seq<Byte>, m: nat, t: int, vp: int, fields: seq<FieldLoc>, size: nat, tableSize: nat, slot: Slot)
    requires HasFields(d, t, vp, fields, size, tableSize)
    requires Aligned(d, vp, 2)
    requires SlotStored(d, m, fields, slot)
    ensures HoldsSlot(d, m, t, slot)
  {
    hide HasFields;
    hide HoldsScalar;
    hide FieldOffset;
    FieldOffsetOf(d, t, vp, fields, size, tableSize, slot.id);
    match Loc(fields, slot.id)
    case None =>
    case Some(off) => assert t + (|d| - t - off) == |d| - off;
  }
}
