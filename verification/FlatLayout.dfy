/** What it means for bytes to hold an object, and why writing in front of them changes nothing. */
module FlatLayout {
  import opened Bytes
  import opened FlatReader

  /**
    The objects a builder can write. Scalars are bit patterns; `default` is the value the schema gives
    an absent field.
   */
  datatype Obj =
    | Str(chars: seq<Byte>)
    | Scalars(width: nat, elems: seq<nat>)
    | Refs(objs: seq<Obj>)
    | Table(slots: seq<Slot>)

  datatype Slot = Slot(id: nat, value: Value)

  datatype Value =
    | Scalar(width: nat, bits: nat, default: nat)
    | Ref(obj: Obj)
    | Null
    | Struct(bytes: seq<Byte>, align: nat)

  /** Position `p` is a multiple of `a` away from the end of the buffer. */
  predicate Aligned(b: seq<Byte>, p: int, a: nat)
    requires IsAlign(a)
  {
    Rem(|b| - p, a) == 0
  }

  /** And `a` is among the alignments the buffer as a whole is padded for. */
  predicate AlignedBy(b: seq<Byte>, m: nat, p: int, a: nat)
    requires IsAlign(a)
  {
    a <= m && Aligned(b, p, a)
  }

  predicate HasId(slots: seq<Slot>, id: nat) {
    exists i | 0 <= i < |slots| :: slots[i].id == id
  }

  predicate IsFieldId(id: nat) {
    4 <= id <= 0xFFFC && id % 2 == 0
  }

  /** The table at `t` has a vtable inside the buffer, of an even size, at an even distance from the end. */
  predicate HasVTable(b: seq<Byte>, t: int) {
    match VTable(b, t)
    case Ok(vt) =>
      (match ReadLE(b, vt, 2)
       case Ok(size) => 4 <= size && size + 4 <= |b| && size % 2 == 0 && vt + size <= |b| && Aligned(b, vt, 2)
       case Oob => false)
    case Oob => false
  }

  /** The vtable ends behind the largest id that has a field, or behind its two sizes when there is none. */
  predicate VTableTight(b: seq<Byte>, t: int) {
    match VTable(b, t)
    case Ok(vt) =>
      (match ReadLE(b, vt, 2)
       case Ok(size) => size == 4 || (size > 4 && FieldOffset(b, t, size - 2).Ok? && FieldOffset(b, t, size - 2) != Ok(0))
       case Oob => false)
    case Oob => false
  }

  /**
    The object `o` is laid out in `b` at position `p`, and nothing in it needs an alignment above `m`.
    Alignments count from the end of the buffer, the only place that stays put while it grows.
   */
  ghost predicate Holds(b: seq<Byte>, m: nat, p: int, o: Obj)
    decreases o, 0
  {
    && 0 <= p <= |b|
    && AlignedBy(b, m, p, 4)
    && match o
       case Str(s) => |s| < 0x8000_0000 && At(b, p, LE(|s|, 4) + s + [0])
       case Scalars(w, xs) =>
         && IsWidth(w) && |xs| < 0x8000_0000
         && (forall i | 0 <= i < |xs| :: xs[i] < Range(w))
         && (xs != [] ==> AlignedBy(b, m, p + 4, w))
         && At(b, p, LE(|xs|, 4) + Encode(w, xs))
       case Refs(os) =>
         && ReadLE(b, p, 4) == Ok(|os|)
         && forall i | 0 <= i < |os| :: HoldsRef(b, m, p + 4 + 4 * i, os[i])
       case Table(slots) =>
         && HasVTable(b, p) && VTableTight(b, p)
         && (forall id | IsFieldId(id) && !HasId(slots, id) :: FieldOffset(b, p, id) == Ok(0))
         && forall i | 0 <= i < |slots| :: HoldsSlot(b, m, p, slots[i])
  }

  /** At `p` stands the offset of `o`. */
  ghost predicate HoldsRef(b: seq<Byte>, m: nat, p: int, o: Obj)
    decreases o, 1
  {
    && AlignedBy(b, m, p, 4)
    && match ReadLE(b, p, 4)
       case Ok(u) => 4 <= u < 0x8000_0000 && Holds(b, m, p + u, o)
       case Oob => false
  }

  ghost predicate HoldsSlot(b: seq<Byte>, m: nat, t: int, slot: Slot)
    decreases slot
  {
    IsFieldId(slot.id) &&
    match FieldOffset(b, t, slot.id)
    case Oob => false
    case Ok(o) =>
      match slot.value
      case Scalar(w, n, d) =>
        IsWidth(w) && n < Range(w) && if o == 0 then n == d else HoldsScalar(b, m, t + o, n, w)
      case Ref(obj) => o != 0 && HoldsRef(b, m, t + o, obj)
      case Null => o == 0
      case Struct(bs, a) => o != 0 && IsAlign(a) && AlignedBy(b, m, t + o, a) && At(b, t + o, bs)
  }

  predicate HoldsScalar(b: seq<Byte>, m: nat, p: int, n: nat, w: nat)
    requires IsWidth(w)
  {
    AlignedBy(b, m, p, w) && ReadLE(b, p, w) == Ok(n)
  }

  /** Growing the buffer at its front moves an object but keeps it. */
  lemma {:induction false} HoldsShift(pre: seq<Byte>, b: seq<Byte>, m: nat, n: nat, p: int, o: Obj)
    requires Holds(b, m, p, o) && m <= n
    ensures Holds(pre + b, n, |pre| + p, o)
    decreases o, 0
  {
    hide HoldsSlot;
    hide HoldsRef;
    hide FieldOffset;
    hide At;
    hide ReadLE;
    hide HasVTable;
    hide VTableTight;
    hide LE;
    match o
    case Str(s) => AtShift(pre, b, p, LE(|s|, 4) + s + [0]);
    case Scalars(w, xs) => AtShift(pre, b, p, LE(|xs|, 4) + Encode(w, xs));
    case Refs(os) =>
      ReadShift(pre, b, p, 4);
      forall i | 0 <= i < |os| ensures HoldsRef(pre + b, n, |pre| + p + 4 + 4 * i, os[i]) {
        HoldsRefShift(pre, b, m, n, p + 4 + 4 * i, os[i]);
      }
    case Table(slots) =>
      HasVTableShift(pre, b, p);
      VTableTightShift(pre, b, p);
      forall id | IsFieldId(id) && !HasId(slots, id)
        ensures FieldOffset(pre + b, |pre| + p, id) == Ok(0)
      {
        FieldOffsetShift(pre, b, p, id);
      }
      forall i | 0 <= i < |slots| ensures HoldsSlot(pre + b, n, |pre| + p, slots[i]) {
        HoldsSlotShift(pre, b, m, n, p, slots[i]);
      }
  }

  lemma HasVTableShift(pre: seq<Byte>, b: seq<Byte>, t: int)
    requires HasVTable(b, t)
    ensures HasVTable(pre + b, |pre| + t)
  {
    VTableShift(pre, b, t);
    ReadShift(pre, b, VTable(b, t).value, 2);
  }

  lemma VTableTightShift(pre: seq<Byte>, b: seq<Byte>, t: int)
    requires VTableTight(b, t)
    ensures VTableTight(pre + b, |pre| + t)
  {
    hide FieldOffset;
    VTableShift(pre, b, t);
    var vt := VTable(b, t).value;
    ReadShift(pre, b, vt, 2);
    var size := ReadLE(b, vt, 2).value;
    if size > 4 {
      FieldOffsetShift(pre, b, t, size - 2);
    }
  }

  lemma {:induction false} HoldsRefShift(pre: seq<Byte>, b: seq<Byte>, m: nat, n: nat, p: int, o: Obj)
    requires HoldsRef(b, m, p, o) && m <= n
    ensures HoldsRef(pre + b, n, |pre| + p, o)
    decreases o, 1
  {
    ReadShift(pre, b, p, 4);
    var u := ReadLE(b, p, 4).value;
    HoldsShift(pre, b, m, n, p + u, o);
    assert |pre| + (p + u) == (|pre| + p) + u;
  }

  lemma {:induction false} HoldsSlotShift(pre: seq<Byte>, b: seq<Byte>, m: nat, n: nat, t: int, slot: Slot)
    requires HoldsSlot(b, m, t, slot) && m <= n
    ensures HoldsSlot(pre + b, n, |pre| + t, slot)
    decreases slot
  {
    hide HoldsRef;
    hide FieldOffset;
    hide ReadLE;
    hide At;
    FieldOffsetShift(pre, b, t, slot.id);
    var o := FieldOffset(b, t, slot.id).value;
    assert |pre| + (t + o) == (|pre| + t) + o;
    match slot.value
    case Scalar(w, x, d) =>
      if o != 0 {
        ReadShift(pre, b, t + o, w);
      }
    case Ref(obj) => HoldsRefShift(pre, b, m, n, t + o, obj);
    case Null =>
    case Struct(bs, a) => AtShift(pre, b, t + o, bs);
  }
}
