/**
  Reading a finished buffer: `Table`, `Vector` and `GetRoot`. Positions count from the front of the
  buffer; every access that would leave it yields `Oob`.
 */
module FlatReader {
  import opened Bytes

  /** The vtable is found by a signed distance stored at the start of the table. */
  function VTable(b: seq<Byte>, t: int): Read<int> {
    var d :- ReadSigned(b, t);
    Ok(t - d)
  }

  /** Where in the table the field is, or 0 when it is absent. */
  function FieldOffset(b: seq<Byte>, t: int, id: nat): Read<nat> {
    var vt :- VTable(b, t);
    var size :- ReadLE(b, vt, 2);
    if id < size then ReadLE(b, vt + id, 2) else Ok(0)
  }

  function GetField(b: seq<Byte>, t: int, id: nat, w: nat, default: nat): Read<nat> {
    var o :- FieldOffset(b, t, id);
    if o != 0 then ReadLE(b, t + o, w) else Ok(default)
  }

  /** The position an offset stored at `p` points to. */
  function Deref(b: seq<Byte>, p: int): Read<int> {
    var u :- ReadLE(b, p, 4);
    Ok(p + u)
  }

  function GetPointer(b: seq<Byte>, t: int, id: nat): Read<Option<int>> {
    var o :- FieldOffset(b, t, id);
    if o != 0 then
      var q :- Deref(b, t + o);
      Ok(Some(q))
    else
      Ok(None)
  }

  function GetStruct(b: seq<Byte>, t: int, id: nat): Read<Option<int>> {
    var o :- FieldOffset(b, t, id);
    Ok(if o != 0 then Some(t + o) else None)
  }

  function VectorSize(b: seq<Byte>, v: int): Read<nat> {
    ReadLE(b, v, 4)
  }

  function VectorScalar(b: seq<Byte>, v: int, w: nat, i: nat): Read<nat>
    requires IsWidth(w)
  {
    ReadLE(b, v + 4 + Scale(i, w), w)
  }

  function VectorRef(b: seq<Byte>, v: int, i: nat): Read<int> {
    Deref(b, v + 4 + 4 * i)
  }

  /** The root table of a buffer whose root offset is stored at `start`. */
  function GetRoot(b: seq<Byte>, start: nat): Read<int> {
    Deref(b, start)
  }

  lemma SignedShift(pre: seq<Byte>, b: seq<Byte>, p: int)
    requires ReadSigned(b, p).Ok?
    ensures ReadSigned(pre + b, |pre| + p) == ReadSigned(b, p)
  {
    ReadShift(pre, b, p, 4);
  }

  lemma VTableShift(pre: seq<Byte>, b: seq<Byte>, t: int)
    requires VTable(b, t).Ok?
    ensures VTable(pre + b, |pre| + t) == Ok(|pre| + VTable(b, t).value)
  {
    SignedShift(pre, b, t);
  }

  lemma FieldOffsetShift(pre: seq<Byte>, b: seq<Byte>, t: int, id: nat)
    requires FieldOffset(b, t, id).Ok?
    ensures FieldOffset(pre + b, |pre| + t, id) == FieldOffset(b, t, id)
  {
    VTableShift(pre, b, t);
    var vt := VTable(b, t).value;
    ReadShift(pre, b, vt, 2);
    if id < ReadLE(b, vt, 2).value {
      ReadShift(pre, b, vt + id, 2);
      assert |pre| + (vt + id) == (|pre| + vt) + id;
    }
  }

  lemma DerefShift(pre: seq<Byte>, b: seq<Byte>, p: int)
    requires Deref(b, p).Ok?
    ensures Deref(pre + b, |pre| + p) == Ok(|pre| + Deref(b, p).value)
  {
    ReadShift(pre, b, p, 4);
  }
}
