/** The type bytes of the format as numbers: what a reader in another language finds in front of it. */
module FlexTypes {
  import opened Bytes
  import opened FlexReader
  import opened FlexBuilder
  import opened FlexRun

  /** The number that stands for the type of a value. */
  function TypeNumber(t: Tree): nat {
    match t
    case TNull => 0
    case TInt(_) => 1
    case TUInt(_) => 2
    case TKey(_) => 4
    case TString(_) => 5
    case TIndirectInt(_) => 6
    case TIndirectUInt(_) => 7
    case TMap(_) => 9
    case TVector(_) => 10
    case TBlob(_) => 25
    case TBool(_) => 26
    case TTyped(elem, _) =>
      if elem == 1 then 11 else if elem == 2 then 12 else if elem == 4 then 14 else 36
    case TFixed(elem, es) =>
      if elem == 1 then if |es| == 2 then 16 else if |es| == 3 then 19 else 22
      else if |es| == 2 then 17 else if |es| == 3 then 20 else 23
  }

  /** The number of bytes that the two low bits of a type byte tell. */
  function WidthNumber(bits: nat): nat
    requires bits < 4
  {
    [1, 2, 4, 8][bits]
  }

  lemma KindIsNumber(b: seq<Byte>, r: Ref, t: Tree)
    requires Reads(b, r, t)
    ensures r.kind == TypeNumber(t)
  {
    hide ReadLE;
    hide At;
    hide KeysStand;
    hide Ascending;
  }

  /** Type and width of the root, in the last byte but one; the width of its slot in the last. */
  lemma RootByte(ops: seq<Op>, flags: Flags, b: seq<Byte>)
    requires Finished(ops, flags, b)
    ensures OpsOk(ops) && |Trees(ops)| == 1
    ensures |b| >= 2 && b[|b| - 2] / 4 == TypeNumber(Trees(ops)[0])
    ensures GetRoot(b).Ok? && GetRoot(b).value.byteWidth == WidthNumber(b[|b| - 2] % 4)
    ensures GetRoot(b).value.pos == |b| - 2 - b[|b| - 1]
  {
    hide Run;
    hide Trees;
    hide OpsOk;
    hide Reads;
    FlexRoundTrip(ops, flags, b);
    KindIsNumber(b, GetRoot(b).value, Trees(ops)[0]);
    ByteIs(b, |b| - 1);
    ByteIs(b, |b| - 2);
  }

  lemma ByteIs(b: seq<Byte>, p: int)
    requires ReadLE(b, p, 1).Ok?
    ensures 0 <= p < |b| && ReadLE(b, p, 1) == Ok(b[p] as nat)
  {
    assert b[p..p + 1] == [b[p]] && [b[p]][1..] == [];
    assert Val([b[p]]) == b[p] + 256 * Val([]);
  }

  /** And of element `i` of `n` in a vector or map, behind the last of them. */
  lemma ElementByte(b: seq<Byte>, p: int, w: nat, n: nat, i: nat, t: Tree)
    requires IsWidth(w) && SizeBefore(b, p, w) == Ok(n) && i < n && ReadsAt(b, VectorAt(b, p, w, i), t)
    ensures var q := p + Scale(n, w) + i;
      && 0 <= q < |b| && b[q] / 4 == TypeNumber(t)
      && VectorAt(b, p, w, i).value.byteWidth == WidthNumber(b[q] % 4)
  {
    hide *;
    KindOfElement(b, VectorAt(b, p, w, i), t);
    PackedIs(b, p, w, n, i);
    WidthIs(b[p + Scale(n, w) + i] % 4);
  }

  lemma KindOfElement(b: seq<Byte>, r: Read<Ref>, t: Tree)
    requires ReadsAt(b, r, t)
    ensures r.Ok? && r.value.kind == TypeNumber(t)
  {
    hide Reads;
    KindIsNumber(b, r.value, t);
  }

  lemma PackedIs(b: seq<Byte>, p: int, w: nat, n: nat, i: nat)
    requires IsWidth(w) && SizeBefore(b, p, w) == Ok(n) && i < n && VectorAt(b, p, w, i).Ok?
    ensures var q := p + Scale(n, w) + i;
      && 0 <= q < |b|
      && VectorAt(b, p, w, i) == Ok(Ref(p + Scale(i, w), w, ByteWidth(b[q] % 4), b[q] / 4))
  {
    hide SizeBefore;
    hide ReadLE;
    hide Scale;
    hide ByteWidth;
    ByteIs(b, p + Scale(n, w) + i);
  }

  lemma WidthIs(bits: nat)
    requires bits < 4
    ensures ByteWidth(bits) == WidthNumber(bits)
  {
  }
}
