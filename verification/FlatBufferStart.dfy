/**
  `GetBufferStartFromRootPointer`: finding the start of a buffer from its root table by searching backwards
  for a word that points to it.
 */
module FlatBufferStart {
  import opened Bytes
  import opened FlatReader
  import opened FlatLayout
  import opened FlatBuilder
  import opened FlatObjects
  import opened FlatFields
  import opened FlatRun
  import opened FlatRoundTrip
  import opened FlatFinish

  const MAX_ALIGNMENT := 32

  /** The nearest word before `start` that points to `root`, among the next `tries`. */
  function FindRoot(b: seq<Byte>, root: int, start: int, tries: nat): Read<Option<int>>
    decreases tries
  {
    if tries == 0 then Ok(None) else
    var p := start - 4;
    var u :- ReadLE(b, p, 4);
    if u + p == root then Ok(Some(p)) else FindRoot(b, root, p, tries - 1)
  }

  function SearchFrom(vtable: int, root: int): int {
    var first := if vtable < root then vtable else root;
    first - first % 4
  }

  function BufferStart(b: seq<Byte>, root: int): Read<Option<int>> {
    var vt :- VTable(b, root);
    FindRoot(b, root, SearchFrom(vt, root), MAX_ALIGNMENT / 4 + 1)
  }

  method GetBufferStart(b: seq<Byte>, root: int) returns (r: Option<int>)
    requires BufferStart(b, root).Ok?
    ensures BufferStart(b, root) == Ok(r)
  {
    hide ReadLE;
    var start := SearchFrom(VTable(b, root).value, root);
    var possibleRoots: nat := MAX_ALIGNMENT / 4 + 1;
    while possibleRoots > 0
      invariant FindRoot(b, root, start, possibleRoots) == BufferStart(b, root)
    {
      start := start - 4;
      if ReadLE(b, start, 4).value + start == root {
        return Some(start);
      }
      possibleRoots := possibleRoots - 1;
    }
    return None;
  }

  /** The table or its vtable is at the very front: nothing was built after it. */
  predicate TableFirst(d: seq<Byte>, off: nat) {
    && 0 < off <= |d| && |d| - off < 0x1_0000
    && match VTable(d, |d| - off)
       case Ok(vt) => vt >= 0 && (vt == 0 || off == |d|)
       case Oob => false
  }

  lemma EndedFirst(s: Builder, start: nat, r: Builder)
    requires CanEndTable(s, start) && VTablesIn(s.data, s.vtables) && VTableSize(s.maxVoffset) < 0x1_0000
    requires r == EndTable(s, start) && VTableChosen(s, start, r)
    ensures TableFirst(r.data, TableOffset(s))
  {
    hide NewVTable;
    hide SignedLE;
    hide VTable;
    hide ReadLE;
    hide At;
    EndTableShape(s, start);
    TableSizes(s, start);
    hide EndTable;
    hide KnownVTable;
    hide SameVTable;
  }

  /** A run that ends with a table has this table first in its buffer. */
  lemma LastTableFirst(ops: seq<Op>, force: bool, dedup: bool)
    requires OpsOk(ops) && ops != [] && ops[|ops| - 1].MakeTable? && Run(ops, force, dedup).Done?
    ensures var st := Run(ops, force, dedup).value; TableFirst(st.b.data, st.offs[|ops| - 1])
  {
    hide BuildOne;
    hide Idle;
    hide HoldsAt;
    hide TableFirst;
    var n := |ops| - 1;
    var adds := ops[n].adds;
    RunHolds(ops[..n], force, dedup);
    var st := Run(ops[..n], force, dedup).value;
    TableBuiltFirst(st.b, st.offs, adds, Meaning(ops[..n]));
  }

  lemma TableBuiltFirst(b: Builder, offs: seq<nat>, adds: seq<Add>, os: seq<Obj>)
    requires Idle(b) && AllHold(b.data, b.minalign, offs, os) && AddsOk(adds, |os|) && |offs| == |os|
    requires BuildOne(b, offs, MakeTable(adds)).Done?
    ensures var (r, off) := BuildOne(b, offs, MakeTable(adds)).value; TableFirst(r.data, off)
  {
    hide InTable;
    hide HoldsAt;
    hide AllHold;
    hide TableFirst;
    hide AddAll;
    hide TableOffset;
    hide EndTable;
    hide CanEndTable;
    hide VTableSize;
    StartTableIn(b);
    AddAllIn(StartTable(b), |b.data|, offs, os, adds);
    var b1 := AddAll(StartTable(b), offs, adds).value;
    VTablesExtend(b1.data, b.data, b.vtables);
    InTableFields(b1, |b.data|, Slots(adds, os));
    EndTableHolds(b1, |b.data|, Slots(adds, os));
    EndedFirst(b1, |b.data|, EndTable(b1, |b.data|));
  }

  /** The words between the root offset and the objects: an identifier or nothing but zeros. */
  predicate Harmless(b: seq<Byte>, p: nat, root: int) {
    match ReadLE(b, p, 4)
    case Ok(u) => u + p != root
    case Oob => false
  }

  lemma {:induction false} FindRootBack(b: seq<Byte>, root: int, start: nat, tries: nat)
    requires start % 4 == 0 && 4 <= start <= 4 * tries
    requires ReadLE(b, 0, 4) == Ok(root)
    requires forall p | 4 <= p < start && p % 4 == 0 :: Harmless(b, p, root)
    ensures FindRoot(b, root, start, tries) == Ok(Some(0))
    decreases tries
  {
    hide ReadLE;
    if start > 4 {
      assert Harmless(b, start - 4, root);
      FindRootBack(b, root, start - 4, tries - 1);
    }
  }

  lemma ZeroWord(b: seq<Byte>, p: nat)
    requires p + 4 <= |b| && forall k | p <= k < p + 4 :: b[k] == 0
    ensures ReadLE(b, p, 4) == Ok(0)
  {
    LEOfZero(4);
    assert b[p..p + 4] == Zeros(4);
    Ranges();
    ReadOfAt(b, p, 0, 4);
  }

  /** Four characters that are not NUL read as a number far beyond the position of any root found here. */
  lemma IdentWord(b: seq<Byte>, p: nat, ident: seq<Byte>)
    requires At(b, p, ident) && |ident| == 4 && forall i | 0 <= i < 4 :: ident[i] != 0
    ensures ReadLE(b, p, 4).Ok? && ReadLE(b, p, 4).value >= 0x100_0000
  {
    assert b[p..p + 4] == ident;
    assert ident[1..][1..][1..] == ident[3..] && ident[3..][1..] == [];
    assert Val(ident[3..]) == ident[3] as nat;
    assert Val(ident[1..][1..]) >= 0x100 * Val(ident[3..]);
    assert Val(ident[1..]) >= 0x100 * Val(ident[1..][1..]);
  }

  lemma HeaderHarmless(d: seq<Byte>, m: nat, off: nat, ident: seq<Byte>, p: nat)
    requires IsAlign(m) && 0 < off <= |d| && |d| - off < 0x1_0000
    requires ident == [] || (|ident| == 4 && forall i | 0 <= i < 4 :: ident[i] != 0)
    requires var b := FinishBytes(d, m, off, ident, false);
      4 <= p && p % 4 == 0 && p + 4 <= |b| - |d|
    ensures var b := FinishBytes(d, m, off, ident, false); Harmless(b, p, |b| - off)
  {
    hide LE;
    hide ReadLE;
    hide PaddingBytes;
    var b, pad := FinishBytes(d, m, off, ident, false), FinishPad(|d|, m, ident, false);
    var head := LE(|ident| + |pad| + |d| - off + 4, 4);
    assert b == head + (ident + (pad + d));
    assert |b| == 4 + |ident| + |pad| + |d|;
    if p < 4 + |ident| {
      AtMiddle(head, ident, pad + d);
      IdentWord(b, 4, ident);
    } else {
      forall k | p <= k < p + 4 ensures b[k] == 0 {
        assert b[k] == pad[k - 4 - |ident|];
      }
      ZeroWord(b, p);
    }
  }

  /** The header is at most the root offset, an identifier and padding below the largest alignment. */
  lemma HeaderSize(d: seq<Byte>, m: nat, off: nat, ident: seq<Byte>)
    requires IsAlign(m) && off <= |d| && |ident| <= 4
    ensures 4 <= |FinishBytes(d, m, off, ident, false)| - |d| < 40
  {
    hide LE;
    hide PaddingBytes;
  }

  lemma FirstInBuffer(b: seq<Byte>, d: seq<Byte>, off: nat)
    requires Extends(b, d) && TableFirst(d, off)
    ensures VTable(b, |b| - off).Ok?
    ensures var vt := VTable(b, |b| - off).value;
      SearchFrom(vt, |b| - off) == (|b| - |d|) - (|b| - |d|) % 4
  {
    hide VTable;
    var pre := ExtendsSplit(b, d);
    VTableShift(pre, d, |d| - off);
    assert |pre| + (|d| - off) == |b| - off;
  }

  lemma StartFound(d: seq<Byte>, m: nat, off: nat, ident: seq<Byte>, b: seq<Byte>)
    requires IsAlign(m) && TableFirst(d, off) && b == FinishBytes(d, m, off, ident, false)
    requires |b| < MAX_BUFFER_SIZE
    requires ident == [] || (|ident| == 4 && forall i | 0 <= i < 4 :: ident[i] != 0)
    ensures BufferStart(b, |b| - off) == Ok(Some(0))
  {
    hide *;
    FirstOff(d, off);
    FinishRoot(d, m, off, ident, false);
    RootWord(b, |b| - off);
    HeaderSize(d, m, off, ident);
    FirstInBuffer(b, d, off);
    var start := (|b| - |d|) - (|b| - |d|) % 4;
    forall p | 4 <= p < start && p % 4 == 0 ensures Harmless(b, p, |b| - off) {
      HeaderHarmless(d, m, off, ident, p);
    }
    FindRootBack(b, |b| - off, start, 9);
    StartIs(b, |b| - off);
  }

  lemma FirstOff(d: seq<Byte>, off: nat)
    requires TableFirst(d, off)
    ensures 0 < off <= |d| && |d| - off < 0x1_0000
  {
  }

  lemma RootWord(b: seq<Byte>, root: int)
    requires GetRoot(b, RootAt(false)) == Ok(root)
    ensures ReadLE(b, 0, 4) == Ok(root)
  {
    hide ReadLE;
  }

  lemma StartIs(b: seq<Byte>, root: int)
    requires VTable(b, root).Ok?
    ensures BufferStart(b, root) == FindRoot(b, root, SearchFrom(VTable(b, root).value, root), 9)
  {
    hide VTable;
    hide FindRoot;
  }

  /**
    The search inverts `GetRoot`: for a buffer without size prefix, finished right after its root table, with
    no identifier or one of four characters, it yields the start of the buffer.
   */
  lemma BufferStartInverse(ops: seq<Op>, force: bool, dedup: bool, ident: seq<Byte>, b: seq<Byte>)
    requires ops != [] && Finished(ops, force, dedup, |ops| - 1, ident, false, b)
    requires ops[|ops| - 1].MakeTable?
    requires ident == [] || forall i | 0 <= i < |ident| :: ident[i] != 0
    ensures GetRoot(b, 0).Ok? && BufferStart(b, GetRoot(b, 0).value) == Ok(Some(0))
  {
    hide *;
    var st, off := FinishedState(ops, force, dedup, |ops| - 1, ident, false, b);
    LastTableFirst(ops, force, dedup);
    RunHolds(ops, force, dedup);
    AllHoldAt(st.b.data, st.b.minalign, st.offs, Meaning(ops), |ops| - 1);
    MinalignFour(st.b, off, Meaning(ops)[|ops| - 1]);
    StartFinished(st.b, off, ident, b);
  }

  lemma StartFinished(s: Builder, off: nat, ident: seq<Byte>, b: seq<Byte>)
    requires FinishesTo(s, off, ident, false, b) && TableFirst(s.data, off) && 4 <= s.minalign
    requires ident == [] || forall i | 0 <= i < |ident| :: ident[i] != 0
    ensures GetRoot(b, 0).Ok? && BufferStart(b, GetRoot(b, 0).value) == Ok(Some(0))
  {
    hide Finish;
    hide FinishBytes;
    hide TableFirst;
    hide BufferStart;
    FinishIs(s, off, ident, false);
    FinishRoot(s.data, s.minalign, off, ident, false);
    StartFound(s.data, s.minalign, off, ident, b);
  }
}
