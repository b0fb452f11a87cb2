/**
  When a run goes through. The builder gives up on sizes only, and on these exactly: the buffer must stay below
  2^31 - 1 bytes, and a table within what the two bytes for its size can say.
 */
module FlatLimits {
  import opened Bytes
  import opened FlatLayout
  import opened FlatBuilder
  import opened FlatObjects
  import opened FlatFields
  import opened FlatRun
  import opened FlatRoundTrip
  import opened FlatDedup
  import opened FlatDedupFits
  import opened FlatSizes

  /** `least`, padded to a multiple of `a`. */
  function Up(least: nat, a: nat): (n: nat)
    requires IsAlign(a)
    ensures Next(n, least, a)
  {
    least + PaddingBytes(least, a)
  }

  lemma NextOne(n: int, least: nat, a: nat)
    requires IsAlign(a) && Next(n, least, a)
    ensures n == Up(least, a)
  {
    hide *;
    NextParts(n, least, a);
    NextParts(Up(least, a), least, a);
    RemGap(n, Up(least, a), a);
    RemGap(Up(least, a), n, a);
  }

  lemma NextParts(n: int, least: int, a: nat)
    requires IsAlign(a) && Next(n, least, a)
    ensures Rem(n, a) == 0 && least <= n < least + a
  {
  }

  /** The id for which an addition needs an entry in the vtable, 0 if for none. */
  function StoredId(a: Add, force: bool): nat {
    match a
    case AddScalar(id, _, n, d) => if n == d && !force then 0 else id
    case AddRef(id, h) => if h.Some? then id else 0
    case AddBytes(id, p, _) => if p.Some? then id else 0
  }

  function LargestId(adds: seq<Add>, force: bool): nat {
    if adds == [] then 0 else Max(LargestId(adds[..|adds| - 1], force), StoredId(adds[|adds| - 1], force))
  }

  /** The size of a vtable for these additions. */
  function EntriesSize(adds: seq<Add>, force: bool): nat {
    if LargestId(adds, force) == 0 then 4 else LargestId(adds, force) + 2
  }

  /** The size of the buffer while an object is made, before anything is taken back that was there already. */
  function SizeWith(size: nat, op: Op, force: bool, k: nat): nat
    requires OpOk(op, k)
  {
    match op
    case MakeString(chars) => Up(size + |chars| + 5, 4)
    case MakeShared(chars) => Up(size + |chars| + 5, 4)
    case MakeVector(w, xs) =>
      if xs == [] then Up(size + 4, 4) else Up(size + Scale(|xs|, w), if w == 8 then 8 else 4) + 4
    case MakeOffsets(hs) => Up(size + 4 * |hs| + 4, 4)
    case MakeTable(adds) => Placed(SizeAfter(size, adds, force, k), 4, 4) + EntriesSize(adds, force)
  }

  lemma AddOneExact(s: Builder, offs: seq<nat>, a: Add)
    requires AddOk(a, |offs|) && !AddOne(s, offs, a).Misuse? && |s.data| < 0x7FFF_FFFF
    ensures AddOne(s, offs, a).Done? <==> SizeAfterAdd(|s.data|, a, s.forceDefaults, |offs|) < 0x7FFF_FFFF
    ensures AddOne(s, offs, a).Done? ==>
      AddOne(s, offs, a).value.maxVoffset == Max(s.maxVoffset, StoredId(a, s.forceDefaults))
  {
    hide LE;
    match a
    case AddRef(id, Some(h)) => AddOffsetPushes(s, id, offs[h]);
    case _ =>
  }

  lemma {:induction false} AddAllExact(s: Builder, offs: seq<nat>, adds: seq<Add>)
    requires forall i | 0 <= i < |adds| :: AddOk(adds[i], |offs|)
    requires !AddAll(s, offs, adds).Misuse? && |s.data| < 0x7FFF_FFFF
    ensures AddAll(s, offs, adds).Done? <==> SizeAfter(|s.data|, adds, s.forceDefaults, |offs|) < 0x7FFF_FFFF
    ensures AddAll(s, offs, adds).Done? ==>
      AddAll(s, offs, adds).value.maxVoffset == Max(s.maxVoffset, LargestId(adds, s.forceDefaults))
    decreases |adds|
  {
    hide AddOne;
    hide SizeAfterAdd;
    hide StoredId;
    if adds != [] {
      var n := |adds| - 1;
      AddAllExact(s, offs, adds[..n]);
      SizeAddGrows(SizeAfter(|s.data|, adds[..n], s.forceDefaults, |offs|), adds[n], s.forceDefaults, |offs|);
      if AddAll(s, offs, adds[..n]).Done? {
        AddAllSize(s, offs, adds[..n]);
        AddOneExact(AddAll(s, offs, adds[..n]).value, offs, adds[n]);
      }
    }
  }

  lemma SizeAddGrows(size: nat, a: Add, force: bool, k: nat)
    requires AddOk(a, k)
    ensures SizeAfterAdd(size, a, force, k) >= size
  {
  }

  lemma {:induction false} LargestIdOk(adds: seq<Add>, force: bool, k: nat)
    requires forall i | 0 <= i < |adds| :: AddOk(adds[i], k)
    ensures LargestId(adds, force) <= 0xFFFC
    ensures LargestId(adds, force) == 0 || LargestId(adds, force) >= 4
  {
    if adds != [] {
      LargestIdOk(adds[..|adds| - 1], force, k);
      assert AddOk(adds[|adds| - 1], k);
    }
  }

  lemma TableExactly(b: Builder, offs: seq<nat>, adds: seq<Add>)
    requires AddsOk(adds, |offs|) && !BuildOne(b, offs, MakeTable(adds)).Misuse?
    requires |b.data| < 0x7FFF_FFFF && b.maxVoffset == 0
    ensures BuildOne(b, offs, MakeTable(adds)).Done? <==>
      && SizeWith(|b.data|, MakeTable(adds), b.forceDefaults, |offs|) < 0x7FFF_FFFF
      && TableSize(|b.data|, adds, b.forceDefaults, |offs|) < 0x1_0000
  {
    hide AddAll;
    hide CanEndTable;
    hide EndTable;
    hide TableOffset;
    AddAllExact(StartTable(b), offs, adds);
    LargestIdOk(adds, b.forceDefaults, |offs|);
    if AddAll(StartTable(b), offs, adds).Done? {
      TableSizeIs(b, offs, adds);
    }
  }

  /** One object is made exactly when there is room for it. */
  lemma BuildOneExact(b: Builder, offs: seq<nat>, os: seq<Obj>, op: Op)
    requires Idle(b) && AllHold(b.data, b.minalign, offs, os) && |offs| == |os| && OpOk(op, |os|)
    ensures BuildOne(b, offs, op).Done? <==>
      && SizeWith(|b.data|, op, b.forceDefaults, |os|) < 0x7FFF_FFFF
      && TableFits(|b.data|, op, b.forceDefaults, |os|)
  {
    assert |b.data| < 0x7FFF_FFFF && b.maxVoffset == 0 && !b.nested && b.fields == [];
    TableArgs(op, |os|);
    FitsIs(|b.data|, op, b.forceDefaults, |os|);
    hide *;
    BuildOneHolds(b, offs, op, os);
    match op
    case MakeString(chars) => StringExactly(b, offs, chars);
    case MakeShared(chars) => StringExactly(b, offs, chars);
    case MakeVector(w, xs) => VectorExactly(b, offs, w, xs);
    case MakeOffsets(hs) => OffsetsExactly(b, offs, hs);
    case MakeTable(adds) => TableExactly(b, offs, adds);
  }

  lemma StringExactly(b: Builder, offs: seq<nat>, chars: seq<Byte>)
    requires !b.nested && b.fields == []
    ensures BuildOne(b, offs, MakeString(chars)).Done? <==>
      SizeWith(|b.data|, MakeString(chars), b.forceDefaults, |offs|) < 0x7FFF_FFFF
    ensures BuildOne(b, offs, MakeShared(chars)).Done? <==>
      SizeWith(|b.data|, MakeShared(chars), b.forceDefaults, |offs|) < 0x7FFF_FFFF
  {
    StringLength(b, chars);
    hide CreateString;
    hide CreateSharedString;
    hide Up;
  }

  lemma StringLength(b: Builder, chars: seq<Byte>)
    ensures |CreateString(b, chars).data| == Up(|b.data| + |chars| + 5, 4)
  {
    assert IsWidth(4);
    hide *;
    StringTight(b, chars);
    NextOne(|CreateString(b, chars).data|, |b.data| + |chars| + 5, 4);
  }

  lemma VectorExactly(b: Builder, offs: seq<nat>, w: nat, xs: seq<nat>)
    requires !b.nested && b.fields == [] && OpOk(MakeVector(w, xs), |offs|)
    ensures BuildOne(b, offs, MakeVector(w, xs)).Done? <==>
      SizeWith(|b.data|, MakeVector(w, xs), b.forceDefaults, |offs|) < 0x7FFF_FFFF
  {
    VectorLength(b, w, xs);
    hide CreateVector;
    hide Up;
    hide Scale;
    hide Range;
  }

  lemma VectorLength(b: Builder, w: nat, xs: seq<nat>)
    requires IsWidth(w)
    ensures |CreateVector(b, w, xs).data| ==
      if xs == [] then Up(|b.data| + 4, 4) else Up(|b.data| + Scale(|xs|, w), if w == 8 then 8 else 4) + 4
  {
    assert IsWidth(4) && IsWidth(8);
    hide *;
    VectorTight(b, w, xs);
    var n := |CreateVector(b, w, xs).data|;
    if xs == [] {
      NextOne(n, |b.data| + 4, 4);
    } else {
      NextOne(n - 4, |b.data| + Scale(|xs|, w), if w == 8 then 8 else 4);
    }
  }

  lemma OffsetsExactly(b: Builder, offs: seq<nat>, hs: seq<nat>)
    requires !b.nested && b.fields == [] && OpOk(MakeOffsets(hs), |offs|)
    requires !BuildOne(b, offs, MakeOffsets(hs)).Misuse?
    ensures BuildOne(b, offs, MakeOffsets(hs)).Done? <==>
      SizeWith(|b.data|, MakeOffsets(hs), b.forceDefaults, |offs|) < 0x7FFF_FFFF
  {
    hide CreateOffsets;
    hide Up;
    OffsetsTight(b, Args(offs, hs));
    NextOne(|CreateOffsets(b, Args(offs, hs)).data|, |b.data| + 4 * |hs| + 4, 4);
  }

  /** At no step is the buffer or a table too large. */
  predicate AllFit(ops: seq<Op>, force: bool, dedup: bool)
    requires OpsOk(ops)
    decreases |ops|
  {
    ops == [] ||
    var n := |ops| - 1;
    && AllFit(ops[..n], force, dedup)
    && match Run(ops[..n], force, dedup)
       case Done(st) =>
         && SizeWith(|st.b.data|, ops[n], force, n) < 0x7FFF_FFFF
         && TableFits(|st.b.data|, ops[n], force, n)
       case _ => false
  }

  /** And a whole run goes through exactly when there is room for each of its objects. */
  lemma {:induction false} RunExact(ops: seq<Op>, force: bool, dedup: bool)
    requires OpsOk(ops)
    ensures Run(ops, force, dedup).Done? <==> AllFit(ops, force, dedup)
    decreases |ops|
  {
    hide BuildOne;
    hide SizeWith;
    hide TableFits;
    hide Idle;
    hide HoldsAt;
    if ops != [] {
      var n := |ops| - 1;
      RunExact(ops[..n], force, dedup);
      if Run(ops[..n], force, dedup).Done? {
        RunHolds(ops[..n], force, dedup);
        RunForce(ops[..n], force, dedup);
        var st := Run(ops[..n], force, dedup).value;
        BuildOneExact(st.b, st.offs, Meaning(ops[..n]), ops[n]);
      }
    }
  }
}
