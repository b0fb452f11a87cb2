/** Sharing keeps the meaning: that of vtables, which never makes the buffer longer, and that of strings. */
module FlatDedup {
  import opened Bytes
  import opened FlatReader
  import opened FlatLayout
  import opened FlatBuilder
  import opened FlatObjects
  import opened FlatFields
  import opened FlatPool
  import opened FlatRun
  import opened FlatRoundTrip
  import opened FlatFinish

  /** `s`, built with shared vtables, against `t`, built without, at the same point of a run. */
  predicate NoLonger(s: Builder, t: Builder) {
    && |s.data| <= |t.data|
    && s.forceDefaults == t.forceDefaults && !t.dedup
    && s.minalign == t.minalign && s.maxVoffset == t.maxVoffset && IsAlign(s.minalign)
    && s.nested == t.nested
    && |s.pool| == |t.pool|
    && forall i | 0 <= i < |s.pool| :: StringAt(s.data, s.pool[i]) == StringAt(t.data, t.pool[i])
  }

  lemma PadMonotone(x: nat, y: nat, len: nat, a: nat)
    requires IsAlign(a) && x <= y
    ensures PaddingBytes(x + len, a) + x <= PaddingBytes(y + len, a) + y
  {
    hide *;
    RemGap(x + len + PaddingBytes(x + len, a), y + len + PaddingBytes(y + len, a), a);
  }

  /** The part of `NoLonger` that operations other than shared strings preserve by themselves. */
  predicate Leq(s: Builder, t: Builder) {
    && |s.data| <= |t.data|
    && s.forceDefaults == t.forceDefaults && !t.dedup
    && s.minalign == t.minalign && s.maxVoffset == t.maxVoffset && IsAlign(s.minalign)
    && s.nested == t.nested
  }

  lemma PreAlignLeq(s: Builder, t: Builder, len: nat, a: nat)
    requires Leq(s, t) && IsAlign(a)
    ensures Leq(PreAlign(s, len, a), PreAlign(t, len, a))
  {
    hide PaddingBytes;
    PadMonotone(|s.data|, |t.data|, len, a);
  }

  lemma PushElementLeq(s: Builder, t: Builder, x: nat, y: nat, w: nat)
    requires Leq(s, t) && IsWidth(w)
    ensures Leq(PushElement(s, x, w), PushElement(t, y, w))
  {
    hide PaddingBytes;
    hide LE;
    PadMonotone(|s.data|, |t.data|, 0, w);
  }

  lemma PushLeq(s: Builder, t: Builder, bytes: seq<Byte>)
    requires Leq(s, t)
    ensures Leq(Push(s, bytes), Push(t, bytes))
  {
  }

  lemma AlignLeq(s: Builder, t: Builder, a: nat)
    requires Leq(s, t) && IsAlign(a)
    ensures Leq(Align(s, a), Align(t, a))
  {
    hide PaddingBytes;
    PadMonotone(|s.data|, |t.data|, 0, a);
  }

  lemma PushOffsetLeq(s: Builder, t: Builder, x: nat, y: nat)
    requires Leq(s, t) && x <= |s.data| && y <= |t.data|
    ensures Leq(PushOffset(s, x), PushOffset(t, y))
  {
    AlignLeq(s, t, 4);
    PushElementLeq(Align(s, 4), Align(t, 4), ReferTo(s, x), ReferTo(t, y), 4);
  }

  lemma StartVectorLeq(s: Builder, t: Builder, len: nat, w: nat)
    requires Leq(s, t) && IsWidth(w)
    ensures Leq(StartVector(s, len, w), StartVector(t, len, w))
  {
    hide PreAlign;
    var n := Scale(len, w);
    var s1, t1 := s.(nested := true), t.(nested := true);
    PreAlignLeq(s1, t1, n, 4);
    PreAlignLeq(PreAlign(s1, n, 4), PreAlign(t1, n, 4), n, w);
  }

  lemma EndVectorLeq(s: Builder, t: Builder, len: nat)
    requires Leq(s, t)
    ensures Leq(EndVector(s, len), EndVector(t, len))
  {
    PushElementLeq(s.(nested := false), t.(nested := false), len, len, 4);
  }

  lemma CreateStringLeq(s: Builder, t: Builder, chars: seq<Byte>)
    requires Leq(s, t)
    ensures Leq(CreateString(s, chars), CreateString(t, chars))
  {
    hide PreAlign;
    hide PushElement;
    hide Push;
    PreAlignLeq(s, t, |chars| + 1, 4);
    var s1, t1 := PreAlign(s, |chars| + 1, 4), PreAlign(t, |chars| + 1, 4);
    PushLeq(s1, t1, [0]);
    PushLeq(Push(s1, [0]), Push(t1, [0]), chars);
    PushElementLeq(Push(Push(s1, [0]), chars), Push(Push(t1, [0]), chars), |chars|, |chars|, 4);
  }

  lemma CreateVectorLeq(s: Builder, t: Builder, w: nat, xs: seq<nat>)
    requires Leq(s, t) && IsWidth(w)
    ensures Leq(CreateVector(s, w, xs), CreateVector(t, w, xs))
  {
    hide StartVector;
    hide EndVector;
    hide Push;
    StartVectorLeq(s, t, |xs|, w);
    var s1, t1 := StartVector(s, |xs|, w), StartVector(t, |xs|, w);
    PushLeq(s1, t1, Encode(w, xs));
    EndVectorLeq(Push(s1, Encode(w, xs)), Push(t1, Encode(w, xs)), |xs|);
  }

  lemma {:induction false} PushOffsetsLeq(s: Builder, t: Builder, xs: seq<nat>, ys: seq<nat>)
    requires Leq(s, t) && OffsetsIn(s, xs) && OffsetsIn(t, ys) && |xs| == |ys|
    ensures Leq(PushOffsets(s, xs), PushOffsets(t, ys))
  {
    hide Leq;
    hide PushOffset;
    hide PushOffsets;
    if xs == [] {
      PushOffsetsNil(s);
      PushOffsetsNil(t);
      assert ys == [];
    } else {
      PushOffsetsCons(s, xs);
      PushOffsetsCons(t, ys);
      PushOffsetsLeq(s, t, xs[1..], ys[1..]);
      PushOffsetLeq(PushOffsets(s, xs[1..]), PushOffsets(t, ys[1..]), xs[0], ys[0]);
    }
  }

  lemma CreateOffsetsLeq(s: Builder, t: Builder, xs: seq<nat>, ys: seq<nat>)
    requires Leq(s, t) && OffsetsIn(s, xs) && OffsetsIn(t, ys) && |xs| == |ys|
    ensures Leq(CreateOffsets(s, xs), CreateOffsets(t, ys))
  {
    hide Leq;
    hide StartVector;
    hide EndVector;
    StartVectorLeq(s, t, |xs|, 4);
    var s1, t1 := StartVector(s, |xs|, 4), StartVector(t, |ys|, 4);
    StartVectorExtends(s, |xs|, 4);
    StartVectorExtends(t, |ys|, 4);
    PushOffsetsLeq(s1, t1, xs, ys);
    EndVectorLeq(PushOffsets(s1, xs), PushOffsets(t1, ys), |xs|);
  }

  lemma TrackFieldLeq(s: Builder, t: Builder, id: nat, x: nat, y: nat)
    requires Leq(s, t)
    ensures Leq(TrackField(s, id, x), TrackField(t, id, y))
  {
  }

  lemma AddOneLeq(s: Builder, t: Builder, xs: seq<nat>, ys: seq<nat>, a: Add)
    requires Leq(s, t) && |xs| == |ys| && AddOk(a, |xs|)
    requires !AddOne(s, xs, a).Misuse? && AddOne(t, ys, a).Done? && |t.data| < MAX_BUFFER_SIZE
    ensures AddOne(s, xs, a).Done? && Leq(AddOne(s, xs, a).value, AddOne(t, ys, a).value)
    ensures |AddOne(t, ys, a).value.data| < MAX_BUFFER_SIZE
  {
    hide PushElement;
    hide PushOffset;
    hide Align;
    hide TrackField;
    LeqForce(s, t);
    match a
    case AddScalar(id, w, n, d) =>
      PushElementLeq(s, t, n, n, w);
      var s1, t1 := PushElement(s, n, w), PushElement(t, n, w);
      TrackFieldLeq(s1, t1, id, |s1.data|, |t1.data|);
    case AddRef(id, Some(h)) =>
      AddOffsetPushes(s, id, xs[h]);
      AddOffsetPushes(t, id, ys[h]);
      PushOffsetLeq(s, t, xs[h], ys[h]);
      var s1, t1 := PushOffset(s, xs[h]), PushOffset(t, ys[h]);
      TrackFieldLeq(s1, t1, id, |s1.data|, |t1.data|);
    case AddRef(id, None) =>
    case AddBytes(_, None, _) =>
    case AddBytes(id, Some(bytes), a) =>
      AlignLeq(s, t, a);
      PushLeq(Align(s, a), Align(t, a), bytes);
      var s1, t1 := Push(Align(s, a), bytes), Push(Align(t, a), bytes);
      TrackFieldLeq(s1, t1, id, |s1.data|, |t1.data|);
  }

  lemma LeqForce(s: Builder, t: Builder)
    requires Leq(s, t)
    ensures s.forceDefaults == t.forceDefaults
  {
  }

  lemma {:induction false} AddAllLeq(s: Builder, t: Builder, xs: seq<nat>, ys: seq<nat>, adds: seq<Add>)
    requires Leq(s, t) && |xs| == |ys| && forall i | 0 <= i < |adds| :: AddOk(adds[i], |xs|)
    requires !AddAll(s, xs, adds).Misuse? && AddAll(t, ys, adds).Done? && |t.data| < MAX_BUFFER_SIZE
    ensures AddAll(s, xs, adds).Done? && Leq(AddAll(s, xs, adds).value, AddAll(t, ys, adds).value)
    ensures |AddAll(t, ys, adds).value.data| < MAX_BUFFER_SIZE
    decreases |adds|
  {
    hide Leq;
    hide AddOne;
    if adds != [] {
      var n := |adds| - 1;
      AddAllLeq(s, t, xs, ys, adds[..n]);
      AddOneLeq(AddAll(s, xs, adds[..n]).value, AddAll(t, ys, adds[..n]).value, xs, ys, adds[n]);
    }
  }

  lemma EndTableLeq(s: Builder, t: Builder, x: nat, y: nat)
    requires Leq(s, t) && CanEndTable(s, x) && CanEndTable(t, y)
    ensures Leq(EndTable(s, x), EndTable(t, y))
  {
    hide CanEndTable;
    hide PushElement;
    hide NewVTable;
    hide SignedLE;
    hide FindVTable;
    PushElementLeq(s, t, 0, 0, 4);
    PushElementKeeps(s, 0, 4);
    PushElementKeeps(t, 0, 4);
  }

  lemma LeqOf(s: Builder, t: Builder)
    requires NoLonger(s, t)
    ensures Leq(s, t)
  {
  }

  /** The pools of the two runs still hold the same strings when both buffers have grown. */
  lemma PoolsGrow(s: Builder, t: Builder, s1: Builder, t1: Builder)
    requires NoLonger(s, t) && Idle(s) && Idle(t) && Leq(s1, t1)
    requires Grows(s1, s) && Grows(t1, t) && s1.pool == s.pool && t1.pool == t.pool
    ensures NoLonger(s1, t1)
  {
    hide HoldsAt;
    hide StringAt;
    PoolExtends(s1.data, s1.minalign, s.data, s.minalign, s.pool);
    PoolExtends(t1.data, t1.minalign, t.data, t.minalign, t.pool);
  }

  /** Both pools find a string, or neither does. */
  lemma FindAlike(d: seq<Byte>, p: seq<nat>, e: seq<Byte>, q: seq<nat>, chars: seq<Byte>)
    requires |p| == |q| && forall i | 0 <= i < |p| :: StringAt(d, p[i]) == StringAt(e, q[i])
    ensures FindString(d, p, chars).Some? <==> FindString(e, q, chars).Some?
  {
    hide StringAt;
    FindStringFinds(d, p, chars);
    FindStringFinds(e, q, chars);
    if FindString(d, p, chars).Some? {
      var i :| 0 <= i < |p| && p[i] == FindString(d, p, chars).value;
      assert StringAt(e, q[i]) == chars;
    }
    if FindString(e, q, chars).Some? {
      var i :| 0 <= i < |q| && q[i] == FindString(e, q, chars).value;
      assert StringAt(d, p[i]) == chars;
    }
  }

  lemma SharedNoLonger(s: Builder, t: Builder, chars: seq<Byte>)
    requires NoLonger(s, t) && Idle(s) && Idle(t)
    requires |CreateString(s, chars).data| < MAX_BUFFER_SIZE && |CreateString(t, chars).data| < MAX_BUFFER_SIZE
    ensures NoLonger(CreateSharedString(s, chars).0, CreateSharedString(t, chars).0)
  {
    hide HoldsAt;
    hide StringAt;
    hide CreateString;
    hide PoolOk;
    LeqOf(s, t);
    CreateStringLeq(s, t, chars);
    CreateStringGrows(s, chars);
    CreateStringGrows(t, chars);
    var s1, t1 := CreateString(s, chars), CreateString(t, chars);
    PoolsGrow(s, t, s1, t1);
    FindAlike(s1.data, s1.pool, t1.data, t1.pool, chars);
    if FindString(s1.data, s.pool, chars).None? {
      CreateStringLength(s, chars);
      StringHolds(s, chars);
      StringHolds(t, chars);
      StringAtHeld(s1.data, s1.minalign, |s1.data|, chars);
      StringAtHeld(t1.data, t1.minalign, |t1.data|, chars);
    }
  }

  lemma TableLeq(s: Builder, t: Builder, xs: seq<nat>, ys: seq<nat>, adds: seq<Add>)
    requires Leq(s, t) && |xs| == |ys| && AddsOk(adds, |xs|) && |t.data| < MAX_BUFFER_SIZE
    requires BuildOne(s, xs, MakeTable(adds)).Done? && BuildOne(t, ys, MakeTable(adds)).Done?
    ensures Leq(BuildOne(s, xs, MakeTable(adds)).value.0, BuildOne(t, ys, MakeTable(adds)).value.0)
  {
    hide Leq;
    hide AddAll;
    hide EndTable;
    hide CanEndTable;
    StartTableLeq(s, t);
    AddAllLeq(StartTable(s), StartTable(t), xs, ys, adds);
    var s2, t2 := AddAll(StartTable(s), xs, adds).value, AddAll(StartTable(t), ys, adds).value;
    EndTableLeq(s2, t2, |s.data|, |t.data|);
  }

  /** Anything but a table or a shared string. */
  lemma OtherLeq(s: Builder, t: Builder, xs: seq<nat>, ys: seq<nat>, op: Op)
    requires Leq(s, t) && |xs| == |ys| && OpOk(op, |xs|) && !op.MakeTable? && !op.MakeShared?
    requires !BuildOne(s, xs, op).Misuse? && BuildOne(t, ys, op).Done?
    ensures BuildOne(s, xs, op).Done?
    ensures Leq(BuildOne(s, xs, op).value.0, BuildOne(t, ys, op).value.0)
  {
    hide CreateString;
    hide CreateVector;
    hide CreateOffsets;
    match op
    case MakeString(chars) => CreateStringLeq(s, t, chars);
    case MakeVector(w, vs) => CreateVectorLeq(s, t, w, vs);
    case MakeOffsets(hs) => CreateOffsetsLeq(s, t, Args(xs, hs), Args(ys, hs));
    case _ =>
  }

  lemma BuildOneNoLonger(s: Builder, t: Builder, xs: seq<nat>, ys: seq<nat>, os: seq<Obj>, op: Op)
    requires NoLonger(s, t) && Idle(s) && Idle(t)
    requires AllHold(s.data, s.minalign, xs, os) && AllHold(t.data, t.minalign, ys, os)
    requires |xs| == |os| && |ys| == |os| && OpOk(op, |os|)
    requires BuildOne(s, xs, op).Done? && BuildOne(t, ys, op).Done?
    ensures NoLonger(BuildOne(s, xs, op).value.0, BuildOne(t, ys, op).value.0)
  {
    assert |t.data| < MAX_BUFFER_SIZE;
    TableArgs(op, |os|);
    if op.MakeShared? {
      SharedBuilt(s, t, xs, ys, op.chars);
    } else {
      hide *;
      LeqOf(s, t);
      BuildOneKeepsPool(s, xs, os, op);
      BuildOneKeepsPool(t, ys, os, op);
      if op.MakeTable? {
        TableLeq(s, t, xs, ys, op.adds);
      } else {
        OtherLeq(s, t, xs, ys, op);
      }
      PoolsGrow(s, t, BuildOne(s, xs, op).value.0, BuildOne(t, ys, op).value.0);
    }
  }

  lemma TableArgs(op: Op, k: nat)
    requires OpOk(op, k)
    ensures op.MakeTable? ==> AddsOk(op.adds, k)
  {
  }

  lemma SharedBuilt(s: Builder, t: Builder, xs: seq<nat>, ys: seq<nat>, chars: seq<Byte>)
    requires NoLonger(s, t) && Idle(s) && Idle(t)
    requires BuildOne(s, xs, MakeShared(chars)).Done? && BuildOne(t, ys, MakeShared(chars)).Done?
    ensures NoLonger(BuildOne(s, xs, MakeShared(chars)).value.0, BuildOne(t, ys, MakeShared(chars)).value.0)
  {
    hide NoLonger;
    hide Idle;
    hide CreateString;
    hide CreateSharedString;
    SharedNoLonger(s, t, chars);
  }

  lemma StartTableLeq(s: Builder, t: Builder)
    requires Leq(s, t)
    ensures Leq(StartTable(s), StartTable(t))
  {
  }

  lemma BuildOneKeepsPool(b: Builder, offs: seq<nat>, os: seq<Obj>, op: Op)
    requires Idle(b) && AllHold(b.data, b.minalign, offs, os) && |offs| == |os| && OpOk(op, |os|)
    requires BuildOne(b, offs, op).Done? && !op.MakeShared?
    ensures var r := BuildOne(b, offs, op).value.0; Grows(r, b) && r.pool == b.pool && r.forceDefaults == b.forceDefaults
  {
    hide HoldsAt;
    hide AllHold;
    hide InTable;
    hide CreateString;
    hide CreateVector;
    hide CreateOffsets;
    hide AddAll;
    hide EndTable;
    hide PoolOk;
    match op
    case MakeString(chars) => CreateStringGrows(b, chars);
    case MakeVector(w, xs) => CreateVectorGrows(b, w, xs);
    case MakeOffsets(hs) => CreateOffsetsGrows(b, Args(offs, hs));
    case MakeTable(adds) =>
      TableIdle(b, offs, adds, os);
      StartTableIn(b);
      AddAllIn(StartTable(b), |b.data|, offs, os, adds);
      EndTablePool(AddAll(StartTable(b), offs, adds).value, |b.data|);
  }

  lemma EndTablePool(s: Builder, start: nat)
    requires CanEndTable(s, start)
    ensures EndTable(s, start).pool == s.pool && EndTable(s, start).forceDefaults == s.forceDefaults
  {
  }

  /** At every point of a run, the buffer with shared vtables is no longer than the one without. */
  lemma {:induction false} RunNoLonger(ops: seq<Op>, force: bool)
    requires OpsOk(ops)
    requires Run(ops, force, true).Done? && Run(ops, force, false).Done?
    ensures NoLonger(Run(ops, force, true).value.b, Run(ops, force, false).value.b)
  {
    hide HoldsAt;
    hide Idle;
    hide BuildOne;
    if ops == [] {
    } else {
      hide NoLonger;
      var n := |ops| - 1;
      RunNoLonger(ops[..n], force);
      RunHolds(ops[..n], force, true);
      RunHolds(ops[..n], force, false);
      var s, t := Run(ops[..n], force, true).value, Run(ops[..n], force, false).value;
      BuildOneNoLonger(s.b, t.b, s.offs, t.offs, Meaning(ops[..n]), ops[n]);
    }
  }

  /**
    Sharing vtables keeps the meaning: both buffers read back as the same object, and the one with shared
    vtables is no longer than the other.
   */
  lemma DedupKeepsMeaning(
    ops: seq<Op>, force: bool, root: nat, ident: seq<Byte>, sizePrefix: bool, b: seq<Byte>, c: seq<Byte>)
    requires Finished(ops, force, true, root, ident, sizePrefix, b)
    requires Finished(ops, force, false, root, ident, sizePrefix, c)
    ensures ReadsAt(b, GetRoot(b, RootAt(sizePrefix)), Meaning(ops)[root])
    ensures ReadsAt(c, GetRoot(c, RootAt(sizePrefix)), Meaning(ops)[root])
    ensures |b| <= |c|
  {
    RoundTrip(ops, force, true, root, ident, sizePrefix, b);
    RoundTrip(ops, force, false, root, ident, sizePrefix, c);
    FinishedNoLonger(ops, force, root, ident, sizePrefix, b, c);
  }

  lemma FinishedNoLonger(
    ops: seq<Op>, force: bool, root: nat, ident: seq<Byte>, sizePrefix: bool, b: seq<Byte>, c: seq<Byte>)
    requires Finished(ops, force, true, root, ident, sizePrefix, b)
    requires Finished(ops, force, false, root, ident, sizePrefix, c)
    ensures |b| <= |c|
  {
    hide *;
    var st, off := FinishedState(ops, force, true, root, ident, sizePrefix, b);
    var tt, ott := FinishedState(ops, force, false, root, ident, sizePrefix, c);
    RunNoLonger(ops, force);
    LeqOf(st.b, tt.b);
    Finishing(st.b, off, ident, sizePrefix, b);
    FinishNoLonger(st.b, off, tt.b, ott, ident, sizePrefix, b, c);
  }

  lemma Finishing(s: Builder, off: nat, ident: seq<Byte>, sizePrefix: bool, b: seq<Byte>)
    requires FinishesTo(s, off, ident, sizePrefix, b)
    ensures CanReferTo(s, off) && IsAlign(s.minalign) && b == Finish(s, off, ident, sizePrefix).data
  {
  }

  lemma FinishNoLonger(
    s: Builder, x: nat, t: Builder, y: nat, ident: seq<Byte>, sizePrefix: bool, b: seq<Byte>, c: seq<Byte>)
    requires Leq(s, t) && FinishesTo(t, y, ident, sizePrefix, c)
    requires CanReferTo(s, x) && IsAlign(s.minalign) && b == Finish(s, x, ident, sizePrefix).data
    ensures |b| <= |c|
  {
    hide Leq;
    hide PreAlign;
    hide Push;
    hide PushOffset;
    hide PushElement;
    var len := RootAt(sizePrefix) + 4 + |ident|;
    var s0, t0 := s.(vtables := []), t.(vtables := []);
    LeqClear(s, t);
    PreAlignLeq(s0, t0, len, s.minalign);
    var s1, t1 := PreAlign(s0, len, s.minalign), PreAlign(t0, len, s.minalign);
    PushLeq(s1, t1, ident);
    var s2, t2 := Push(s1, ident), Push(t1, ident);
    PreAlignExtends(s0, len, s.minalign);
    PreAlignExtends(t0, len, s.minalign);
    PushLength(s1, ident);
    PushLength(t1, ident);
    PushOffsetLeq(s2, t2, x, y);
    var s3, t3 := PushOffset(s2, x), PushOffset(t2, y);
    if sizePrefix {
      PushElementLeq(s3, t3, |s3.data|, |t3.data|, 4);
      LeqLength(PushElement(s3, |s3.data|, 4), PushElement(t3, |t3.data|, 4));
    } else {
      LeqLength(s3, t3);
    }
  }

  lemma LeqClear(s: Builder, t: Builder)
    requires Leq(s, t)
    ensures Leq(s.(vtables := []), t.(vtables := [])) && s.minalign == t.minalign
  {
  }

  lemma PushLength(s: Builder, bytes: seq<Byte>)
    ensures |Push(s, bytes).data| >= |s.data|
  {
  }

  lemma LeqLength(s: Builder, t: Builder)
    requires Leq(s, t)
    ensures |s.data| <= |t.data|
  {
  }

  /** The same run with every shared string made an ordinary one. */
  function Unshared(ops: seq<Op>): (r: seq<Op>)
    ensures |r| == |ops|
  {
    seq(|ops|, i requires 0 <= i < |ops| => if ops[i].MakeShared? then MakeString(ops[i].chars) else ops[i])
  }

  lemma {:induction false} UnsharedMeaning(ops: seq<Op>)
    requires OpsOk(ops)
    ensures OpsOk(Unshared(ops)) && Meaning(Unshared(ops)) == Meaning(ops)
  {
    var n := |ops| - 1;
    if ops != [] {
      UnsharedMeaning(ops[..n]);
      assert Unshared(ops)[..n] == Unshared(ops[..n]);
      forall i | 0 <= i < |ops| ensures OpOk(Unshared(ops)[i], i) {
        assert OpOk(ops[i], i);
      }
    }
  }

  /** A reader cannot tell whether strings were shared. */
  lemma SharingKeepsMeaning(
    ops: seq<Op>, force: bool, dedup: bool, root: nat, ident: seq<Byte>, sizePrefix: bool, b: seq<Byte>, c: seq<Byte>)
    requires Finished(ops, force, dedup, root, ident, sizePrefix, b)
    requires Finished(Unshared(ops), force, dedup, root, ident, sizePrefix, c)
    ensures ReadsAt(b, GetRoot(b, RootAt(sizePrefix)), Meaning(ops)[root])
    ensures ReadsAt(c, GetRoot(c, RootAt(sizePrefix)), Meaning(ops)[root])
  {
    hide Run;
    hide ReadsAt;
    hide Meaning;
    RoundTrip(ops, force, dedup, root, ident, sizePrefix, b);
    RoundTrip(Unshared(ops), force, dedup, root, ident, sizePrefix, c);
    UnsharedMeaning(ops);
  }

  /** The offset of every shared string a run has made is in the pool. */
  lemma {:induction false} SharedPooled(ops: seq<Op>, force: bool, dedup: bool, k: nat)
    requires OpsOk(ops) && Run(ops, force, dedup).Done? && k < |ops| && ops[k].MakeShared?
    ensures var st := Run(ops, force, dedup).value; st.offs[k] in st.b.pool
  {
    hide BuildOne;
    hide Idle;
    hide AllHold;
    var n := |ops| - 1;
    RunHolds(ops[..n], force, dedup);
    var st := Run(ops[..n], force, dedup).value;
    var (r, off) := BuildOne(st.b, st.offs, ops[n]).value;
    if k == n {
      SharedStep(st.b, st.offs, ops[n]);
    } else {
      SharedPooled(ops[..n], force, dedup, k);
      StepKeepsPool(st.b, st.offs, Meaning(ops[..n]), ops[n]);
    }
  }

  lemma SharedStep(b: Builder, offs: seq<nat>, op: Op)
    requires Idle(b) && op.MakeShared? && BuildOne(b, offs, op).Done?
    ensures |CreateString(b, op.chars).data| < MAX_BUFFER_SIZE
    ensures BuildOne(b, offs, op).value == CreateSharedString(b, op.chars)
    ensures var (r, off) := BuildOne(b, offs, op).value;
      off in r.pool && forall p | p in b.pool :: p in r.pool
  {
    hide CreateString;
    hide CreateSharedString;
    hide PoolOk;
    SharedStringHolds(b, op.chars);
  }

  /** Nothing is ever taken out of the pool. */
  lemma StepKeepsPool(b: Builder, offs: seq<nat>, os: seq<Obj>, op: Op)
    requires Idle(b) && AllHold(b.data, b.minalign, offs, os) && |offs| == |os| && OpOk(op, |os|)
    requires BuildOne(b, offs, op).Done?
    ensures forall p | p in b.pool :: p in BuildOne(b, offs, op).value.0.pool
  {
    hide Idle;
    hide AllHold;
    hide BuildOne;
    if op.MakeShared? {
      SharedStep(b, offs, op);
    } else {
      BuildOneKeepsPool(b, offs, os, op);
    }
  }

  /** All calls of a run that make the same shared string return the same offset; only the first adds to the buffer. */
  lemma {:induction false} EqualSharedStrings(ops: seq<Op>, force: bool, dedup: bool, i: nat, j: nat)
    requires OpsOk(ops) && Run(ops, force, dedup).Done?
    requires i < j < |ops| && ops[i].MakeShared? && ops[i] == ops[j]
    ensures var st := Run(ops, force, dedup).value; st.offs[i] == st.offs[j]
    ensures Run(ops[..j], force, dedup).Done? && Run(ops[..j + 1], force, dedup).Done?
    ensures Run(ops[..j + 1], force, dedup).value.b.data == Run(ops[..j], force, dedup).value.b.data
    decreases |ops|
  {
    hide BuildOne;
    hide Idle;
    var n := |ops| - 1;
    var st := Run(ops[..n], force, dedup).value;
    if j < n {
      EqualSharedStrings(ops[..n], force, dedup, i, j);
      assert ops[..n][..j] == ops[..j] && ops[..n][..j + 1] == ops[..j + 1];
    } else {
      assert ops[..j] == ops[..n] && ops[..j + 1] == ops;
      RunHolds(ops[..n], force, dedup);
      SharedPooled(ops[..n], force, dedup, i);
      SharedMeaning(ops[..n], i);
      AllHoldAt(st.b.data, st.b.minalign, st.offs, Meaning(ops[..n]), i);
      SharedStep(st.b, st.offs, ops[n]);
      StringAgain(st.b, ops[n].chars, st.offs[i]);
    }
  }

  lemma StringAgain(b: Builder, chars: seq<Byte>, off: nat)
    requires Idle(b) && |CreateString(b, chars).data| < MAX_BUFFER_SIZE
    requires off in b.pool && HoldsAt(b.data, b.minalign, off, Str(chars))
    ensures CreateSharedString(b, chars).1 == off && CreateSharedString(b, chars).0.data == b.data
  {
    hide HoldsAt;
    hide PoolOk;
    hide CreateString;
    hide CreateSharedString;
    SharedStringAgain(b, chars, off);
  }

  lemma {:induction false} SharedMeaning(ops: seq<Op>, k: nat)
    requires OpsOk(ops) && k < |ops| && ops[k].MakeShared?
    ensures Meaning(ops)[k] == Str(ops[k].chars)
  {
    var n := |ops| - 1;
    if k < n {
      SharedMeaning(ops[..n], k);
    }
  }
}
