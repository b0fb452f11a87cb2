/** Whole runs on the builder object: what the array holds in the end is what the run on values comes to. */
module FlatRunClass {
  import opened Bytes
  import opened FlatLayout
  import FB = FlatBuilder
  import opened FlatRun
  import opened FlatRoundTrip
  import opened FlatFinish
  import opened FlatReader
  import opened FlatBufferBuilderClass

  lemma {:induction false} AddsBefore(b: FB.Builder, offs: seq<nat>, adds: seq<Add>, k: nat)
    requires forall i | 0 <= i < |adds| :: AddOk(adds[i], |offs|)
    requires AddAll(b, offs, adds).Done? && k <= |adds|
    ensures AddAll(b, offs, adds[..k]).Done?
    decreases |adds|
  {
    hide AddOne;
    if k == |adds| {
      assert adds[..k] == adds;
    } else {
      AddsBefore(b, offs, adds[..|adds| - 1], k);
      assert adds[..|adds| - 1][..k] == adds[..k];
    }
  }

  lemma AddsStep(b: FB.Builder, offs: seq<nat>, adds: seq<Add>, k: nat)
    requires forall i | 0 <= i < |adds| :: AddOk(adds[i], |offs|)
    requires AddAll(b, offs, adds).Done? && k < |adds|
    ensures AddAll(b, offs, adds[..k]).Done? && AddAll(b, offs, adds[..k + 1]).Done?
    ensures AddAll(b, offs, adds[..k + 1]) == AddOne(AddAll(b, offs, adds[..k]).value, offs, adds[k])
  {
    hide AddOne;
    AddsBefore(b, offs, adds, k);
    AddsBefore(b, offs, adds, k + 1);
    assert adds[..k + 1][..k] == adds[..k];
  }

  lemma {:induction false} RunBefore(ops: seq<Op>, force: bool, dedup: bool, k: nat)
    requires OpsOk(ops) && Run(ops, force, dedup).Done? && k <= |ops|
    ensures OpsOk(ops[..k]) && Run(ops[..k], force, dedup).Done?
    decreases |ops|
  {
    hide BuildOne;
    if k == |ops| {
      assert ops[..k] == ops;
    } else {
      RunBefore(ops[..|ops| - 1], force, dedup, k);
      assert ops[..|ops| - 1][..k] == ops[..k];
    }
  }

  lemma RunStep(ops: seq<Op>, force: bool, dedup: bool, k: nat)
    requires OpsOk(ops) && Run(ops, force, dedup).Done? && k < |ops|
    ensures OpsOk(ops[..k]) && Run(ops[..k], force, dedup).Done? && OpsOk(ops[..k + 1])
    ensures var st := Run(ops[..k], force, dedup).value;
      && OpOk(ops[k], |st.offs|) && BuildOne(st.b, st.offs, ops[k]).Done?
      && var (b, off) := BuildOne(st.b, st.offs, ops[k]).value;
         Run(ops[..k + 1], force, dedup) == Done(State(b, st.offs + [off]))
  {
    hide BuildOne;
    RunBefore(ops, force, dedup, k);
    RunBefore(ops, force, dedup, k + 1);
    assert ops[..k + 1][..k] == ops[..k];
  }

  method AddField(fbb: FlatBufferBuilder, offs: seq<nat>, a: Add)
    requires fbb.Valid() && AddOk(a, |offs|) && AddOne(fbb.State(), offs, a).Done?
    modifies fbb, fbb.buf, fbb.buf.buf
    ensures fbb.Valid() && (fbb.buf.buf == old(fbb.buf.buf) || fresh(fbb.buf.buf))
    ensures AddOne(old(fbb.State()), offs, a) == Done(fbb.State())
  {
    hide FB.AddElement;
    hide FB.AddOffset;
    hide FB.AddStruct;
    match a
    case AddScalar(id, w, n, d) => fbb.AddElement(id, n, w, d);
    case AddRef(id, Some(h)) => fbb.AddOffset(id, offs[h]);
    case AddRef(_, None) =>
    case AddBytes(id, structptr, align) => fbb.AddStruct(id, structptr, align);
  }

  method AddFields(fbb: FlatBufferBuilder, offs: seq<nat>, adds: seq<Add>)
    requires fbb.Valid() && forall i | 0 <= i < |adds| :: AddOk(adds[i], |offs|)
    requires AddAll(fbb.State(), offs, adds).Done?
    modifies fbb, fbb.buf, fbb.buf.buf
    ensures fbb.Valid() && (fbb.buf.buf == old(fbb.buf.buf) || fresh(fbb.buf.buf))
    ensures AddAll(old(fbb.State()), offs, adds) == Done(fbb.State())
  {
    assert adds[..0] == [] && AddAll(fbb.State(), offs, adds[..0]) == Done(fbb.State());
    hide AddOne;
    hide AddAll;
    hide FlatBufferBuilder.Valid;
    hide FlatBufferBuilder.State;
    ghost var b := fbb.State();
    var i := 0;
    while i < |adds|
      invariant i <= |adds| && fbb.Valid() && (fbb.buf.buf == old(fbb.buf.buf) || fresh(fbb.buf.buf))
      invariant AddAll(b, offs, adds[..i]) == Done(fbb.State())
    {
      AddsStep(b, offs, adds, i);
      AddField(fbb, offs, adds[i]);
      i := i + 1;
    }
    assert adds[..i] == adds;
  }

  /** One step of a run; returns the offset of the object. */
  method BuildObject(fbb: FlatBufferBuilder, offs: seq<nat>, op: Op) returns (off: nat)
    requires fbb.Valid() && OpOk(op, |offs|) && BuildOne(fbb.State(), offs, op).Done?
    modifies fbb, fbb.buf, fbb.buf.buf
    ensures fbb.Valid() && (fbb.buf.buf == old(fbb.buf.buf) || fresh(fbb.buf.buf))
    ensures BuildOne(old(fbb.State()), offs, op) == Done((fbb.State(), off))
  {
    hide FB.CreateString;
    hide FB.CreateSharedString;
    hide FB.CreateVector;
    hide FB.CreateOffsets;
    hide FB.EndTable;
    hide FB.CanEndTable;
    hide FB.TableOffset;
    hide AddAll;
    match op
    case MakeString(chars) => off := fbb.CreateString(chars);
    case MakeShared(chars) => off := fbb.CreateSharedString(chars);
    case MakeVector(w, elems) => off := fbb.CreateVector(w, elems);
    case MakeOffsets(handles) => off := fbb.CreateOffsets(Args(offs, handles));
    case MakeTable(adds) =>
      var start := fbb.StartTable();
      AddFields(fbb, offs, adds);
      off := fbb.EndTable(start);
  }

  /** The whole run on a new object: its array, its fields and the offsets are those of the run on values. */
  method Execute(ops: seq<Op>, force: bool, dedup: bool, initialSize: nat, bufferMinalign: nat)
    returns (fbb: FlatBufferBuilder, offs: seq<nat>)
    requires IsAlign(bufferMinalign) && OpsOk(ops) && Run(ops, force, dedup).Done?
    ensures fresh(fbb) && fresh(fbb.buf) && fresh(fbb.buf.buf) && fbb.Valid()
    ensures Run(ops, force, dedup) == Done(State(fbb.State(), offs))
  {
    hide BuildOne;
    hide FlatBufferBuilder.Valid;
    hide FlatBufferBuilder.State;
    fbb := new FlatBufferBuilder(initialSize, bufferMinalign);
    fbb.ForceDefaults(force);
    fbb.DedupVTables(dedup);
    offs := [];
    var i := 0;
    while i < |ops|
      invariant i <= |ops| && fbb.Valid() && fresh(fbb) && fresh(fbb.buf) && fresh(fbb.buf.buf)
      invariant OpsOk(ops[..i]) && Run(ops[..i], force, dedup) == Done(State(fbb.State(), offs))
    {
      RunStep(ops, force, dedup, i);
      var off := BuildObject(fbb, offs, ops[i]);
      offs := offs + [off];
      i := i + 1;
    }
    assert ops[..i] == ops;
  }

  /** What a run leaves is ready to be finished with any of its objects. */
  lemma ReadyToFinish(ops: seq<Op>, force: bool, dedup: bool, root: nat)
    requires OpsOk(ops) && Run(ops, force, dedup).Done? && root < |ops|
    ensures var st := Run(ops, force, dedup).value;
      && !st.b.nested && st.b.fields == [] && IsAlign(st.b.minalign)
      && root < |st.offs| && CanReferTo(st.b, st.offs[root])
  {
    RunHolds(ops, force, dedup);
    hide Run;
    hide Holds;
    var st := Run(ops, force, dedup).value;
    AllHoldAt(st.b.data, st.b.minalign, st.offs, Meaning(ops), root);
  }

  predicate FinishFits(st: State, root: nat, ident: seq<Byte>, sizePrefix: bool) {
    && root < |st.offs| && CanReferTo(st.b, st.offs[root]) && IsAlign(st.b.minalign)
    && Fits(FB.Finish(st.b, st.offs[root], ident, sizePrefix))
  }

  /** Building and finishing on the array: a reader of its used part finds the object described. */
  method Build(
    ops: seq<Op>, force: bool, dedup: bool, root: nat, ident: seq<Byte>, sizePrefix: bool,
    initialSize: nat, bufferMinalign: nat)
    returns (fbb: FlatBufferBuilder)
    requires IsAlign(bufferMinalign) && OpsOk(ops) && Run(ops, force, dedup).Done? && root < |ops|
    requires IsIdent(ident) && forall i | 0 <= i < |ident| :: ident[i] != 0
    requires FinishFits(Run(ops, force, dedup).value, root, ident, sizePrefix)
    ensures fresh(fbb) && fbb.Valid()
    ensures Finished(ops, force, dedup, root, ident, sizePrefix, fbb.buf.Back())
    ensures var b := fbb.buf.Back(); ReadsAt(b, GetRoot(b, RootAt(sizePrefix)), Meaning(ops)[root])
  {
    hide FB.Finish;
    hide Run;
    var offs;
    fbb, offs := Execute(ops, force, dedup, initialSize, bufferMinalign);
    ReadyToFinish(ops, force, dedup, root);
    fbb.Finish(offs[root], ident, sizePrefix);
    RoundTrip(ops, force, dedup, root, ident, sizePrefix, fbb.buf.Back());
  }
}
