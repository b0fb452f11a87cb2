/** Whole runs on the FlexBuffers builder object: its fields hold in the end what the run on values comes to. */
module FlexRunClass {
  import opened Bytes
  import opened FlexReader
  import FB = FlexBuilder
  import opened FlexValues
  import opened FlexVectors
  import opened FlexRun
  import opened FlexTrees
  import opened FlexBuilderClass

  /** One call of a run. */
  method Call(fbb: FlexBufferBuilder, op: Op)
    requires Apply(fbb.State(), op).Done?
    modifies fbb
    ensures Apply(old(fbb.State()), op) == Done(fbb.State())
  {
    hide FB.Key;
    hide FB.String;
    hide FB.Blob;
    hide FB.PushIndirect;
    hide FB.ScalarVector;
    hide FB.ScalarFixed;
    hide FB.EndVector;
    hide FB.EndFixed;
    hide FB.EndMap;
    hide FB.VectorAsserts;
    hide FB.MapAsserts;
    hide FB.WidthU;
    hide FB.Sorted;
    match op
    case AddNull => fbb.Null();
    case AddBool(x) => fbb.Bool(x);
    case AddInt(i) => fbb.Int(i);
    case AddUInt(u) => fbb.UInt(u);
    case AddIndirectInt(i) => fbb.PushIndirect(i, INDIRECT_INT, FB.WidthI(i));
    case AddIndirectUInt(u) => fbb.PushIndirect(u, INDIRECT_UINT, FB.WidthU(u));
    case AddKey(chars) => fbb.Key(chars);
    case AddString(chars) => fbb.String(chars);
    case AddBlob(bytes) => fbb.Blob(bytes);
    case AddScalars(kind, w, elems) => fbb.ScalarVector(kind, w, elems, false);
    case AddFixed(kind, w, elems) => fbb.ScalarVector(kind, w, elems, true);
    case EndsVector(start, typed) => fbb.EndVector(start, typed, false);
    case EndsFixed(start) => fbb.EndVector(start, true, true);
    case EndsMap(start) => fbb.EndMap(start);
  }

  lemma {:induction false} RunBefore(ops: seq<Op>, flags: FB.Flags, k: nat)
    requires Run(ops, flags).Done? && k <= |ops|
    ensures Run(ops[..k], flags).Done?
    decreases |ops|
  {
    hide Apply;
    if k == |ops| {
      assert ops[..k] == ops;
    } else {
      RunBefore(ops[..|ops| - 1], flags, k);
      assert ops[..|ops| - 1][..k] == ops[..k];
    }
  }

  lemma RunNext(ops: seq<Op>, flags: FB.Flags, k: nat)
    requires Run(ops, flags).Done? && k < |ops|
    ensures Run(ops[..k], flags).Done? && Apply(Run(ops[..k], flags).s, ops[k]).Done?
    ensures Run(ops[..k + 1], flags) == Apply(Run(ops[..k], flags).s, ops[k])
  {
    hide Apply;
    RunBefore(ops, flags, k);
    RunBefore(ops, flags, k + 1);
    assert ops[..k + 1][..k] == ops[..k];
  }

  /** The whole run on a new object. */
  method Execute(ops: seq<Op>, flags: FB.Flags) returns (fbb: FlexBufferBuilder)
    requires Run(ops, flags).Done?
    ensures fresh(fbb) && Run(ops, flags) == Done(fbb.State())
  {
    hide Apply;
    fbb := new FlexBufferBuilder(flags);
    var i := 0;
    while i < |ops|
      invariant i <= |ops| && fresh(fbb) && Run(ops[..i], flags) == Done(fbb.State())
    {
      RunNext(ops, flags, i);
      Call(fbb, ops[i]);
      i := i + 1;
    }
    assert ops[..i] == ops;
  }

  predicate CanFinish(s: FB.Builder) {
    |s.stack| == 1 && FB.ValueOk(s.stack[0], |s.buf|) && s.stack[0].kind <= BOOL + 10
  }

  /** A run that leaves one value is ready to be finished. */
  lemma ReadyToFinish(ops: seq<Op>, flags: FB.Flags)
    requires OpsOk(ops) && IsWidth(flags.minWidth) && Run(ops, flags).Done? && |Trees(ops)| == 1
    ensures CanFinish(Run(ops, flags).s)
  {
    hide Run;
    hide Trees;
    hide OpsOk;
    hide Stands;
    RunHolds(ops, flags);
    AllHoldAt(Run(ops, flags).s.buf, Run(ops, flags).s.stack, Trees(ops), 0);
  }

  /** Neither the run nor the root makes the buffer too large. */
  predicate FinishFits(r: Outcome) {
    r.Done? && (CanFinish(r.s) ==> |FB.Finish(r.s).buf| < MAX_UINT64)
  }

  /** Building and finishing on the object: a reader of its buffer finds the value described. */
  method Build(ops: seq<Op>, flags: FB.Flags) returns (fbb: FlexBufferBuilder)
    requires OpsOk(ops) && IsWidth(flags.minWidth) && |Trees(ops)| == 1 && FinishFits(Run(ops, flags))
    ensures fresh(fbb) && fbb.finished && Finished(ops, flags, fbb.buf)
    ensures ReadsAt(fbb.buf, GetRoot(fbb.buf), Trees(ops)[0])
  {
    hide Run;
    hide Trees;
    hide OpsOk;
    hide FB.WriteAny;
    hide ReadsAt;
    ReadyToFinish(ops, flags);
    fbb := Execute(ops, flags);
    fbb.Finish();
    FlexRoundTrip(ops, flags, fbb.buf);
  }

  /** Any value at all, from the calls that follow its shape to the bytes and back. */
  method BuildValue(t: Tree, flags: FB.Flags) returns (fbb: FlexBufferBuilder)
    requires TreeOk(t) && IsWidth(flags.minWidth) && FinishFits(Run(Calls(0, t), flags))
    ensures fresh(fbb) && fbb.finished && ReadsAt(fbb.buf, GetRoot(fbb.buf), t)
  {
    CallsBuild(t);
    fbb := Build(Calls(0, t), flags);
  }
}
