/** Whole runs of the FlexBuffers builder, and the round trip of the finished buffer. */
module FlexRun {
  import opened Bytes
  import opened FlexReader
  import opened FlexBuilder
  import opened FlexWidths
  import opened FlexValues
  import opened FlexVectors
  import opened FlexFixed
  import opened FlexMaps
  import opened FlexPools

  /** One call of the builder; vectors and maps end with the stack height at which they began. */
  datatype Op =
    | AddNull
    | AddBool(flag: bool)
    | AddInt(i: int)
    | AddUInt(u: nat)
    | AddIndirectInt(i: int)
    | AddIndirectUInt(u: nat)
    | AddKey(chars: seq<Byte>)
    | AddString(chars: seq<Byte>)
    | AddBlob(bytes: seq<Byte>)
    | AddScalars(kind: nat, width: nat, elems: seq<int>)
    | AddFixed(kind: nat, width: nat, elems: seq<int>)
    | EndsVector(start: nat, typed: bool)
    | EndsFixed(start: nat)
    | EndsMap(start: nat)

  predicate IsInt64(i: int) {
    -MAX_INT64 <= i < MAX_INT64
  }

  /** The type of a scalar or key, as a vector of its kind would have it. */
  function KindOf(t: Tree): nat {
    match t
    case TBool(_) => BOOL
    case TInt(_) => INT
    case TUInt(_) => UINT
    case TKey(_) => KEY
    case _ => NULL
  }

  predicate SameType(ts: seq<Tree>) {
    forall i | 0 <= i < |ts| :: KindOf(ts[i]) == KindOf(ts[0]) && IsTypedElement(KindOf(ts[i]))
  }

  /** The values a scalar of this type can have. */
  predicate ScalarOk(kind: nat, w: nat, x: int)
    requires IsWidth(w)
  {
    if kind == INT then WidthI(x) <= w && IsInt64(x)
    else if kind == UINT then 0 <= x < MAX_UINT64 && WidthU(x) <= w
    else kind == BOOL && 0 <= x <= 1
  }

  predicate ScalarsOk(kind: nat, w: nat, xs: seq<int>) {
    && IsWidth(w) && (kind == INT || kind == UINT || kind == BOOL) && (kind == BOOL ==> w == 1)
    && WidthU(|xs|) <= w && |xs| < MAX_UINT64
    && forall i | 0 <= i < |xs| :: ScalarOk(kind, w, xs[i])
  }

  function ScalarTree(kind: nat, x: int): Tree {
    if kind == INT then TInt(x)
    else if kind == UINT then TUInt(if x < 0 then 0 else x)
    else TBool(x != 0)
  }

  function ScalarTrees(kind: nat, xs: seq<int>): (ts: seq<Tree>)
    ensures |ts| == |xs| && forall i | 0 <= i < |xs| :: ts[i] == ScalarTree(kind, xs[i])
  {
    seq(|xs|, i requires 0 <= i < |xs| => ScalarTree(kind, xs[i]))
  }

  /** The entries of the map whose keys and values alternate in `ts`. */
  function Entries(ts: seq<Tree>): (es: seq<Entry>)
    requires |ts| % 2 == 0 && forall i | 0 <= i < |ts| / 2 :: ts[2 * i].TKey?
    ensures |es| == |ts| / 2
  {
    seq(|ts| / 2, i requires 0 <= i < |ts| / 2 => Entry(ts[2 * i].chars, ts[2 * i + 1]))
  }

  predicate IsDict(ts: seq<Tree>) {
    && |ts| % 2 == 0
    && (forall i | 0 <= i < |ts| / 2 :: ts[2 * i].TKey?)
    && KeysOk(Entries(ts))
  }

  /** What the builder asks of its caller, with the trees `ts` on the stack. */
  predicate OpOk(op: Op, ts: seq<Tree>) {
    match op
    case AddInt(i) => IsInt64(i)
    case AddUInt(u) => u < MAX_UINT64
    case AddIndirectInt(i) => IsInt64(i)
    case AddIndirectUInt(u) => u < MAX_UINT64
    case AddKey(chars) => 0 !in chars
    case AddString(chars) => |chars| < MAX_UINT64
    case AddBlob(bytes) => |bytes| < MAX_UINT64
    case AddScalars(kind, w, xs) => ScalarsOk(kind, w, xs)
    case AddFixed(kind, w, xs) => ScalarsOk(kind, w, xs) && IsFixedElement(kind) && 2 <= |xs| <= 4
    case EndsVector(start, typed) => start <= |ts| && (typed ==> SameType(ts[start..]))
    case EndsFixed(start) =>
      && start + 2 <= |ts| <= start + 4
      && SameType(ts[start..]) && IsFixedElement(KindOf(ts[start]))
    case EndsMap(start) => start <= |ts| && IsDict(ts[start..])
    case _ => true
  }

  /** The trees on the stack after the call. */
  function Meaning(op: Op, ts: seq<Tree>): seq<Tree>
    requires OpOk(op, ts)
  {
    match op
    case AddNull => ts + [TNull]
    case AddBool(x) => ts + [TBool(x)]
    case AddInt(i) => ts + [TInt(i)]
    case AddUInt(u) => ts + [TUInt(u)]
    case AddIndirectInt(i) => ts + [TIndirectInt(i)]
    case AddIndirectUInt(u) => ts + [TIndirectUInt(u)]
    case AddKey(chars) => ts + [TKey(chars)]
    case AddString(chars) => ts + [TString(chars)]
    case AddBlob(bytes) => ts + [TBlob(bytes)]
    case AddScalars(kind, _, xs) => ts + [TTyped(kind, ScalarTrees(kind, xs))]
    case AddFixed(kind, _, xs) => ts + [TFixed(kind, ScalarTrees(kind, xs))]
    case EndsVector(start, typed) => ts[..start] + [VectorTree(ts[start..], typed)]
    case EndsFixed(start) => ts[..start] + [TFixed(KindOf(ts[start]), ts[start..])]
    case EndsMap(start) => ts[..start] + [TMap(SortEntries(Entries(ts[start..])))]
  }

  function VectorTree(ts: seq<Tree>, typed: bool): Tree {
    if typed then TTyped(if ts == [] then KEY else KindOf(ts[0]), ts) else TVector(ts)
  }

  /** `Misuse` is a failed assertion other than one on sizes. */
  datatype Outcome = Done(s: Builder) | TooLarge | Misuse

  predicate CanEnd(s: Builder, start: nat) {
    start <= |s.stack| && ValuesOk(s.stack[start..], |s.buf|) && CanPack(s.stack[start..]) && IsWidth(s.flags.minWidth)
  }

  predicate CanEndMap(s: Builder, start: nat) {
    && CanEnd(s, start) && (|s.stack| - start) % 2 == 0
    && PairsOk(Sorted(s.buf, Pairs(s.stack[start..])), |s.buf|)
  }

  function Checked(s: Builder): Outcome {
    if |s.buf| < MAX_UINT64 then Done(s) else TooLarge
  }

  function Apply(s: Builder, op: Op): Outcome {
    match op
    case AddNull => Done(Null(s))
    case AddBool(x) => Done(Bool(s, x))
    case AddInt(i) => Done(Int(s, i))
    case AddUInt(u) => Done(UInt(s, u))
    case AddIndirectInt(i) => Checked(PushIndirect(s, i, INDIRECT_INT, WidthI(i)))
    case AddIndirectUInt(u) => Checked(PushIndirect(s, u, INDIRECT_UINT, WidthU(u)))
    case AddKey(chars) => Checked(Key(s, chars))
    case AddString(chars) => Checked(String(s, chars))
    case AddBlob(bytes) => Checked(Blob(s, bytes))
    case AddScalars(kind, w, xs) =>
      if !IsWidth(w) || WidthU(|xs|) > w || kind < INT then Misuse else Checked(ScalarVector(s, kind, w, xs))
    case AddFixed(kind, w, xs) =>
      if !IsWidth(w) || WidthU(|xs|) > w || !IsFixedElement(kind) || !(2 <= |xs| <= 4) then Misuse
      else Checked(ScalarFixed(s, kind, w, xs))
    case EndsFixed(start) =>
      if !CanEnd(s, start) || !CanFix(s.stack[start..]) then Misuse
      else Asserted(EndFixed(s, start), VectorAsserts(s.buf, s.stack[start..], 1, None, s.flags.minWidth))
    case EndsVector(start, typed) =>
      if !CanEnd(s, start) || (typed && !SameKinds(s.stack[start..])) then Misuse
      else Asserted(EndVector(s, start, typed), VectorAsserts(s.buf, s.stack[start..], 1, None, s.flags.minWidth))
    case EndsMap(start) =>
      if !CanEndMap(s, start) then Misuse
      else
        var dict := Sorted(s.buf, Pairs(s.stack[start..]));
        Asserted(EndMap(s, start), MapAsserts(s.buf, dict, s.flags.minWidth))
  }

  /** The assertions are only of interest while the sizes are in range. */
  function Asserted(s: Builder, hold: bool): Outcome {
    if |s.buf| >= MAX_UINT64 then TooLarge else if hold then Done(s) else Misuse
  }

  predicate OpsOk(ops: seq<Op>)
    decreases |ops|, 0
  {
    ops == [] || (OpsOk(ops[..|ops| - 1]) && OpOk(ops[|ops| - 1], Trees(ops[..|ops| - 1])))
  }

  /** The trees on the stack after a run, without any bytes. */
  function Trees(ops: seq<Op>): seq<Tree>
    requires OpsOk(ops)
    decreases |ops|, 1
  {
    if ops == [] then [] else Meaning(ops[|ops| - 1], Trees(ops[..|ops| - 1]))
  }

  function Run(ops: seq<Op>, flags: Flags): Outcome {
    if ops == [] then Done(New(flags)) else
    var r := Run(ops[..|ops| - 1], flags);
    if r.Done? then Apply(r.s, ops[|ops| - 1]) else r
  }

  /** The stack stands for the trees, and the pools are in order. */
  ghost predicate Inv(s: Builder, ts: seq<Tree>) {
    AllHold(s.buf, s.stack, ts) && PoolsOk(s) && IsWidth(s.flags.minWidth)
  }

  lemma PushedInv(s: Builder, r: Builder, ts: seq<Tree>, t: Tree)
    requires Inv(s, ts) && Pushed(s, r, t)
    ensures Inv(r, ts + [t])
  {
    hide Holds;
    AllHoldAppend(r.buf, s.buf, s.stack, ts);
    assert r.stack == s.stack + [r.stack[|s.stack|]];
  }

  /** A value that is the number itself. */
  lemma InlinePushed(s: Builder, v: Value, t: Tree)
    requires PoolsOk(s) && Holds(s.buf, v, t)
    ensures Pushed(s, Push(s, v), t)
  {
    hide Holds;
    hide KeyPoolOk;
    hide StringPoolOk;
  }

  lemma InlineHolds(b: seq<Byte>, x: bool, i: int, u: nat)
    ensures Holds(b, Value(0, NULL, 1), TNull)
    ensures Holds(b, Value(if x then 1 else 0, BOOL, 1), TBool(x))
    ensures IsInt64(i) ==> Holds(b, Value(i, INT, WidthI(i)), TInt(i))
    ensures u < MAX_UINT64 ==> Holds(b, Value(u, UINT, WidthU(u)), TUInt(u))
  {
  }

  /** Something appended, and one value pushed for it. */
  lemma AppendedPushed(s: Builder, b: seq<Byte>, v: Value, t: Tree)
    requires PoolsOk(s) && |s.buf| <= |b| && b[..|s.buf|] == s.buf && Holds(b, v, t)
    ensures Pushed(s, s.(buf := b, stack := s.stack + [v]), t)
  {
    hide *;
    PoolsAre(s);
    var more := Grown(b, s.buf);
    PoolsAppend(s.buf, more, s.keyPool, s.stringPool);
    PushedIs(s, s.(buf := b, stack := s.stack + [v]), b, v, s.keyPool, s.stringPool, t);
  }

  lemma IndirectHolds(s: Builder, i: int, kind: nat, w: nat, t: Tree)
    requires PoolsOk(s) && IsWidth(w)
    requires (kind == INDIRECT_INT && IsInt64(i) && WidthI(i) <= w && t == TIndirectInt(i))
      || (kind == INDIRECT_UINT && 0 <= i < MAX_UINT64 && WidthU(i) <= w && t == TIndirectUInt(i))
    ensures Pushed(s, PushIndirect(s, i, kind, w), t)
  {
    hide PaddingBytes;
    hide LE;
    hide ReadLE;
    hide PoolsOk;
    hide Pushed;
    hide WidthU;
    var b1 := Pad(s.buf, w);
    var b := b1 + IntBytes(i, w);
    AtLast(b1, IntBytes(i, w));
    if kind == INDIRECT_INT {
      IntSlot(b, |b1|, w, i);
    } else {
      UIntSlot(b, |b1|, w, i);
    }
    AppendedPushed(s, b, Value(|b1|, kind, w), t);
  }

  lemma BlobHolds(s: Builder, bytes: seq<Byte>)
    requires PoolsOk(s) && |bytes| < MAX_UINT64
    ensures Pushed(s, Blob(s, bytes), TBlob(bytes))
  {
    var w := WidthU(|bytes|);
    var b1 := Pad(s.buf, w) + LE(|bytes|, w);
    var b := b1 + (bytes + []);
    var v := Value(|b1|, BLOB, w);
    BlobStored(s.buf, bytes, []);
    BlobIs(s, bytes);
    hide *;
    BlobValue(b, |b1|, w, bytes);
    AppendedPushed(s, b, v, TBlob(bytes));
  }

  lemma BlobIs(s: Builder, bytes: seq<Byte>)
    ensures var w := WidthU(|bytes|);
      var b1 := Pad(s.buf, w) + LE(|bytes|, w);
      && |b1| == |Pad(s.buf, w)| + w
      && Blob(s, bytes) == s.(buf := b1 + (bytes + []), stack := s.stack + [Value(|b1|, BLOB, w)])
  {
    hide LE;
    hide Pad;
    hide WidthU;
  }

  lemma BlobValue(b: seq<Byte>, p: nat, w: nat, bytes: seq<Byte>)
    requires IsWidth(w) && p <= |b| && SizeBefore(b, p, w) == Ok(|bytes|) && At(b, p, bytes)
    ensures Holds(b, Value(p, BLOB, w), TBlob(bytes))
  {
    hide At;
    hide SizeBefore;
  }

  lemma {:induction false} ScalarsAt(b: seq<Byte>, xs: seq<int>, w: nat, k: nat)
    requires IsWidth(w) && k < |xs|
    ensures At(WriteScalars(b, xs, w), |b| + Scale(k, w), IntBytes(xs[k], w))
    decreases |xs|
  {
    hide At;
    hide Scale;
    hide IntBytes;
    var n := |xs| - 1;
    ScaleStep(n, w);
    var front := WriteScalars(b, xs[..n], w);
    if k < n {
      ScalarsAt(b, xs[..n], w, k);
      AtAppend(front, IntBytes(xs[n], w), |b| + Scale(k, w), IntBytes(xs[k], w));
    } else {
      AtLast(front, IntBytes(xs[n], w));
    }
  }

  lemma {:induction false} ScalarsExtend(b: seq<Byte>, xs: seq<int>, w: nat)
    requires IsWidth(w)
    ensures |b| <= |WriteScalars(b, xs, w)| && WriteScalars(b, xs, w)[..|b|] == b
    decreases |xs|
  {
    hide Scale;
    hide IntBytes;
    if xs != [] {
      ScalarsExtend(b, xs[..|xs| - 1], w);
    }
  }

  lemma ScalarReads(b: seq<Byte>, q: nat, kind: nat, w: nat, x: int)
    requires IsWidth(w) && ScalarOk(kind, w, x) && At(b, q, IntBytes(x, w))
    ensures Reads(b, Ref(q, w, 1, kind), ScalarTree(kind, x))
  {
    hide IntBytes;
    hide At;
    hide ReadLE;
    if kind == INT {
      IntSlot(b, q, w, x);
    } else {
      UIntSlot(b, q, w, x);
    }
  }

  /** The elements written behind `head`. */
  lemma ScalarElems(head: seq<Byte>, kind: nat, w: nat, xs: seq<int>, i: nat)
    requires ScalarsOk(kind, w, xs) && i < |xs|
    ensures Reads(WriteScalars(head, xs, w), Ref(|head| + Scale(i, w), w, 1, kind), ScalarTree(kind, xs[i]))
  {
    hide WriteScalars;
    hide IntBytes;
    hide Scale;
    hide WidthU;
    ScalarsAt(head, xs, w, i);
    hide At;
    hide Reads;
    ScalarReads(WriteScalars(head, xs, w), |head| + Scale(i, w), kind, w, xs[i]);
  }

  /** Size and elements of a vector written behind `b1`. */
  lemma ScalarsStand(b1: seq<Byte>, kind: nat, w: nat, xs: seq<int>)
    requires ScalarsOk(kind, w, xs)
    ensures var p := |b1| + w;
      var b := WriteScalars(b1 + LE(|xs|, w), xs, w);
      && p <= |b| && b[..|b1|] == b1
      && Stands(b, p, w, ToTypedVector(kind), TTyped(kind, ScalarTrees(kind, xs)))
  {
    var head := b1 + LE(|xs|, w);
    var b := WriteScalars(head, xs, w);
    var p := |head|;
    ScalarsSize(b1, kind, w, xs);
    assert IsTypedElement(kind) && kind >= INT && IsWidth(1);
    hide *;
    forall i | 0 <= i < |xs| ensures ReadsAt(b, TypedVectorAt(b, p, w, kind, i), ScalarTree(kind, xs[i])) {
      ScalarElems(head, kind, w, xs, i);
      TypedAtIs(b, p, w, |xs|, kind, i);
      ReadsOk(b, Ref(p + Scale(i, w), w, 1, kind), ScalarTree(kind, xs[i]));
    }
    TypedStands(b, p, w, kind, ScalarTrees(kind, xs));
  }

  lemma TypedStands(b: seq<Byte>, p: int, w: nat, kind: nat, ts: seq<Tree>)
    requires IsWidth(w) && IsTypedElement(kind) && SizeBefore(b, p, w) == Ok(|ts|)
    requires forall i | 0 <= i < |ts| :: ReadsAt(b, TypedVectorAt(b, p, w, kind, i), ts[i])
    ensures Stands(b, p, w, ToTypedVector(kind), TTyped(kind, ts))
  {
    hide ReadsAt;
    hide TypedVectorAt;
    hide SizeBefore;
  }

  lemma ScalarsSize(b1: seq<Byte>, kind: nat, w: nat, xs: seq<int>)
    requires ScalarsOk(kind, w, xs)
    ensures var head := b1 + LE(|xs|, w);
      var b := WriteScalars(head, xs, w);
      && |head| == |b1| + w <= |b| && b[..|b1|] == b1 && SizeBefore(b, |head|, w) == Ok(|xs|)
  {
    hide LE;
    hide WidthU;
    hide WriteScalars;
    hide ScalarOk;
    hide At;
    var head := b1 + LE(|xs|, w);
    var b := WriteScalars(head, xs, w);
    ScalarsExtend(head, xs, w);
    AtLast(b1, LE(|xs|, w));
    AtPrefix(head, b, |b1|, LE(|xs|, w));
    UIntSurvives(|xs|, w);
    SizeRead(b, |head|, w, |xs|);
    assert b[..|b1|] == head[..|b1|];
  }

  lemma PadExtends(b: seq<Byte>, w: nat)
    requires IsWidth(w)
    ensures |b| <= |Pad(b, w)| && Pad(b, w)[..|b|] == b
  {
    hide PaddingBytes;
  }

  lemma ScalarVectorIs(s: Builder, kind: nat, w: nat, xs: seq<int>)
    requires IsWidth(w) && WidthU(|xs|) <= w && kind >= INT
    ensures var b1 := Pad(s.buf, w);
      var b := WriteScalars(b1 + LE(|xs|, w), xs, w);
      var v := Value(|b1| + w, ToTypedVector(kind), w);
      && |b1| + w <= |b|
      && ScalarVector(s, kind, w, xs) == s.(buf := b, stack := s.stack + [v])
  {
    hide LE;
    hide WriteScalars;
    hide Pad;
  }

  lemma ScalarFixedIs(s: Builder, kind: nat, w: nat, xs: seq<int>)
    requires IsWidth(w) && IsFixedElement(kind) && 2 <= |xs| <= 4
    ensures var b1 := Pad(s.buf, w);
      var b := WriteScalars(b1, xs, w);
      var v := Value(|b1|, ToFixedVector(kind, |xs|), w);
      && |b1| <= |b|
      && ScalarFixed(s, kind, w, xs) == s.(buf := b, stack := s.stack + [v])
  {
    hide WriteScalars;
    hide Pad;
  }

  lemma PrefixTrans(b: seq<Byte>, b1: seq<Byte>, b0: seq<Byte>)
    requires |b0| <= |b1| <= |b| && b[..|b1|] == b1 && b1[..|b0|] == b0
    ensures b[..|b0|] == b0
  {
    assert b[..|b0|] == b[..|b1|][..|b0|];
  }

  lemma ScalarsHold(s: Builder, kind: nat, w: nat, xs: seq<int>)
    requires PoolsOk(s) && ScalarsOk(kind, w, xs)
    ensures Pushed(s, ScalarVector(s, kind, w, xs), TTyped(kind, ScalarTrees(kind, xs)))
  {
    assert IsWidth(w) && WidthU(|xs|) <= w && kind >= INT;
    hide *;
    var b1 := Pad(s.buf, w);
    var b := WriteScalars(b1 + LE(|xs|, w), xs, w);
    var v := Value(|b1| + w, ToTypedVector(kind), w);
    ScalarsStand(b1, kind, w, xs);
    ScalarVectorIs(s, kind, w, xs);
    PadExtends(s.buf, w);
    VectorValue(b, v, TTyped(kind, ScalarTrees(kind, xs)));
    PrefixTrans(b, b1, s.buf);
    AppendedPushed(s, b, v, TTyped(kind, ScalarTrees(kind, xs)));
  }

  lemma ScalarFixedStands(b1: seq<Byte>, kind: nat, w: nat, xs: seq<int>)
    requires ScalarsOk(kind, w, xs) && IsFixedElement(kind) && 2 <= |xs| <= 4
    ensures var b := WriteScalars(b1, xs, w);
      && |b1| <= |b| && b[..|b1|] == b1
      && Stands(b, |b1|, w, ToFixedVector(kind, |xs|), TFixed(kind, ScalarTrees(kind, xs)))
  {
    hide WidthU;
    hide WriteScalars;
    hide ScalarOk;
    hide Reads;
    var b := WriteScalars(b1, xs, w);
    ScalarsExtend(b1, xs, w);
    FixedElementIs(kind, |xs|);
    forall i | 0 <= i < |xs|
      ensures Reads(b, FixedVectorAt(|b1|, w, ToFixedVector(kind, |xs|), i), ScalarTree(kind, xs[i]))
    {
      ScalarElems(b1, kind, w, xs, i);
    }
  }

  lemma ScalarFixedHolds(s: Builder, kind: nat, w: nat, xs: seq<int>)
    requires PoolsOk(s) && ScalarsOk(kind, w, xs) && IsFixedElement(kind) && 2 <= |xs| <= 4
    ensures Pushed(s, ScalarFixed(s, kind, w, xs), TFixed(kind, ScalarTrees(kind, xs)))
  {
    hide ScalarOk;
    var b1 := Pad(s.buf, w);
    var b := WriteScalars(b1, xs, w);
    var v := Value(|b1|, ToFixedVector(kind, |xs|), w);
    ScalarFixedStands(b1, kind, w, xs);
    FixedElementIs(kind, |xs|);
    ScalarFixedIs(s, kind, w, xs);
    PadExtends(s.buf, w);
    hide *;
    VectorValue(b, v, TFixed(kind, ScalarTrees(kind, xs)));
    PrefixTrans(b, b1, s.buf);
    AppendedPushed(s, b, v, TFixed(kind, ScalarTrees(kind, xs)));
  }

  /** The top of the stack replaced by one value, the buffer longer. */
  lemma Collapsed(s: Builder, ts: seq<Tree>, start: nat, b: seq<Byte>, v: Value, t: Tree, dup: bool)
    requires Inv(s, ts) && start <= |ts| && |s.buf| <= |b| && b[..|s.buf|] == s.buf && Holds(b, v, t)
    ensures start <= |s.stack|
    ensures Inv(s.(buf := b, stack := s.stack[..start] + [v], duplicateKeys := dup), ts[..start] + [t])
  {
    hide Holds;
    hide KeyPoolOk;
    hide StringPoolOk;
    AllHoldAppend(b, s.buf, s.stack, ts);
    var more := Grown(b, s.buf);
    PoolsAppend(s.buf, more, s.keyPool, s.stringPool);
  }

  lemma AllHoldFrom(b: seq<Byte>, vs: seq<Value>, ts: seq<Tree>, start: nat)
    requires AllHold(b, vs, ts) && start <= |ts|
    ensures start <= |vs| && AllHold(b, vs[start..], ts[start..])
  {
    hide Holds;
  }

  lemma SameKindsOf(b: seq<Byte>, vs: seq<Value>, ts: seq<Tree>)
    requires AllHold(b, vs, ts) && SameType(ts)
    ensures SameKinds(vs) && (vs != [] ==> vs[0].kind == KindOf(ts[0]))
  {
    forall i | 0 <= i < |vs| ensures vs[i].kind == KindOf(ts[i]) {
      KindHolds(b, vs[i], ts[i]);
    }
    hide Holds;
  }

  lemma KindHolds(b: seq<Byte>, v: Value, t: Tree)
    requires Holds(b, v, t) && IsTypedElement(KindOf(t))
    ensures v.kind == KindOf(t)
  {
  }

  lemma VectorInv(s: Builder, ts: seq<Tree>, start: nat, typed: bool)
    requires Inv(s, ts) && OpOk(EndsVector(start, typed), ts)
    ensures !Apply(s, EndsVector(start, typed)).Misuse?
    ensures Apply(s, EndsVector(start, typed)).Done? ==>
      Inv(Apply(s, EndsVector(start, typed)).s, ts[..start] + [VectorTree(ts[start..], typed)])
  {
    hide CreateVector;
    hide VectorAsserts;
    hide Holds;
    hide PoolsOk;
    var vs := s.stack[start..];
    AllHoldFrom(s.buf, s.stack, ts, start);
    AllHoldOk(s.buf, vs, ts[start..]);
    if typed {
      SameKindsOf(s.buf, vs, ts[start..]);
    }
    var (b, v) := CreateVector(s.buf, vs, 1, typed, None, s.flags.minWidth);
    if |b| < MAX_UINT64 {
      VectorSafe(s.buf, vs, 1, typed, None, s.flags.minWidth);
      if typed {
        TypedHolds(s.buf, vs, ts[start..], 1, s.flags.minWidth);
      } else {
        VectorHolds(s.buf, vs, ts[start..], s.flags.minWidth);
      }
      Collapsed(s, ts, start, b, v, VectorTree(ts[start..], typed), s.duplicateKeys);
    }
  }

  lemma FixedInv(s: Builder, ts: seq<Tree>, start: nat)
    requires Inv(s, ts) && OpOk(EndsFixed(start), ts)
    ensures !Apply(s, EndsFixed(start)).Misuse?
    ensures Apply(s, EndsFixed(start)).Done? ==>
      Inv(Apply(s, EndsFixed(start)).s, ts[..start] + [TFixed(KindOf(ts[start]), ts[start..])])
  {
    hide CreateFixed;
    hide VectorAsserts;
    hide Holds;
    hide PoolsOk;
    var vs := s.stack[start..];
    AllHoldFrom(s.buf, s.stack, ts, start);
    AllHoldOk(s.buf, vs, ts[start..]);
    SameKindsOf(s.buf, vs, ts[start..]);
    FixedSafe(s.buf, vs, s.flags.minWidth);
    var (b, v) := CreateFixed(s.buf, vs, s.flags.minWidth);
    FixedHolds(s.buf, vs, ts[start..], s.flags.minWidth);
    Collapsed(s, ts, start, b, v, TFixed(KindOf(ts[start]), ts[start..]), s.duplicateKeys);
  }

  lemma PairsOf(b: seq<Byte>, vs: seq<Value>, ts: seq<Tree>)
    requires AllHold(b, vs, ts) && IsDict(ts)
    ensures |vs| % 2 == 0 && PairsHold(b, Pairs(vs), Entries(ts))
  {
    hide Holds;
    hide KeysOk;
  }

  lemma MapInv(s: Builder, ts: seq<Tree>, start: nat)
    requires Inv(s, ts) && OpOk(EndsMap(start), ts)
    ensures !Apply(s, EndsMap(start)).Misuse?
    ensures Apply(s, EndsMap(start)).Done? ==>
      Inv(Apply(s, EndsMap(start)).s, ts[..start] + [TMap(SortEntries(Entries(ts[start..])))])
  {
    hide CreateMap;
    hide MapAsserts;
    hide Holds;
    hide PoolsOk;
    hide PairsHold;
    hide Ascending;
    hide KeysOk;
    hide Duplicates;
    hide PairsOk;
    hide SortEntries;
    hide Sorted;
    var vs := s.stack[start..];
    AllHoldFrom(s.buf, s.stack, ts, start);
    AllHoldOk(s.buf, vs, ts[start..]);
    PairsOf(s.buf, vs, ts[start..]);
    var es := Entries(ts[start..]);
    SortedHolds(s.buf, Pairs(vs), es);
    PairsAreOk(s.buf, Sorted(s.buf, Pairs(vs)), SortEntries(es));
    SortAscending(es);
    var (b, v) := CreateMap(s.buf, Sorted(s.buf, Pairs(vs)), s.flags.minWidth);
    if |b| < MAX_UINT64 {
      MapSafe(s.buf, Sorted(s.buf, Pairs(vs)), s.flags.minWidth);
      MapHolds(s.buf, Sorted(s.buf, Pairs(vs)), SortEntries(es), s.flags.minWidth);
      Collapsed(s, ts, start, b, v, TMap(SortEntries(es)), s.duplicateKeys || Duplicates(s.buf, Pairs(vs)));
    }
  }

  lemma InlineInv(s: Builder, ts: seq<Tree>, op: Op)
    requires Inv(s, ts) && OpOk(op, ts) && (op.AddNull? || op.AddBool? || op.AddInt? || op.AddUInt?)
    ensures Apply(s, op).Done? && Inv(Apply(s, op).s, Meaning(op, ts))
  {
    InvParts(s, ts);
    hide Inv;
    hide Pushed;
    hide PoolsOk;
    hide Holds;
    hide WidthU;
    match op
    case AddNull =>
      InlineHolds(s.buf, true, 0, 0);
      InlinePushed(s, Value(0, NULL, 1), TNull);
      PushedInv(s, Null(s), ts, TNull);
    case AddBool(x) =>
      InlineHolds(s.buf, x, 0, 0);
      InlinePushed(s, Value(if x then 1 else 0, BOOL, 1), TBool(x));
      PushedInv(s, Bool(s, x), ts, TBool(x));
    case AddInt(i) =>
      InlineHolds(s.buf, true, i, 0);
      InlinePushed(s, Value(i, INT, WidthI(i)), TInt(i));
      PushedInv(s, Int(s, i), ts, TInt(i));
    case AddUInt(u) =>
      InlineHolds(s.buf, true, 0, u);
      InlinePushed(s, Value(u, UINT, WidthU(u)), TUInt(u));
      PushedInv(s, UInt(s, u), ts, TUInt(u));
  }

  predicate IsAppend(op: Op) {
    match op
    case AddIndirectInt(_) => true
    case AddIndirectUInt(_) => true
    case AddKey(_) => true
    case AddString(_) => true
    case AddBlob(_) => true
    case AddScalars(_, _, _) => true
    case AddFixed(_, _, _) => true
    case _ => false
  }

  /** The builder after such a call, and the tree it has added. */
  function Appended(s: Builder, op: Op): Builder
    requires IsAppend(op) && OpOk(op, [])
  {
    match op
    case AddIndirectInt(i) => PushIndirect(s, i, INDIRECT_INT, WidthI(i))
    case AddIndirectUInt(u) => PushIndirect(s, u, INDIRECT_UINT, WidthU(u))
    case AddKey(chars) => Key(s, chars)
    case AddString(chars) => String(s, chars)
    case AddBlob(bytes) => Blob(s, bytes)
    case AddScalars(kind, w, xs) => ScalarVector(s, kind, w, xs)
    case AddFixed(kind, w, xs) => ScalarFixed(s, kind, w, xs)
    case _ => s
  }

  function AppendedTree(op: Op): Tree {
    match op
    case AddIndirectInt(i) => TIndirectInt(i)
    case AddIndirectUInt(u) => TIndirectUInt(u)
    case AddKey(chars) => TKey(chars)
    case AddString(chars) => TString(chars)
    case AddBlob(bytes) => TBlob(bytes)
    case AddScalars(kind, _, xs) => TTyped(kind, ScalarTrees(kind, xs))
    case AddFixed(kind, _, xs) => TFixed(kind, ScalarTrees(kind, xs))
    case _ => TNull
  }

  lemma AppendIs(s: Builder, ts: seq<Tree>, op: Op)
    requires OpOk(op, ts) && IsAppend(op)
    ensures OpOk(op, []) && Meaning(op, ts) == ts + [AppendedTree(op)]
    ensures Apply(s, op) == Checked(Appended(s, op))
  {
    hide Key;
    hide String;
    hide Blob;
    hide PushIndirect;
    hide ScalarVector;
    hide ScalarFixed;
    hide ScalarOk;
    hide WidthU;
    hide Checked;
  }

  lemma AppendHolds(s: Builder, op: Op)
    requires PoolsOk(s) && OpOk(op, []) && IsAppend(op)
    ensures Pushed(s, Appended(s, op), AppendedTree(op))
  {
    hide Pushed;
    hide PoolsOk;
    hide Key;
    hide String;
    hide Blob;
    hide PushIndirect;
    hide ScalarVector;
    hide ScalarFixed;
    hide ScalarOk;
    hide WidthU;
    match op
    case AddIndirectInt(i) => IndirectHolds(s, i, INDIRECT_INT, WidthI(i), TIndirectInt(i));
    case AddIndirectUInt(u) => IndirectHolds(s, u, INDIRECT_UINT, WidthU(u), TIndirectUInt(u));
    case AddKey(chars) => KeyHolds(s, chars);
    case AddString(chars) => StringHolds(s, chars);
    case AddBlob(bytes) => BlobHolds(s, bytes);
    case AddScalars(kind, w, xs) => ScalarsHold(s, kind, w, xs);
    case AddFixed(kind, w, xs) => ScalarFixedHolds(s, kind, w, xs);
  }

  lemma AppendInv(s: Builder, ts: seq<Tree>, op: Op)
    requires Inv(s, ts) && OpOk(op, ts) && IsAppend(op)
    ensures !Apply(s, op).Misuse?
    ensures Apply(s, op).Done? ==> Inv(Apply(s, op).s, Meaning(op, ts))
  {
    hide *;
    InvParts(s, ts);
    AppendIs(s, ts, op);
    AppendHolds(s, op);
    PushedInv(s, Appended(s, op), ts, AppendedTree(op));
    CheckedIs(Appended(s, op));
  }

  lemma CheckedIs(s: Builder)
    ensures !Checked(s).Misuse? && (Checked(s).Done? ==> Checked(s).s == s)
  {
  }

  lemma EndInv(s: Builder, ts: seq<Tree>, op: Op)
    requires Inv(s, ts) && OpOk(op, ts) && (op.EndsVector? || op.EndsFixed? || op.EndsMap?)
    ensures !Apply(s, op).Misuse?
    ensures Apply(s, op).Done? ==> Inv(Apply(s, op).s, Meaning(op, ts))
  {
    hide Inv;
    hide Apply;
    hide IsDict;
    match op
    case EndsVector(start, typed) => VectorInv(s, ts, start, typed);
    case EndsFixed(start) => FixedInv(s, ts, start);
    case EndsMap(start) => MapInv(s, ts, start);
  }

  /** One call: what the stack stood for and stands for now, and no assertion fails but on size. */
  lemma ApplyInv(s: Builder, ts: seq<Tree>, op: Op)
    requires Inv(s, ts) && OpOk(op, ts)
    ensures !Apply(s, op).Misuse?
    ensures Apply(s, op).Done? ==> Inv(Apply(s, op).s, Meaning(op, ts))
  {
    hide *;
    Kinds(op);
    if op.AddNull? || op.AddBool? || op.AddInt? || op.AddUInt? {
      InlineInv(s, ts, op);
    } else if IsAppend(op) {
      AppendInv(s, ts, op);
    } else {
      EndInv(s, ts, op);
    }
  }

  lemma Kinds(op: Op)
    ensures op.AddNull? || op.AddBool? || op.AddInt? || op.AddUInt? || IsAppend(op)
      || op.EndsVector? || op.EndsFixed? || op.EndsMap?
  {
  }

  lemma InvParts(s: Builder, ts: seq<Tree>)
    requires Inv(s, ts)
    ensures PoolsOk(s)
  {
  }

  /** The run theorem: the stack stands for the trees described, with and without sharing, at any minimum width. */
  lemma {:induction false} RunHolds(ops: seq<Op>, flags: Flags)
    requires OpsOk(ops) && IsWidth(flags.minWidth)
    ensures !Run(ops, flags).Misuse?
    ensures Run(ops, flags).Done? ==> Inv(Run(ops, flags).s, Trees(ops))
    decreases |ops|
  {
    hide Apply;
    hide Meaning;
    hide OpOk;
    if ops == [] {
      assert AllHold([], [], []);
    } else {
      hide Inv;
      var n := |ops| - 1;
      RunHolds(ops[..n], flags);
      if Run(ops[..n], flags).Done? {
        ApplyInv(Run(ops[..n], flags).s, Trees(ops[..n]), ops[n]);
      }
    }
  }

  lemma ApplyFlag(s: Builder, ts: seq<Tree>, op: Op)
    requires Inv(s, ts) && OpOk(op, ts) && Apply(s, op).Done?
    ensures Apply(s, op).s.duplicateKeys == s.duplicateKeys
  {
    hide Holds;
    hide PoolsOk;
    hide CreateVector;
    hide CreateFixed;
    hide CreateMap;
    hide VectorAsserts;
    hide MapAsserts;
    hide Duplicates;
    hide Sorted;
    hide WidthU;
    hide FindKey;
    hide FindString;
    hide WriteScalars;
    hide ScalarOk;
    hide CanEnd;
    hide CanEndMap;
    if op.EndsMap? {
      var es := Entries(ts[op.start..]);
      assert KeysOk(es);
      AllHoldFrom(s.buf, s.stack, ts, op.start);
      PairsOf(s.buf, s.stack[op.start..], ts[op.start..]);
      DuplicatesExactly(s.buf, Pairs(s.stack[op.start..]), es);
    }
  }

  /** No duplicate is reported where there is none. */
  lemma {:induction false} RunUnflagged(ops: seq<Op>, flags: Flags)
    requires OpsOk(ops) && IsWidth(flags.minWidth) && Run(ops, flags).Done?
    ensures !Run(ops, flags).s.duplicateKeys
    decreases |ops|
  {
    hide Apply;
    hide Meaning;
    hide OpOk;
    hide Inv;
    if ops != [] {
      var n := |ops| - 1;
      RunUnflagged(ops[..n], flags);
      RunHolds(ops[..n], flags);
      ApplyFlag(Run(ops[..n], flags).s, Trees(ops[..n]), ops[n]);
    }
  }

  /** The finished buffer of a run that left one value. */
  ghost predicate Finished(ops: seq<Op>, flags: Flags, b: seq<Byte>) {
    && OpsOk(ops) && IsWidth(flags.minWidth) && |Trees(ops)| == 1
    && match Run(ops, flags)
       case Done(s) =>
         && |s.stack| == 1 && ValueOk(s.stack[0], |s.buf|) && s.stack[0].kind <= BOOL + 10
         && b == Finish(s).buf && |b| < MAX_UINT64
       case _ => false
  }

  lemma RootReads(s: Builder, t: Tree, b: seq<Byte>)
    requires |s.stack| == 1 && Holds(s.buf, s.stack[0], t)
    requires ValueOk(s.stack[0], |s.buf|) && s.stack[0].kind <= BOOL + 10
    requires b == Finish(s).buf && |b| < MAX_UINT64
    ensures ReadsAt(b, GetRoot(b), t)
  {
    hide *;
    var v := s.stack[0];
    var w, q, packed := RootSlot(s, b);
    SlotReads(b, s.buf, q, w, v, ByteWidth(packed % 4), t);
    RootIs(b, w, packed);
    ReadsOk(b, Ref(q, w, ByteWidth(packed % 4), v.kind), t);
  }

  /** The root is stored where and as wide as the search said, with its type and width behind it. */
  lemma RootSlot(s: Builder, b: seq<Byte>) returns (w: nat, q: nat, packed: nat)
    requires |s.stack| == 1 && ValueOk(s.stack[0], |s.buf|) && s.stack[0].kind <= BOOL + 10
    requires b == Finish(s).buf && |b| < MAX_UINT64
    ensures var v := s.stack[0];
      && IsWidth(w) && |b| == q + w + 2 && |s.buf| <= |b| && b[..|s.buf|] == s.buf
      && (!IsInline(v.kind) ==> 0 <= v.u <= q)
      && At(b, q, SlotBytes(v, q, w))
      && (if IsInline(v.kind) then v.width <= w else q - v.u < Range(w))
      && ReadLE(b, |b| - 1, 1) == Ok(w) && ReadLE(b, |b| - 2, 1) == Ok(packed)
      && packed / 4 == v.kind && IsWidth(ByteWidth(packed % 4))
      && (!IsInline(v.kind) ==> ByteWidth(packed % 4) == v.width)
  {
    assert MAX_UINT64 == 0x1_0000_0000_0000_0000;
    var v := s.stack[0];
    assert IsWidth(v.width) && IsWidth(1);
    PackedReads(v, 1);
    hide *;
    w := ElemWidth(v, |s.buf|, 0);
    q := |s.buf| + PaddingBytes(|s.buf|, w);
    packed := PackedByte(v, 1);
    FinishShape(s, b);
    NoScale(w);
    ValueFits(v, |s.buf|, 0, 0, w);
  }

  /** Nor does an assertion fail while the root is written. */
  lemma FinishSafe(s: Builder, b: seq<Byte>)
    requires |s.stack| == 1 && ValueOk(s.stack[0], |s.buf|) && s.stack[0].kind <= BOOL + 10
    requires b == Finish(s).buf && |b| < MAX_UINT64
    ensures var v := s.stack[0];
      var w := ElemWidth(v, |s.buf|, 0);
      ElemAsserts(v, |s.buf|, 0, |Pad(s.buf, w)|, w)
  {
    assert MAX_UINT64 == 0x1_0000_0000_0000_0000;
    var v := s.stack[0];
    var w := ElemWidth(v, |s.buf|, 0);
    var q := |Pad(s.buf, w)|;
    FinishShape(s, b);
    NoScale(w);
    hide *;
    ValueFits(v, |s.buf|, 0, 0, w);
    SearchSafe(v, |s.buf|, 0);
    Stored(v, |s.buf|, 0, q, w);
  }

  lemma NoScale(w: nat)
    requires IsWidth(w)
    ensures Scale(0, w) == 0 && IsWidth(1) && w >= 1
  {
  }

  lemma RootIs(b: seq<Byte>, w: nat, packed: nat)
    requires ReadLE(b, |b| - 1, 1) == Ok(w) && ReadLE(b, |b| - 2, 1) == Ok(packed)
    ensures GetRoot(b) == Ok(Ref(|b| - 2 - w, w, ByteWidth(packed % 4), packed / 4))
  {
  }

  /** Value, type and width stand at the end. */
  lemma FinishShape(s: Builder, b: seq<Byte>)
    requires |s.stack| == 1 && ValueOk(s.stack[0], |s.buf|) && s.stack[0].kind <= BOOL + 10
    requires b == Finish(s).buf
    ensures var v := s.stack[0];
      var w := ElemWidth(v, |s.buf|, 0);
      var q := |s.buf| + PaddingBytes(|s.buf|, w);
      && (!IsInline(v.kind) ==> 0 <= v.u <= q)
      && |b| == q + w + 2 && b[..|s.buf|] == s.buf && At(b, q, SlotBytes(v, q, w))
      && ReadLE(b, |b| - 1, 1) == Ok(w) && ReadLE(b, |b| - 2, 1) == Ok(PackedByte(v, 1) as nat)
  {
    hide ElemWidth;
    hide PaddingBytes;
    hide LE;
    hide PackedByte;
    hide IntBytes;
    hide At;
    hide ReadLE;
    var v := s.stack[0];
    var w := ElemWidth(v, |s.buf|, 0);
    var b1 := Pad(s.buf, w);
    WriteAnyIs(b1, v, w);
    hide WriteAny;
    AtLast(b1, SlotBytes(v, |b1|, w));
    var b2 := b1 + SlotBytes(v, |b1|, w);
    assert b == b2 + [PackedByte(v, 1), w];
    AtAppend(b2, [PackedByte(v, 1), w], |b1|, SlotBytes(v, |b1|, w));
    LastTwo(b2, PackedByte(v, 1), w);
    assert b[..|s.buf|] == b1[..|s.buf|];
  }

  lemma LastTwo(b: seq<Byte>, x: Byte, y: Byte)
    ensures var r := b + [x, y];
      ReadLE(r, |r| - 1, 1) == Ok(y as nat) && ReadLE(r, |r| - 2, 1) == Ok(x as nat)
  {
    var r := b + [x, y];
    assert r[|r| - 1..|r| - 1 + 1] == [y] && r[|r| - 2..|r| - 2 + 1] == [x];
    OneByte(x);
    OneByte(y);
  }

  /** The round trip: reading from the root of the finished buffer gives the tree that was built. */
  lemma FlexRoundTrip(ops: seq<Op>, flags: Flags, b: seq<Byte>)
    requires Finished(ops, flags, b)
    ensures ReadsAt(b, GetRoot(b), Trees(ops)[0])
  {
    hide Holds;
    hide Finish;
    hide ReadsAt;
    hide GetRoot;
    hide Trees;
    RunHolds(ops, flags);
    var s := Run(ops, flags).s;
    hide Run;
    RootReads(s, Trees(ops)[0], b);
  }
}
