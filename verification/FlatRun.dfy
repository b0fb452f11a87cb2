/** Whole runs of the builder: objects made one after the other, each from those before it. */
module FlatRun {
  import opened Bytes
  import opened FlatLayout
  import opened FlatBuilder

  /** One `AddElement`, `AddOffset` or `AddStruct`. Objects are named by the number of the step that made them. */
  datatype Add =
    | AddScalar(id: nat, width: nat, bits: nat, default: nat)
    | AddRef(id: nat, handle: Option<nat>)
    | AddBytes(id: nat, bytes: Option<seq<Byte>>, align: nat)

  /** One object built; a table is `StartTable`, its additions and `EndTable`. */
  datatype Op =
    | MakeString(chars: seq<Byte>)
    | MakeShared(chars: seq<Byte>)
    | MakeVector(width: nat, elems: seq<nat>)
    | MakeOffsets(handles: seq<nat>)
    | MakeTable(adds: seq<Add>)

  /** What the interface demands of an addition when `k` objects exist. */
  predicate AddOk(a: Add, k: nat) {
    IsFieldId(a.id) &&
    match a
    case AddScalar(_, w, n, _) => IsWidth(w) && n < Range(w)
    case AddRef(_, h) => h.Some? ==> h.value < k
    case AddBytes(_, p, a) => IsAlign(a) && (p.Some? ==> |p.value| > 0 && Rem(|p.value|, a) == 0)
  }

  predicate AddsOk(adds: seq<Add>, k: nat) {
    && (forall i | 0 <= i < |adds| :: AddOk(adds[i], k))
    && (forall i, j | 0 <= i < j < |adds| :: adds[i].id != adds[j].id)
  }

  predicate OpOk(op: Op, k: nat) {
    match op
    case MakeString(_) => true
    case MakeShared(_) => true
    case MakeVector(w, xs) => IsWidth(w) && forall i | 0 <= i < |xs| :: xs[i] < Range(w)
    case MakeOffsets(hs) => forall i | 0 <= i < |hs| :: hs[i] < k
    case MakeTable(adds) => AddsOk(adds, k)
  }

  predicate OpsOk(ops: seq<Op>) {
    forall i | 0 <= i < |ops| :: OpOk(ops[i], i)
  }

  /** The object each step of the run describes, without any bytes. */
  function Meaning(ops: seq<Op>): (os: seq<Obj>)
    requires OpsOk(ops)
    ensures |os| == |ops|
  {
    if ops == [] then [] else
    var before := Meaning(ops[..|ops| - 1]);
    before + [OpMeaning(ops[|ops| - 1], before)]
  }

  function OpMeaning(op: Op, before: seq<Obj>): Obj
    requires OpOk(op, |before|)
  {
    match op
    case MakeString(s) => Str(s)
    case MakeShared(s) => Str(s)
    case MakeVector(w, xs) => Scalars(w, xs)
    case MakeOffsets(hs) => Refs(seq(|hs|, i requires 0 <= i < |hs| => before[hs[i]]))
    case MakeTable(adds) => Table(Slots(adds, before))
  }

  function Slots(adds: seq<Add>, before: seq<Obj>): (r: seq<Slot>)
    requires forall i | 0 <= i < |adds| :: AddOk(adds[i], |before|)
    ensures |r| == |adds| && forall i | 0 <= i < |adds| :: r[i].id == adds[i].id
  {
    seq(|adds|, i requires 0 <= i < |adds| => Slot(adds[i].id, AddMeaning(adds[i], before)))
  }

  function AddMeaning(a: Add, before: seq<Obj>): Value
    requires AddOk(a, |before|)
  {
    match a
    case AddScalar(_, w, n, d) => Scalar(w, n, d)
    case AddRef(_, Some(h)) => Ref(before[h])
    case AddRef(_, None) => Null
    case AddBytes(_, Some(bytes), a) => Struct(bytes, a)
    case AddBytes(_, None, _) => Null
  }

  /** A builder and the offsets of the objects made so far. */
  datatype State = State(b: Builder, offs: seq<nat>)

  /**
    `TooLarge` is a failed size assertion of the builder, `Misuse` any other failed assertion: an object begun
    inside another, an offset outside the buffer in `ReferTo`, a field outside the vtable or set twice in
    `EndTable`.
   */
  datatype Outcome<+T> = Done(value: T) | TooLarge | Misuse {
    predicate IsFailure() { !Done? }
    function PropagateFailure<U>(): Outcome<U>
      requires !Done?
    {
      if TooLarge? then TooLarge else Misuse
    }
    function Extract(): T
      requires Done?
    {
      value
    }
  }

  predicate CanReferTo(b: Builder, off: nat) {
    0 < off <= |b.data|
  }

  function AddOne(b: Builder, offs: seq<nat>, a: Add): Outcome<Builder>
    requires AddOk(a, |offs|)
  {
    match a
    case AddScalar(id, w, n, d) => Checked(AddElement(b, id, n, w, d))
    case AddRef(id, Some(h)) => if CanReferTo(b, offs[h]) then Checked(AddOffset(b, id, offs[h])) else Misuse
    case AddRef(id, None) => Done(b)
    case AddBytes(id, bytes, align) => Checked(AddStruct(b, id, bytes, align))
  }

  function Checked(b: Builder): Outcome<Builder> {
    if |b.data| < MAX_BUFFER_SIZE then Done(b) else TooLarge
  }

  function AddAll(b: Builder, offs: seq<nat>, adds: seq<Add>): Outcome<Builder>
    requires forall i | 0 <= i < |adds| :: AddOk(adds[i], |offs|)
    decreases |adds|
  {
    if adds == [] then Done(b) else
    var b1 :- AddAll(b, offs, adds[..|adds| - 1]);
    AddOne(b1, offs, adds[|adds| - 1])
  }

  /** The builder after one object, and the offset of that object. */
  function BuildOne(b: Builder, offs: seq<nat>, op: Op): Outcome<(Builder, nat)>
    requires OpOk(op, |offs|)
  {
    if b.nested || b.fields != [] then Misuse else
    match op
    case MakeString(s) =>
      var r :- Checked(CreateString(b, s));
      Done((r, |r.data|))
    case MakeShared(s) =>
      var _ :- Checked(CreateString(b, s));
      Done(CreateSharedString(b, s))
    case MakeVector(w, xs) =>
      var r :- Checked(CreateVector(b, w, xs));
      Done((r, |r.data|))
    case MakeOffsets(hs) =>
      var args := Args(offs, hs);
      if exists i | 0 <= i < |args| :: !CanReferTo(b, args[i]) then Misuse else
      var r :- Checked(CreateOffsets(b, args));
      Done((r, |r.data|))
    case MakeTable(adds) =>
      var r :- AddAll(StartTable(b), offs, adds);
      var t := TableOffset(r);
      if t - |b.data| >= 0x1_0000 || t + VTableSize(r.maxVoffset) >= MAX_BUFFER_SIZE then TooLarge
      else if !CanEndTable(r, |b.data|) then Misuse
      else Done((EndTable(r, |b.data|), t))
  }

  function Args(offs: seq<nat>, hs: seq<nat>): seq<nat>
    requires forall i | 0 <= i < |hs| :: hs[i] < |offs|
  {
    seq(|hs|, i requires 0 <= i < |hs| => offs[hs[i]])
  }

  function Run(ops: seq<Op>, force: bool, dedup: bool): (r: Outcome<State>)
    requires OpsOk(ops)
    ensures r.Done? ==> |r.value.offs| == |ops|
  {
    if ops == [] then Done(State(New(force, dedup), [])) else
    var st :- Run(ops[..|ops| - 1], force, dedup);
    var (b, off) :- BuildOne(st.b, st.offs, ops[|ops| - 1]);
    Done(State(b, st.offs + [off]))
  }
}
