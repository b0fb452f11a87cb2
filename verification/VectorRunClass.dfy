/**
  Whole runs on a `VectorDownward`: one array, but two sequences that know nothing of each other, wherever the
  array has moved in between.
 */
module VectorRunClass {
  import opened Bytes
  import opened VectorDownwardClass

  /** One call, on the buffer proper or on the scratch stack. */
  datatype StackOp =
    | Push(bytes: seq<Byte>)
    | Fill(n: nat)
    | Pop(n: nat)
    | ScratchPush(bytes: seq<Byte>)
    | ScratchPop(n: nat)
    | ClearScratch

  predicate OnBuffer(op: StackOp) {
    op.Push? || op.Fill? || op.Pop?
  }

  /** The buffer after one call, if what the call asserts about the buffer holds. */
  function BackNext(back: seq<Byte>, op: StackOp): Option<seq<Byte>> {
    match op
    case Push(bytes) => if |bytes| + |back| < MAX_BUFFER_SIZE then Some(bytes + back) else None
    case Fill(n) => if n + |back| < MAX_BUFFER_SIZE then Some(Zeros(n) + back) else None
    case Pop(n) => if n <= |back| then Some(back[n..]) else None
    case _ => Some(back)
  }

  function FrontNext(front: seq<Byte>, op: StackOp): Option<seq<Byte>> {
    match op
    case ScratchPush(bytes) => Some(front + bytes)
    case ScratchPop(n) => if n <= |front| then Some(front[..|front| - n]) else None
    case ClearScratch => Some([])
    case _ => Some(front)
  }

  /** A sequence on its own, under the calls that concern it. */
  function BackAfter(back: seq<Byte>, ops: seq<StackOp>): Option<seq<Byte>>
    decreases |ops|
  {
    if ops == [] then Some(back) else
    match BackNext(back, ops[0])
    case Some(next) => BackAfter(next, ops[1..])
    case None => None
  }

  function FrontAfter(front: seq<Byte>, ops: seq<StackOp>): Option<seq<Byte>>
    decreases |ops|
  {
    if ops == [] then Some(front) else
    match FrontNext(front, ops[0])
    case Some(next) => FrontAfter(next, ops[1..])
    case None => None
  }

  /** The calls of one kind, in their order. */
  function Only(buffer: bool, ops: seq<StackOp>): seq<StackOp> {
    if ops == [] then [] else
    (if OnBuffer(ops[0]) == buffer then [ops[0]] else []) + Only(buffer, ops[1..])
  }

  /** What becomes of the buffer depends on the calls on the buffer alone, and likewise for the scratch stack. */
  lemma {:induction false} Independent(back: seq<Byte>, front: seq<Byte>, ops: seq<StackOp>)
    ensures BackAfter(back, ops) == BackAfter(back, Only(true, ops))
    ensures FrontAfter(front, ops) == FrontAfter(front, Only(false, ops))
    decreases |ops|
  {
    if ops != [] {
      var own := OnBuffer(ops[0]);
      assert Only(own, ops) == [ops[0]] + Only(own, ops[1..]) && Only(!own, ops) == Only(!own, ops[1..]);
      var b, f := BackNext(back, ops[0]), FrontNext(front, ops[0]);
      Independent(if b.Some? then b.value else back, if f.Some? then f.value else front, ops[1..]);
    }
  }

  method Apply(v: VectorDownward, op: StackOp)
    requires v.Valid() && v.size < MAX_BUFFER_SIZE
    requires BackNext(v.Back(), op).Some? && FrontNext(v.Front(), op).Some?
    modifies v, v.buf
    ensures v.Valid() && v.size < MAX_BUFFER_SIZE && (v.buf == old(v.buf) || fresh(v.buf))
    ensures BackNext(old(v.Back()), op) == Some(v.Back()) && FrontNext(old(v.Front()), op) == Some(v.Front())
  {
    match op {
      case Push(bytes) => v.Push(bytes);
      case Fill(n) => v.Fill(n);
      case Pop(n) => v.Pop(n);
      case ScratchPush(bytes) => v.ScratchPush(bytes);
      case ScratchPop(n) => v.ScratchPop(n);
      case ClearScratch => v.ClearScratch();
    }
  }

  /** Any calls in any order leave at either end what two separate sequences would hold. */
  method ApplyAll(v: VectorDownward, ops: seq<StackOp>)
    requires v.Valid() && v.size < MAX_BUFFER_SIZE
    requires BackAfter(v.Back(), ops).Some? && FrontAfter(v.Front(), ops).Some?
    modifies v, v.buf
    ensures v.Valid() && v.size < MAX_BUFFER_SIZE && (v.buf == old(v.buf) || fresh(v.buf))
    ensures BackAfter(old(v.Back()), Only(true, ops)) == Some(v.Back())
    ensures FrontAfter(old(v.Front()), Only(false, ops)) == Some(v.Front())
  {
    hide BackNext;
    hide FrontNext;
    Independent(v.Back(), v.Front(), ops);
    var i := 0;
    while i < |ops|
      invariant i <= |ops| && v.Valid() && v.size < MAX_BUFFER_SIZE && (v.buf == old(v.buf) || fresh(v.buf))
      invariant BackAfter(old(v.Back()), ops) == BackAfter(v.Back(), ops[i..])
      invariant FrontAfter(old(v.Front()), ops) == FrontAfter(v.Front(), ops[i..])
    {
      assert ops[i..][0] == ops[i] && ops[i..][1..] == ops[i + 1..];
      Apply(v, ops[i]);
      i := i + 1;
    }
  }
}
