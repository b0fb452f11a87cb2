/**
  The messages of the C++ proxy: four bytes of effect id in front of a finished `MessageEnvelope`, which is a
  table of thread id, message id, message type and message.
 */
module MfxMessage {
  import opened Bytes
  import opened FlatReader
  import opened FlatLayout
  import FB = FlatBuilder
  import opened FlatRun
  import opened FlatFinish
  import opened FlatBufferBuilderClass
  import opened FlatRunClass

  const THREAD_ID := 4
  const MESSAGE_ID := 6
  const MESSAGE_TYPE := 8
  const MESSAGE := 10

  /** The header of the envelope; the type is never 0, which stands for none. */
  datatype Header = Header(effectId: nat, threadId: nat, messageId: nat, kind: nat)

  predicate HeaderOk(h: Header) {
    h.effectId < 0x1_0000_0000 && h.threadId < 0x1_0000_0000 && h.messageId < 0x1_0000_0000 && 0 < h.kind < 0x100
  }

  predicate Among(adds: seq<Add>, a: Add) {
    exists i | 0 <= i < |adds| :: adds[i] == a
  }

  /** The fields of an envelope around the object number `body`, in whatever order they were added. */
  predicate IsEnvelope(op: Op, h: Header, body: nat) {
    op.MakeTable?
    && Among(op.adds, AddScalar(THREAD_ID, 4, h.threadId, 0)) && Among(op.adds, AddScalar(MESSAGE_ID, 4, h.messageId, 0))
    && Among(op.adds, AddScalar(MESSAGE_TYPE, 1, h.kind, 0)) && Among(op.adds, AddRef(MESSAGE, Some(body)))
  }

  /** The frame: what `make_message` copies into a new message. */
  function Framed(effectId: nat, buffer: seq<Byte>): seq<Byte> {
    LE(effectId, 4) + buffer
  }

  function EffectId(msg: seq<Byte>): Read<nat> {
    ReadLE(msg, 0, 4)
  }

  /** The flatbuffer behind the effect id. */
  function Envelope(msg: seq<Byte>): seq<Byte>
    requires |msg| >= 4
  {
    msg[4..]
  }

  function EnvelopeScalar(msg: seq<Byte>, id: nat, w: nat): Read<nat>
    requires |msg| >= 4
  {
    var t :- GetRoot(Envelope(msg), 0);
    GetField(Envelope(msg), t, id, w, 0)
  }

  /** The message if it is of the type asked for. */
  function MessageAs(msg: seq<Byte>, kind: nat): Read<Option<int>>
    requires |msg| >= 4
  {
    var t :- GetRoot(Envelope(msg), 0);
    var k :- GetField(Envelope(msg), t, MESSAGE_TYPE, 1, 0);
    if k != kind then Ok(None) else GetPointer(Envelope(msg), t, MESSAGE)
  }

  /** A pointer that was found and leads to the object `o`. */
  ghost predicate LeadsTo(b: seq<Byte>, r: Read<Option<int>>, o: Obj) {
    r.Ok? && r.value.Some? && Reads(b, r.value.value, o)
  }

  /** A subscriber asks for the four bytes of its effect id. */
  predicate Subscribed(effectId: nat, msg: seq<Byte>) {
    LE(effectId, 4) <= msg
  }

  lemma {:induction false} MeaningAt(ops: seq<Op>, i: nat)
    requires OpsOk(ops) && i < |ops|
    ensures OpsOk(ops[..i]) && Meaning(ops)[..i] == Meaning(ops[..i])
    ensures Meaning(ops)[i] == OpMeaning(ops[i], Meaning(ops)[..i])
  {
    var n := |ops| - 1;
    if i < n {
      MeaningAt(ops[..n], i);
      assert ops[..n][..i] == ops[..i];
      assert Meaning(ops)[..i] == Meaning(ops[..n])[..i];
    } else {
      assert ops[..n] == ops[..i];
      assert Meaning(ops)[..n] == Meaning(ops[..n]);
    }
  }

  /** What was added to the table is among what a reader finds in it. */
  lemma AddRead(b: seq<Byte>, t: int, adds: seq<Add>, before: seq<Obj>, a: Add)
    requires AddsOk(adds, |before|) && Among(adds, a) && Reads(b, t, Table(Slots(adds, before)))
    ensures AddOk(a, |before|) && ReadsSlot(b, t, Slot(a.id, AddMeaning(a, before)))
  {
    hide AddMeaning;
    hide ReadsSlot;
    hide FieldOffset;
    hide AddOk;
    var i :| 0 <= i < |adds| && adds[i] == a;
    assert Slots(adds, before)[i] == Slot(a.id, AddMeaning(a, before));
  }

  lemma EnvelopeReads(b: seq<Byte>, t: int, op: Op, h: Header, body: nat, before: seq<Obj>)
    requires IsEnvelope(op, h, body) && OpOk(op, |before|) && Reads(b, t, OpMeaning(op, before))
    ensures body < |before|
    ensures GetField(b, t, THREAD_ID, 4, 0) == Ok(h.threadId) && GetField(b, t, MESSAGE_ID, 4, 0) == Ok(h.messageId)
    ensures GetField(b, t, MESSAGE_TYPE, 1, 0) == Ok(h.kind)
    ensures LeadsTo(b, GetPointer(b, t, MESSAGE), before[body])
  {
    hide AddsOk;
    hide Among;
    hide FieldOffset;
    hide Reads;
    AddRead(b, t, op.adds, before, AddScalar(THREAD_ID, 4, h.threadId, 0));
    AddRead(b, t, op.adds, before, AddScalar(MESSAGE_ID, 4, h.messageId, 0));
    AddRead(b, t, op.adds, before, AddScalar(MESSAGE_TYPE, 1, h.kind, 0));
    AddRead(b, t, op.adds, before, AddRef(MESSAGE, Some(body)));
  }

  /**
    Every decoder returns what was framed, even when thread and message id are zero and therefore left out of
    the table; the message is found under its own type and under no other.
   */
  lemma MessageDecodes(
    ops: seq<Op>, force: bool, dedup: bool, b: seq<Byte>, h: Header, body: nat, kind: nat)
    requires ops != [] && Finished(ops, force, dedup, |ops| - 1, [], false, b)
    requires HeaderOk(h) && IsEnvelope(ops[|ops| - 1], h, body)
    ensures var msg := Framed(h.effectId, b);
      && EffectId(msg) == Ok(h.effectId)
      && EnvelopeScalar(msg, 4, 4) == Ok(h.threadId)
      && EnvelopeScalar(msg, 6, 4) == Ok(h.messageId)
      && EnvelopeScalar(msg, 8, 1) == Ok(h.kind)
      && body < |ops| - 1
      && if kind == h.kind then LeadsTo(Envelope(msg), MessageAs(msg, kind), Meaning(ops)[body])
         else MessageAs(msg, kind) == Ok(None)
  {
    assert THREAD_ID == 4 && MESSAGE_ID == 6 && MESSAGE_TYPE == 8;
    hide *;
    var n := |ops| - 1;
    FinishedRun(ops, force, dedup, b);
    RoundTrip(ops, force, dedup, n, [], false, b);
    MeaningAt(ops, n);
    RootReads(b, Meaning(ops)[n]);
    EnvelopeReads(b, GetRoot(b, 0).value, ops[n], h, body, Meaning(ops)[..n]);
    FrameParts(h, b);
    FrameReads(h, b, kind, Meaning(ops)[body]);
  }

  lemma FinishedRun(ops: seq<Op>, force: bool, dedup: bool, b: seq<Byte>)
    requires ops != [] && Finished(ops, force, dedup, |ops| - 1, [], false, b)
    ensures OpsOk(ops) && OpOk(ops[|ops| - 1], |ops| - 1) && RootAt(false) == 0
  {
  }

  lemma RootReads(b: seq<Byte>, o: Obj)
    requires ReadsAt(b, GetRoot(b, RootAt(false)), o)
    ensures GetRoot(b, 0).Ok? && Reads(b, GetRoot(b, 0).value, o)
  {
    hide Reads;
  }

  lemma FrameParts(h: Header, b: seq<Byte>)
    requires HeaderOk(h)
    ensures var msg := Framed(h.effectId, b);
      |msg| >= 4 && Envelope(msg) == b && EffectId(msg) == Ok(h.effectId)
  {
    hide LE;
    hide ReadLE;
    Ranges();
    AtFront(LE(h.effectId, 4), b);
    ReadOfAt(Framed(h.effectId, b), 0, h.effectId, 4);
  }

  lemma FrameReads(h: Header, b: seq<Byte>, kind: nat, o: Obj)
    requires GetRoot(b, 0).Ok? && |Framed(h.effectId, b)| >= 4 && Envelope(Framed(h.effectId, b)) == b
    requires var t := GetRoot(b, 0).value;
      && GetField(b, t, THREAD_ID, 4, 0) == Ok(h.threadId) && GetField(b, t, MESSAGE_ID, 4, 0) == Ok(h.messageId)
      && GetField(b, t, MESSAGE_TYPE, 1, 0) == Ok(h.kind)
      && LeadsTo(b, GetPointer(b, t, MESSAGE), o)
    ensures var msg := Framed(h.effectId, b);
      && EnvelopeScalar(msg, THREAD_ID, 4) == Ok(h.threadId)
      && EnvelopeScalar(msg, MESSAGE_ID, 4) == Ok(h.messageId)
      && EnvelopeScalar(msg, MESSAGE_TYPE, 1) == Ok(h.kind)
      && if kind == h.kind then LeadsTo(Envelope(msg), MessageAs(msg, kind), o)
         else MessageAs(msg, kind) == Ok(None)
  {
    hide Reads;
    hide GetField;
    hide GetPointer;
    hide GetRoot;
    hide Framed;
    hide Envelope;
  }

  /** For all 32-bit effect ids: a message reaches the subscriber of its own effect id and no other. */
  lemma SubscriptionExact(id: nat, effectId: nat, b: seq<Byte>)
    requires id < 0x1_0000_0000 && effectId < 0x1_0000_0000
    ensures Subscribed(id, Framed(effectId, b)) <==> id == effectId
  {
    hide LE;
    Ranges();
    ValOfLE(id, 4);
    ValOfLE(effectId, 4);
    assert Framed(effectId, b)[..4] == LE(effectId, 4);
    if Subscribed(id, Framed(effectId, b)) {
      assert LE(id, 4) == Framed(effectId, b)[..4];
    }
  }

  /** Finishes the buffer with the envelope as its root and copies effect id and buffer into a new message. */
  method MakeMessage(fbb: FlatBufferBuilder, envelope: nat, effectId: nat) returns (msg: array<Byte>)
    requires fbb.Valid() && fbb.NotNested() && IsAlign(fbb.State().minalign) && CanReferTo(fbb.State(), envelope)
    requires Fits(FB.Finish(fbb.State(), envelope, [], false))
    modifies fbb, fbb.buf, fbb.buf.buf
    ensures fresh(msg)
    ensures msg[..] == Framed(effectId, FB.Finish(old(fbb.State()), envelope, [], false).data)
  {
    hide LE;
    hide FB.Finish;
    fbb.Finish(envelope, [], false);
    var bytes := fbb.buf.Back();
    msg := new Byte[4 + |bytes|];
    var id := LE(effectId, 4);
    forall i | 0 <= i < 4 {
      msg[i] := id[i];
    }
    forall i | 0 <= i < |bytes| {
      msg[4 + i] := bytes[i];
    }
    assert msg[..] == id + bytes;
  }

  /** From the calls that build an envelope to the bytes of the message, which decode to what went in. */
  method BuildMessage(
    ops: seq<Op>, force: bool, dedup: bool, h: Header, ghost body: nat, ghost kind: nat,
    initialSize: nat, bufferMinalign: nat)
    returns (msg: array<Byte>)
    requires IsAlign(bufferMinalign) && OpsOk(ops) && ops != [] && Run(ops, force, dedup).Done?
    requires FinishFits(Run(ops, force, dedup).value, |ops| - 1, [], false)
    requires HeaderOk(h) && IsEnvelope(ops[|ops| - 1], h, body)
    ensures fresh(msg) && EffectId(msg[..]) == Ok(h.effectId) && msg.Length >= 4
    ensures EnvelopeScalar(msg[..], 4, 4) == Ok(h.threadId)
    ensures EnvelopeScalar(msg[..], 6, 4) == Ok(h.messageId)
    ensures EnvelopeScalar(msg[..], 8, 1) == Ok(h.kind)
    ensures body < |ops| - 1
    ensures if kind == h.kind then LeadsTo(Envelope(msg[..]), MessageAs(msg[..], kind), Meaning(ops)[body])
      else MessageAs(msg[..], kind) == Ok(None)
  {
    hide FB.Finish;
    hide Run;
    hide Meaning;
    hide IsEnvelope;
    hide MessageAs;
    hide EnvelopeScalar;
    hide EffectId;
    hide LeadsTo;
    hide Framed;
    var fbb, offs := Execute(ops, force, dedup, initialSize, bufferMinalign);
    ReadyToFinish(ops, force, dedup, |ops| - 1);
    ghost var b := FB.Finish(fbb.State(), offs[|offs| - 1], [], false).data;
    msg := MakeMessage(fbb, offs[|offs| - 1], h.effectId);
    FrameParts(h, b);
    MessageDecodes(ops, force, dedup, b, h, body, kind);
  }
}
