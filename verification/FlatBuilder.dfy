/**
  `FlatBufferBuilder` on values: the buffer grows at its front, offsets count from its end. These are
  the functions the class in FlatBufferBuilderClass.dfy is proved against.
 */
module FlatBuilder {
  import opened Bytes

  datatype FieldLoc = FieldLoc(off: nat, id: nat)

  /**
    `data` is the buffer, `vtables` and `fields` are the two parts of the scratch stack, `pool` holds the
    offsets of the shared strings.
   */
  datatype Builder = Builder(
    data: seq<Byte>, vtables: seq<nat>, fields: seq<FieldLoc>, maxVoffset: nat,
    nested: bool, finished: bool, minalign: nat, pool: seq<nat>, forceDefaults: bool, dedup: bool)

  function New(forceDefaults: bool, dedup: bool): Builder {
    Builder([], [], [], 0, false, false, 1, [], forceDefaults, dedup)
  }

  function Push(s: Builder, bytes: seq<Byte>): Builder {
    s.(data := bytes + s.data)
  }

  function TrackMinAlign(s: Builder, a: nat): Builder {
    s.(minalign := Max(s.minalign, a))
  }

  function Align(s: Builder, a: nat): Builder
    requires IsAlign(a)
  {
    Push(TrackMinAlign(s, a), Zeros(PaddingBytes(|s.data|, a)))
  }

  /** Pads so that `len` more bytes end on a multiple of `a`. */
  function PreAlign(s: Builder, len: nat, a: nat): Builder
    requires IsAlign(a)
  {
    if len == 0 then s else Push(TrackMinAlign(s, a), Zeros(PaddingBytes(|s.data| + len, a)))
  }

  function PushElement(s: Builder, n: nat, w: nat): Builder
    requires IsWidth(w)
  {
    Push(Align(s, w), LE(n, w))
  }

  /** The value to store now so that a reader finds the object at offset `off`. */
  function ReferTo(s: Builder, off: nat): nat
    requires off <= |s.data|
  {
    |Align(s, 4).data| - off + 4
  }

  function PushOffset(s: Builder, off: nat): Builder
    requires off <= |s.data|
  {
    PushElement(Align(s, 4), ReferTo(s, off), 4)
  }

  function TrackField(s: Builder, id: nat, off: nat): Builder {
    s.(fields := s.fields + [FieldLoc(off, id)], maxVoffset := Max(s.maxVoffset, id))
  }

  function AddElement(s: Builder, id: nat, n: nat, w: nat, default: nat): Builder
    requires IsWidth(w)
  {
    if n == default && !s.forceDefaults then s else
    var s1 := PushElement(s, n, w);
    TrackField(s1, id, |s1.data|)
  }

  function AddOffset(s: Builder, id: nat, off: nat): Builder
    requires off <= |s.data|
  {
    if off == 0 then s else AddElement(Align(s, 4), id, ReferTo(s, off), 4, 0)
  }

  /** A null pointer to a struct is not stored. */
  function AddStruct(s: Builder, id: nat, structptr: Option<seq<Byte>>, a: nat): Builder
    requires IsAlign(a)
  {
    match structptr
    case None => s
    case Some(bytes) =>
      var s1 := Push(Align(s, a), bytes);
      TrackField(s1, id, |s1.data|)
  }

  function StartTable(s: Builder): Builder {
    s.(nested := true)
  }

  function WriteAt(b: seq<Byte>, i: nat, bytes: seq<Byte>): (r: seq<Byte>)
    requires i + |bytes| <= |b|
    ensures |r| == |b|
  {
    b[..i] + bytes + b[i + |bytes|..]
  }

  predicate FieldsFit(fields: seq<FieldLoc>, size: nat, table: nat) {
    forall i | 0 <= i < |fields| ::
      4 <= fields[i].id && fields[i].id % 2 == 0 && fields[i].id + 2 <= size && fields[i].off <= table
  }

  /** Enters the distance of each field from the table, which is at offset `table`. */
  function FillVTable(vt: seq<Byte>, fields: seq<FieldLoc>, table: nat): (r: seq<Byte>)
    requires FieldsFit(fields, |vt|, table)
    ensures |r| == |vt|
  {
    if fields == [] then vt else
    var n := |fields| - 1;
    WriteAt(FillVTable(vt, fields[..n], table), fields[n].id, LE(table - fields[n].off, 2))
  }

  function VTableSize(maxVoffset: nat): (n: nat)
    ensures n >= 4
  {
    Max((maxVoffset + 2) % 0x1_0000, 4)
  }

  function EmptyVTable(size: nat, tableSize: nat): (r: seq<Byte>)
    requires size >= 4
    ensures |r| == size
  {
    LE(size, 2) + LE(tableSize, 2) + Zeros(size - 4)
  }

  predicate SameVTable(data: seq<Byte>, off: nat, vt: seq<Byte>) {
    At(data, |data| - off, vt)
  }

  /** The first known vtable with these bytes. */
  function FindVTable(data: seq<Byte>, vtables: seq<nat>, vt: seq<Byte>): (r: Option<nat>)
    ensures r.Some? ==> r.value in vtables && SameVTable(data, r.value, vt)
    ensures r.None? ==> forall i | 0 <= i < |vtables| :: !SameVTable(data, vtables[i], vt)
  {
    if vtables == [] then None
    else if SameVTable(data, vtables[0], vt) then Some(vtables[0])
    else FindVTable(data, vtables[1..], vt)
  }

  /** The buffer with room for the distance to the vtable, which is where a table that ends now starts. */
  function Opened(s: Builder): (r: Builder)
    ensures |r.data| >= 4
  {
    PushElement(s, 0, 4)
  }

  function TableOffset(s: Builder): nat {
    |Opened(s).data|
  }

  /** What stands behind the vtable distance of a table that ends now. */
  function TableBody(s: Builder): (body: seq<Byte>)
    ensures |body| == TableOffset(s) - 4
  {
    Opened(s).data[4..]
  }

  /** Fields are told apart by the vtable entry they fill. */
  predicate DistinctIds(fields: seq<FieldLoc>) {
    forall i, j | 0 <= i < j < |fields| :: fields[i].id != fields[j].id
  }

  /** What `EndTable` asserts: no field lies outside the vtable or is set twice. */
  predicate CanEndTable(s: Builder, start: nat) {
    && s.nested && DistinctIds(s.fields)
    && start <= |s.data|
    && TableOffset(s) - start < 0x1_0000
    && FieldsFit(s.fields, VTableSize(s.maxVoffset), TableOffset(s))
  }

  function NewVTable(s: Builder, start: nat): (vt: seq<Byte>)
    requires CanEndTable(s, start)
    ensures |vt| == VTableSize(s.maxVoffset)
  {
    var t := TableOffset(s);
    FillVTable(EmptyVTable(VTableSize(s.maxVoffset), t - start), s.fields, t)
  }

  /** The vtable with the same bytes that is already in the buffer, if they are to be shared. */
  function KnownVTable(s: Builder, start: nat): (r: Option<nat>)
    requires CanEndTable(s, start)
  {
    if s.dedup then FindVTable(Opened(s).data, s.vtables, NewVTable(s, start)) else None
  }

  /**
    Closes the table whose fields were added since the buffer had `start` bytes. The vtable is either a new
    one in front of the table, or an old one with the same bytes, further back.
   */
  function EndTable(s: Builder, start: nat): Builder
    requires CanEndTable(s, start)
  {
    var s1 := Opened(s);
    var t, vt, body := |s1.data|, NewVTable(s, start), TableBody(s);
    var s2 := s1.(fields := [], maxVoffset := 0, nested := false);
    match KnownVTable(s, start)
    case Some(known) => s2.(data := SignedLE(known - t) + body)
    case None => s2.(data := vt + (SignedLE(|vt|) + body), vtables := s.vtables + [t + |vt|])
  }

  /** Before the elements of a vector, `bytes` in all. */
  function StartVectorOf(s: Builder, bytes: nat, a: nat): Builder
    requires IsAlign(a)
  {
    PreAlign(PreAlign(s.(nested := true), bytes, 4), bytes, a)
  }

  function StartVector(s: Builder, len: nat, w: nat): Builder
    requires IsWidth(w)
  {
    StartVectorOf(s, Scale(len, w), w)
  }

  function EndVector(s: Builder, len: nat): Builder {
    PushElement(s.(nested := false), len, 4)
  }

  function CreateString(s: Builder, chars: seq<Byte>): Builder {
    var s1 := PreAlign(s, |chars| + 1, 4);
    PushElement(Push(Push(s1, [0]), chars), |chars|, 4)
  }

  function CreateVector(s: Builder, w: nat, xs: seq<nat>): Builder
    requires IsWidth(w)
  {
    EndVector(Push(StartVector(s, |xs|, w), Encode(w, xs)), |xs|)
  }

  predicate OffsetsIn(s: Builder, offs: seq<nat>) {
    forall i | 0 <= i < |offs| :: offs[i] <= |s.data|
  }

  /** Offsets are pushed from the last to the first. */
  function PushOffsets(s: Builder, offs: seq<nat>): (r: Builder)
    requires OffsetsIn(s, offs)
    ensures |r.data| >= |s.data|
  {
    if offs == [] then s else PushOffset(PushOffsets(s, offs[1..]), offs[0])
  }

  function CreateOffsets(s: Builder, offs: seq<nat>): Builder
    requires OffsetsIn(s, offs)
  {
    EndVector(PushOffsets(StartVector(s, |offs|, 4), offs), |offs|)
  }

  /** The bytes of the string at `off`, by its length field. */
  function StringAt(data: seq<Byte>, off: nat): seq<Byte> {
    match ReadLE(data, |data| - off, 4)
    case Ok(n) => if |data| - off + 4 + n <= |data| then data[|data| - off + 4..|data| - off + 4 + n] else []
    case Oob => []
  }

  function Memcmp(a: seq<Byte>, c: seq<Byte>, n: nat): int
    requires n <= |a| && n <= |c|
  {
    if n == 0 then 0
    else if a[0] != c[0] then a[0] - c[0]
    else Memcmp(a[1..], c[1..], n - 1)
  }

  /** `memcmp` of the common length, then the shorter one first. */
  predicate StringLessThan(a: seq<Byte>, c: seq<Byte>) {
    var cmp := Memcmp(a, c, if |a| < |c| then |a| else |c|);
    if cmp == 0 then |a| < |c| else cmp < 0
  }

  /** What a set ordered by `StringLessThan` finds for the string `chars`. */
  function FindString(data: seq<Byte>, pool: seq<nat>, chars: seq<Byte>): (r: Option<nat>)
    ensures r.Some? ==> r.value in pool
  {
    if pool == [] then None
    else
      var c := StringAt(data, pool[0]);
      if !StringLessThan(c, chars) && !StringLessThan(chars, c) then Some(pool[0])
      else FindString(data, pool[1..], chars)
  }

  /** Writes the string, then takes it back if the pool has it; returns its offset. */
  function CreateSharedString(s: Builder, chars: seq<Byte>): (Builder, nat) {
    var s1 := CreateString(s, chars);
    match FindString(s1.data, s.pool, chars)
    case Some(known) => (s1.(data := s.data), known)
    case None => (s1.(pool := s.pool + [|s1.data|]), |s1.data|)
  }

  /** `ident` is empty or the four characters of the file identifier. */
  function Finish(s: Builder, root: nat, ident: seq<Byte>, sizePrefix: bool): Builder
    requires root <= |s.data|
    requires IsAlign(s.minalign)
  {
    var s0 := s.(vtables := []);
    var s1 := PreAlign(s0, (if sizePrefix then 4 else 0) + 4 + |ident|, s.minalign);
    var s2 := PushOffset(Push(s1, ident), root);
    var s3 := if sizePrefix then PushElement(s2, |s2.data|, 4) else s2;
    s3.(finished := true)
  }
}
