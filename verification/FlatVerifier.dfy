/**
  `Verifier` with the checks a schema generates: decides whether arbitrary bytes are safe to read. Its own
  reads are checked too: `Oob` would be a read of the verifier outside the buffer.
 */
module FlatVerifier {
  import opened Bytes
  import opened FlatReader
  import opened FlatLayout

  const MIN_BUFFER_SIZE := 12

  datatype Options = Options(maxDepth: nat, maxTables: nat, checkAlignment: bool)

  datatype Kind =
    | ScalarField(width: nat)
    | StructField(size: nat, align: nat)
    | StringField
    | TableField(table: nat)
    | ScalarVector(width: nat)
    | StringVector
    | TableVector(table: nat)

  datatype FieldDef = FieldDef(id: nat, kind: Kind, required: bool)

  /** The fields of each table type, in the order in which they are verified. */
  type Schema = seq<seq<FieldDef>>

  predicate KindOk(k: Kind, types: nat) {
    match k
    case ScalarField(w) => IsWidth(w)
    case StructField(size, a) => size > 0 && IsAlign(a)
    case TableField(ty) => ty < types
    case ScalarVector(w) => IsWidth(w)
    case TableVector(ty) => ty < types
    case _ => true
  }

  predicate DefOk(d: FieldDef, types: nat) {
    IsFieldId(d.id) && KindOk(d.kind, types) && (d.kind.ScalarField? ==> !d.required)
  }

  predicate SchemaOk(schema: Schema) {
    forall ty, k | 0 <= ty < |schema| && 0 <= k < |schema[ty]| :: DefOk(schema[ty][k], |schema|)
  }

  /** The counters of the verifier, 32 bits each. */
  datatype Counters = Counters(depth: nat, tables: nat)

  datatype Verdict = Verdict(ok: bool, counters: Counters)

  function Wrap32(x: int): nat {
    x % 0x1_0000_0000
  }

  function Wrap64(x: int): nat {
    x % 0x1_0000_0000_0000_0000
  }

  /** The range of `len` bytes at `p` lies in the buffer. */
  predicate Verify(b: seq<Byte>, p: nat, len: nat) {
    len < |b| && p <= |b| - len
  }

  predicate VerifyAlignment(opts: Options, p: nat, a: nat)
    requires IsAlign(a)
  {
    Rem(p, a) == 0 || !opts.checkAlignment
  }

  predicate VerifyScalar(b: seq<Byte>, opts: Options, p: nat, w: nat)
    requires IsWidth(w)
  {
    VerifyAlignment(opts, p, w) && Verify(b, p, w)
  }

  /** The offset stored at `p` if it may be followed, otherwise 0. */
  function VerifyOffset(b: seq<Byte>, opts: Options, p: nat): (r: nat)
    ensures r > 0 ==> p + r < |b| && Deref(b, p) == Ok(p + r)
  {
    if !VerifyScalar(b, opts, p, 4) then 0 else
    var o := ReadLE(b, p, 4).value;
    if o == 0 then 0
    else if o >= 0x8000_0000 then 0
    else if !Verify(b, p + o, 1) then 0
    else o
  }

  /** `MAX_BUFFER_SIZE / w` for the sizes of scalars. */
  function MaxElems(w: nat): nat
    requires IsWidth(w)
  {
    if w == 1 then MAX_BUFFER_SIZE else if w == 2 then MAX_BUFFER_SIZE / 2
    else if w == 4 then MAX_BUFFER_SIZE / 4 else MAX_BUFFER_SIZE / 8
  }

  /** The length field and as many elements of `w` bytes as it says; also the position behind them. */
  function VerifyVectorOrString(b: seq<Byte>, opts: Options, v: nat, w: nat): (bool, nat)
    requires IsWidth(w)
  {
    if !VerifyScalar(b, opts, v, 4) then (false, 0) else
    var n := ReadLE(b, v, 4).value;
    if n >= MaxElems(w) then (false, 0) else
    (Verify(b, v, 4 + Scale(n, w)), v + 4 + Scale(n, w))
  }

  predicate VerifyVector(b: seq<Byte>, opts: Options, v: nat, w: nat)
    requires IsWidth(w)
  {
    VerifyVectorOrString(b, opts, v, w).0
  }

  predicate VerifyString(b: seq<Byte>, opts: Options, p: nat) {
    var (ok, end) := VerifyVectorOrString(b, opts, p, 1);
    ok && Verify(b, end, 1) && ReadLE(b, end, 1).value == 0
  }

  /** The strings from number `i` on; their offsets are followed as they are. */
  function VerifyStrings(b: seq<Byte>, opts: Options, v: nat, i: nat): Read<bool>
    decreases Left(b, v + 4 + 4 * i)
  {
    var n :- VectorSize(b, v);
    if i >= n then Ok(true) else
    var p :- VectorRef(b, v, i);
    if VerifyString(b, opts, Max0(p)) then VerifyStrings(b, opts, v, i + 1) else Ok(false)
  }

  function Max0(p: int): nat {
    if p < 0 then 0 else p
  }

  /** How much of the buffer lies behind `p`; positions only grow while a buffer is verified. */
  function Left(b: seq<Byte>, p: int): nat {
    if 0 <= p <= |b| then |b| - p else 0
  }

  function VerifyComplexity(opts: Options, c: Counters): Verdict {
    var c1 := Counters(Wrap32(c.depth + 1), Wrap32(c.tables + 1));
    Verdict(c1.depth <= opts.maxDepth && c1.tables <= opts.maxTables, c1)
  }

  /** The limits are met so far, and the counters can still tell. */
  predicate Within(opts: Options, c: Counters) {
    && c.depth <= opts.maxDepth < 0xFFFF_FFFF
    && c.tables <= opts.maxTables < 0xFFFF_FFFF
  }

  function EndTable(c: Counters): Counters {
    c.(depth := Wrap32(c.depth - 1))
  }

  /** The distance to the vtable and the vtable itself. */
  function VerifyTableStart(b: seq<Byte>, opts: Options, t: nat, c: Counters): (r: Verdict)
    ensures r.ok ==> t + 4 <= |b|
  {
    if !VerifyScalar(b, opts, t, 4) then Verdict(false, c) else
    var vt := Wrap64(t - ReadSigned(b, t).value);
    var v := VerifyComplexity(opts, c);
    if !v.ok || !VerifyScalar(b, opts, vt, 2) then Verdict(false, v.counters) else
    var size := ReadLE(b, vt, 2).value;
    if !VerifyAlignment(opts, size, 2) then Verdict(false, v.counters) else
    Verdict(size % 2 == 0 && Verify(b, vt, size), v.counters)
  }

  /** A field with an offset, followed if it may be; the flag is false when it may not. */
  function VerifyPointer(b: seq<Byte>, opts: Options, t: nat, d: FieldDef): (r: Read<(bool, Option<int>)>)
    ensures r.Ok? && r.value.1.Some? ==> t < r.value.1.value < |b|
  {
    var o :- FieldOffset(b, t, d.id);
    if o == 0 then Ok((!d.required, None))
    else if VerifyOffset(b, opts, t + o) == 0 then Ok((false, None))
    else
      var p :- GetPointer(b, t, d.id);
      Ok((true, p))
  }

  /** The range of a scalar or struct field. */
  function VerifyInline(b: seq<Byte>, opts: Options, t: nat, d: FieldDef, size: nat, a: nat): Read<bool>
    requires IsAlign(a)
  {
    var o :- FieldOffset(b, t, d.id);
    if o == 0 then Ok(!d.required) else
    Ok(VerifyAlignment(opts, t + o, a) && Verify(b, t + o, size))
  }

  function VerifyTable(
    schema: Schema, opts: Options, b: seq<Byte>, ty: nat, t: nat, c: Counters): Read<Verdict>
    requires SchemaOk(schema) && ty < |schema|
    decreases Left(b, t), 2, 0
  {
    var v := VerifyTableStart(b, opts, t, c);
    if !v.ok then Ok(v) else
    var w :- VerifyFields(schema, opts, b, t, schema[ty], v.counters);
    Ok(if w.ok then Verdict(true, EndTable(w.counters)) else w)
  }

  predicate DefsOk(defs: seq<FieldDef>, types: nat) {
    forall k | 0 <= k < |defs| :: DefOk(defs[k], types)
  }

  function VerifyFields(
    schema: Schema, opts: Options, b: seq<Byte>, t: nat, defs: seq<FieldDef>, c: Counters): Read<Verdict>
    requires SchemaOk(schema) && DefsOk(defs, |schema|) && t < |b|
    decreases Left(b, t), 1, |defs|
  {
    if defs == [] then Ok(Verdict(true, c)) else
    var v :- VerifyField(schema, opts, b, t, defs[0], c);
    if v.ok then VerifyFields(schema, opts, b, t, defs[1..], v.counters) else Ok(v)
  }

  function VerifyField(
    schema: Schema, opts: Options, b: seq<Byte>, t: nat, d: FieldDef, c: Counters): Read<Verdict>
    requires SchemaOk(schema) && DefOk(d, |schema|) && t < |b|
    decreases Left(b, t), 0, 0
  {
    match d.kind
    case ScalarField(w) =>
      var ok :- VerifyInline(b, opts, t, d, w, w);
      Ok(Verdict(ok, c))
    case StructField(size, a) =>
      var ok :- VerifyInline(b, opts, t, d, size, a);
      Ok(Verdict(ok, c))
    case _ =>
      var (ok, p) :- VerifyPointer(b, opts, t, d);
      if !ok || p.None? then Ok(Verdict(ok, c)) else VerifyTarget(schema, opts, b, d.kind, p.value, c)
  }

  /** What the offset of a field leads to. */
  function VerifyTarget(
    schema: Schema, opts: Options, b: seq<Byte>, k: Kind, p: nat, c: Counters): Read<Verdict>
    requires SchemaOk(schema) && KindOk(k, |schema|) && !k.ScalarField? && !k.StructField?
    decreases Left(b, p), 4, 0
  {
    match k
    case StringField => Ok(Verdict(VerifyString(b, opts, p), c))
    case TableField(ty) => VerifyTable(schema, opts, b, ty, p, c)
    case ScalarVector(w) => Ok(Verdict(VerifyVector(b, opts, p, w), c))
    case StringVector =>
      if !VerifyVector(b, opts, p, 4) then Ok(Verdict(false, c)) else
      var all :- VerifyStrings(b, opts, p, 0);
      Ok(Verdict(all, c))
    case TableVector(ty) =>
      if !VerifyVector(b, opts, p, 4) then Ok(Verdict(false, c)) else VerifyTables(schema, opts, b, ty, p, 0, c)
  }

  /** The tables from number `i` on; their offsets are followed as they are. */
  function VerifyTables(
    schema: Schema, opts: Options, b: seq<Byte>, ty: nat, v: nat, i: nat, c: Counters): Read<Verdict>
    requires SchemaOk(schema) && ty < |schema|
    decreases Left(b, v), 3, Left(b, v + 4 + 4 * i)
  {
    var n :- VectorSize(b, v);
    if i >= n then Ok(Verdict(true, c)) else
    var p :- VectorRef(b, v, i);
    var w :- VerifyTable(schema, opts, b, ty, Max0(p), c);
    if w.ok then VerifyTables(schema, opts, b, ty, v, i + 1, w.counters) else Ok(w)
  }

  /** `strncmp` of the four bytes behind the root offset with a C string. */
  function SameIdent(b: seq<Byte>, p: int, ident: seq<Byte>, n: nat): Read<bool>
    decreases n
  {
    if n == 0 then Ok(true) else
    var x :- ReadLE(b, p, 1);
    var y := if ident == [] then 0 else ident[0] as nat;
    if x != y then Ok(false)
    else if x == 0 then Ok(true)
    else SameIdent(b, p + 1, ident[1..], n - 1)
  }

  /** `c` is what earlier calls on the same verifier have left in its counters; nothing resets them. */
  function VerifyBufferFromStart(
    schema: Schema, opts: Options, b: seq<Byte>, ty: nat, ident: Option<seq<Byte>>, start: nat, c: Counters)
    : Read<Verdict>
    requires SchemaOk(schema) && ty < |schema|
  {
    if |b| < MIN_BUFFER_SIZE then Ok(Verdict(false, c)) else
    var same :- if ident.Some? then SameIdent(b, start + 4, ident.value, 4) else Ok(true);
    if !same then Ok(Verdict(false, c)) else
    var o := VerifyOffset(b, opts, start);
    if o == 0 then Ok(Verdict(false, c)) else VerifyTable(schema, opts, b, ty, start + o, c)
  }

  function VerifyBuffer(
    schema: Schema, opts: Options, b: seq<Byte>, ty: nat, ident: Option<seq<Byte>>, sizePrefix: bool, c: Counters)
    : Read<Verdict>
    requires SchemaOk(schema) && ty < |schema|
  {
    if !sizePrefix then VerifyBufferFromStart(schema, opts, b, ty, ident, 0, c) else
    if !VerifyScalar(b, opts, 0, 4) then Ok(Verdict(false, c)) else
    var size := ReadLE(b, 0, 4).value;
    if size != |b| - 4 then Ok(Verdict(false, c))
    else VerifyBufferFromStart(schema, opts, b, ty, ident, 4, c)
  }
}
