/**
  Soundness of the verifier: it never reads outside the buffer itself, it comes to an end, and once it has
  accepted no sequence of accessor calls starting at the root reads outside the buffer.
 */
module FlatVerifierSound {
  import opened Bytes
  import opened FlatReader
  import opened FlatLayout
  import opened FlatVerifier

  /** The vtable of the table at `t` lies in the buffer; its size is even. */
  predicate VTableInside(b: seq<Byte>, t: int) {
    match VTable(b, t)
    case Ok(vt) =>
      (match ReadLE(b, vt, 2)
       case Ok(size) => size % 2 == 0 && vt + size <= |b|
       case Oob => false)
    case Oob => false
  }

  lemma TableStartSound(b: seq<Byte>, opts: Options, t: nat, c: Counters)
    requires |b| < MAX_BUFFER_SIZE && VerifyTableStart(b, opts, t, c).ok
    ensures VTableInside(b, t)
  {
    hide Rem;
    var d := ReadSigned(b, t).value;
    ReadSignedBound(b, t);
    Wrap64Exact(t - d);
  }

  lemma ReadSignedBound(b: seq<Byte>, p: int)
    requires ReadSigned(b, p).Ok?
    ensures -0x8000_0000 <= ReadSigned(b, p).value < 0x8000_0000
  {
    ReadBound(b, p, 4);
    Ranges();
  }

  lemma Wrap64Exact(x: int)
    requires -0x1_0000_0000 <= x < 0x1_0000_0000
    ensures Wrap64(x) == if x >= 0 then x else x + 0x1_0000_0000_0000_0000
  {
  }

  /** Every field offset of such a table can be read. */
  lemma FieldOffsetInside(b: seq<Byte>, t: int, id: nat)
    requires VTableInside(b, t) && id % 2 == 0
    ensures FieldOffset(b, t, id).Ok?
  {
    hide ReadSigned;
    var vt := VTable(b, t).value;
    var size := ReadLE(b, vt, 2).value;
    if id < size {
      assert id + 2 <= size;
    }
  }

  lemma PointerInside(b: seq<Byte>, opts: Options, t: nat, d: FieldDef)
    requires VTableInside(b, t) && IsFieldId(d.id)
    ensures VerifyPointer(b, opts, t, d).Ok?
    ensures VerifyPointer(b, opts, t, d).value.0 ==>
      GetPointer(b, t, d.id) == Ok(VerifyPointer(b, opts, t, d).value.1)
  {
    hide VTableInside;
    hide FieldOffset;
    FieldOffsetInside(b, t, d.id);
  }

  /** The length and the elements lie inside. */
  predicate VectorInside(b: seq<Byte>, v: int, w: nat)
    requires IsWidth(w)
  {
    match VectorSize(b, v)
    case Ok(n) => v + 4 + Scale(n, w) <= |b|
    case Oob => false
  }

  lemma VectorSound(b: seq<Byte>, opts: Options, v: nat, w: nat)
    requires IsWidth(w) && VerifyVector(b, opts, v, w)
    ensures VectorInside(b, v, w)
    ensures var n := VectorSize(b, v).value; n < MaxElems(w) && Scale(n, w) < MAX_BUFFER_SIZE
  {
    ElemsBounded(VectorSize(b, v).value, w);
    hide Scale;
    hide Rem;
  }

  lemma ElemsBounded(n: nat, w: nat)
    requires IsWidth(w)
    ensures n < MaxElems(w) ==> Scale(n, w) < MAX_BUFFER_SIZE
  {
  }

  lemma RefInside(b: seq<Byte>, v: nat, i: nat)
    requires VectorInside(b, v, 4) && i < VectorSize(b, v).value
    ensures VectorRef(b, v, i).Ok? && VectorRef(b, v, i).value >= v + 4
  {
  }

  lemma {:induction false} StringsSafe(b: seq<Byte>, opts: Options, v: nat, i: nat)
    requires VectorInside(b, v, 4)
    ensures VerifyStrings(b, opts, v, i).Ok?
    decreases Left(b, v + 4 + 4 * i)
  {
    if i < VectorSize(b, v).value {
      RefInside(b, v, i);
      StringsSafe(b, opts, v, i + 1);
    }
  }

  /** The verifier reads nothing outside the buffer, whatever the buffer holds. */
  lemma {:induction false} TableSafe(schema: Schema, opts: Options, b: seq<Byte>, ty: nat, t: nat, c: Counters)
    requires SchemaOk(schema) && ty < |schema| && |b| < MAX_BUFFER_SIZE
    ensures VerifyTable(schema, opts, b, ty, t, c).Ok?
    decreases Left(b, t), 2, 0
  {
    hide VTableInside;
    var v := VerifyTableStart(b, opts, t, c);
    if v.ok {
      TableStartSound(b, opts, t, c);
      FieldsSafe(schema, opts, b, t, schema[ty], v.counters);
    }
  }

  lemma {:induction false} FieldsSafe(
    schema: Schema, opts: Options, b: seq<Byte>, t: nat, defs: seq<FieldDef>, c: Counters)
    requires SchemaOk(schema) && DefsOk(defs, |schema|) && |b| < MAX_BUFFER_SIZE
    requires t < |b| && VTableInside(b, t)
    ensures VerifyFields(schema, opts, b, t, defs, c).Ok?
    decreases Left(b, t), 1, |defs|
  {
    hide VTableInside;
    hide VerifyField;
    if defs != [] {
      FieldSafe(schema, opts, b, t, defs[0], c);
      FieldsSafe(schema, opts, b, t, defs[1..], VerifyField(schema, opts, b, t, defs[0], c).value.counters);
    }
  }

  lemma {:induction false} FieldSafe(
    schema: Schema, opts: Options, b: seq<Byte>, t: nat, d: FieldDef, c: Counters)
    requires SchemaOk(schema) && DefOk(d, |schema|) && |b| < MAX_BUFFER_SIZE
    requires t < |b| && VTableInside(b, t)
    ensures VerifyField(schema, opts, b, t, d, c).Ok?
    decreases Left(b, t), 0, 0
  {
    hide VTableInside;
    hide FieldOffset;
    hide VerifyPointer;
    hide VerifyTarget;
    FieldOffsetInside(b, t, d.id);
    PointerInside(b, opts, t, d);
    var r := VerifyPointer(b, opts, t, d).value;
    if !d.kind.ScalarField? && !d.kind.StructField? && r.0 && r.1.Some? {
      TargetSafe(schema, opts, b, d.kind, r.1.value, c);
    }
  }

  lemma {:induction false} TargetSafe(
    schema: Schema, opts: Options, b: seq<Byte>, k: Kind, p: nat, c: Counters)
    requires SchemaOk(schema) && KindOk(k, |schema|) && !k.ScalarField? && !k.StructField?
    requires |b| < MAX_BUFFER_SIZE
    ensures VerifyTarget(schema, opts, b, k, p, c).Ok?
    decreases Left(b, p), 4, 0
  {
    hide VectorInside;
    hide VerifyVector;
    match k
    case TableField(ty) => TableSafe(schema, opts, b, ty, p, c);
    case StringVector =>
      if VerifyVector(b, opts, p, 4) {
        VectorSound(b, opts, p, 4);
        StringsSafe(b, opts, p, 0);
      }
    case TableVector(ty) =>
      if VerifyVector(b, opts, p, 4) {
        VectorSound(b, opts, p, 4);
        TablesSafe(schema, opts, b, ty, p, 0, c);
      }
    case _ =>
  }

  lemma {:induction false} TablesSafe(
    schema: Schema, opts: Options, b: seq<Byte>, ty: nat, v: nat, i: nat, c: Counters)
    requires SchemaOk(schema) && ty < |schema| && |b| < MAX_BUFFER_SIZE
    requires VectorInside(b, v, 4)
    ensures VerifyTables(schema, opts, b, ty, v, i, c).Ok?
    decreases Left(b, v), 3, Left(b, v + 4 + 4 * i)
  {
    if i < VectorSize(b, v).value {
      RefInside(b, v, i);
      var p := VectorRef(b, v, i).value;
      TableSafe(schema, opts, b, ty, p, c);
      TablesSafe(schema, opts, b, ty, v, i + 1, VerifyTable(schema, opts, b, ty, p, c).value.counters);
    }
  }

  lemma {:induction false} IdentSafe(b: seq<Byte>, p: nat, ident: seq<Byte>, n: nat)
    requires p + n <= |b|
    ensures SameIdent(b, p, ident, n).Ok?
    decreases n
  {
    if n > 0 && ident != [] {
      IdentSafe(b, p + 1, ident[1..], n - 1);
    }
  }

  /** On any bytes at all the verifier reaches a verdict without reading outside of them. */
  lemma BufferSafe(
    schema: Schema, opts: Options, b: seq<Byte>, ty: nat, ident: Option<seq<Byte>>, sizePrefix: bool, c: Counters)
    requires SchemaOk(schema) && ty < |schema| && |b| < MAX_BUFFER_SIZE
    ensures VerifyBuffer(schema, opts, b, ty, ident, sizePrefix, c).Ok?
  {
    var start := if sizePrefix then 4 else 0;
    if |b| >= MIN_BUFFER_SIZE {
      if ident.Some? {
        IdentSafe(b, start + 4, ident.value, 4);
      }
      TableSafe(schema, opts, b, ty, start + VerifyOffset(b, opts, start), c);
    }
  }

  /** Where a chain of accessor calls has led. */
  datatype Cursor =
    | AtTable(pos: int, ty: nat)
    | AtString(pos: int)
    | AtScalars(pos: int, width: nat)
    | AtStrings(pos: int)
    | AtTables(pos: int, ty: nat)
    | Done

  /** One accessor call: a field of a table by its place in the schema, an element of a vector, or `c_str`. */
  datatype Step = Field(k: nat) | Index(i: nat) | CString

  function Slice(b: seq<Byte>, p: int, n: nat): Read<seq<Byte>> {
    if 0 <= p && p + n <= |b| then Ok(b[p..p + n]) else Oob
  }

  /** The characters up to a zero, read one after the other. */
  function Strlen(b: seq<Byte>, p: int): Read<nat>
    decreases Left(b, p)
  {
    var x :- ReadLE(b, p, 1);
    if x == 0 then Ok(0) else
    var n :- Strlen(b, p + 1);
    Ok(n + 1)
  }

  function CursorOf(k: Kind, p: int): Cursor {
    match k
    case StringField => AtString(p)
    case TableField(ty) => AtTable(p, ty)
    case ScalarVector(w) => AtScalars(p, w)
    case StringVector => AtStrings(p)
    case TableVector(ty) => AtTables(p, ty)
    case _ => Done
  }

  /** Makes the accessor call with plain reads; `Done` when it yields no object to go on with. */
  function Access(schema: Schema, b: seq<Byte>, c: Cursor, s: Step): Read<Cursor> {
    match (c, s)
    case (AtTable(t, ty), Field(k)) =>
      if ty < |schema| && k < |schema[ty]| then AccessField(b, t, schema[ty][k]) else Ok(Done)
    case (AtString(p), Index(i)) =>
      var n :- VectorSize(b, p);
      if i > n then Ok(Done) else
      var _ :- ReadLE(b, p + 4 + i, 1);
      Ok(Done)
    case (AtString(p), CString) =>
      var _ :- Strlen(b, p + 4);
      Ok(Done)
    case (AtScalars(v, w), Index(i)) =>
      var n :- VectorSize(b, v);
      if i >= n || !IsWidth(w) then Ok(Done) else
      var _ :- VectorScalar(b, v, w, i);
      Ok(Done)
    case (AtStrings(v), Index(i)) =>
      var n :- VectorSize(b, v);
      if i >= n then Ok(Done) else
      var p :- VectorRef(b, v, i);
      Ok(AtString(p))
    case (AtTables(v, ty), Index(i)) =>
      var n :- VectorSize(b, v);
      if i >= n then Ok(Done) else
      var p :- VectorRef(b, v, i);
      Ok(AtTable(p, ty))
    case _ => Ok(Done)
  }

  function AccessField(b: seq<Byte>, t: int, d: FieldDef): Read<Cursor> {
    match d.kind
    case ScalarField(w) =>
      var _ :- GetField(b, t, d.id, w, 0);
      Ok(Done)
    case StructField(size, _) =>
      var p :- GetStruct(b, t, d.id);
      if p.None? then Ok(Done) else
      var _ :- Slice(b, p.value, size);
      Ok(Done)
    case _ =>
      var p :- GetPointer(b, t, d.id);
      Ok(if p.None? then Done else CursorOf(d.kind, p.value))
  }

  /** A whole chain of accessor calls. */
  function Follow(schema: Schema, b: seq<Byte>, c: Cursor, steps: seq<Step>): Read<Cursor>
    decreases |steps|
  {
    if steps == [] then Ok(c) else
    var c1 :- Access(schema, b, c, steps[0]);
    Follow(schema, b, c1, steps[1..])
  }

  ghost predicate TableAccepted(schema: Schema, opts: Options, b: seq<Byte>, t: int, ty: nat)
    requires SchemaOk(schema)
  {
    t >= 0 && ty < |schema| && exists c: Counters, w: Verdict | w.ok :: VerifyTable(schema, opts, b, ty, t, c) == Ok(w)
  }

  /** The verifier has accepted what the cursor points to. */
  ghost predicate Accepted(schema: Schema, opts: Options, b: seq<Byte>, c: Cursor)
    requires SchemaOk(schema)
  {
    match c
    case AtTable(t, ty) => TableAccepted(schema, opts, b, t, ty)
    case AtString(p) => p >= 0 && VerifyString(b, opts, p)
    case AtScalars(v, w) => v >= 0 && IsWidth(w) && VectorInside(b, v, w)
    case AtStrings(v) =>
      && v >= 0 && VectorInside(b, v, 4)
      && forall i | 0 <= i < VectorSize(b, v).value :: StringAccepted(opts, b, VectorRef(b, v, i))
    case AtTables(v, ty) =>
      && v >= 0 && VectorInside(b, v, 4)
      && forall i | 0 <= i < VectorSize(b, v).value :: TableRefAccepted(schema, opts, b, VectorRef(b, v, i), ty)
    case Done => true
  }

  ghost predicate StringAccepted(opts: Options, b: seq<Byte>, r: Read<int>) {
    r.Ok? && r.value >= 0 && VerifyString(b, opts, r.value)
  }

  ghost predicate TableRefAccepted(schema: Schema, opts: Options, b: seq<Byte>, r: Read<int>, ty: nat)
    requires SchemaOk(schema)
  {
    r.Ok? && TableAccepted(schema, opts, b, r.value, ty)
  }

  lemma {:induction false} StringsAccepted(b: seq<Byte>, opts: Options, v: nat, i: nat)
    requires VectorInside(b, v, 4) && VerifyStrings(b, opts, v, i) == Ok(true)
    ensures forall j | i <= j < VectorSize(b, v).value :: StringAccepted(opts, b, VectorRef(b, v, j))
    decreases Left(b, v + 4 + 4 * i)
  {
    hide VerifyString;
    if i < VectorSize(b, v).value {
      RefInside(b, v, i);
      StringsAccepted(b, opts, v, i + 1);
    }
  }

  lemma {:induction false} TablesAccepted(
    schema: Schema, opts: Options, b: seq<Byte>, ty: nat, v: nat, i: nat, c: Counters)
    requires SchemaOk(schema) && ty < |schema| && VectorInside(b, v, 4)
    requires VerifyTables(schema, opts, b, ty, v, i, c).Ok?
    requires VerifyTables(schema, opts, b, ty, v, i, c).value.ok
    ensures forall j | i <= j < VectorSize(b, v).value :: TableRefAccepted(schema, opts, b, VectorRef(b, v, j), ty)
    decreases Left(b, v + 4 + 4 * i)
  {
    hide VerifyTable;
    if i < VectorSize(b, v).value {
      RefInside(b, v, i);
      var p := VectorRef(b, v, i).value;
      var w := VerifyTable(schema, opts, b, ty, p, c).value;
      TablesAccepted(schema, opts, b, ty, v, i + 1, w.counters);
    }
  }

  /** Each field of an accepted table was accepted, at some state of the counters. */
  lemma {:induction false} FieldAccepted(
    schema: Schema, opts: Options, b: seq<Byte>, t: nat, defs: seq<FieldDef>, c: Counters, k: nat)
    returns (ck: Counters)
    requires SchemaOk(schema) && DefsOk(defs, |schema|) && t < |b| && k < |defs|
    requires VerifyFields(schema, opts, b, t, defs, c).Ok?
    requires VerifyFields(schema, opts, b, t, defs, c).value.ok
    ensures VerifyField(schema, opts, b, t, defs[k], ck).Ok?
    ensures VerifyField(schema, opts, b, t, defs[k], ck).value.ok
    decreases |defs|
  {
    hide VerifyField;
    if k == 0 {
      ck := c;
    } else {
      var v := VerifyField(schema, opts, b, t, defs[0], c).value;
      ck := FieldAccepted(schema, opts, b, t, defs[1..], v.counters, k - 1);
    }
  }

  lemma TargetAccepted(schema: Schema, opts: Options, b: seq<Byte>, k: Kind, p: nat, c: Counters)
    requires SchemaOk(schema) && KindOk(k, |schema|) && !k.ScalarField? && !k.StructField?
    requires VerifyTarget(schema, opts, b, k, p, c).Ok? && VerifyTarget(schema, opts, b, k, p, c).value.ok
    ensures Accepted(schema, opts, b, CursorOf(k, p))
  {
    hide VectorInside;
    hide VerifyVector;
    hide VerifyTable;
    hide VerifyTables;
    hide VerifyStrings;
    hide VerifyString;
    match k
    case StringField =>
    case TableField(ty) =>
      var w := VerifyTable(schema, opts, b, ty, p, c).value;
      assert VerifyTable(schema, opts, b, ty, p, c) == Ok(w);
    case ScalarVector(w) => VectorSound(b, opts, p, w);
    case StringVector =>
      VectorSound(b, opts, p, 4);
      StringsAccepted(b, opts, p, 0);
    case TableVector(ty) =>
      VectorSound(b, opts, p, 4);
      TablesAccepted(schema, opts, b, ty, p, 0, c);
  }

  lemma AccessFieldSound(schema: Schema, opts: Options, b: seq<Byte>, t: nat, d: FieldDef, c: Counters)
    requires SchemaOk(schema) && DefOk(d, |schema|) && t < |b| && VTableInside(b, t)
    requires VerifyField(schema, opts, b, t, d, c).Ok? && VerifyField(schema, opts, b, t, d, c).value.ok
    ensures AccessField(b, t, d).Ok? && Accepted(schema, opts, b, AccessField(b, t, d).value)
  {
    hide VTableInside;
    hide FieldOffset;
    hide VerifyPointer;
    hide GetPointer;
    hide VerifyTarget;
    hide Accepted;
    hide CursorOf;
    hide Rem;
    FieldOffsetInside(b, t, d.id);
    PointerInside(b, opts, t, d);
    DoneAccepted(schema, opts, b);
    match d.kind
    case ScalarField(w) =>
    case StructField(size, a) =>
    case _ =>
      var r := VerifyPointer(b, opts, t, d).value;
      if r.1.Some? {
        TargetAccepted(schema, opts, b, d.kind, r.1.value, c);
      }
  }

  lemma DoneAccepted(schema: Schema, opts: Options, b: seq<Byte>)
    requires SchemaOk(schema)
    ensures Accepted(schema, opts, b, Done)
  {
  }

  /** A terminator behind the characters stops the search for one. */
  lemma {:induction false} StrlenStops(b: seq<Byte>, p: nat, end: nat)
    requires p <= end && ReadLE(b, end, 1) == Ok(0)
    ensures Strlen(b, p).Ok? && p + Strlen(b, p).value <= end
    decreases end - p
  {
    if p < end && ReadLE(b, p, 1).value != 0 {
      StrlenStops(b, p + 1, end);
    }
  }

  lemma StringSound(b: seq<Byte>, opts: Options, p: nat)
    requires VerifyString(b, opts, p)
    ensures VectorSize(b, p).Ok?
    ensures var end := p + 4 + VectorSize(b, p).value; end < |b| && ReadLE(b, end, 1) == Ok(0)
  {
    hide Rem;
  }

  lemma AccessTable(schema: Schema, opts: Options, b: seq<Byte>, t: int, ty: nat, k: nat)
    requires SchemaOk(schema) && |b| < MAX_BUFFER_SIZE
    requires TableAccepted(schema, opts, b, t, ty) && k < |schema[ty]|
    ensures AccessField(b, t, schema[ty][k]).Ok?
    ensures Accepted(schema, opts, b, AccessField(b, t, schema[ty][k]).value)
  {
    hide VerifyFields;
    hide VerifyField;
    hide VerifyTableStart;
    hide AccessField;
    hide Accepted;
    hide VTableInside;
    var c: Counters, w: Verdict :| w.ok && VerifyTable(schema, opts, b, ty, t, c) == Ok(w);
    TableStartSound(b, opts, t, c);
    var v := VerifyTableStart(b, opts, t, c);
    var ck := FieldAccepted(schema, opts, b, t, schema[ty], v.counters, k);
    AccessFieldSound(schema, opts, b, t, schema[ty][k], ck);
  }

  /** One accessor call on something accepted stays inside and leads to something accepted. */
  lemma AccessSound(schema: Schema, opts: Options, b: seq<Byte>, c: Cursor, s: Step)
    requires SchemaOk(schema) && |b| < MAX_BUFFER_SIZE
    requires Accepted(schema, opts, b, c)
    ensures Access(schema, b, c, s).Ok? && Accepted(schema, opts, b, Access(schema, b, c, s).value)
  {
    hide TableAccepted;
    hide AccessField;
    hide VerifyString;
    match (c, s)
    case (AtTable(t, ty), Field(k)) =>
      TableAcceptedType(schema, opts, b, t, ty);
      if k < |schema[ty]| {
        AccessTable(schema, opts, b, t, ty, k);
      }
    case (AtString(p), Index(i)) => StringSound(b, opts, p);
    case (AtString(p), CString) =>
      StringSound(b, opts, p);
      StrlenStops(b, p + 4, p + 4 + VectorSize(b, p).value);
    case (AtScalars(v, w), Index(i)) => ScalarInside(b, v, w, i);
    case (AtStrings(v), Index(i)) =>
    case (AtTables(v, ty), Index(i)) =>
    case _ =>
  }

  lemma TableAcceptedType(schema: Schema, opts: Options, b: seq<Byte>, t: int, ty: nat)
    requires SchemaOk(schema) && TableAccepted(schema, opts, b, t, ty)
    ensures ty < |schema|
  {
  }

  lemma ScalarInside(b: seq<Byte>, v: nat, w: nat, i: nat)
    requires IsWidth(w) && VectorInside(b, v, w)
    ensures i < VectorSize(b, v).value ==> VectorScalar(b, v, w, i).Ok?
  {
    if w == 1 {} else if w == 2 {} else if w == 4 {} else {}
  }

  lemma {:induction false} FollowSound(
    schema: Schema, opts: Options, b: seq<Byte>, c: Cursor, steps: seq<Step>)
    requires SchemaOk(schema) && |b| < MAX_BUFFER_SIZE
    requires Accepted(schema, opts, b, c)
    ensures Follow(schema, b, c, steps).Ok?
    decreases |steps|
  {
    hide Access;
    hide Accepted;
    if steps != [] {
      AccessSound(schema, opts, b, c, steps[0]);
      FollowSound(schema, opts, b, Access(schema, b, c, steps[0]).value, steps[1..]);
    }
  }

  /**
    Soundness. If the verifier accepts, then from the root every chain of accessor calls the schema allows,
    of any length, reads inside the buffer only.
   */
  lemma VerifierSound(
    schema: Schema, opts: Options, b: seq<Byte>, ty: nat, ident: Option<seq<Byte>>, sizePrefix: bool,
    c: Counters, steps: seq<Step>)
    requires SchemaOk(schema) && ty < |schema| && |b| < MAX_BUFFER_SIZE
    requires VerifyBuffer(schema, opts, b, ty, ident, sizePrefix, c).Ok?
    requires VerifyBuffer(schema, opts, b, ty, ident, sizePrefix, c).value.ok
    ensures var root := GetRoot(b, if sizePrefix then 4 else 0);
      root.Ok? && Follow(schema, b, AtTable(root.value, ty), steps).Ok?
  {
    hide VerifyTable;
    hide Follow;
    var start := if sizePrefix then 4 else 0;
    var o := VerifyOffset(b, opts, start);
    var w := VerifyTable(schema, opts, b, ty, start + o, c).value;
    assert VerifyTable(schema, opts, b, ty, start + o, c) == Ok(w);
    FollowSound(schema, opts, b, AtTable(start + o, ty), steps);
  }

  /** Only table visits move the table counter, one at a time; an accepted part leaves the depth as it was. */
  predicate Counted(opts: Options, c: Counters, r: Read<Verdict>) {
    match r
    case Ok(v) =>
      && c.tables <= v.counters.tables <= opts.maxTables + 1
      && (v.ok ==> v.counters.depth == c.depth && v.counters.tables <= opts.maxTables)
    case Oob => true
  }

  lemma {:induction false} TableCounted(schema: Schema, opts: Options, b: seq<Byte>, ty: nat, t: nat, c: Counters)
    requires SchemaOk(schema) && ty < |schema| && Within(opts, c)
    ensures Counted(opts, c, VerifyTable(schema, opts, b, ty, t, c))
    ensures var r := VerifyTable(schema, opts, b, ty, t, c);
      r.Ok? && r.value.ok ==> r.value.counters.tables > c.tables
    decreases Left(b, t), 2, 0
  {
    hide VerifyFields;
    hide Rem;
    hide ReadSigned;
    hide DefOk;
    var v := VerifyTableStart(b, opts, t, c);
    if v.ok {
      FieldsCounted(schema, opts, b, t, schema[ty], v.counters);
    }
  }

  lemma {:induction false} FieldsCounted(
    schema: Schema, opts: Options, b: seq<Byte>, t: nat, defs: seq<FieldDef>, c: Counters)
    requires SchemaOk(schema) && DefsOk(defs, |schema|) && t < |b| && Within(opts, c)
    ensures Counted(opts, c, VerifyFields(schema, opts, b, t, defs, c))
    decreases Left(b, t), 1, |defs|
  {
    hide VerifyField;
    hide DefOk;
    hide SchemaOk;
    if defs != [] {
      FieldCounted(schema, opts, b, t, defs[0], c);
      var r := VerifyField(schema, opts, b, t, defs[0], c);
      if r.Ok? && r.value.ok {
        FieldsCounted(schema, opts, b, t, defs[1..], r.value.counters);
      }
    }
  }

  lemma {:induction false} FieldCounted(
    schema: Schema, opts: Options, b: seq<Byte>, t: nat, d: FieldDef, c: Counters)
    requires SchemaOk(schema) && DefOk(d, |schema|) && t < |b| && Within(opts, c)
    ensures Counted(opts, c, VerifyField(schema, opts, b, t, d, c))
    decreases Left(b, t), 0, 0
  {
    hide VerifyPointer;
    hide VerifyInline;
    hide SchemaOk;
    hide VerifyTables;
    hide VerifyTable;
    if !d.kind.ScalarField? && !d.kind.StructField? {
      var r := VerifyPointer(b, opts, t, d);
      if r.Ok? && r.value.0 && r.value.1.Some? {
        var p := r.value.1.value;
        match d.kind
        case TableField(ty) => TableCounted(schema, opts, b, ty, p, c);
        case TableVector(ty) => TablesCounted(schema, opts, b, ty, p, 0, c);
        case _ =>
      }
    }
  }

  lemma {:induction false} TablesCounted(
    schema: Schema, opts: Options, b: seq<Byte>, ty: nat, v: nat, i: nat, c: Counters)
    requires SchemaOk(schema) && ty < |schema| && Within(opts, c)
    ensures Counted(opts, c, VerifyTables(schema, opts, b, ty, v, i, c))
    decreases Left(b, v), 3, Left(b, v + 4 + 4 * i)
  {
    hide VerifyTable;
    hide SchemaOk;
    if VectorSize(b, v).Ok? && i < VectorSize(b, v).value && VectorRef(b, v, i).Ok? {
      var p := VectorRef(b, v, i).value;
      TableCounted(schema, opts, b, ty, p, c);
      var r := VerifyTable(schema, opts, b, ty, p, c);
      if r.Ok? && r.value.ok {
        TablesCounted(schema, opts, b, ty, v, i + 1, r.value.counters);
      }
    }
  }

  /**
    On any bytes, and whatever the verifier was used for before: acceptance leaves the depth as it was, and at
    no time are more than `maxTables + 1` tables visited.
   */
  lemma BufferCounted(
    schema: Schema, opts: Options, b: seq<Byte>, ty: nat, ident: Option<seq<Byte>>, sizePrefix: bool, c: Counters)
    requires SchemaOk(schema) && ty < |schema| && Within(opts, c)
    ensures Counted(opts, c, VerifyBuffer(schema, opts, b, ty, ident, sizePrefix, c))
    ensures var r := VerifyBuffer(schema, opts, b, ty, ident, sizePrefix, c);
      r.Ok? && r.value.ok ==> c.tables < r.value.counters.tables <= opts.maxTables
  {
    hide VerifyTable;
    hide SameIdent;
    hide VerifyOffset;
    var start := if sizePrefix then 4 else 0;
    TableCounted(schema, opts, b, ty, start + VerifyOffset(b, opts, start), c);
  }
}
