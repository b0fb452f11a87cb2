/**
  What the verdict means on any bytes at all. A buffer is accepted exactly when it is well formed, which is said
  here with the reader's functions and plain ranges, and the limits allow for the tables that are met. What a
  reader can rely on follows: required fields are there, everything is aligned, identifier and length are right.
 */
module FlatVerifierExact {
  import opened Bytes
  import opened FlatReader
  import opened FlatVerifier
  import opened FlatVerifierSound
  import opened FlatVerifierLimits

  /** `n` bytes at `p`, which may not be all there are. */
  predicate InBuffer(b: seq<Byte>, p: int, n: nat) {
    0 <= p && n < |b| && p + n <= |b|
  }

  predicate OnBoundary(opts: Options, p: int, a: nat)
    requires IsAlign(a)
  {
    opts.checkAlignment ==> Rem(p, a) == 0
  }

  predicate ScalarOk(b: seq<Byte>, opts: Options, p: int, w: nat)
    requires IsWidth(w)
  {
    OnBoundary(opts, p, w) && InBuffer(b, p, w)
  }

  /** A length and as many elements of `w` bytes. */
  predicate VectorOk(b: seq<Byte>, opts: Options, v: int, w: nat)
    requires IsWidth(w)
  {
    ScalarOk(b, opts, v, 4) &&
    match VectorSize(b, v)
    case Ok(n) => n < 0x7FFF_FFFF / w && InBuffer(b, v, 4 + Scale(n, w))
    case Oob => false
  }

  /** And a zero behind the characters. */
  predicate StringOk(b: seq<Byte>, opts: Options, p: int) {
    VectorOk(b, opts, p, 1) &&
    match VectorSize(b, p)
    case Ok(n) => InBuffer(b, p + 4 + n, 1) && b[p + 4 + n] == 0
    case Oob => false
  }

  /** An offset that leads forward to a place in the buffer. */
  predicate OffsetOk(b: seq<Byte>, opts: Options, p: int) {
    ScalarOk(b, opts, p, 4) &&
    match ReadLE(b, p, 4)
    case Ok(u) => 0 < u < 0x8000_0000 && InBuffer(b, p + u, 1)
    case Oob => false
  }

  predicate VTableOk(b: seq<Byte>, opts: Options, t: int) {
    ScalarOk(b, opts, t, 4) &&
    match VTable(b, t)
    case Ok(vt) =>
      ScalarOk(b, opts, vt, 2) &&
      (match ReadLE(b, vt, 2)
       case Ok(size) => size % 2 == 0 && InBuffer(b, vt, size)
       case Oob => false)
    case Oob => false
  }

  /** The table at `t` and all that it leads to. */
  predicate TableOk(schema: Schema, opts: Options, b: seq<Byte>, ty: nat, t: int)
    requires SchemaOk(schema) && ty < |schema|
    decreases Left(b, t), 2
  {
    VTableOk(b, opts, t) && forall k | 0 <= k < |schema[ty]| :: FieldOk(schema, opts, b, t, schema[ty][k])
  }

  predicate FieldOk(schema: Schema, opts: Options, b: seq<Byte>, t: int, d: FieldDef)
    requires SchemaOk(schema) && DefOk(d, |schema|) && 0 <= t < |b|
    decreases Left(b, t), 1
  {
    match FieldOffset(b, t, d.id)
    case Oob => false
    case Ok(o) =>
      if o == 0 then !d.required else
      match d.kind
      case ScalarField(w) => OnBoundary(opts, t + o, w) && InBuffer(b, t + o, w)
      case StructField(size, a) => OnBoundary(opts, t + o, a) && InBuffer(b, t + o, size)
      case _ => OffsetOk(b, opts, t + o) && TargetOk(schema, opts, b, d.kind, t + o + ReadLE(b, t + o, 4).value)
  }

  predicate TargetOk(schema: Schema, opts: Options, b: seq<Byte>, k: Kind, p: int)
    requires SchemaOk(schema) && KindOk(k, |schema|)
    decreases Left(b, p), 4
  {
    match k
    case StringField => StringOk(b, opts, p)
    case TableField(ty) => TableOk(schema, opts, b, ty, p)
    case ScalarVector(w) => VectorOk(b, opts, p, w)
    case StringVector => VectorOk(b, opts, p, 4) && StringsOk(b, opts, p, 0)
    case TableVector(ty) => VectorOk(b, opts, p, 4) && TablesOk(schema, opts, b, ty, p, 0)
    case _ => false
  }

  /** Those from number `i` on. */
  predicate StringsOk(b: seq<Byte>, opts: Options, v: int, i: nat)
    requires 0 <= v && VectorInside(b, v, 4)
  {
    forall j | i <= j < VectorSize(b, v).value :: StringOk(b, opts, VectorRef(b, v, j).value)
  }

  predicate TablesOk(schema: Schema, opts: Options, b: seq<Byte>, ty: nat, v: int, i: nat)
    requires SchemaOk(schema) && ty < |schema| && 0 <= v && VectorInside(b, v, 4)
    decreases Left(b, v), 3
  {
    forall j | i <= j < VectorSize(b, v).value :: TableOk(schema, opts, b, ty, VectorRef(b, v, j).value)
  }

  /** The tables that are met from here; none where something is wrong. */
  function TableMet(schema: Schema, opts: Options, b: seq<Byte>, ty: nat, t: int): Extent
    requires SchemaOk(schema) && ty < |schema|
    decreases Left(b, t), 2, 0
  {
    if TableOk(schema, opts, b, ty, t) then Grown(FieldsMet(schema, opts, b, t, schema[ty])) else NO_TABLE
  }

  function FieldsMet(schema: Schema, opts: Options, b: seq<Byte>, t: int, defs: seq<FieldDef>): Extent
    requires SchemaOk(schema) && DefsOk(defs, |schema|) && 0 <= t < |b|
    decreases Left(b, t), 1, |defs|
  {
    if defs == [] then NO_TABLE
    else Both(FieldMet(schema, opts, b, t, defs[0]), FieldsMet(schema, opts, b, t, defs[1..]))
  }

  function FieldMet(schema: Schema, opts: Options, b: seq<Byte>, t: int, d: FieldDef): Extent
    requires SchemaOk(schema) && DefOk(d, |schema|) && 0 <= t < |b|
    decreases Left(b, t), 0, 0
  {
    if !FieldOk(schema, opts, b, t, d) || d.kind.ScalarField? || d.kind.StructField? then NO_TABLE else
    var o := FieldOffset(b, t, d.id).value;
    if o == 0 then NO_TABLE else TargetMet(schema, opts, b, d.kind, t + o + ReadLE(b, t + o, 4).value)
  }

  function TargetMet(schema: Schema, opts: Options, b: seq<Byte>, k: Kind, p: int): Extent
    requires SchemaOk(schema) && KindOk(k, |schema|)
    decreases Left(b, p), 4, 0
  {
    match k
    case TableField(ty) => TableMet(schema, opts, b, ty, p)
    case TableVector(ty) => if VectorOk(b, opts, p, 4) then TablesMet(schema, opts, b, ty, p, 0) else NO_TABLE
    case _ => NO_TABLE
  }

  function TablesMet(schema: Schema, opts: Options, b: seq<Byte>, ty: nat, v: int, i: nat): Extent
    requires SchemaOk(schema) && ty < |schema| && 0 <= v && VectorInside(b, v, 4)
    decreases Left(b, v), 3, Left(b, v + 4 + 4 * i)
  {
    if i >= VectorSize(b, v).value then NO_TABLE else
    Both(TableMet(schema, opts, b, ty, VectorRef(b, v, i).value), TablesMet(schema, opts, b, ty, v, i + 1))
  }

  /**
    The verifier got through; it accepts only what is good and, while its counters are within the limits,
    everything good for which they are enough.
   */
  predicate Judged(opts: Options, c: Counters, good: bool, e: Extent, r: Read<Verdict>) {
    && r.Ok? && (r.value.ok ==> good)
    && (Within(opts, c) ==> Settled(opts, c, good, e, r))
  }

  lemma ScalarExact(b: seq<Byte>, opts: Options, p: nat, w: nat)
    requires IsWidth(w)
    ensures VerifyScalar(b, opts, p, w) <==> ScalarOk(b, opts, p, w)
  {
  }

  lemma VectorExact(b: seq<Byte>, opts: Options, v: nat, w: nat)
    requires IsWidth(w)
    ensures VerifyVector(b, opts, v, w) <==> VectorOk(b, opts, v, w)
  {
    assert MaxElems(w) == 0x7FFF_FFFF / w;
    hide Scale;
    hide MaxElems;
    hide Rem;
    ScalarExact(b, opts, v, 4);
  }

  lemma StringExact(b: seq<Byte>, opts: Options, p: nat)
    requires |b| < MAX_BUFFER_SIZE
    ensures VerifyString(b, opts, p) <==> StringOk(b, opts, p)
  {
    VectorExact(b, opts, p, 1);
    if VerifyVector(b, opts, p, 1) {
      var end := p + 4 + VectorSize(b, p).value;
      if end < |b| {
        ByteRead(b, end);
      }
    }
    hide Rem;
  }

  lemma ByteRead(b: seq<Byte>, p: nat)
    requires p < |b|
    ensures ReadLE(b, p, 1) == Ok(b[p] as nat)
  {
    assert b[p..p + 1] == [b[p]] && [b[p]][1..] == [];
    assert Val([b[p]]) == b[p] + 256 * Val([]);
  }

  lemma {:induction false} StringsExact(b: seq<Byte>, opts: Options, v: nat, i: nat)
    requires |b| < MAX_BUFFER_SIZE && VectorInside(b, v, 4)
    ensures VerifyStrings(b, opts, v, i) == Ok(StringsOk(b, opts, v, i))
    decreases Left(b, v + 4 + 4 * i)
  {
    hide VerifyString;
    hide StringOk;
    if i < VectorSize(b, v).value {
      RefInside(b, v, i);
      StringExact(b, opts, VectorRef(b, v, i).value);
      StringsExact(b, opts, v, i + 1);
    }
  }

  lemma OffsetExact(b: seq<Byte>, opts: Options, p: nat)
    ensures VerifyOffset(b, opts, p) > 0 <==> OffsetOk(b, opts, p)
    ensures OffsetOk(b, opts, p) ==> Ok(VerifyOffset(b, opts, p)) == ReadLE(b, p, 4)
  {
    hide Rem;
    ScalarExact(b, opts, p, 4);
  }

  /** The start of a table passes exactly when its vtable is sound and the limits are not reached. */
  lemma StartExact(b: seq<Byte>, opts: Options, t: nat, c: Counters)
    requires |b| < MAX_BUFFER_SIZE
    ensures var v, x := VerifyTableStart(b, opts, t, c), VerifyComplexity(opts, c);
      && (v.ok <==> VTableOk(b, opts, t) && x.ok)
      && (v.ok ==> v.counters == x.counters)
  {
    hide Rem;
    ScalarExact(b, opts, t, 4);
    if VerifyScalar(b, opts, t, 4) {
      var d := ReadSigned(b, t).value;
      ReadSignedBound(b, t);
      Wrap64Exact(t - d);
      if t - d >= 0 {
        ScalarExact(b, opts, t - d, 2);
        RemTwo(t - d);
        if VerifyScalar(b, opts, t - d, 2) {
          RemTwo(ReadLE(b, t - d, 2).value);
        }
      }
    }
  }

  lemma RemTwo(n: int)
    ensures Rem(n, 2) == n % 2
  {
  }

  lemma VTableOkInside(b: seq<Byte>, opts: Options, t: int)
    requires VTableOk(b, opts, t)
    ensures 0 <= t < |b| && VTableInside(b, t)
  {
    hide Rem;
  }

  lemma {:induction false} TableExact(schema: Schema, opts: Options, b: seq<Byte>, ty: nat, t: nat, c: Counters)
    requires SchemaOk(schema) && ty < |schema| && |b| < MAX_BUFFER_SIZE
    ensures Judged(opts, c, TableOk(schema, opts, b, ty, t), TableMet(schema, opts, b, ty, t),
              VerifyTable(schema, opts, b, ty, t, c))
    decreases Left(b, t), 2, 0
  {
    StartExact(b, opts, t, c);
    SchemaDefs(schema, ty);
    hide VerifyTableStart;
    hide VTableOk;
    hide FieldOk;
    hide SchemaOk;
    hide VerifyFields;
    hide FieldsMet;
    hide Settled;
    hide VerifyComplexity;
    var v := VerifyTableStart(b, opts, t, c);
    if VTableOk(b, opts, t) {
      VTableOkInside(b, opts, t);
      var x := VerifyComplexity(opts, c);
      var good := TableOk(schema, opts, b, ty, t);
      var e := FieldsMet(schema, opts, b, t, schema[ty]);
      if v.ok {
        FieldsExact(schema, opts, b, t, schema[ty], v.counters);
        var r := VerifyFields(schema, opts, b, t, schema[ty], v.counters);
        LeaveJudged(opts, c, good, e, r);
      } else {
        LeaveJudged(opts, c, good, e, Ok(x));
      }
    } else {
      SettledBad(opts, c, v);
    }
  }

  lemma SchemaDefs(schema: Schema, ty: nat)
    requires SchemaOk(schema) && ty < |schema|
    ensures DefsOk(schema[ty], |schema|)
  {
  }

  lemma SettledBad(opts: Options, c: Counters, v: Verdict)
    requires !v.ok
    ensures Settled(opts, c, false, NO_TABLE, Ok(v))
  {
  }

  /** A table is judged as its fields are, one level up. */
  lemma LeaveJudged(opts: Options, c: Counters, good: bool, e: Extent, r: Read<Verdict>)
    requires r.Ok?
    requires var x := VerifyComplexity(opts, c); if x.ok then Judged(opts, x.counters, good, e, r) else r == Ok(x)
    ensures Judged(opts, c, good, if good then Grown(e) else NO_TABLE, Closed(r))
  {
  }

  predicate AllFieldsOk(schema: Schema, opts: Options, b: seq<Byte>, t: int, defs: seq<FieldDef>)
    requires SchemaOk(schema) && DefsOk(defs, |schema|) && 0 <= t < |b|
  {
    forall k | 0 <= k < |defs| :: FieldOk(schema, opts, b, t, defs[k])
  }

  lemma {:induction false} FieldsExact(
    schema: Schema, opts: Options, b: seq<Byte>, t: nat, defs: seq<FieldDef>, c: Counters)
    requires SchemaOk(schema) && DefsOk(defs, |schema|) && |b| < MAX_BUFFER_SIZE
    requires t < |b| && VTableInside(b, t)
    ensures Judged(opts, c, AllFieldsOk(schema, opts, b, t, defs), FieldsMet(schema, opts, b, t, defs),
              VerifyFields(schema, opts, b, t, defs, c))
    decreases Left(b, t), 1, |defs|
  {
    hide VTableInside;
    hide VerifyField;
    hide FieldOk;
    hide FieldMet;
    hide DefOk;
    hide SchemaOk;
    if defs != [] {
      FieldExact(schema, opts, b, t, defs[0], c);
      assert forall k | 1 <= k < |defs| :: defs[k] == defs[1..][k - 1];
      var v := VerifyField(schema, opts, b, t, defs[0], c).value;
      if v.ok {
        FieldsExact(schema, opts, b, t, defs[1..], v.counters);
      }
    }
  }

  lemma {:induction false} FieldExact(
    schema: Schema, opts: Options, b: seq<Byte>, t: nat, d: FieldDef, c: Counters)
    requires SchemaOk(schema) && DefOk(d, |schema|) && |b| < MAX_BUFFER_SIZE
    requires t < |b| && VTableInside(b, t)
    ensures Judged(opts, c, FieldOk(schema, opts, b, t, d), FieldMet(schema, opts, b, t, d),
              VerifyField(schema, opts, b, t, d, c))
    decreases Left(b, t), 0, 0
  {
    hide VTableInside;
    hide FieldOffset;
    hide VerifyTarget;
    hide VerifyOffset;
    hide TargetOk;
    hide TargetMet;
    hide OffsetOk;
    hide SchemaOk;
    hide ReadLE;
    hide Rem;
    FieldOffsetInside(b, t, d.id);
    var o := FieldOffset(b, t, d.id).value;
    if o != 0 && !d.kind.ScalarField? && !d.kind.StructField? {
      OffsetExact(b, opts, t + o);
      if OffsetOk(b, opts, t + o) {
        TargetExact(schema, opts, b, d.kind, t + o + ReadLE(b, t + o, 4).value, c);
      }
    }
  }

  lemma {:induction false} TargetExact(schema: Schema, opts: Options, b: seq<Byte>, k: Kind, p: nat, c: Counters)
    requires SchemaOk(schema) && KindOk(k, |schema|) && !k.ScalarField? && !k.StructField?
    requires |b| < MAX_BUFFER_SIZE
    ensures Judged(opts, c, TargetOk(schema, opts, b, k, p), TargetMet(schema, opts, b, k, p),
              VerifyTarget(schema, opts, b, k, p, c))
    decreases Left(b, p), 4, 0
  {
    hide VerifyVector;
    hide VerifyString;
    hide VerifyStrings;
    hide VerifyTable;
    hide VerifyTables;
    hide VectorOk;
    hide StringOk;
    hide StringsOk;
    hide TableOk;
    hide TablesOk;
    hide TableMet;
    hide TablesMet;
    hide VectorInside;
    hide SchemaOk;
    match k
    case StringField => StringExact(b, opts, p);
    case TableField(ty) => TableExact(schema, opts, b, ty, p, c);
    case ScalarVector(w) => VectorExact(b, opts, p, w);
    case StringVector =>
      VectorExact(b, opts, p, 4);
      if VerifyVector(b, opts, p, 4) {
        VectorSound(b, opts, p, 4);
        StringsExact(b, opts, p, 0);
      }
    case TableVector(ty) =>
      VectorExact(b, opts, p, 4);
      if VerifyVector(b, opts, p, 4) {
        VectorSound(b, opts, p, 4);
        TablesExact(schema, opts, b, ty, p, 0, c);
      }
  }

  lemma {:induction false} TablesExact(
    schema: Schema, opts: Options, b: seq<Byte>, ty: nat, v: nat, i: nat, c: Counters)
    requires SchemaOk(schema) && ty < |schema| && |b| < MAX_BUFFER_SIZE && VectorInside(b, v, 4)
    ensures Judged(opts, c, TablesOk(schema, opts, b, ty, v, i), TablesMet(schema, opts, b, ty, v, i),
              VerifyTables(schema, opts, b, ty, v, i, c))
    decreases Left(b, v), 3, Left(b, v + 4 + 4 * i)
  {
    hide VerifyTable;
    hide TableOk;
    hide TableMet;
    hide SchemaOk;
    if i < VectorSize(b, v).value {
      RefInside(b, v, i);
      var p := VectorRef(b, v, i).value;
      TableExact(schema, opts, b, ty, p, c);
      var w := VerifyTable(schema, opts, b, ty, p, c).value;
      if w.ok {
        TablesExact(schema, opts, b, ty, v, i + 1, w.counters);
      }
    }
  }

  /** The first four characters at `p` are those of the C string, up to its end if it is shorter. */
  predicate IdentOk(b: seq<Byte>, p: nat, ident: seq<Byte>, count: nat) {
    exists n | 0 <= n <= count && n <= |ident| :: IdentUpTo(b, p, ident, count, n)
  }

  predicate IdentUpTo(b: seq<Byte>, p: nat, ident: seq<Byte>, count: nat, n: nat)
    requires n <= |ident|
  {
    && At(b, p, ident[..n]) && 0 !in ident[..n]
    && (n == count || ((n == |ident| || ident[n] == 0) && At(b, p + n, [0])))
  }

  lemma {:induction false} IdentExact(b: seq<Byte>, p: nat, ident: seq<Byte>, count: nat)
    requires p + count <= |b|
    ensures SameIdent(b, p, ident, count) == Ok(IdentOk(b, p, ident, count))
    decreases count
  {
    if count == 0 {
      assert IdentUpTo(b, p, ident, 0, 0);
    } else {
      ByteRead(b, p);
      if ident == [] || ident[0] == 0 {
        IdentEnds(b, p, ident, count);
      } else if b[p] == ident[0] {
        IdentExact(b, p + 1, ident[1..], count - 1);
        IdentCons(b, p, ident, count);
      } else {
        forall n | 0 <= n <= count && n <= |ident| ensures !IdentUpTo(b, p, ident, count, n) {
          IdentFirst(b, p, ident, count, n);
        }
      }
    }
  }

  lemma IdentFirst(b: seq<Byte>, p: nat, ident: seq<Byte>, count: nat, n: nat)
    requires n <= |ident| && p < |b|
    ensures IdentUpTo(b, p, ident, count, n) && n > 0 ==> b[p] == ident[0] != 0
    ensures IdentUpTo(b, p, ident, count, n) && n == 0 && count > 0 ==> b[p] == 0
  {
    if n > 0 {
      assert ident[..n][0] == ident[0] && ident[0] in ident[..n];
      assert p + n <= |b| ==> b[p..p + n][0] == b[p];
    } else {
      assert b[p..p + 1][0] == b[p];
    }
  }

  lemma IdentEnds(b: seq<Byte>, p: nat, ident: seq<Byte>, count: nat)
    requires p + count <= |b| && count > 0 && (ident == [] || ident[0] == 0)
    ensures IdentOk(b, p, ident, count) <==> b[p] == 0
  {
    if b[p] == 0 {
      assert b[p..p + 1] == [0];
      assert IdentUpTo(b, p, ident, count, 0);
    }
    forall n | 0 <= n <= count && n <= |ident| && IdentUpTo(b, p, ident, count, n) ensures b[p] == 0 {
      IdentFirst(b, p, ident, count, n);
      assert At(b, p, [0]);
    }
  }

  lemma IdentCons(b: seq<Byte>, p: nat, ident: seq<Byte>, count: nat)
    requires p + count <= |b| && count > 0 && ident != [] && b[p] == ident[0] != 0
    ensures IdentOk(b, p, ident, count) <==> IdentOk(b, p + 1, ident[1..], count - 1)
  {
    forall n | 0 < n <= count && n <= |ident|
      ensures IdentUpTo(b, p, ident, count, n) <==> IdentUpTo(b, p + 1, ident[1..], count - 1, n - 1)
    {
      assert ident[..n] == [ident[0]] + ident[1..][..n - 1];
      assert b[p..p + n] == [b[p]] + b[p + 1..p + n];
      if IdentUpTo(b, p, ident, count, n) {
        assert b[p + 1..p + n] == b[p..p + n][1..] == ident[1..][..n - 1];
      }
    }
    assert !IdentUpTo(b, p, ident, count, 0);
    if IdentOk(b, p + 1, ident[1..], count - 1) {
      var n :| 0 <= n <= count - 1 && n <= |ident[1..]| && IdentUpTo(b, p + 1, ident[1..], count - 1, n);
      assert IdentUpTo(b, p, ident, count, n + 1);
    }
    if IdentOk(b, p, ident, count) {
      var n :| 0 <= n <= count && n <= |ident| && IdentUpTo(b, p, ident, count, n);
      assert IdentUpTo(b, p + 1, ident[1..], count - 1, n - 1);
    }
  }

  /** A buffer as asked for: its length in front if it has one, the identifier, and a root table. */
  predicate BufferOk(
    schema: Schema, opts: Options, b: seq<Byte>, ty: nat, ident: Option<seq<Byte>>, sizePrefix: bool)
    requires SchemaOk(schema) && ty < |schema|
  {
    var start := if sizePrefix then 4 else 0;
    && |b| >= 12
    && (sizePrefix ==> ReadLE(b, 0, 4) == Ok(|b| - 4))
    && (ident.Some? ==> IdentOk(b, start + 4, ident.value, 4))
    && OffsetOk(b, opts, start)
    && TableOk(schema, opts, b, ty, start + ReadLE(b, start, 4).value)
  }

  function BufferMet(
    schema: Schema, opts: Options, b: seq<Byte>, ty: nat, ident: Option<seq<Byte>>, sizePrefix: bool): Extent
    requires SchemaOk(schema) && ty < |schema|
  {
    var start := if sizePrefix then 4 else 0;
    if BufferOk(schema, opts, b, ty, ident, sizePrefix)
    then TableMet(schema, opts, b, ty, start + ReadLE(b, start, 4).value) else NO_TABLE
  }

  /** The verdict on any bytes, in one line: well formed, and within the limits. */
  lemma BufferExact(
    schema: Schema, opts: Options, b: seq<Byte>, ty: nat, ident: Option<seq<Byte>>, sizePrefix: bool, c: Counters)
    requires SchemaOk(schema) && ty < |schema| && |b| < MAX_BUFFER_SIZE
    ensures Judged(opts, c, BufferOk(schema, opts, b, ty, ident, sizePrefix),
              BufferMet(schema, opts, b, ty, ident, sizePrefix),
              VerifyBuffer(schema, opts, b, ty, ident, sizePrefix, c))
  {
    var start := if sizePrefix then 4 else 0;
    assert sizePrefix && |b| > 4 ==> VerifyScalar(b, opts, 0, 4);
    hide VerifyTable;
    hide TableOk;
    hide TableMet;
    hide SameIdent;
    hide IdentOk;
    hide VerifyOffset;
    hide OffsetOk;
    hide SchemaOk;
    hide ReadLE;
    hide VerifyScalar;
    if |b| >= 12 {
      if ident.Some? {
        IdentExact(b, start + 4, ident.value, 4);
      }
      OffsetExact(b, opts, start);
      if OffsetOk(b, opts, start) {
        TableExact(schema, opts, b, ty, start + VerifyOffset(b, opts, start), c);
      }
    }
  }

  /** Where accessor calls lead is well formed. */
  predicate CursorOk(schema: Schema, opts: Options, b: seq<Byte>, c: Cursor)
    requires SchemaOk(schema)
  {
    match c
    case AtTable(t, ty) => ty < |schema| && TableOk(schema, opts, b, ty, t)
    case AtString(p) => StringOk(b, opts, p)
    case AtScalars(v, w) => IsWidth(w) && VectorOk(b, opts, v, w)
    case AtStrings(v) => VectorOk(b, opts, v, 4) && StringsOk(b, opts, v, 0)
    case AtTables(v, ty) => ty < |schema| && VectorOk(b, opts, v, 4) && TablesOk(schema, opts, b, ty, v, 0)
    case Done => true
  }

  lemma AccessOk(schema: Schema, opts: Options, b: seq<Byte>, c: Cursor, s: Step)
    requires SchemaOk(schema) && CursorOk(schema, opts, b, c) && Access(schema, b, c, s).Ok?
    ensures CursorOk(schema, opts, b, Access(schema, b, c, s).value)
  {
    hide VTableOk;
    hide VectorOk;
    hide StringOk;
    hide FieldOk;
    hide AccessField;
    hide VectorInside;
    match (c, s)
    case (AtTable(t, ty), Field(k)) =>
      if k < |schema[ty]| {
        VTableOkInside(b, opts, t);
        AccessFieldOk(schema, opts, b, t, schema[ty][k]);
      }
    case (AtStrings(v), Index(i)) => assert i < VectorSize(b, v).value ==> StringOk(b, opts, VectorRef(b, v, i).value);
    case (AtTables(v, ty), Index(i)) =>
      assert i < VectorSize(b, v).value ==> TableOk(schema, opts, b, ty, VectorRef(b, v, i).value);
    case _ =>
  }

  lemma AccessFieldOk(schema: Schema, opts: Options, b: seq<Byte>, t: int, d: FieldDef)
    requires SchemaOk(schema) && DefOk(d, |schema|) && 0 <= t < |b| && FieldOk(schema, opts, b, t, d)
    requires AccessField(b, t, d).Ok?
    ensures CursorOk(schema, opts, b, AccessField(b, t, d).value)
  {
    hide FieldOffset;
    hide TableOk;
    hide TablesOk;
    hide StringsOk;
    hide VectorOk;
    hide StringOk;
    hide SchemaOk;
    hide ReadLE;
  }

  lemma {:induction false} FollowOk(schema: Schema, opts: Options, b: seq<Byte>, c: Cursor, steps: seq<Step>)
    requires SchemaOk(schema) && CursorOk(schema, opts, b, c) && Follow(schema, b, c, steps).Ok?
    ensures CursorOk(schema, opts, b, Follow(schema, b, c, steps).value)
    decreases |steps|
  {
    hide Access;
    hide CursorOk;
    if steps != [] {
      AccessOk(schema, opts, b, c, steps[0]);
      FollowOk(schema, opts, b, Access(schema, b, c, steps[0]).value, steps[1..]);
    }
  }

  /** What a reader who follows accessors from the root of an accepted buffer comes to. */
  lemma Reached(
    schema: Schema, opts: Options, b: seq<Byte>, ty: nat, ident: Option<seq<Byte>>, sizePrefix: bool,
    c: Counters, steps: seq<Step>)
    requires SchemaOk(schema) && ty < |schema| && |b| < MAX_BUFFER_SIZE
    requires VerifyBuffer(schema, opts, b, ty, ident, sizePrefix, c).Ok?
    requires VerifyBuffer(schema, opts, b, ty, ident, sizePrefix, c).value.ok
    ensures var root := GetRoot(b, if sizePrefix then 4 else 0);
      && root.Ok? && Follow(schema, b, AtTable(root.value, ty), steps).Ok?
      && CursorOk(schema, opts, b, Follow(schema, b, AtTable(root.value, ty), steps).value)
  {
    hide VerifyBuffer;
    hide TableOk;
    hide Follow;
    hide IdentOk;
    BufferExact(schema, opts, b, ty, ident, sizePrefix, c);
    VerifierSound(schema, opts, b, ty, ident, sizePrefix, c, steps);
    FollowOk(schema, opts, b, AtTable(GetRoot(b, if sizePrefix then 4 else 0).value, ty), steps);
  }

  /** In every table that is reached, every required field is set. */
  lemma RequiredSet(
    schema: Schema, opts: Options, b: seq<Byte>, ty: nat, ident: Option<seq<Byte>>, sizePrefix: bool,
    c: Counters, steps: seq<Step>, t: int, ty1: nat, k: nat)
    requires SchemaOk(schema) && ty < |schema| && |b| < MAX_BUFFER_SIZE
    requires VerifyBuffer(schema, opts, b, ty, ident, sizePrefix, c).Ok?
    requires VerifyBuffer(schema, opts, b, ty, ident, sizePrefix, c).value.ok
    requires var root := GetRoot(b, if sizePrefix then 4 else 0);
      root.Ok? && Follow(schema, b, AtTable(root.value, ty), steps) == Ok(AtTable(t, ty1))
    requires ty1 < |schema| && k < |schema[ty1]| && schema[ty1][k].required
    ensures FieldOffset(b, t, schema[ty1][k].id).Ok? && FieldOffset(b, t, schema[ty1][k].id) != Ok(0)
  {
    hide VerifyBuffer;
    hide Follow;
    hide FieldOffset;
    Reached(schema, opts, b, ty, ident, sizePrefix, c, steps);
    hide VTableOk;
    assert FieldOk(schema, opts, b, t, schema[ty1][k]);
  }

  /** With alignment checked, so are the table, its vtable and every scalar, struct and offset in it. */
  predicate FieldAligned(b: seq<Byte>, t: int, d: FieldDef)
    requires KindOk(d.kind, 0) || d.kind.TableField? || d.kind.TableVector?
  {
    match FieldOffset(b, t, d.id)
    case Oob => false
    case Ok(o) =>
      o == 0 ||
      match d.kind
      case ScalarField(w) => Rem(t + o, w) == 0
      case StructField(_, a) => Rem(t + o, a) == 0
      case _ => Rem(t + o, 4) == 0
  }

  lemma ReachedAligned(
    schema: Schema, opts: Options, b: seq<Byte>, ty: nat, ident: Option<seq<Byte>>, sizePrefix: bool,
    c: Counters, steps: seq<Step>)
    requires SchemaOk(schema) && ty < |schema| && |b| < MAX_BUFFER_SIZE && opts.checkAlignment
    requires VerifyBuffer(schema, opts, b, ty, ident, sizePrefix, c).Ok?
    requires VerifyBuffer(schema, opts, b, ty, ident, sizePrefix, c).value.ok
    ensures var root := GetRoot(b, if sizePrefix then 4 else 0);
      && root.Ok? && Follow(schema, b, AtTable(root.value, ty), steps).Ok?
      && match Follow(schema, b, AtTable(root.value, ty), steps).value
         case AtTable(t, ty1) =>
           && Rem(t, 4) == 0 && VTable(b, t).Ok? && Rem(VTable(b, t).value, 2) == 0
           && ty1 < |schema| && forall k | 0 <= k < |schema[ty1]| :: FieldAligned(b, t, schema[ty1][k])
         case AtString(p) => Rem(p, 4) == 0
         case AtScalars(v, _) => Rem(v, 4) == 0
         case AtStrings(v) => Rem(v, 4) == 0
         case AtTables(v, _) => Rem(v, 4) == 0
         case Done => true
  {
    hide VerifyBuffer;
    hide Follow;
    hide FieldOffset;
    hide TargetOk;
    hide TablesOk;
    hide StringsOk;
    hide Rem;
    Reached(schema, opts, b, ty, ident, sizePrefix, c, steps);
    match Follow(schema, b, AtTable(GetRoot(b, if sizePrefix then 4 else 0).value, ty), steps).value
    case AtTable(t, ty1) =>
      forall k | 0 <= k < |schema[ty1]| ensures FieldAligned(b, t, schema[ty1][k]) {
        assert FieldOk(schema, opts, b, t, schema[ty1][k]);
      }
    case _ =>
  }

  /** Length and identifier are those asked for. */
  lemma HeaderRight(
    schema: Schema, opts: Options, b: seq<Byte>, ty: nat, ident: seq<Byte>, sizePrefix: bool, c: Counters)
    requires SchemaOk(schema) && ty < |schema| && |b| < MAX_BUFFER_SIZE && |ident| == 4 && 0 !in ident
    requires VerifyBuffer(schema, opts, b, ty, Some(ident), sizePrefix, c).Ok?
    requires VerifyBuffer(schema, opts, b, ty, Some(ident), sizePrefix, c).value.ok
    ensures var start := if sizePrefix then 4 else 0;
      && At(b, start + 4, ident)
      && (sizePrefix ==> ReadLE(b, 0, 4) == Ok(|b| - 4))
  {
    hide VerifyBuffer;
    hide TableOk;
    hide OffsetOk;
    hide ReadLE;
    BufferExact(schema, opts, b, ty, Some(ident), sizePrefix, c);
    var start := if sizePrefix then 4 else 0;
    assert forall i | 0 <= i < 4 :: ident[i] in ident;
    var n :| 0 <= n <= 4 && n <= |ident| && IdentUpTo(b, start + 4, ident, 4, n);
    assert ident[..4] == ident;
  }
}
