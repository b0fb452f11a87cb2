/**
  The verifier accepts what the builder writes. On a finished buffer whose tables are of the types in the schema
  its verdict depends on the required fields and the two limits alone: a new verifier accepts exactly when none
  of these fields is missing, no chain of tables is longer than `maxDepth` and no more than `maxTables` tables
  are met, and one that was used before when this holds together with what its counters say already.
 */
module FlatVerifierComplete {
  import opened Bytes
  import opened FlatReader
  import opened FlatLayout
  import FlatBuilder
  import opened FlatObjects
  import opened FlatRun
  import opened FlatRoundTrip
  import opened FlatFinish
  import opened FlatVerifier
  import opened FlatVerifierLimits

  /** The number of the slot of a field, or of none. */
  function FindSlot(slots: seq<Slot>, id: nat): (i: nat)
    ensures i <= |slots|
    ensures i < |slots| ==> slots[i].id == id
    ensures i == |slots| ==> !HasId(slots, id)
  {
    if slots == [] then 0
    else if slots[0].id == id then 0
    else
      var i := FindSlot(slots[1..], id);
      assert forall k | 0 < k < |slots| :: slots[k] == slots[1..][k - 1];
      i + 1
  }

  /** The object is of table type `ty`: what is set in it is of the kind that the schema says. */
  predicate Conforms(schema: Schema, ty: nat, o: Obj)
    decreases o, 2
  {
    o.Table? && ty < |schema| && forall k | 0 <= k < |schema[ty]| :: FieldConforms(schema, o, schema[ty][k])
  }

  predicate FieldConforms(schema: Schema, o: Obj, d: FieldDef)
    requires o.Table?
    decreases o, 1
  {
    var i := FindSlot(o.slots, d.id);
    i < |o.slots| ==> ValueConforms(schema, d, o.slots[i].value)
  }

  predicate ValueConforms(schema: Schema, d: FieldDef, v: Value)
    decreases v, 0
  {
    match v
    case Scalar(w, _, _) => d.kind == ScalarField(w)
    case Struct(bytes, a) => d.kind == StructField(|bytes|, a)
    case Null => true
    case Ref(o) => TargetConforms(schema, d.kind, o)
  }

  predicate TargetConforms(schema: Schema, k: Kind, o: Obj)
    decreases o, 3
  {
    match k
    case StringField => o.Str?
    case TableField(ty) => Conforms(schema, ty, o)
    case ScalarVector(w) => o.Scalars? && o.width == w
    case StringVector => o.Refs? && forall i | 0 <= i < |o.objs| :: o.objs[i].Str?
    case TableVector(ty) => o.Refs? && forall i | 0 <= i < |o.objs| :: Conforms(schema, ty, o.objs[i])
    case _ => false
  }

  /** No required field is missing, here or in any table that can be reached. */
  predicate Filled(schema: Schema, ty: nat, o: Obj)
    decreases o, 2
  {
    o.Table? && ty < |schema| && forall k | 0 <= k < |schema[ty]| :: FieldFilled(schema, o, schema[ty][k])
  }

  predicate FieldFilled(schema: Schema, o: Obj, d: FieldDef)
    requires o.Table?
    decreases o, 1
  {
    var i := FindSlot(o.slots, d.id);
    if i == |o.slots| || o.slots[i].value.Null? then !d.required
    else o.slots[i].value.Ref? ==> TargetFilled(schema, d.kind, o.slots[i].value.obj)
  }

  predicate TargetFilled(schema: Schema, k: Kind, o: Obj)
    decreases o, 3
  {
    match k
    case TableField(ty) => Filled(schema, ty, o)
    case TableVector(ty) => o.Refs? && forall i | 0 <= i < |o.objs| :: Filled(schema, ty, o.objs[i])
    case _ => true
  }

  /** The tables a verifier meets that looks at `o` with the schema in hand. */
  function TableExtent(schema: Schema, ty: nat, o: Obj): Extent
    requires Conforms(schema, ty, o)
    decreases o, 2, 0
  {
    var e := FieldsExtent(schema, o, schema[ty]);
    Extent(e.visits + 1, e.nesting + 1)
  }

  function FieldsExtent(schema: Schema, o: Obj, defs: seq<FieldDef>): Extent
    requires o.Table? && forall k | 0 <= k < |defs| :: FieldConforms(schema, o, defs[k])
    decreases o, 1, |defs|
  {
    if defs == [] then NO_TABLE
    else Both(FieldExtent(schema, o, defs[0]), FieldsExtent(schema, o, defs[1..]))
  }

  function FieldExtent(schema: Schema, o: Obj, d: FieldDef): Extent
    requires o.Table? && FieldConforms(schema, o, d)
    decreases o, 0, 0
  {
    var i := FindSlot(o.slots, d.id);
    if i < |o.slots| && o.slots[i].value.Ref? then
      assert ValueConforms(schema, d, o.slots[i].value);
      TargetExtent(schema, d.kind, o.slots[i].value.obj)
    else
      NO_TABLE
  }

  function TargetExtent(schema: Schema, k: Kind, o: Obj): Extent
    requires TargetConforms(schema, k, o)
    decreases o, 4, 0
  {
    match k
    case TableField(ty) => TableExtent(schema, ty, o)
    case TableVector(ty) => TablesExtent(schema, ty, o, 0)
    case _ => NO_TABLE
  }

  function TablesExtent(schema: Schema, ty: nat, o: Obj, i: nat): Extent
    requires TargetConforms(schema, TableVector(ty), o) && i <= |o.objs|
    decreases o, 3, |o.objs| - i
  {
    if i == |o.objs| then NO_TABLE
    else Both(TableExtent(schema, ty, o.objs[i]), TablesExtent(schema, ty, o, i + 1))
  }

  /** A buffer padded for all alignments in it. */
  predicate Padded(b: seq<Byte>, m: nat) {
    IsAlign(m) && 4 <= m && Rem(|b|, m) == 0 && |b| < MAX_BUFFER_SIZE
  }

  lemma HoldsRoom(b: seq<Byte>, m: nat, p: int, o: Obj)
    requires Holds(b, m, p, o)
    ensures 0 <= p && p + 4 <= |b|
  {
    hide HoldsSlot;
    hide HoldsRef;
  }

  /** An aligned scalar of which one knows that it can be read passes. */
  lemma ScalarComplete(b: seq<Byte>, m: nat, opts: Options, p: int, w: nat)
    requires Padded(b, m) && IsWidth(w) && AlignedBy(b, m, p, w)
    requires 0 < p && p + w <= |b|
    ensures VerifyScalar(b, opts, p, w)
  {
    FromFront(b, m, p, w);
  }

  lemma RefComplete(b: seq<Byte>, m: nat, opts: Options, p: int, o: Obj)
    requires Padded(b, m) && HoldsRef(b, m, p, o) && 0 < p
    ensures VerifyOffset(b, opts, p) > 0
    ensures Deref(b, p).Ok? && Deref(b, p).value >= p + 4 && Holds(b, m, Deref(b, p).value, o)
  {
    hide Holds;
    HoldsRoom(b, m, p + ReadLE(b, p, 4).value, o);
    ScalarComplete(b, m, opts, p, 4);
  }

  lemma StringComplete(b: seq<Byte>, m: nat, opts: Options, p: int, s: seq<Byte>)
    requires Padded(b, m) && Holds(b, m, p, Str(s)) && 4 <= p
    ensures VerifyString(b, opts, p)
  {
    hide LE;
    hide ReadLE;
    AtSplit(b, p, LE(|s|, 4) + s, [0]);
    AtSplit(b, p, LE(|s|, 4), s);
    Ranges();
    ReadOfAt(b, p, |s|, 4);
    ReadByte(b, p + 4 + |s|, 0);
    ScalarComplete(b, m, opts, p, 4);
  }

  lemma ElemsComplete(n: nat, w: nat)
    requires IsWidth(w) && 8 + Scale(n, w) < MAX_BUFFER_SIZE
    ensures n < MaxElems(w)
  {
  }

  lemma VectorComplete(b: seq<Byte>, m: nat, opts: Options, p: int, w: nat, n: nat)
    requires Padded(b, m) && AlignedBy(b, m, p, 4) && 4 <= p && IsWidth(w)
    requires ReadLE(b, p, 4) == Ok(n) && p + 4 + Scale(n, w) <= |b|
    ensures VerifyVector(b, opts, p, w)
  {
    hide Scale;
    ScalarComplete(b, m, opts, p, 4);
    ElemsComplete(n, w);
  }

  lemma ScalarsComplete(b: seq<Byte>, m: nat, opts: Options, p: int, w: nat, xs: seq<nat>)
    requires Padded(b, m) && Holds(b, m, p, Scalars(w, xs)) && 4 <= p
    ensures VerifyVector(b, opts, p, w)
  {
    hide LE;
    hide Encode;
    AtSplit(b, p, LE(|xs|, 4), Encode(w, xs));
    Ranges();
    ReadOfAt(b, p, |xs|, 4);
    VectorComplete(b, m, opts, p, w, |xs|);
  }

  lemma RefsComplete(b: seq<Byte>, m: nat, opts: Options, p: int, os: seq<Obj>)
    requires Padded(b, m) && Holds(b, m, p, Refs(os)) && 4 <= p
    ensures VerifyVector(b, opts, p, 4)
  {
    if os != [] {
      assert HoldsRef(b, m, p + 4 + 4 * (|os| - 1), os[|os| - 1]);
    }
    VectorComplete(b, m, opts, p, 4, |os|);
  }

  lemma {:induction false} StringsComplete(b: seq<Byte>, m: nat, opts: Options, p: int, os: seq<Obj>, i: nat)
    requires Padded(b, m) && Holds(b, m, p, Refs(os)) && 4 <= p && i <= |os|
    requires forall k | 0 <= k < |os| :: os[k].Str?
    ensures VerifyStrings(b, opts, p, i) == Ok(true)
    decreases |os| - i
  {
    hide HoldsRef;
    if i < |os| {
      RefComplete(b, m, opts, p + 4 + 4 * i, os[i]);
      StringComplete(b, m, opts, VectorRef(b, p, i).value, os[i].chars);
      StringsComplete(b, m, opts, p, os, i + 1);
    }
  }

  lemma TableStartComplete(b: seq<Byte>, m: nat, opts: Options, t: int, c: Counters)
    requires Padded(b, m) && HasVTable(b, t) && AlignedBy(b, m, t, 4) && 4 <= t
    ensures VerifyTableStart(b, opts, t, c) == VerifyComplexity(opts, c)
  {
    ScalarComplete(b, m, opts, t, 4);
    var vt := VTable(b, t).value;
    VTableAligned(b, m, vt);
  }

  lemma VTableAligned(b: seq<Byte>, m: nat, vt: int)
    requires Padded(b, m) && Aligned(b, vt, 2)
    ensures Rem(vt, 2) == 0
  {
    RemDivides(|b|, 2, m);
  }

  /** A slot that holds a scalar or a struct passes its range check. */
  lemma InlineComplete(b: seq<Byte>, m: nat, opts: Options, t: int, d: FieldDef, v: Value, size: nat, a: nat)
    requires Padded(b, m) && 4 <= t && HoldsSlot(b, m, t, Slot(d.id, v))
    requires v.Scalar? ==> a == size == v.width && !d.required
    requires v.Struct? ==> size == |v.bytes| && a == v.align
    requires v.Scalar? || v.Struct?
    ensures IsAlign(a) && VerifyInline(b, opts, t, d, size, a) == Ok(true)
  {
    hide Rem;
    hide ReadSigned;
    var o := FieldOffset(b, t, d.id).value;
    if o != 0 {
      FromFront(b, m, t + o, a);
    }
  }

  lemma PointerComplete(b: seq<Byte>, m: nat, opts: Options, t: int, d: FieldDef, o: Obj)
    returns (p: int)
    requires Padded(b, m) && 4 <= t && HoldsSlot(b, m, t, Slot(d.id, Ref(o)))
    ensures VerifyPointer(b, opts, t, d) == Ok((true, Some(p)))
    ensures 4 <= p && Holds(b, m, p, o)
  {
    hide Holds;
    hide VerifyOffset;
    var f := FieldOffset(b, t, d.id).value;
    RefComplete(b, m, opts, t + f, o);
    p := Deref(b, t + f).value;
  }

  lemma {:induction false} TableComplete(
    schema: Schema, opts: Options, b: seq<Byte>, m: nat, ty: nat, t: int, o: Obj, c: Counters)
    requires SchemaOk(schema) && Conforms(schema, ty, o)
    requires Padded(b, m) && 4 <= t && Holds(b, m, t, o) && Within(opts, c)
    ensures Settled(opts, c, Filled(schema, ty, o), TableExtent(schema, ty, o), VerifyTable(schema, opts, b, ty, t, c))
    decreases o, 2, 0
  {
    hide *;
    HoldsTable(b, m, t, o, schema, ty);
    TableStartComplete(b, m, opts, t, c);
    HoldsRoom(b, m, t, o);
    EnterTable(schema, opts, b, ty, t, o, c);
    if VerifyComplexity(opts, c).ok {
      Entered(opts, c);
      FieldsComplete(schema, opts, b, m, t, o, schema[ty], VerifyComplexity(opts, c).counters);
    }
    FilledIs(schema, ty, o);
    LeaveTable(opts, c, FieldsFilled(schema, o, schema[ty]), FieldsExtent(schema, o, schema[ty]),
      if VerifyComplexity(opts, c).ok
      then VerifyFields(schema, opts, b, t, schema[ty], VerifyComplexity(opts, c).counters) else Oob);
  }

  lemma HoldsTable(b: seq<Byte>, m: nat, t: int, o: Obj, schema: Schema, ty: nat)
    requires Holds(b, m, t, o) && Conforms(schema, ty, o)
    ensures o.Table? && HasVTable(b, t) && AlignedBy(b, m, t, 4)
    ensures ty < |schema| && forall k | 0 <= k < |schema[ty]| :: FieldConforms(schema, o, schema[ty][k])
  {
    hide FieldConforms;
    hide HoldsSlot;
  }

  lemma Entered(opts: Options, c: Counters)
    requires Within(opts, c) && VerifyComplexity(opts, c).ok
    ensures Within(opts, VerifyComplexity(opts, c).counters)
  {
  }

  /** `VerifyTable` once the start of the table is known to be sound. */
  lemma EnterTable(schema: Schema, opts: Options, b: seq<Byte>, ty: nat, t: nat, o: Obj, c: Counters)
    requires SchemaOk(schema) && Conforms(schema, ty, o) && t < |b|
    requires VerifyTableStart(b, opts, t, c) == VerifyComplexity(opts, c)
    ensures ty < |schema| && DefsOk(schema[ty], |schema|)
    ensures o.Table? && forall k | 0 <= k < |schema[ty]| :: FieldConforms(schema, o, schema[ty][k])
    ensures var v := VerifyComplexity(opts, c);
      && VerifyTable(schema, opts, b, ty, t, c) ==
        (if !v.ok then Ok(v) else Closed(VerifyFields(schema, opts, b, t, schema[ty], v.counters)))
      && TableExtent(schema, ty, o) == Grown(FieldsExtent(schema, o, schema[ty]))
  {
    hide VerifyTableStart;
    hide VerifyFields;
    hide VerifyComplexity;
    hide EndTable;
    hide FieldConforms;
    hide FieldsExtent;
  }

  predicate FieldsFilled(schema: Schema, o: Obj, defs: seq<FieldDef>)
    requires o.Table?
  {
    forall k | 0 <= k < |defs| :: FieldFilled(schema, o, defs[k])
  }

  lemma FilledIs(schema: Schema, ty: nat, o: Obj)
    requires o.Table? && ty < |schema|
    ensures Filled(schema, ty, o) <==> FieldsFilled(schema, o, schema[ty])
  {
    hide FieldFilled;
  }

  lemma {:induction false} FieldsComplete(
    schema: Schema, opts: Options, b: seq<Byte>, m: nat, t: int, o: Obj, defs: seq<FieldDef>, c: Counters)
    requires SchemaOk(schema) && DefsOk(defs, |schema|)
    requires o.Table? && forall k | 0 <= k < |defs| :: FieldConforms(schema, o, defs[k])
    requires Padded(b, m) && 4 <= t < |b| && Holds(b, m, t, o) && Within(opts, c)
    ensures Settled(opts, c, FieldsFilled(schema, o, defs), FieldsExtent(schema, o, defs),
              VerifyFields(schema, opts, b, t, defs, c))
    decreases o, 1, |defs|
  {
    hide FieldConforms;
    hide FieldFilled;
    hide FieldExtent;
    hide VerifyField;
    hide Holds;
    hide Padded;
    hide DefOk;
    hide SchemaOk;
    if defs != [] {
      FieldComplete(schema, opts, b, m, t, o, defs[0], c);
      assert forall k | 1 <= k < |defs| :: defs[k] == defs[1..][k - 1];
      var v := VerifyField(schema, opts, b, t, defs[0], c).value;
      if v.ok {
        FieldsComplete(schema, opts, b, m, t, o, defs[1..], v.counters);
      }
    }
  }

  lemma {:induction false} FieldComplete(
    schema: Schema, opts: Options, b: seq<Byte>, m: nat, t: int, o: Obj, d: FieldDef, c: Counters)
    requires SchemaOk(schema) && DefOk(d, |schema|) && o.Table? && FieldConforms(schema, o, d)
    requires Padded(b, m) && 4 <= t < |b| && Holds(b, m, t, o) && Within(opts, c)
    ensures Settled(opts, c, FieldFilled(schema, o, d), FieldExtent(schema, o, d), VerifyField(schema, opts, b, t, d, c))
    decreases o, 0, 0
  {
    hide VerifyPointer;
    hide VerifyInline;
    hide VerifyTarget;
    hide Padded;
    hide HoldsSlot;
    hide TargetConforms;
    hide TargetFilled;
    hide TargetExtent;
    hide SchemaOk;
    hide HasVTable;
    hide VTableTight;
    hide FieldOffset;
    var i := FindSlot(o.slots, d.id);
    if i == |o.slots| {
      AbsentField(b, m, opts, t, o, d);
    } else {
      assert HoldsSlot(b, m, t, o.slots[i]);
      match o.slots[i].value {
        case Scalar(w, _, _) => InlineComplete(b, m, opts, t, d, o.slots[i].value, w, w);
        case Struct(bytes, a) => InlineComplete(b, m, opts, t, d, o.slots[i].value, |bytes|, a);
        case Null =>
          NullField(b, m, opts, t, d);
        case Ref(q) =>
          var p := PointerComplete(b, m, opts, t, d, q);
          TargetKind(schema, d.kind, q);
          TargetComplete(schema, opts, b, m, d.kind, p, q, c);
      }
    }
  }

  lemma TargetKind(schema: Schema, k: Kind, o: Obj)
    requires TargetConforms(schema, k, o)
    ensures !k.ScalarField? && !k.StructField?
  {
  }

  lemma AbsentField(b: seq<Byte>, m: nat, opts: Options, t: int, o: Obj, d: FieldDef)
    requires Holds(b, m, t, o) && o.Table? && IsFieldId(d.id) && !HasId(o.slots, d.id)
    ensures VerifyPointer(b, opts, t, d) == Ok((!d.required, None))
    ensures forall size, a | IsAlign(a) :: VerifyInline(b, opts, t, d, size, a) == Ok(!d.required)
  {
    assert FieldOffset(b, t, d.id) == Ok(0);
  }

  lemma NullField(b: seq<Byte>, m: nat, opts: Options, t: int, d: FieldDef)
    requires HoldsSlot(b, m, t, Slot(d.id, Null))
    ensures VerifyPointer(b, opts, t, d) == Ok((!d.required, None))
    ensures forall size, a | IsAlign(a) :: VerifyInline(b, opts, t, d, size, a) == Ok(!d.required)
  {
  }

  lemma {:induction false} TargetComplete(
    schema: Schema, opts: Options, b: seq<Byte>, m: nat, k: Kind, p: int, o: Obj, c: Counters)
    requires SchemaOk(schema) && KindOk(k, |schema|) && TargetConforms(schema, k, o)
    requires Padded(b, m) && 4 <= p && Holds(b, m, p, o) && Within(opts, c)
    ensures Settled(opts, c, TargetFilled(schema, k, o), TargetExtent(schema, k, o),
              VerifyTarget(schema, opts, b, k, p, c))
    decreases o, 4, 0
  {
    hide Padded;
    hide Holds;
    hide Conforms;
    hide Filled;
    hide VerifyTable;
    hide VerifyTables;
    hide VerifyVector;
    hide VerifyStrings;
    hide VerifyString;
    hide SchemaOk;
    hide TableExtent;
    hide TablesExtent;
    match k
    case StringField => StringComplete(b, m, opts, p, o.chars);
    case TableField(ty) => TableComplete(schema, opts, b, m, ty, p, o, c);
    case ScalarVector(w) => ScalarsComplete(b, m, opts, p, w, o.elems);
    case StringVector =>
      RefsComplete(b, m, opts, p, o.objs);
      StringsComplete(b, m, opts, p, o.objs, 0);
    case TableVector(ty) =>
      RefsComplete(b, m, opts, p, o.objs);
      TablesComplete(schema, opts, b, m, ty, p, o, 0, c);
  }

  predicate TablesFilled(schema: Schema, ty: nat, objs: seq<Obj>, i: nat) {
    forall k | i <= k < |objs| :: Filled(schema, ty, objs[k])
  }

  lemma {:induction false} TablesComplete(
    schema: Schema, opts: Options, b: seq<Byte>, m: nat, ty: nat, p: int, o: Obj, i: nat, c: Counters)
    requires SchemaOk(schema) && ty < |schema| && TargetConforms(schema, TableVector(ty), o) && i <= |o.objs|
    requires Padded(b, m) && 4 <= p && Holds(b, m, p, o) && Within(opts, c)
    ensures Settled(opts, c, TablesFilled(schema, ty, o.objs, i), TablesExtent(schema, ty, o, i),
              VerifyTables(schema, opts, b, ty, p, i, c))
    decreases o, 3, |o.objs| - i
  {
    hide Padded;
    hide Conforms;
    hide Filled;
    hide VerifyTable;
    hide SchemaOk;
    hide TableExtent;
    hide HoldsRef;
    hide VerifyOffset;
    if i < |o.objs| {
      RefComplete(b, m, opts, p + 4 + 4 * i, o.objs[i]);
      var q := VectorRef(b, p, i).value;
      TableComplete(schema, opts, b, m, ty, q, o.objs[i], c);
      var v := VerifyTable(schema, opts, b, ty, q, c).value;
      if v.ok {
        TablesComplete(schema, opts, b, m, ty, p, o, i + 1, v.counters);
      }
    }
  }

  lemma {:induction false} SameIdentComplete(b: seq<Byte>, p: int, ident: seq<Byte>)
    requires At(b, p, ident)
    ensures SameIdent(b, p, ident, |ident|) == Ok(true)
    decreases |ident|
  {
    if ident != [] {
      AtInner(b, p, ident, 0, [ident[0]]);
      ReadByte(b, p, ident[0]);
      AtInner(b, p, ident, 1, ident[1..]);
      SameIdentComplete(b, p + 1, ident[1..]);
    }
  }

  lemma RootComplete(b: seq<Byte>, m: nat, opts: Options, start: nat, o: Obj)
    requires Padded(b, m) && start % 4 == 0 && |b| >= MIN_BUFFER_SIZE
    requires GetRoot(b, start).Ok? && GetRoot(b, start).value >= start + 4
    requires Holds(b, m, GetRoot(b, start).value, o)
    ensures var u := VerifyOffset(b, opts, start); u > 0 && start + u == GetRoot(b, start).value
  {
    hide Holds;
    HoldsRoom(b, m, GetRoot(b, start).value, o);
  }

  lemma FromStartComplete(
    schema: Schema, opts: Options, b: seq<Byte>, m: nat, ty: nat, ident: Option<seq<Byte>>, start: nat, o: Obj,
    c: Counters)
    requires SchemaOk(schema) && Conforms(schema, ty, o) && Within(opts, c)
    requires Padded(b, m) && start % 4 == 0 && |b| >= MIN_BUFFER_SIZE
    requires GetRoot(b, start).Ok? && GetRoot(b, start).value >= start + 4
    requires Holds(b, m, GetRoot(b, start).value, o)
    requires ident.Some? ==> |ident.value| == 4 && At(b, start + 4, ident.value)
    ensures Settled(opts, c, Filled(schema, ty, o), TableExtent(schema, ty, o),
              VerifyBufferFromStart(schema, opts, b, ty, ident, start, c))
  {
    hide Holds;
    hide TableExtent;
    hide VerifyTable;
    hide SameIdent;
    hide VerifyOffset;
    hide Padded;
    hide Conforms;
    hide Filled;
    hide GetRoot;
    RootComplete(b, m, opts, start, o);
    TableComplete(schema, opts, b, m, ty, GetRoot(b, start).value, o, c);
    if ident.Some? {
      SameIdentComplete(b, start + 4, ident.value);
    }
  }

  /** No buffer with a table at its root is shorter than the verifier demands. */
  lemma FinishedLong(
    ops: seq<Op>, force: bool, dedup: bool, root: nat, ident: seq<Byte>, sizePrefix: bool, b: seq<Byte>)
    requires Finished(ops, force, dedup, root, ident, sizePrefix, b)
    requires Meaning(ops)[root].Table?
    ensures |b| >= MIN_BUFFER_SIZE
  {
    hide *;
    var st, off := FinishedState(ops, force, dedup, root, ident, sizePrefix, b);
    RunHolds(ops, force, dedup);
    AllHoldAt(st.b.data, st.b.minalign, st.offs, Meaning(ops), root);
    LongEnough(st.b, off, ident, sizePrefix, Meaning(ops)[root], b);
  }

  lemma LongEnough(s: FlatBuilder.Builder, off: nat, ident: seq<Byte>, sizePrefix: bool, o: Obj, b: seq<Byte>)
    requires FinishesTo(s, off, ident, sizePrefix, b)
    requires HoldsAt(s.data, s.minalign, off, o) && o.Table?
    ensures |b| >= MIN_BUFFER_SIZE
  {
    hide HoldsSlot;
    hide FieldOffset;
    hide FlatBuilder.Finish;
    hide FinishBytes;
    MinalignFour(s, off, o);
    FinishIs(s, off, ident, sizePrefix);
    FinishLength(s.data, s.minalign, off, ident, sizePrefix);
  }

  /**
    Completeness. The buffer of any run that ends with a table of the type asked for is accepted, with and
    without the alignment checks, exactly when no required field is missing in it and the limits allow for its
    tables beside those that the verifier has met before; the depth is then back at what it was.
   */
  lemma VerifierComplete(
    ops: seq<Op>, force: bool, dedup: bool, root: nat, ident: seq<Byte>, sizePrefix: bool, b: seq<Byte>,
    schema: Schema, opts: Options, ty: nat, checkIdent: bool, c: Counters)
    requires Finished(ops, force, dedup, root, ident, sizePrefix, b)
    requires SchemaOk(schema) && Conforms(schema, ty, Meaning(ops)[root])
    requires Within(opts, c)
    requires checkIdent ==> |ident| == 4
    ensures
      var e := TableExtent(schema, ty, Meaning(ops)[root]);
      var r := VerifyBuffer(schema, opts, b, ty, if checkIdent then Some(ident) else None, sizePrefix, c);
      && r.Ok?
      && (r.value.ok <==>
           && Filled(schema, ty, Meaning(ops)[root])
           && c.depth + e.nesting <= opts.maxDepth && c.tables + e.visits <= opts.maxTables)
      && (r.value.ok ==> r.value.counters == Counters(c.depth, c.tables + e.visits))
  {
    hide Holds;
    hide TableExtent;
    hide VerifyBufferFromStart;
    hide Run;
    hide FlatBuilder.Finish;
    hide At;
    hide ReadLE;
    hide GetRoot;
    hide FieldConforms;
    hide Filled;
    hide Meaning;
    hide OpsOk;
    var o := Meaning(ops)[root];
    var m := FinishedHolds(ops, force, dedup, root, ident, sizePrefix, b);
    FinishedLong(ops, force, dedup, root, ident, sizePrefix, b);
    FromStartComplete(schema, opts, b, m, ty, if checkIdent then Some(ident) else None, RootAt(sizePrefix), o, c);
  }
}
