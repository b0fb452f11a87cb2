/**
  The `Verifier` object itself: two counters that the calls update, loops over vectors. Every method is
  proved to give the verdict of the function of the same name in FlatVerifier.dfy, on any bytes.
 */
module FlatVerifierClass {
  import opened Bytes
  import opened FlatReader
  import opened FlatVerifier
  import opened FlatVerifierSound

  class Verifier {
    const buf: seq<Byte>
    const schema: Schema
    const opts: Options
    var depth: nat
    var tables: nat

    ghost predicate Valid() {
      SchemaOk(schema) && |buf| < MAX_BUFFER_SIZE
    }

    ghost function Now(): Counters
      reads this
    {
      Counters(depth, tables)
    }

    constructor (buf: seq<Byte>, schema: Schema, opts: Options)
      requires SchemaOk(schema) && |buf| < MAX_BUFFER_SIZE
      ensures Valid() && Now() == Counters(0, 0)
      ensures this.buf == buf && this.schema == schema && this.opts == opts
    {
      this.buf := buf;
      this.schema := schema;
      this.opts := opts;
      depth := 0;
      tables := 0;
    }

    method EnterTable() returns (ok: bool)
      modifies this
      ensures Verdict(ok, Now()) == VerifyComplexity(opts, old(Now()))
    {
      depth := Wrap32(depth + 1);
      tables := Wrap32(tables + 1);
      ok := depth <= opts.maxDepth && tables <= opts.maxTables;
    }

    method LeaveTable() returns (ok: bool)
      modifies this
      ensures ok && Now() == EndTable(old(Now()))
    {
      depth := Wrap32(depth - 1);
      ok := true;
    }

    method StartTable(t: nat) returns (ok: bool)
      modifies this
      ensures Verdict(ok, Now()) == VerifyTableStart(buf, opts, t, old(Now()))
    {
      if !VerifyScalar(buf, opts, t, 4) {
        return false;
      }
      var vt := Wrap64(t - ReadSigned(buf, t).value);
      ok := EnterTable();
      if !ok || !VerifyScalar(buf, opts, vt, 2) {
        return false;
      }
      var size := ReadLE(buf, vt, 2).value;
      ok := VerifyAlignment(opts, size, 2) && size % 2 == 0 && Verify(buf, vt, size);
    }

    method VectorOfStrings(v: nat) returns (ok: bool)
      requires VectorInside(buf, v, 4)
      ensures VerifyStrings(buf, opts, v, 0) == Ok(ok)
    {
      var n := VectorSize(buf, v).value;
      var i := 0;
      while i < n
        invariant i <= n && VectorInside(buf, v, 4)
        invariant VerifyStrings(buf, opts, v, 0) == VerifyStrings(buf, opts, v, i)
      {
        RefInside(buf, v, i);
        if !VerifyString(buf, opts, VectorRef(buf, v, i).value) {
          return false;
        }
        i := i + 1;
      }
      return true;
    }

    /** The check generated for a table type: its start, its fields in order, its end. */
    method TableOf(ty: nat, t: nat) returns (ok: bool)
      requires Valid() && ty < |schema|
      modifies this
      ensures VerifyTable(schema, opts, buf, ty, t, old(Now())) == Ok(Verdict(ok, Now()))
      decreases Left(buf, t), 2, 0
    {
      ok := StartTable(t);
      if !ok {
        return;
      }
      TableStartSound(buf, opts, t, old(Now()));
      ok := Fields(t, schema[ty]);
      if ok {
        ok := LeaveTable();
      }
    }

    method Fields(t: nat, defs: seq<FieldDef>) returns (ok: bool)
      requires Valid() && DefsOk(defs, |schema|) && t < |buf| && VTableInside(buf, t)
      modifies this
      ensures VerifyFields(schema, opts, buf, t, defs, old(Now())) == Ok(Verdict(ok, Now()))
      decreases Left(buf, t), 1, |defs|
    {
      hide VTableInside;
      hide VerifyField;
      hide DefOk;
      hide SchemaOk;
      var k := 0;
      while k < |defs|
        invariant k <= |defs|
        invariant VerifyFields(schema, opts, buf, t, defs, old(Now())) ==
          VerifyFields(schema, opts, buf, t, defs[k..], Now())
      {
        assert defs[k..][0] == defs[k] && defs[k..][1..] == defs[k + 1..];
        ok := FieldOf(t, defs[k]);
        if !ok {
          return;
        }
        k := k + 1;
      }
      ok := true;
    }

    method FieldOf(t: nat, d: FieldDef) returns (ok: bool)
      requires Valid() && DefOk(d, |schema|) && t < |buf| && VTableInside(buf, t)
      modifies this
      ensures VerifyField(schema, opts, buf, t, d, old(Now())) == Ok(Verdict(ok, Now()))
      decreases Left(buf, t), 0, 0
    {
      hide VTableInside;
      hide FieldOffset;
      hide VerifyPointer;
      hide VerifyTarget;
      FieldOffsetInside(buf, t, d.id);
      PointerInside(buf, opts, t, d);
      match d.kind {
        case ScalarField(w) => ok := VerifyInline(buf, opts, t, d, w, w).value;
        case StructField(size, a) => ok := VerifyInline(buf, opts, t, d, size, a).value;
        case _ =>
          var r := VerifyPointer(buf, opts, t, d).value;
          ok := r.0;
          if ok && r.1.Some? {
            ok := Target(d.kind, r.1.value);
          }
      }
    }

    method Target(k: Kind, p: nat) returns (ok: bool)
      requires Valid() && KindOk(k, |schema|) && !k.ScalarField? && !k.StructField?
      modifies this
      ensures VerifyTarget(schema, opts, buf, k, p, old(Now())) == Ok(Verdict(ok, Now()))
      decreases Left(buf, p), 4, 0
    {
      hide VectorInside;
      hide VerifyVector;
      hide VerifyTable;
      hide VerifyTables;
      hide VerifyStrings;
      hide VerifyString;
      match k {
        case StringField => ok := VerifyString(buf, opts, p);
        case TableField(ty) => ok := TableOf(ty, p);
        case ScalarVector(w) => ok := VerifyVector(buf, opts, p, w);
        case StringVector =>
          ok := VerifyVector(buf, opts, p, 4);
          if ok {
            VectorSound(buf, opts, p, 4);
            ok := VectorOfStrings(p);
          }
        case TableVector(ty) =>
          ok := VerifyVector(buf, opts, p, 4);
          if ok {
            VectorSound(buf, opts, p, 4);
            ok := VectorOfTables(ty, p);
          }
      }
    }

    method VectorOfTables(ty: nat, v: nat) returns (ok: bool)
      requires Valid() && ty < |schema| && VectorInside(buf, v, 4)
      modifies this
      ensures VerifyTables(schema, opts, buf, ty, v, 0, old(Now())) == Ok(Verdict(ok, Now()))
      decreases Left(buf, v), 3, 0
    {
      hide VerifyTable;
      hide SchemaOk;
      var n := VectorSize(buf, v).value;
      var i := 0;
      while i < n
        invariant i <= n && VectorInside(buf, v, 4)
        invariant VerifyTables(schema, opts, buf, ty, v, 0, old(Now())) ==
          VerifyTables(schema, opts, buf, ty, v, i, Now())
      {
        RefInside(buf, v, i);
        ok := TableOf(ty, VectorRef(buf, v, i).value);
        if !ok {
          return;
        }
        i := i + 1;
      }
      ok := true;
    }

    method BufferFromStart(ty: nat, ident: Option<seq<Byte>>, start: nat) returns (ok: bool)
      requires Valid() && ty < |schema| && start <= 4
      modifies this
      ensures VerifyBufferFromStart(schema, opts, buf, ty, ident, start, old(Now())) == Ok(Verdict(ok, Now()))
    {
      hide VerifyTable;
      hide SameIdent;
      hide VerifyOffset;
      if |buf| < MIN_BUFFER_SIZE {
        return false;
      }
      if ident.Some? {
        IdentSafe(buf, start + 4, ident.value, 4);
        if !SameIdent(buf, start + 4, ident.value, 4).value {
          return false;
        }
      }
      var o := VerifyOffset(buf, opts, start);
      if o == 0 {
        return false;
      }
      ok := TableOf(ty, start + o);
    }

    method Buffer(ty: nat, ident: Option<seq<Byte>>, sizePrefix: bool) returns (ok: bool)
      requires Valid() && ty < |schema|
      modifies this
      ensures VerifyBuffer(schema, opts, buf, ty, ident, sizePrefix, old(Now())) == Ok(Verdict(ok, Now()))
    {
      hide VerifyBufferFromStart;
      if !sizePrefix {
        ok := BufferFromStart(ty, ident, 0);
      } else if !VerifyScalar(buf, opts, 0, 4) || ReadLE(buf, 0, 4).value != |buf| - 4 {
        ok := false;
      } else {
        ok := BufferFromStart(ty, ident, 4);
      }
    }
  }
}
