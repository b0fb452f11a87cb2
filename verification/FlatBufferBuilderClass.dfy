/**
  `FlatBufferBuilder` as it is: an object around a `VectorDownward` whose scratch stack holds the offsets of
  the vtables and, behind them, the fields of the table under construction. Every method is proved to do
  what the function of the same name in FlatBuilder.dfy does.
 */
module FlatBufferBuilderClass {
  import opened Bytes
  import FB = FlatBuilder
  import opened FlatObjects
  import opened FlatTables
  import opened FlatVTables
  import opened FlatRun
  import opened VectorDownwardClass

  /** `sizeof(FieldLoc)`: four bytes of offset, two of id and two that stay unused. */
  const FIELD_LOC_SIZE := 8

  function FieldLocBytes(f: FB.FieldLoc): (s: seq<Byte>)
    ensures |s| == FIELD_LOC_SIZE
  {
    LE(f.off, 4) + LE(f.id, 2) + [0, 0]
  }

  function FieldsBytes(fields: seq<FB.FieldLoc>): (s: seq<Byte>)
    ensures |s| == FIELD_LOC_SIZE * |fields|
  {
    if fields == [] then [] else FieldsBytes(fields[..|fields| - 1]) + FieldLocBytes(fields[|fields| - 1])
  }

  /** The contents of the scratch stack. */
  function ScratchBytes(vtables: seq<nat>, fields: seq<FB.FieldLoc>): (s: seq<Byte>)
    ensures |s| == 4 * |vtables| + FIELD_LOC_SIZE * |fields|
  {
    Encode(4, vtables) + FieldsBytes(fields)
  }

  lemma {:induction false} EncodeAppend(vs: seq<nat>, v: nat)
    ensures Encode(4, vs + [v]) == Encode(4, vs) + LE(v, 4)
  {
    hide LE;
    if vs == [] {
      assert vs + [v] == [v];
      assert [v][1..] == [];
    } else {
      assert (vs + [v])[1..] == vs[1..] + [v];
      EncodeAppend(vs[1..], v);
    }
  }

  lemma {:induction false} FieldsBytesAt(fields: seq<FB.FieldLoc>, i: nat)
    requires i < |fields|
    ensures FieldsBytes(fields)[FIELD_LOC_SIZE * i..FIELD_LOC_SIZE * i + FIELD_LOC_SIZE] == FieldLocBytes(fields[i])
  {
    hide FieldLocBytes;
    var n := |fields| - 1;
    if i < n {
      FieldsBytesAt(fields[..n], i);
      var s := FieldsBytes(fields[..n]);
      assert FieldsBytes(fields)[..|s|] == s;
      assert FieldsBytes(fields)[8 * i..8 * i + 8] == FieldsBytes(fields)[..|s|][8 * i..8 * i + 8];
    }
  }

  /** The builder while the vtable of the table that began at `start` is at its front. */
  ghost function VTableWritten(s: FB.Builder, start: nat): FB.Builder
    requires FB.CanEndTable(s, start)
  {
    var s1 := FB.Opened(s);
    s.(data := FB.NewVTable(s, start) + s1.data, minalign := s1.minalign, fields := [], maxVoffset := 0)
  }

  predicate Fits(s: FB.Builder) {
    |s.data| < MAX_BUFFER_SIZE
  }

  class FlatBufferBuilder {
    const buf: VectorDownward
    var numFieldLoc: nat
    var maxVoffset: nat
    var nested: bool
    var finished: bool
    var minalign: nat
    var forceDefaults: bool
    var dedupVTables: bool
    var pool: seq<nat>
    ghost var vtables: seq<nat>
    ghost var fields: seq<FB.FieldLoc>

    ghost predicate Valid()
      reads this, buf, buf.buf
    {
      && buf.Valid()
      && buf.size < MAX_BUFFER_SIZE
      && numFieldLoc == |fields|
      && buf.Front() == ScratchBytes(vtables, fields)
      && (forall i | 0 <= i < |vtables| :: VTableFits(buf.Back(), vtables[i]))
      && (forall i | 0 <= i < |fields| :: fields[i].id < 0x1_0000 && fields[i].off <= buf.size)
    }

    ghost function State(): (s: FB.Builder)
      requires Valid()
      reads this, buf, buf.buf
      ensures |s.data| == buf.size < MAX_BUFFER_SIZE
    {
      FB.Builder(buf.Back(), vtables, fields, maxVoffset, nested, finished, minalign, pool, forceDefaults, dedupVTables)
    }

    constructor (initialSize: nat, bufferMinalign: nat)
      requires IsAlign(bufferMinalign)
      ensures Valid() && fresh(buf) && fresh(buf.buf)
      ensures State() == FB.New(false, true)
    {
      buf := new VectorDownward(initialSize, bufferMinalign);
      numFieldLoc := 0;
      maxVoffset := 0;
      nested := false;
      finished := false;
      minalign := 1;
      forceDefaults := false;
      dedupVTables := true;
      pool := [];
      vtables := [];
      fields := [];
    }

    /** Whether values equal to their defaults are stored all the same. */
    method ForceDefaults(fd: bool)
      requires Valid()
      modifies `forceDefaults
      ensures Valid() && State() == old(State()).(forceDefaults := fd)
    {
      forceDefaults := fd;
    }

    method DedupVTables(dedup: bool)
      requires Valid()
      modifies `dedupVTables
      ensures Valid() && State() == old(State()).(dedup := dedup)
    {
      dedupVTables := dedup;
    }

    method PushBytes(bytes: seq<Byte>)
      requires Valid() && Fits(FB.Push(State(), bytes))
      modifies this, buf, buf.buf
      ensures Valid() && (buf.buf == old(buf.buf) || fresh(buf.buf))
      ensures State() == FB.Push(old(State()), bytes)
    {
      hide VTableFits;
      hide ScratchBytes;
      ghost var d := buf.Back();
      buf.Push(bytes);
      GrownFits(bytes, d, vtables);
    }

    method Pad(n: nat)
      requires Valid() && Fits(FB.Push(State(), Zeros(n)))
      modifies this, buf, buf.buf
      ensures Valid() && (buf.buf == old(buf.buf) || fresh(buf.buf))
      ensures State() == FB.Push(old(State()), Zeros(n))
    {
      hide VTableFits;
      hide ScratchBytes;
      ghost var d := buf.Back();
      buf.Fill(n);
      GrownFits(Zeros(n), d, vtables);
    }

    method Align(a: nat)
      requires Valid() && IsAlign(a) && Fits(FB.Align(State(), a))
      modifies this, buf, buf.buf
      ensures Valid() && (buf.buf == old(buf.buf) || fresh(buf.buf))
      ensures State() == FB.Align(old(State()), a)
    {
      TrackMinAlign(a);
      Pad(PaddingBytes(buf.size, a));
    }

    method TrackMinAlign(a: nat)
      requires Valid()
      modifies `minalign
      ensures Valid() && State() == FB.TrackMinAlign(old(State()), a)
    {
      if a > minalign {
        minalign := a;
      }
    }

    method PreAlign(len: nat, a: nat)
      requires Valid() && IsAlign(a) && Fits(FB.PreAlign(State(), len, a))
      modifies this, buf, buf.buf
      ensures Valid() && (buf.buf == old(buf.buf) || fresh(buf.buf))
      ensures State() == FB.PreAlign(old(State()), len, a)
    {
      if len == 0 {
        return;
      }
      TrackMinAlign(a);
      Pad(PaddingBytes(buf.size + len, a));
    }

    method PushElement(n: nat, w: nat) returns (off: nat)
      requires Valid() && IsWidth(w) && Fits(FB.PushElement(State(), n, w))
      modifies this, buf, buf.buf
      ensures Valid() && (buf.buf == old(buf.buf) || fresh(buf.buf))
      ensures State() == FB.PushElement(old(State()), n, w) && off == |State().data|
    {
      Align(w);
      PushBytes(LE(n, w));
      off := buf.size;
    }

    method ReferTo(off: nat) returns (r: nat)
      requires Valid() && 0 < off <= |State().data| && Fits(FB.Align(State(), 4))
      modifies this, buf, buf.buf
      ensures Valid() && (buf.buf == old(buf.buf) || fresh(buf.buf))
      ensures State() == FB.Align(old(State()), 4) && r == FB.ReferTo(old(State()), off)
    {
      Align(4);
      r := buf.size - off + 4;
    }

    method PushOffset(off: nat)
      requires Valid() && 0 < off <= |State().data| && Fits(FB.PushOffset(State(), off))
      modifies this, buf, buf.buf
      ensures Valid() && (buf.buf == old(buf.buf) || fresh(buf.buf))
      ensures State() == FB.PushOffset(old(State()), off)
    {
      var r := ReferTo(off);
      var _ := PushElement(r, 4);
    }

    method TrackField(id: nat, off: nat)
      requires Valid() && id < 0x1_0000 && off <= |State().data|
      modifies this, buf, buf.buf
      ensures Valid() && (buf.buf == old(buf.buf) || fresh(buf.buf))
      ensures State() == FB.TrackField(old(State()), id, off)
    {
      hide VTableFits;
      hide ScratchBytes;
      hide FieldLocBytes;
      ScratchAddField(vtables, fields, FB.FieldLoc(off, id));
      buf.ScratchPush(FieldLocBytes(FB.FieldLoc(off, id)));
      fields := fields + [FB.FieldLoc(off, id)];
      numFieldLoc := numFieldLoc + 1;
      if id > maxVoffset {
        maxVoffset := id;
      }
    }

    method AddElement(id: nat, n: nat, w: nat, default: nat)
      requires Valid() && IsWidth(w) && id < 0x1_0000 && Fits(FB.AddElement(State(), id, n, w, default))
      modifies this, buf, buf.buf
      ensures Valid() && (buf.buf == old(buf.buf) || fresh(buf.buf))
      ensures State() == FB.AddElement(old(State()), id, n, w, default)
    {
      if n == default && !forceDefaults {
        return;
      }
      var off := PushElement(n, w);
      TrackField(id, off);
    }

    method AddOffset(id: nat, off: nat)
      requires Valid() && id < 0x1_0000 && off <= |State().data| && Fits(FB.AddOffset(State(), id, off))
      modifies this, buf, buf.buf
      ensures Valid() && (buf.buf == old(buf.buf) || fresh(buf.buf))
      ensures State() == FB.AddOffset(old(State()), id, off)
    {
      if off == 0 {
        return;
      }
      var r := ReferTo(off);
      AddElement(id, r, 4, 0);
    }

    method AddStruct(id: nat, structptr: Option<seq<Byte>>, a: nat)
      requires Valid() && IsAlign(a) && id < 0x1_0000 && Fits(FB.AddStruct(State(), id, structptr, a))
      modifies this, buf, buf.buf
      ensures Valid() && (buf.buf == old(buf.buf) || fresh(buf.buf))
      ensures State() == FB.AddStruct(old(State()), id, structptr, a)
    {
      if structptr.None? {
        return;
      }
      Align(a);
      PushBytes(structptr.value);
      TrackField(id, buf.size);
    }

    /** No object is under construction. */
    ghost predicate NotNested()
      requires Valid()
      reads this, buf, buf.buf
    {
      !State().nested && State().fields == []
    }

    method StartTable() returns (start: nat)
      requires Valid() && NotNested()
      modifies this
      ensures Valid() && State() == FB.StartTable(old(State())) && start == |State().data|
    {
      nested := true;
      start := buf.size;
    }

    /** Drops the fields of the table under construction from the scratch stack. */
    method ClearOffsets()
      requires Valid()
      modifies this, buf
      ensures Valid() && buf.buf == old(buf.buf)
      ensures State() == old(State()).(fields := [], maxVoffset := 0)
    {
      hide VTableFits;
      ScratchSplit(vtables, fields);
      buf.ScratchPop(numFieldLoc * FIELD_LOC_SIZE);
      numFieldLoc := 0;
      fields := [];
      maxVoffset := 0;
    }

    /** The number `i` of the fields on the scratch stack. */
    method ReadField(i: nat) returns (f: FB.FieldLoc)
      requires Valid() && i < |fields|
      ensures f == fields[i]
    {
      hide VTableFits;
      hide ScratchBytes;
      hide FieldLocBytes;
      hide Val;
      var k := buf.scratch - numFieldLoc * FIELD_LOC_SIZE + i * FIELD_LOC_SIZE;
      ScratchFieldAt(vtables, fields, i);
      FieldLocRead(fields[i]);
      FrontSlices(buf.buf[..], buf.scratch, k);
      f := FB.FieldLoc(Val(buf.buf[k..k + 4]), Val(buf.buf[k + 4..k + 6]));
    }

    /** Replaces the first bytes of the buffer, behind which it stays as it is. */
    method Patch(ghost d: seq<Byte>, ghost front: seq<Byte>, at: nat, bytes: seq<Byte>)
      requires Valid() && State().data == front + d && at + |bytes| <= |front|
      requires forall i | 0 <= i < |vtables| :: VTableFits(d, vtables[i])
      modifies buf.buf
      ensures Valid() && State() == old(State()).(data := FB.WriteAt(front, at, bytes) + d)
    {
      hide VTableFits;
      hide ScratchBytes;
      buf.Overwrite(at, bytes);
      WriteAtFront(front, d, at, bytes);
      GrownFits(FB.WriteAt(front, at, bytes), d, vtables);
    }

    /** Makes room for a vtable and writes its two sizes. */
    method PushEmptyVTable(size: nat, tableSize: nat)
      requires Valid() && 4 <= size && |State().data| + size < MAX_BUFFER_SIZE
      modifies this, buf, buf.buf
      ensures Valid() && (buf.buf == old(buf.buf) || fresh(buf.buf))
      ensures State() == FB.Push(old(State()), FB.EmptyVTable(size, tableSize))
    {
      hide VTableFits;
      hide ScratchBytes;
      hide LE;
      hide FB.WriteAt;
      hide FB.EmptyVTable;
      ghost var d := buf.Back();
      Pad(size);
      Patch(d, Zeros(size), 2, LE(tableSize, 2));
      Patch(d, FB.WriteAt(Zeros(size), 2, LE(tableSize, 2)), 0, LE(size, 2));
      HeadWritten(size, tableSize);
    }

    /** Enters the fields on the scratch stack into the vtable at the front, no field twice. */
    method FillEntries(ghost empty: seq<Byte>, ghost d: seq<Byte>, ghost tableSize: nat, t: nat)
      requires Valid() && State().data == empty + d
      requires 4 <= |empty| && empty == FB.EmptyVTable(|empty|, tableSize)
      requires FB.FieldsFit(fields, |empty|, t) && FB.DistinctIds(fields)
      requires forall i | 0 <= i < |vtables| :: VTableFits(d, vtables[i])
      modifies buf.buf
      ensures Valid() && State() == old(State()).(data := FB.FillVTable(empty, fields, t) + d)
    {
      hide VTableFits;
      hide ScratchBytes;
      hide FB.FillVTable;
      hide FB.FieldsFit;
      hide LE;
      hide FB.WriteAt;
      hide FB.EmptyVTable;
      hide FB.DistinctIds;
      ghost var s := State();
      NoFields(empty, fields, t);
      var i := 0;
      while i < numFieldLoc
        modifies buf.buf
        invariant i <= numFieldLoc && Valid() && FB.FieldsFit(fields[..i], |empty|, t)
        invariant State() == s.(data := FB.FillVTable(empty, fields[..i], t) + d)
      {
        var f := ReadField(i);
        FieldFilled(empty, fields, |empty|, tableSize, t, i);
        Patch(d, FB.FillVTable(empty, fields[..i], t), f.id, LE(t - f.off, 2));
        i := i + 1;
      }
      assert fields[..i] == fields;
    }

    /** Turns the fields on the scratch stack into a vtable for a table at offset `t`. */
    method PushVTable(size: nat, tableSize: nat, t: nat)
      requires Valid() && 4 <= size && |State().data| + size < MAX_BUFFER_SIZE
      requires FB.FieldsFit(fields, size, t) && FB.DistinctIds(fields)
      modifies this, buf, buf.buf
      ensures Valid() && (buf.buf == old(buf.buf) || fresh(buf.buf))
      ensures State() == old(State()).(
        data := FB.FillVTable(FB.EmptyVTable(size, tableSize), old(fields), t) + old(State()).data,
        fields := [], maxVoffset := 0)
    {
      hide VTableFits;
      hide ScratchBytes;
      hide FB.FillVTable;
      hide FB.FieldsFit;
      hide FB.DistinctIds;
      hide FB.EmptyVTable;
      ghost var d := buf.Back();
      PushEmptyVTable(size, tableSize);
      FillEntries(FB.EmptyVTable(size, tableSize), d, tableSize, t);
      ClearOffsets();
    }

    /** Whether the vtable at offset `off` has the bytes of the one at the front. */
    method SameAsFront(ghost vt: seq<Byte>, ghost d: seq<Byte>, size: nat, off: nat) returns (same: bool)
      requires Valid() && State().data == vt + d && |vt| == size
      requires 2 <= size < 0x1_0000 && vt[..2] == LE(size, 2) && VTableFits(d, off)
      ensures same == FB.SameVTable(d, off, vt)
    {
      hide *;
      FrontCompared(vt, d, off);
      same := StartsLike(off, size);
    }

    method StartsLike(off: nat, size: nat) returns (same: bool)
      requires Valid() && 2 <= off <= |State().data| && size <= |State().data|
      requires var b := State().data; Val(Part(b, |b| - off, 2)) == size ==> size <= off
      ensures var b := State().data;
        same <==> Val(Part(b, |b| - off, 2)) == size && Part(b, |b| - off, size) == Part(b, 0, size)
    {
      hide Part;
      hide Val;
      hide VTableFits;
      hide ScratchBytes;
      same := buf.StartsLike(off, size);
    }

    /** Compares the vtable at the front of the buffer with those on the scratch stack, oldest first. */
    method FindKnown(ghost vt: seq<Byte>, ghost d: seq<Byte>, size: nat) returns (known: Option<nat>)
      requires Valid() && fields == [] && State().data == vt + d && |vt| == size
      requires 2 <= size < 0x1_0000 && vt[..2] == LE(size, 2)
      requires forall i | 0 <= i < |vtables| :: VTableFits(d, vtables[i])
      ensures known == FB.FindVTable(d, vtables, vt)
    {
      hide VTableFits;
      hide LE;
      hide FB.FindVTable;
      hide FB.SameVTable;
      hide Val;
      var i := 0;
      assert vtables[0..] == vtables;
      while i < buf.scratch / 4
        invariant i <= |vtables|
        invariant FB.FindVTable(d, vtables, vt) == FB.FindVTable(d, vtables[i..], vt)
      {
        ScratchVTableAt(vtables, fields, i, d);
        assert buf.buf[4 * i..4 * i + 4] == buf.Front()[4 * i..4 * i + 4];
        var off := Val(buf.buf[4 * i..4 * i + 4]);
        FindStep(d, vtables, i, vt);
        var same := SameAsFront(vt, d, size, off);
        if same {
          return Some(off);
        }
        i := i + 1;
      }
      FindNone(d, vtables[i..], vt);
      return None;
    }

    /**
      Closes the table that was begun at `start`: the distance to the vtable, a new vtable in front of it, and
      if the same vtable was written before, the new one is taken back.
     */
    method EndTable(start: nat) returns (t: nat)
      requires Valid() && FB.CanEndTable(State(), start)
      requires FB.TableOffset(State()) + FB.VTableSize(State().maxVoffset) < MAX_BUFFER_SIZE
      modifies this, buf, buf.buf
      ensures Valid() && (buf.buf == old(buf.buf) || fresh(buf.buf))
      ensures State() == FB.EndTable(old(State()), start) && t == FB.TableOffset(old(State()))
    {
      hide *;
      ghost var s := State();
      AllListed();
      t := WriteVTable(start);
      var vtUse := Deduplicate(s, start, t);
      LinkVTable(s, start, t, vtUse);
    }

    lemma AllListed()
      requires Valid()
      ensures forall i | 0 <= i < |State().vtables| :: VTableFits(State().data, State().vtables[i])
    {
    }

    /** Writes the place for the distance to the vtable and a vtable in front of it. */
    method WriteVTable(start: nat) returns (t: nat)
      requires Valid() && FB.CanEndTable(State(), start)
      requires FB.TableOffset(State()) + FB.VTableSize(State().maxVoffset) < MAX_BUFFER_SIZE
      modifies this, buf, buf.buf
      ensures Valid() && (buf.buf == old(buf.buf) || fresh(buf.buf))
      ensures t == FB.TableOffset(old(State()))
      ensures State() == VTableWritten(old(State()), start)
    {
      hide VTableFits;
      hide ScratchBytes;
      hide LE;
      hide FB.FillVTable;
      hide FB.EmptyVTable;
      hide FB.PushElement;
      hide FB.FieldsFit;
      hide FB.DistinctIds;
      hide FB.NewVTable;
      hide FB.TableBody;
      ghost var s := State();
      OpenedIs(s);
      NewVTableHead(s, start);
      t := PushElement(0, 4);
      maxVoffset := Max((maxVoffset + 2) % 0x1_0000, 4);
      PushVTable(maxVoffset, t - start, t);
    }

    /** Takes the new vtable back if there is an old one like it; returns the offset of the one to use. */
    method Deduplicate(ghost s: FB.Builder, start: nat, t: nat) returns (vtUse: nat)
      requires Valid() && FB.CanEndTable(s, start) && t == FB.TableOffset(s)
      requires forall i | 0 <= i < |s.vtables| :: VTableFits(s.data, s.vtables[i])
      requires State() == VTableWritten(s, start)
      modifies buf
      ensures Valid() && buf.buf == old(buf.buf)
      ensures match FB.KnownVTable(s, start)
        case Some(known) =>
          && vtUse == known && known in s.vtables
          && State() == VTableWritten(s, start).(data := FB.Opened(s).data)
        case None => vtUse == |FB.NewVTable(s, start)| + t && State() == VTableWritten(s, start)
    {
      hide VTableFits;
      hide ScratchBytes;
      hide FB.NewVTable;
      hide FB.PushElement;
      hide FB.FindVTable;
      hide LE;
      hide FB.CanEndTable;
      ghost var vt, d := FB.NewVTable(s, start), FB.Opened(s).data;
      OpenedIs(s);
      NewVTableHead(s, start);
      OpenedFits(s);
      vtUse := buf.size;
      if dedupVTables {
        var known := FindKnown(vt, d, buf.size - t);
        if known.Some? {
          vtUse := known.value;
          PopBytes(vt, d, buf.size - t);
        }
      }
    }

    /** Remembers the vtable if it is new and writes the distance to it. */
    method LinkVTable(ghost s: FB.Builder, start: nat, t: nat, vtUse: nat)
      requires Valid() && FB.CanEndTable(s, start) && t == FB.TableOffset(s)
      requires forall i | 0 <= i < |s.vtables| :: VTableFits(s.data, s.vtables[i])
      requires match FB.KnownVTable(s, start)
        case Some(known) =>
          && vtUse == known && known in s.vtables
          && State() == VTableWritten(s, start).(data := FB.Opened(s).data)
        case None => vtUse == |FB.NewVTable(s, start)| + t && State() == VTableWritten(s, start)
      modifies this, buf, buf.buf
      ensures Valid() && (buf.buf == old(buf.buf) || fresh(buf.buf))
      ensures State() == FB.EndTable(s, start)
    {
      hide VTableFits;
      hide ScratchBytes;
      hide LE;
      hide SignedLE;
      hide FB.PushElement;
      hide FB.KnownVTable;
      hide FB.NewVTable;
      hide FB.CanEndTable;
      hide FB.EndTable;
      hide FB.TableBody;
      OpenedIs(s);
      NewVTableHead(s, start);
      DistanceFits(s, FB.NewVTable(s, start), vtUse);
      nested := false;
      if vtUse == buf.size {
        LinkNew(s, start, t, vtUse);
      } else {
        LinkKnown(s, start, t, vtUse);
      }
    }

    method LinkNew(ghost s: FB.Builder, start: nat, t: nat, vtUse: nat)
      requires Valid() && FB.CanEndTable(s, start) && t == FB.TableOffset(s)
      requires forall i | 0 <= i < |s.vtables| :: VTableFits(s.data, s.vtables[i])
      requires FB.KnownVTable(s, start).None? && vtUse == |FB.NewVTable(s, start)| + t
      requires State() == VTableWritten(s, start).(nested := false)
      modifies this, buf, buf.buf
      ensures Valid() && (buf.buf == old(buf.buf) || fresh(buf.buf))
      ensures State() == FB.EndTable(s, start)
    {
      hide VTableFits;
      hide ScratchBytes;
      hide LE;
      hide SignedLE;
      hide FB.PushElement;
      hide FB.KnownVTable;
      hide FB.NewVTable;
      hide FB.CanEndTable;
      hide FB.EndTable;
      hide FB.TableBody;
      ghost var vt, body := FB.NewVTable(s, start), FB.TableBody(s);
      OpenedIs(s);
      NewVTableHead(s, start);
      ClosedIs(s, start);
      DistanceFits(s, vt, vtUse);
      NewFits(vt, FB.Opened(s).data);
      ListVTable(vtUse);
      WriteDistance(vt, body, t, vtUse);
    }

    method LinkKnown(ghost s: FB.Builder, start: nat, t: nat, vtUse: nat)
      requires Valid() && FB.CanEndTable(s, start) && t == FB.TableOffset(s)
      requires forall i | 0 <= i < |s.vtables| :: VTableFits(s.data, s.vtables[i])
      requires FB.KnownVTable(s, start) == Some(vtUse)
      requires State() == VTableWritten(s, start).(data := FB.Opened(s).data, nested := false)
      modifies this, buf, buf.buf
      ensures Valid() && (buf.buf == old(buf.buf) || fresh(buf.buf))
      ensures State() == FB.EndTable(s, start)
    {
      hide VTableFits;
      hide ScratchBytes;
      hide LE;
      hide SignedLE;
      hide FB.PushElement;
      hide FB.KnownVTable;
      hide FB.NewVTable;
      hide FB.CanEndTable;
      hide FB.EndTable;
      hide FB.TableBody;
      ghost var body := FB.TableBody(s);
      OpenedIs(s);
      NewVTableHead(s, start);
      ClosedIs(s, start);
      DistanceFits(s, FB.NewVTable(s, start), vtUse);
      EmptyFront(LE(0, 4) + body);
      WriteDistance([], body, t, vtUse);
      EmptyFront(SignedLE(vtUse - t) + body);
    }

    /** Takes the first bytes of the buffer back. */
    method PopBytes(ghost front: seq<Byte>, ghost d: seq<Byte>, n: nat)
      requires Valid() && State().data == front + d && |front| == n
      requires forall i | 0 <= i < |vtables| :: VTableFits(d, vtables[i])
      requires forall i | 0 <= i < |fields| :: fields[i].off <= |d|
      modifies buf
      ensures Valid() && buf.buf == old(buf.buf)
      ensures State() == old(State()).(data := d)
    {
      hide VTableFits;
      hide ScratchBytes;
      buf.Pop(n);
    }

    /** Puts a vtable on the scratch stack. */
    method ListVTable(off: nat)
      requires Valid() && fields == [] && VTableFits(State().data, off)
      modifies this, buf, buf.buf
      ensures Valid() && (buf.buf == old(buf.buf) || fresh(buf.buf))
      ensures State() == old(State()).(vtables := old(vtables) + [off])
    {
      hide VTableFits;
      hide ScratchBytes;
      hide LE;
      ScratchAddVTable(vtables, off);
      buf.ScratchPush(LE(off, 4));
      vtables := vtables + [off];
    }

    /** Fills in the place left for the distance between the table at offset `t` and its vtable. */
    method WriteDistance(ghost front: seq<Byte>, ghost body: seq<Byte>, t: nat, vtUse: nat)
      requires Valid() && State().data == front + (LE(0, 4) + body) && t == 4 + |body|
      requires forall i | 0 <= i < |vtables| :: VTableFits(front + (SignedLE(vtUse - t) + body), vtables[i])
      modifies buf.buf
      ensures Valid() && State() == old(State()).(data := front + (SignedLE(vtUse - t) + body))
    {
      hide VTableFits;
      hide ScratchBytes;
      hide SignedLE;
      hide LE;
      ghost var d := buf.Back();
      var at := buf.DataAt(t);
      buf.Overwrite(at - buf.cur, SignedLE(vtUse - t));
      PlaceFilled(front, LE(0, 4), SignedLE(vtUse - t), body);
    }

    method CreateString(chars: seq<Byte>) returns (off: nat)
      requires Valid() && NotNested() && Fits(FB.CreateString(State(), chars))
      modifies this, buf, buf.buf
      ensures Valid() && (buf.buf == old(buf.buf) || fresh(buf.buf))
      ensures State() == FB.CreateString(old(State()), chars) && off == |State().data|
    {
      PreAlign(|chars| + 1, 4);
      Pad(1);
      assert Zeros(1) == [0];
      PushBytes(chars);
      off := PushElement(|chars|, 4);
    }

    method CreateSharedString(chars: seq<Byte>) returns (off: nat)
      requires Valid() && NotNested() && Fits(FB.CreateString(State(), chars))
      modifies this, buf, buf.buf
      ensures Valid() && (buf.buf == old(buf.buf) || fresh(buf.buf))
      ensures (State(), off) == FB.CreateSharedString(old(State()), chars)
    {
      hide VTableFits;
      hide ScratchBytes;
      hide FB.CreateString;
      hide FB.CreateSharedString;
      ghost var s := State();
      var before := buf.size;
      AllListed();
      StringKeeps(s, chars);
      off := CreateString(chars);
      off := ShareString(s, chars, off, before);
    }

    /** Takes the string just written back if the pool has it, and adds it to the pool if not. */
    method ShareString(ghost s: FB.Builder, chars: seq<Byte>, written: nat, before: nat) returns (off: nat)
      requires Valid() && State() == FB.CreateString(s, chars) && Fits(FB.CreateString(s, chars))
      requires before == |s.data| && written == |State().data| && fields == []
      requires forall i | 0 <= i < |s.vtables| :: VTableFits(s.data, s.vtables[i])
      modifies this, buf
      ensures Valid() && buf.buf == old(buf.buf)
      ensures (State(), off) == FB.CreateSharedString(s, chars)
    {
      hide VTableFits;
      hide ScratchBytes;
      hide FB.FindString;
      hide FB.CreateString;
      hide FB.CreateSharedString;
      hide IsAlign;
      StringKeeps(s, chars);
      SharedIs(s, chars, State());
      ghost var front := ExtendsSplit(buf.Back(), s.data);
      var it := FB.FindString(buf.Back(), pool, chars);
      if it.Some? {
        PopBytes(front, s.data, buf.size - before);
        off := it.value;
      } else {
        pool := pool + [written];
        off := written;
      }
    }

    method StartVector(len: nat, elemSize: nat, alignment: nat)
      requires Valid() && NotNested() && IsAlign(alignment)
      requires Fits(FB.StartVectorOf(State(), len * elemSize, alignment))
      modifies this, buf, buf.buf
      ensures Valid() && (buf.buf == old(buf.buf) || fresh(buf.buf))
      ensures State() == FB.StartVectorOf(old(State()), len * elemSize, alignment)
    {
      nested := true;
      PreAlign(len * elemSize, 4);
      PreAlign(len * elemSize, alignment);
    }

    /** Elements of a scalar type are aligned to their size. */
    method StartScalars(len: nat, w: nat)
      requires Valid() && NotNested() && IsWidth(w) && Fits(FB.StartVector(State(), len, w))
      modifies this, buf, buf.buf
      ensures Valid() && (buf.buf == old(buf.buf) || fresh(buf.buf))
      ensures State() == FB.StartVector(old(State()), len, w)
    {
      ScaleIsTimes(len, w);
      StartVector(len, w, w);
    }

    method EndVector(len: nat) returns (off: nat)
      requires Valid() && nested && Fits(FB.EndVector(State(), len))
      modifies this, buf, buf.buf
      ensures Valid() && (buf.buf == old(buf.buf) || fresh(buf.buf))
      ensures State() == FB.EndVector(old(State()), len) && off == |State().data|
    {
      nested := false;
      off := PushElement(len, 4);
    }

    method CreateVector(w: nat, xs: seq<nat>) returns (off: nat)
      requires Valid() && NotNested() && IsWidth(w) && Fits(FB.CreateVector(State(), w, xs))
      modifies this, buf, buf.buf
      ensures Valid() && (buf.buf == old(buf.buf) || fresh(buf.buf))
      ensures State() == FB.CreateVector(old(State()), w, xs) && off == |State().data|
    {
      hide Encode;
      hide VTableFits;
      hide ScratchBytes;
      hide FB.StartVector;
      hide FB.EndVector;
      hide FB.CreateVector;
      VectorSteps(State(), w, xs);
      StartScalars(|xs|, w);
      if xs != [] {
        PushBytes(Encode(w, xs));
      }
      off := EndVector(|xs|);
    }

    /** Offsets are pushed from the last to the first, each turned into a distance when it is its turn. */
    method CreateOffsets(offs: seq<nat>) returns (off: nat)
      requires Valid() && NotNested()
      requires forall i | 0 <= i < |offs| :: CanReferTo(State(), offs[i])
      requires FB.OffsetsIn(State(), offs)
      requires Fits(FB.CreateOffsets(State(), offs))
      modifies this, buf, buf.buf
      ensures Valid() && (buf.buf == old(buf.buf) || fresh(buf.buf))
      ensures State() == FB.CreateOffsets(old(State()), offs) && off == |State().data|
    {
      hide VTableFits;
      hide ScratchBytes;
      hide FB.StartVector;
      hide FB.EndVector;
      hide FB.CreateOffsets;
      hide FB.PushOffset;
      hide FB.PushOffsets;
      ghost var s := FB.StartVector(State(), |offs|, 4);
      OffsetsSteps(State(), offs);
      StartScalars(|offs|, 4);
      var i := |offs|;
      assert offs[i..] == [];
      NoOffsets(s, offs[i..]);
      while i > 0
        invariant i <= |offs| && Valid() && (buf.buf == old(buf.buf) || fresh(buf.buf))
        invariant FB.OffsetsIn(s, offs[i..]) && State() == FB.PushOffsets(s, offs[i..])
      {
        i := i - 1;
        assert offs[i..][1..] == offs[i + 1..] && offs[i..][0] == offs[i];
        OffsetStep(s, offs, i);
        PushOffset(offs[i]);
      }
      assert offs[0..] == offs;
      off := EndVector(|offs|);
    }

    method Finish(root: nat, ident: seq<Byte>, sizePrefix: bool)
      requires Valid() && NotNested() && IsAlign(minalign) && CanReferTo(State(), root)
      requires |ident| == 0 || (|ident| == 4 && forall i | 0 <= i < 4 :: ident[i] != 0)
      requires Fits(FB.Finish(State(), root, ident, sizePrefix))
      modifies this, buf, buf.buf
      ensures Valid() && (buf.buf == old(buf.buf) || fresh(buf.buf))
      ensures State() == FB.Finish(old(State()), root, ident, sizePrefix)
    {
      hide VTableFits;
      hide ScratchBytes;
      hide FB.PreAlign;
      hide FB.PushElement;
      hide FB.PushOffset;
      hide FB.Finish;
      FinishSteps(State(), root, ident, sizePrefix);
      ForgetVTables();
      PreAlign((if sizePrefix then 4 else 0) + 4 + |ident|, minalign);
      if ident != [] {
        PushBytes(ident);
      }
      PushOffset(root);
      if sizePrefix {
        var _ := PushElement(buf.size, 4);
      }
      Close();
    }

    method ForgetVTables()
      requires Valid() && NotNested()
      modifies this, buf
      ensures Valid() && buf.buf == old(buf.buf)
      ensures State() == old(State()).(vtables := [])
    {
      buf.ClearScratch();
      vtables := [];
    }

    method Close()
      requires Valid()
      modifies `finished
      ensures Valid() && State() == old(State()).(finished := true)
    {
      finished := true;
    }
  }

  lemma GrownFits(pre: seq<Byte>, d: seq<Byte>, vtables: seq<nat>)
    requires forall i | 0 <= i < |vtables| :: VTableFits(d, vtables[i])
    ensures forall i | 0 <= i < |vtables| :: VTableFits(pre + d, vtables[i])
  {
    hide VTableFits;
    hide VTableBytes;
    ExtendsPush(pre, d);
    forall i | 0 <= i < |vtables| ensures VTableFits(pre + d, vtables[i]) {
      VTableBytesExtends(pre + d, d, vtables[i]);
    }
  }

  lemma StringKeeps(s: FB.Builder, chars: seq<Byte>)
    requires Fits(FB.CreateString(s, chars))
    ensures Extends(FB.CreateString(s, chars).data, s.data)
    ensures var r := FB.CreateString(s, chars); r == s.(data := r.data, minalign := r.minalign)
  {
    StringHolds(s, chars);
  }

  /** A shared string from the builder `r` that has the string written. */
  lemma SharedIs(s: FB.Builder, chars: seq<Byte>, r: FB.Builder)
    requires r == FB.CreateString(s, chars) && r.pool == s.pool
    ensures FB.CreateSharedString(s, chars) ==
      match FB.FindString(r.data, r.pool, chars)
      case Some(known) => (r.(data := s.data), known)
      case None => (r.(pool := r.pool + [|r.data|]), |r.data|)
  {
    hide FB.CreateString;
    hide FB.FindString;
  }

  lemma VectorSteps(s: FB.Builder, w: nat, xs: seq<nat>)
    requires IsWidth(w) && Fits(FB.CreateVector(s, w, xs))
    ensures var s1 := FB.StartVector(s, |xs|, w);
      var s2 := FB.Push(s1, Encode(w, xs));
      && Fits(s1) && s1.nested && Fits(s2) && s2.nested && Fits(FB.EndVector(s2, |xs|))
      && (xs == [] ==> s2 == s1)
      && FB.CreateVector(s, w, xs) == FB.EndVector(s2, |xs|)
  {
    StartVectorNested(s, |xs|, w);
    hide Encode;
    hide FB.StartVector;
    hide FB.EndVector;
    var s1 := FB.StartVector(s, |xs|, w);
    if xs == [] {
      assert Encode(w, xs) + s1.data == s1.data;
    }
    EndVectorGrows(FB.Push(s1, Encode(w, xs)), |xs|);
  }

  lemma StartVectorNested(s: FB.Builder, len: nat, w: nat)
    requires IsWidth(w)
    ensures FB.StartVector(s, len, w).nested
  {
  }

  lemma EndVectorGrows(s: FB.Builder, len: nat)
    ensures |FB.EndVector(s, len).data| >= |s.data|
  {
  }

  lemma OffsetsSteps(s: FB.Builder, offs: seq<nat>)
    requires FB.OffsetsIn(s, offs) && Fits(FB.CreateOffsets(s, offs))
    ensures var s1 := FB.StartVector(s, |offs|, 4);
      && Fits(s1) && s1.nested && FB.OffsetsIn(s1, offs) && |s.data| <= |s1.data|
      && Fits(FB.PushOffsets(s1, offs)) && FB.PushOffsets(s1, offs).nested
      && FB.CreateOffsets(s, offs) == FB.EndVector(FB.PushOffsets(s1, offs), |offs|)
  {
    hide FB.PushOffset;
    hide FB.EndVector;
    hide Scale;
    StartVectorNested(s, |offs|, 4);
    StartVectorExtends(s, |offs|, 4);
    hide FB.StartVector;
    var s1 := FB.StartVector(s, |offs|, 4);
    EndVectorGrows(FB.PushOffsets(s1, offs), |offs|);
    PushOffsetsKeeps(s1, offs);
  }

  lemma NoOffsets(s: FB.Builder, offs: seq<nat>)
    requires offs == []
    ensures FB.OffsetsIn(s, offs) && FB.PushOffsets(s, offs) == s
  {
  }

  /** The offset with number `i` comes on top of those behind it. */
  lemma OffsetStep(s: FB.Builder, offs: seq<nat>, i: nat)
    requires i < |offs| && FB.OffsetsIn(s, offs) && Fits(FB.PushOffsets(s, offs))
    requires forall k | 0 <= k < |offs| :: offs[k] > 0
    ensures FB.OffsetsIn(s, offs[i + 1..]) && FB.OffsetsIn(s, offs[i..])
    ensures var s1 := FB.PushOffsets(s, offs[i + 1..]);
      && 0 < offs[i] <= |s1.data| && Fits(FB.PushOffset(s1, offs[i]))
      && FB.PushOffsets(s, offs[i..]) == FB.PushOffset(s1, offs[i])
  {
    hide FB.PushOffset;
    PushOffsetsTail(s, offs, i);
    PushOffsetsTail(s, offs, i + 1);
    assert offs[i..][1..] == offs[i + 1..];
  }

  lemma FinishSteps(s: FB.Builder, root: nat, ident: seq<Byte>, sizePrefix: bool)
    requires CanReferTo(s, root) && IsAlign(s.minalign) && Fits(FB.Finish(s, root, ident, sizePrefix))
    ensures var s1 := FB.PreAlign(s.(vtables := []), (if sizePrefix then 4 else 0) + 4 + |ident|, s.minalign);
      var s2 := FB.Push(s1, ident);
      var s3 := FB.PushOffset(s2, root);
      var s4 := if sizePrefix then FB.PushElement(s3, |s3.data|, 4) else s3;
      && Fits(s1) && Fits(s2) && root <= |s2.data| && Fits(s3) && Fits(s4)
      && (ident == [] ==> s2 == s1)
      && FB.Finish(s, root, ident, sizePrefix) == s4.(finished := true)
  {
    hide LE;
    hide FB.PushOffset;
    hide PaddingBytes;
    var s1 := FB.PreAlign(s.(vtables := []), (if sizePrefix then 4 else 0) + 4 + |ident|, s.minalign);
    if ident == [] {
      assert ident + s1.data == s1.data;
    }
    PushOffsetLonger(FB.Push(s1, ident), root);
  }

  /** Pushing the last offsets first leaves a buffer no longer than pushing them all. */
  lemma {:induction false} PushOffsetsTail(s: FB.Builder, offs: seq<nat>, i: nat)
    requires FB.OffsetsIn(s, offs) && i <= |offs|
    ensures FB.OffsetsIn(s, offs[i..])
    ensures |s.data| <= |FB.PushOffsets(s, offs[i..]).data| <= |FB.PushOffsets(s, offs).data|
    decreases |offs|
  {
    hide FB.PushOffset;
    if i > 0 {
      assert offs[1..][i - 1..] == offs[i..];
      PushOffsetsTail(s, offs[1..], i - 1);
      PushOffsetLonger(FB.PushOffsets(s, offs[1..]), offs[0]);
    } else {
      assert offs[0..] == offs;
    }
  }

  lemma PushOffsetLonger(s: FB.Builder, off: nat)
    requires off <= |s.data|
    ensures |FB.PushOffset(s, off).data| >= |s.data|
  {
  }

  /** Only the buffer and its alignment change. */
  lemma {:induction false} PushOffsetsKeeps(s: FB.Builder, offs: seq<nat>)
    requires FB.OffsetsIn(s, offs)
    ensures FB.PushOffsets(s, offs).nested == s.nested
    decreases |offs|
  {
    if offs != [] {
      PushOffsetsKeeps(s, offs[1..]);
    }
  }

  lemma ScratchAddField(vtables: seq<nat>, fields: seq<FB.FieldLoc>, f: FB.FieldLoc)
    ensures ScratchBytes(vtables, fields + [f]) == ScratchBytes(vtables, fields) + FieldLocBytes(f)
  {
    hide Encode;
    hide FieldLocBytes;
    assert (fields + [f])[..|fields|] == fields;
    Assoc(Encode(4, vtables), FieldsBytes(fields), FieldLocBytes(f));
  }

  lemma ScratchAddVTable(vtables: seq<nat>, v: nat)
    ensures ScratchBytes(vtables + [v], []) == ScratchBytes(vtables, []) + LE(v, 4)
  {
    hide Encode;
    hide LE;
    EncodeAppend(vtables, v);
    assert FieldsBytes([]) == [];
  }

  lemma ScratchSplit(vtables: seq<nat>, fields: seq<FB.FieldLoc>)
    ensures ScratchBytes(vtables, fields)[..4 * |vtables|] == ScratchBytes(vtables, [])
  {
    hide Encode;
  }

  lemma ScratchFieldAt(vtables: seq<nat>, fields: seq<FB.FieldLoc>, i: nat)
    requires i < |fields|
    ensures var k := 4 * |vtables| + FIELD_LOC_SIZE * i;
      ScratchBytes(vtables, fields)[k..k + FIELD_LOC_SIZE] == FieldLocBytes(fields[i])
  {
    hide Encode;
    hide FieldsBytes;
    hide FieldLocBytes;
    FieldsBytesAt(fields, i);
    SliceBehind(Encode(4, vtables), FieldsBytes(fields), 8 * i, 8);
  }

  lemma FrontSlices(b: seq<Byte>, scratch: nat, k: nat)
    requires k + 8 <= scratch <= |b|
    ensures b[k..k + 4] == b[..scratch][k..k + 8][..4]
    ensures b[k + 4..k + 6] == b[..scratch][k..k + 8][4..6]
  {
    var loc := b[..scratch][k..k + 8];
    assert forall i | 0 <= i < 8 :: loc[i] == b[k + i];
    assert loc[..4] == b[k..k + 4] && loc[4..6] == b[k + 4..k + 6];
  }

  lemma FieldLocRead(f: FB.FieldLoc)
    requires f.id < 0x1_0000 && f.off < 0x1_0000_0000
    ensures Val(FieldLocBytes(f)[..4]) == f.off && Val(FieldLocBytes(f)[4..6]) == f.id
  {
    hide LE;
    Ranges();
    ValOfLE(f.off, 4);
    ValOfLE(f.id, 2);
    assert FieldLocBytes(f)[..4] == LE(f.off, 4) && FieldLocBytes(f)[4..6] == LE(f.id, 2);
  }

  /** The number `i` of the vtables on the scratch stack. */
  lemma ScratchVTableAt(vtables: seq<nat>, fields: seq<FB.FieldLoc>, i: nat, d: seq<Byte>)
    requires i < |vtables| && |d| < MAX_BUFFER_SIZE && VTableFits(d, vtables[i])
    ensures Val(ScratchBytes(vtables, fields)[4 * i..4 * i + 4]) == vtables[i] <= |d|
  {
    hide Encode;
    hide LE;
    Ranges();
    EncodeAt(4, vtables, i);
    ValOfLE(vtables[i], 4);
    var e := Encode(4, vtables);
    assert (e + FieldsBytes(fields))[4 * i..4 * i + 4] == e[4 * i..4 * i + 4];
  }

  lemma WriteAtFront(front: seq<Byte>, d: seq<Byte>, at: nat, bytes: seq<Byte>)
    requires at + |bytes| <= |front|
    ensures FB.WriteAt(front + d, at, bytes) == FB.WriteAt(front, at, bytes) + d
  {
  }

  lemma HeadWritten(size: nat, tableSize: nat)
    requires size >= 4
    ensures FB.WriteAt(FB.WriteAt(Zeros(size), 2, LE(tableSize, 2)), 0, LE(size, 2)) == FB.EmptyVTable(size, tableSize)
  {
    hide LE;
  }

  lemma NoFields(empty: seq<Byte>, fields: seq<FB.FieldLoc>, t: nat)
    ensures FB.FieldsFit(fields[..0], |empty|, t) && FB.FillVTable(empty, fields[..0], t) == empty
  {
  }

  /** One more field filled in; its entry was still zero, which is what the builder asserts. */
  lemma FieldFilled(empty: seq<Byte>, fields: seq<FB.FieldLoc>, size: nat, tableSize: nat, t: nat, i: nat)
    requires size >= 4 && empty == FB.EmptyVTable(size, tableSize)
    requires i < |fields| && FB.FieldsFit(fields, size, t) && FB.DistinctIds(fields)
    ensures FB.FieldsFit(fields[..i], size, t) && FB.FieldsFit(fields[..i + 1], size, t)
    ensures fields[i].id + 2 <= size && fields[i].off <= t
    ensures var f := fields[i];
      && FB.FillVTable(empty, fields[..i], t)[f.id..f.id + 2] == LE(0, 2)
      && FB.FillVTable(empty, fields[..i + 1], t) ==
        FB.WriteAt(FB.FillVTable(empty, fields[..i], t), f.id, LE(t - f.off, 2))
  {
    hide LE;
    hide FB.EmptyVTable;
    var f := fields[i];
    assert fields[..i + 1][..i] == fields[..i];
    FillVTableAt(empty, fields[..i], t, f.id);
    LocIn(fields[..i], f.id);
    EmptyVTableAt(size, tableSize, f.id);
  }

  lemma PlaceFilled(front: seq<Byte>, place: seq<Byte>, bytes: seq<Byte>, body: seq<Byte>)
    requires |place| == |bytes|
    ensures FB.WriteAt(front + (place + body), |front|, bytes) == front + (bytes + body)
  {
  }

  /** Comparing the sizes first and then that many bytes decides whether the vtables are the same. */
  lemma VTableCompared(d: seq<Byte>, vt: seq<Byte>, off: nat)
    requires VTableFits(d, off) && 2 <= |vt| < 0x1_0000 && vt[..2] == LE(|vt|, 2)
    ensures 2 <= off <= |d| && (Val(Part(d, |d| - off, 2)) == |vt| ==> |vt| <= off)
    ensures FB.SameVTable(d, off, vt) <==>
      Val(Part(d, |d| - off, 2)) == |vt| && Part(d, |d| - off, |vt|) == vt
  {
    hide *;
    Ranges();
    ValOfLE(|vt|, 2);
    FitsRead(d, off);
    SameIs(d, vt, off);
    if |vt| <= off {
      PartHead(d, |d| - off, |vt|);
    }
  }

  lemma FitsRead(d: seq<Byte>, off: nat)
    requires VTableFits(d, off)
    ensures 2 <= off <= |d| && Val(Part(d, |d| - off, 2)) <= off
  {
  }

  lemma SameIs(d: seq<Byte>, vt: seq<Byte>, off: nat)
    requires off <= |d|
    ensures FB.SameVTable(d, off, vt) <==> |vt| <= off && Part(d, |d| - off, |vt|) == vt
  {
  }

  lemma PartHead(d: seq<Byte>, p: nat, n: nat)
    requires 2 <= n && p + n <= |d|
    ensures Part(d, p, n)[..2] == Part(d, p, 2)
  {
  }

  /** The same in the buffer that has the new vtable at its front. */
  lemma FrontCompared(vt: seq<Byte>, d: seq<Byte>, off: nat)
    requires VTableFits(d, off) && 2 <= |vt| < 0x1_0000 && vt[..2] == LE(|vt|, 2)
    ensures var b := vt + d;
      && 2 <= off <= |d| && (Val(Part(b, |b| - off, 2)) == |vt| ==> |vt| <= off)
      && (FB.SameVTable(d, off, vt) <==>
        Val(Part(b, |b| - off, 2)) == |vt| && Part(b, |b| - off, |vt|) == Part(b, 0, |vt|))
  {
    hide *;
    VTableCompared(d, vt, off);
    PartFront(vt, d);
    PartBehind(vt, d, |d| - off, 2);
    if |vt| <= off {
      PartBehind(vt, d, |d| - off, |vt|);
    }
  }

  lemma PartFront(s: seq<Byte>, t: seq<Byte>)
    ensures Part(s + t, 0, |s|) == s
  {
  }

  lemma PartBehind(s: seq<Byte>, t: seq<Byte>, p: nat, n: nat)
    requires p + n <= |t|
    ensures Part(s + t, |s| + p, n) == Part(t, p, n)
  {
  }

  lemma FindStep(d: seq<Byte>, vtables: seq<nat>, i: nat, vt: seq<Byte>)
    requires i < |vtables|
    ensures FB.FindVTable(d, vtables[i..], vt) ==
      if FB.SameVTable(d, vtables[i], vt) then Some(vtables[i]) else FB.FindVTable(d, vtables[i + 1..], vt)
  {
    hide FB.SameVTable;
    assert vtables[i..][1..] == vtables[i + 1..];
  }

  lemma FindNone(d: seq<Byte>, vtables: seq<nat>, vt: seq<Byte>)
    requires vtables == []
    ensures FB.FindVTable(d, vtables, vt) == None
  {
  }

  lemma OpenedIs(s: FB.Builder)
    ensures FB.Opened(s).data == LE(0, 4) + FB.TableBody(s) && Extends(FB.TableBody(s), s.data)
    ensures FB.Opened(s) == FB.PushElement(s, 0, 4)
    ensures FB.Opened(s) == s.(data := FB.Opened(s).data, minalign := FB.Opened(s).minalign)
    ensures |FB.Opened(s).data| >= |s.data| + 4
  {
    hide LE;
    assert FB.TableBody(s) == Zeros(PaddingBytes(|s.data|, 4)) + s.data;
  }

  /** What the end of a table comes to, with the vtable found or new. */
  lemma ClosedIs(s: FB.Builder, start: nat)
    requires FB.CanEndTable(s, start)
    ensures var t, vt, body := FB.TableOffset(s), FB.NewVTable(s, start), FB.TableBody(s);
      var s2 := s.(minalign := FB.Opened(s).minalign, fields := [], maxVoffset := 0, nested := false);
      FB.EndTable(s, start) ==
        match FB.KnownVTable(s, start)
        case Some(known) => s2.(data := SignedLE(known - t) + body)
        case None => s2.(data := vt + (SignedLE(|vt|) + body), vtables := s.vtables + [t + |vt|])
  {
    OpenedIs(s);
    hide FB.NewVTable;
    hide SignedLE;
    hide FB.Opened;
    hide FB.TableBody;
    hide FB.KnownVTable;
  }

  lemma EmptyFront(d: seq<Byte>)
    ensures [] + d == d
  {
  }

  lemma OpenedFits(s: FB.Builder)
    requires forall i | 0 <= i < |s.vtables| :: VTableFits(s.data, s.vtables[i])
    ensures forall i | 0 <= i < |s.vtables| :: VTableFits(FB.Opened(s).data, s.vtables[i])
  {
    hide VTableFits;
    hide LE;
    OpenedIs(s);
    ExtendsPush(LE(0, 4), FB.TableBody(s));
    ExtendsTrans(FB.Opened(s).data, FB.TableBody(s), s.data);
    var pre := ExtendsSplit(FB.Opened(s).data, s.data);
    GrownFits(pre, s.data, s.vtables);
  }

  lemma NewVTableHead(s: FB.Builder, start: nat)
    requires FB.CanEndTable(s, start)
    ensures var vt := FB.NewVTable(s, start);
      var size := FB.VTableSize(s.maxVoffset);
      && |vt| == size < 0x1_0000 && vt[..2] == LE(size, 2)
      && size == Max((s.maxVoffset + 2) % 0x1_0000, 4) && FB.FieldsFit(s.fields, size, FB.TableOffset(s))
      && vt == FB.FillVTable(FB.EmptyVTable(size, FB.TableOffset(s) - start), s.fields, FB.TableOffset(s))
  {
    hide LE;
    var size, t := FB.VTableSize(s.maxVoffset), FB.TableOffset(s);
    FillVTableAt(FB.EmptyVTable(size, t - start), s.fields, t, 0);
    LocIn(s.fields, 0);
    EmptyVTableAt(size, t - start, 0);
  }

  lemma NewFits(vt: seq<Byte>, d: seq<Byte>)
    requires 2 <= |vt| < 0x1_0000 && vt[..2] == LE(|vt|, 2)
    ensures VTableFits(vt + d, |vt| + |d|)
  {
    hide LE;
    Ranges();
    ValOfLE(|vt|, 2);
    assert (vt + d)[0..2] == vt[..2];
  }

  /** Filling in the distance keeps every vtable, the new one included. */
  lemma DistanceFits(s: FB.Builder, vt: seq<Byte>, vtUse: nat)
    requires forall i | 0 <= i < |s.vtables| :: VTableFits(s.data, s.vtables[i])
    requires 2 <= |vt| < 0x1_0000 && vt[..2] == LE(|vt|, 2)
    ensures var rest := SignedLE(vtUse - FB.TableOffset(s)) + FB.TableBody(s);
      && (forall i | 0 <= i < |s.vtables| :: VTableFits(rest, s.vtables[i]))
      && (forall i | 0 <= i < |s.vtables| :: VTableFits([] + rest, s.vtables[i]))
      && (forall i | 0 <= i < |s.vtables| :: VTableFits(vt + rest, s.vtables[i]))
      && VTableFits(vt + rest, |vt| + FB.TableOffset(s))
      && (forall i | 0 <= i < |s.vtables| :: s.vtables[i] < FB.TableOffset(s))
  {
    hide VTableFits;
    hide LE;
    hide SignedLE;
    OpenedIs(s);
    var body := FB.TableBody(s);
    var pre := ExtendsSplit(body, s.data);
    GrownFits(pre, s.data, s.vtables);
    var rest := SignedLE(vtUse - FB.TableOffset(s)) + body;
    GrownFits(SignedLE(vtUse - FB.TableOffset(s)), body, s.vtables);
    GrownFits([], rest, s.vtables);
    GrownFits(vt, rest, s.vtables);
    NewFits(vt, rest);
    forall i | 0 <= i < |s.vtables| ensures s.vtables[i] < FB.TableOffset(s) {
      FitsInside(s.data, s.vtables[i]);
    }
  }

  lemma FitsInside(d: seq<Byte>, v: nat)
    requires VTableFits(d, v)
    ensures v <= |d|
  {
  }
}
