/** No value is wider than it has to be: what a run leaves on the stack, and what a vector is given. */
module FlexNarrow {
  import opened Bytes
  import opened FlexReader
  import opened FlexBuilder
  import opened FlexMaps
  import opened FlexRun

  /** The least width for a number, or for the length of a string or blob; keys have none and count as one byte. */
  predicate Narrow(v: Value, t: Tree) {
    match t
    case TNull => v.width == 1
    case TBool(_) => v.width == 1
    case TInt(i) => v.width == WidthI(i)
    case TUInt(u) => v.width == WidthU(u)
    case TIndirectInt(i) => v.width == WidthI(i)
    case TIndirectUInt(u) => v.width == WidthU(u)
    case TKey(_) => v.width == 1
    case TString(chars) => v.width == WidthU(|chars|)
    case TBlob(bytes) => v.width == WidthU(|bytes|)
    case _ => true
  }

  predicate AllNarrow(vs: seq<Value>, ts: seq<Tree>) {
    |vs| == |ts| && forall i | 0 <= i < |vs| :: Narrow(vs[i], ts[i])
  }

  lemma NarrowStep(vs: seq<Value>, ts: seq<Tree>, n: nat, v: Value, t: Tree)
    requires AllNarrow(vs, ts) && n <= |ts| && Narrow(v, t)
    ensures AllNarrow(vs[..n] + [v], ts[..n] + [t])
  {
    hide Narrow;
  }

  lemma Whole<T>(s: seq<T>)
    ensures s[..|s|] == s
  {
  }

  predicate Ends(op: Op) {
    op.EndsVector? || op.EndsFixed? || op.EndsMap?
  }

  lemma StringTop(s: Builder, chars: seq<Byte>)
    ensures var r := String(s, chars).stack;
      |r| == |s.stack| + 1 && r[..|s.stack|] == s.stack && r[|s.stack|].width == WidthU(|chars|)
  {
    hide WidthU;
    hide LE;
    hide FindString;
    hide Pad;
  }

  lemma KeyTop(s: Builder, chars: seq<Byte>)
    ensures var r := Key(s, chars).stack;
      |r| == |s.stack| + 1 && r[..|s.stack|] == s.stack && r[|s.stack|].width == 1
  {
    hide FindKey;
    hide Chars;
  }

  lemma BlobTop(s: Builder, bytes: seq<Byte>)
    ensures var r := Blob(s, bytes).stack;
      |r| == |s.stack| + 1 && r[..|s.stack|] == s.stack && r[|s.stack|].width == WidthU(|bytes|)
  {
    hide WidthU;
    hide LE;
    hide Pad;
  }

  lemma AppendNarrow(s: Builder, op: Op)
    requires OpOk(op, []) && IsAppend(op)
    ensures var r := Appended(s, op).stack;
      |r| == |s.stack| + 1 && r[..|s.stack|] == s.stack && Narrow(r[|s.stack|], AppendedTree(op))
  {
    hide WidthU;
    hide WidthI;
    hide String;
    hide Key;
    hide Blob;
    hide LE;
    hide IntBytes;
    hide WriteScalars;
    hide ScalarOk;
    hide Pad;
    match op
    case AddString(chars) => StringTop(s, chars);
    case AddKey(chars) => KeyTop(s, chars);
    case AddBlob(bytes) => BlobTop(s, bytes);
    case _ =>
  }

  lemma EndKeeps(s: Builder, ts: seq<Tree>, op: Op) returns (v: Value, t: Tree)
    requires Ends(op) && OpOk(op, ts) && Apply(s, op).Done?
    ensures op.start <= |ts| && op.start <= |s.stack|
    ensures Apply(s, op).s.stack == s.stack[..op.start] + [v]
    ensures Meaning(op, ts) == ts[..op.start] + [t] && Narrow(v, t)
  {
    hide CreateVector;
    hide CreateFixed;
    hide CreateMap;
    hide VectorAsserts;
    hide MapAsserts;
    hide SortEntries;
    hide Entries;
    hide IsDict;
    hide SameType;
    hide ValuesOk;
    hide SameKinds;
    hide PairsOk;
    hide Sorted;
    hide Duplicates;
    hide CanPack;
    v, t := Apply(s, op).s.stack[op.start], Meaning(op, ts)[op.start];
  }

  lemma EndNarrow(s: Builder, ts: seq<Tree>, op: Op)
    requires AllNarrow(s.stack, ts) && OpOk(op, ts) && Apply(s, op).Done? && Ends(op)
    ensures AllNarrow(Apply(s, op).s.stack, Meaning(op, ts))
  {
    var start := op.start;
    hide *;
    var v, t := EndKeeps(s, ts, op);
    NarrowStep(s.stack, ts, start, v, t);
  }

  lemma AppendedNarrow(s: Builder, ts: seq<Tree>, op: Op)
    requires AllNarrow(s.stack, ts) && OpOk(op, ts) && Apply(s, op).Done? && IsAppend(op)
    ensures AllNarrow(Apply(s, op).s.stack, Meaning(op, ts))
  {
    hide *;
    AppendIs(s, ts, op);
    AppendNarrow(s, op);
    CheckedIs(Appended(s, op));
    Split(Appended(s, op).stack, |s.stack|);
    AllNarrowLength(s.stack, ts);
    Whole(ts);
    Whole(s.stack);
    NarrowStep(s.stack, ts, |ts|, Appended(s, op).stack[|s.stack|], AppendedTree(op));
  }

  lemma InlineNarrow(s: Builder, ts: seq<Tree>, op: Op)
    requires AllNarrow(s.stack, ts) && OpOk(op, ts)
    requires op.AddNull? || op.AddBool? || op.AddInt? || op.AddUInt?
    ensures Apply(s, op).Done? && AllNarrow(Apply(s, op).s.stack, Meaning(op, ts))
  {
    hide WidthU;
    hide WidthI;
  }

  /** One call. */
  lemma ApplyNarrow(s: Builder, ts: seq<Tree>, op: Op)
    requires AllNarrow(s.stack, ts) && OpOk(op, ts) && Apply(s, op).Done?
    ensures AllNarrow(Apply(s, op).s.stack, Meaning(op, ts))
  {
    assert Ends(op) <==> op.EndsVector? || op.EndsFixed? || op.EndsMap?;
    hide *;
    Kinds(op);
    if op.AddNull? || op.AddBool? || op.AddInt? || op.AddUInt? {
      InlineNarrow(s, ts, op);
    } else if IsAppend(op) {
      AppendedNarrow(s, ts, op);
    } else {
      EndNarrow(s, ts, op);
    }
  }

  lemma AllNarrowLength(vs: seq<Value>, ts: seq<Tree>)
    requires AllNarrow(vs, ts)
    ensures |vs| == |ts|
  {
  }

  lemma Split<T>(s: seq<T>, n: nat)
    requires |s| == n + 1
    ensures s == s[..n] + [s[n]]
  {
  }

  /** A whole run. */
  lemma {:induction false} RunNarrow(ops: seq<Op>, flags: Flags)
    requires OpsOk(ops) && Run(ops, flags).Done?
    ensures AllNarrow(Run(ops, flags).s.stack, Trees(ops))
    decreases |ops|
  {
    hide Apply;
    hide Meaning;
    hide OpOk;
    hide Narrow;
    if ops != [] {
      var n := |ops| - 1;
      RunNarrow(ops[..n], flags);
      ApplyNarrow(Run(ops[..n], flags).s, Trees(ops[..n]), ops[n]);
    }
  }

  /** A vector is given a width that something in it needs, or else the least one asked for. */
  lemma VectorNarrow(b: seq<Byte>, vs: seq<Value>, step: nat, keys: Option<Value>, minWidth: nat)
    requires ValuesOk(vs, |b|) && (keys.Some? ==> ValueOk(keys.value, |b|)) && IsWidth(minWidth)
    ensures var w := VectorWidth(b, vs, step, keys, minWidth);
      || w == minWidth || w == WidthU(|vs|) || (keys.Some? && w == ElemWidth(keys.value, |b|, 0))
      || exists k | 0 <= k < |vs| :: w == ElemWidth(vs[k], |b|, Index(step, k, keys))
  {
    hide ElemWidth;
    hide WidthU;
    var w0 := Max(minWidth, WidthU(|vs|));
    var w1 := if keys.Some? then Max(w0, ElemWidth(keys.value, |b|, 0)) else w0;
    ElemsNarrow(vs, |b|, step, Prefix(keys), w1);
    assert forall k: nat | k < |vs| :: Index(step, k, keys) == step * k + Prefix(keys);
  }

  lemma {:induction false} ElemsNarrow(vs: seq<Value>, size: nat, step: nat, prefix: nat, w: nat)
    requires ValuesOk(vs, size) && IsWidth(w)
    ensures var r := ElemsWidth(vs, size, step, prefix, w);
      r == w || exists k: nat | k < |vs| :: r == ElemWidth(vs[k], size, step * k + prefix)
    decreases |vs|
  {
    hide ElemWidth;
    if vs != [] {
      var n := |vs| - 1;
      ElemsNarrow(vs[..n], size, step, prefix, w);
      var r := ElemsWidth(vs[..n], size, step, prefix, w);
      if r != w && ElemsWidth(vs, size, step, prefix, w) == r {
        var k: nat :| k < n && r == ElemWidth(vs[..n][k], size, step * k + prefix);
        assert r == ElemWidth(vs[k], size, step * k + prefix);
      } else {
        assert ElemsWidth(vs, size, step, prefix, w) == r
          || ElemsWidth(vs, size, step, prefix, w) == ElemWidth(vs[n], size, step * n + prefix);
      }
    }
  }

  /** A position that is a multiple of the width, reached from `size` without a byte more than that takes. */
  predicate PlacedAt(p: int, size: nat, w: nat)
    requires IsWidth(w)
  {
    Rem(p, w) == 0 && size <= p < size + w
  }

  lemma PadPlaces(b: seq<Byte>, w: nat)
    requires IsWidth(w)
    ensures PlacedAt(|Pad(b, w)|, |b|, w)
    ensures forall k: nat | k <= 3 :: Rem(|Pad(b, w)| + Scale(k, w), w) == 0
  {
    hide PaddingBytes;
    assert Rem(|Pad(b, w)|, w) == 0;
    if w == 1 {} else if w == 2 {} else if w == 4 {} else {}
  }

  /** An indirect number stands at a multiple of its width. */
  lemma IndirectPlaced(s: Builder, i: int, kind: nat, w: nat)
    requires IsWidth(w)
    ensures var r := PushIndirect(s, i, kind, w);
      var v := r.stack[|s.stack|];
      PlacedAt(v.u, |s.buf|, w) && |r.buf| == v.u + w
  {
    PadPlaces(s.buf, w);
    hide Pad;
    hide IntBytes;
    hide PlacedAt;
  }

  /** So do the lengths of strings and blobs, and with them the characters. */
  lemma BlobPlaced(s: Builder, bytes: seq<Byte>, trailing: seq<Byte>, kind: nat)
    ensures var r := CreateBlob(s, bytes, trailing, kind);
      var v, w := r.stack[|s.stack|], WidthU(|bytes|);
      && PlacedAt(v.u - w, |s.buf|, w) && Rem(v.u, w) == 0
      && |r.buf| == v.u + |bytes| + |trailing|
  {
    var w := WidthU(|bytes|);
    PadPlaces(s.buf, w);
    assert Scale(1, w) == w;
    hide Pad;
    hide LE;
    hide PlacedAt;
    hide WidthU;
  }

  /** And the first element of a vector, with its length and what a map has besides in front. */
  lemma VectorPlaced(
    b: seq<Byte>, vs: seq<Value>, step: nat, typed: bool, keys: Option<Value>, minWidth: nat)
    requires ValuesOk(vs, |b|) && IsWidth(minWidth) && CanPack(vs)
    requires keys.Some? ==> ValueOk(keys.value, |b|) && !IsInline(keys.value.kind)
    requires typed ==> SameKinds(vs)
    ensures var (r, v) := CreateVector(b, vs, step, typed, keys, minWidth);
      && IsWidth(v.width) && PlacedAt(v.u - Scale(Prefix(keys), v.width), |b|, v.width) && Rem(v.u, v.width) == 0
      && |r| == v.u + Scale(|vs|, v.width) + if typed then 0 else |vs|
  {
    var w := VectorWidth(b, vs, step, keys, minWidth);
    PadPlaces(b, w);
    assert Scale(1, w) == w && Scale(3, w) == 3 * w;
    hide VectorWidth;
    hide Pad;
    hide LE;
    hide PlacedAt;
    hide Scale;
    hide TypeBytes;
  }
}
