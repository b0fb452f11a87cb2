/** What sharing does: nothing a reader sees, and one offset for all equal keys and one for all equal strings. */
module FlexSharing {
  import opened Bytes
  import opened FlexReader
  import opened FlexBuilder
  import opened FlexValues
  import opened FlexVectors
  import opened FlexFixed
  import opened FlexMaps
  import opened FlexPools
  import opened FlexRun

  /** The value of a key or string is the offset that the pool has for its characters. */
  predicate FromPool(s: Builder, v: Value, t: Tree) {
    match t
    case TKey(chars) => s.flags.shareKeys ==> FindKey(s.buf, s.keyPool, chars) == Some(v.u)
    case TString(chars) => s.flags.shareStrings ==> StringFound(s.buf, s.stringPool, chars, v.u)
    case _ => true
  }

  ghost predicate Shared(s: Builder, ts: seq<Tree>) {
    && |s.stack| == |ts| && KeyPoolOk(s.buf, s.keyPool) && StringsDiffer(s.buf, s.stringPool)
    && forall i | 0 <= i < |ts| :: FromPool(s, s.stack[i], ts[i])
  }

  /** Buffer and pools have only been added to. */
  predicate Longer(r: Builder, s: Builder) {
    && |s.buf| <= |r.buf| && r.buf[..|s.buf|] == s.buf
    && s.keyPool <= r.keyPool && s.stringPool <= r.stringPool && r.flags == s.flags
  }

  lemma FromPoolLonger(r: Builder, s: Builder, v: Value, t: Tree)
    requires Longer(r, s) && KeyPoolOk(s.buf, s.keyPool) && FromPool(s, v, t)
    ensures FromPool(r, v, t)
  {
    hide KeyPooled;
    hide FindKey;
    hide StringFound;
    var more := Grown(r.buf, s.buf);
    var keys, strings := r.keyPool[|s.keyPool|..], r.stringPool[|s.stringPool|..];
    assert r.keyPool == s.keyPool + keys && r.stringPool == s.stringPool + strings;
    match t
    case TKey(chars) =>
      if s.flags.shareKeys {
        FindKeyStable(s.buf, more, s.keyPool, keys, chars);
      }
    case TString(chars) =>
      if s.flags.shareStrings {
        StringFoundAppend(s.buf, more, s.stringPool, strings, chars, v.u);
      }
    case _ =>
  }

  /** The stack kept up to `n`, with one more value on top of it. */
  lemma SharedStep(s: Builder, r: Builder, ts: seq<Tree>, n: nat, t: Tree)
    requires Shared(s, ts) && Longer(r, s) && n <= |ts|
    requires |r.stack| == n + 1 && r.stack[..n] == s.stack[..n]
    requires KeyPoolOk(r.buf, r.keyPool) && StringsDiffer(r.buf, r.stringPool) && FromPool(r, r.stack[n], t)
    ensures Shared(r, ts[..n] + [t])
  {
    hide KeyPoolOk;
    hide StringsDiffer;
    hide FromPool;
    forall i | 0 <= i < n ensures FromPool(r, r.stack[i], ts[i]) {
      assert r.stack[i] == r.stack[..n][i] == s.stack[i];
      FromPoolLonger(r, s, s.stack[i], ts[i]);
    }
  }

  /** One call keeps it. */
  lemma ApplyShared(s: Builder, ts: seq<Tree>, op: Op)
    requires Inv(s, ts) && Shared(s, ts) && OpOk(op, ts) && Apply(s, op).Done?
    ensures Shared(Apply(s, op).s, Meaning(op, ts))
  {
    var r := Apply(s, op).s;
    InvParts(s, ts);
    if op.AddKey? {
      KeyCall(s, ts, op.chars);
    } else if op.AddString? {
      StringCall(s, ts, op.chars);
    } else {
      OtherCall(s, ts, op);
    }
  }

  lemma WholeStack(ts: seq<Tree>)
    ensures ts[..|ts|] == ts
  {
  }

  lemma KeyCall(s: Builder, ts: seq<Tree>, chars: seq<Byte>)
    requires PoolsOk(s) && Shared(s, ts) && 0 !in chars
    ensures Shared(Key(s, chars), ts + [TKey(chars)])
  {
    var r := Key(s, chars);
    KeyHolds(s, chars);
    KeyLonger(s, chars);
    if s.flags.shareKeys {
      KeyShared(s, chars);
    }
    hide Key;
    hide Holds;
    hide StringPoolOk;
    hide KeyPoolOk;
    var more := Grown(r.buf, s.buf);
    StringsDifferAppend(s.buf, more, s.stringPool);
    WholeStack(ts);
    SharedStep(s, r, ts, |ts|, TKey(chars));
  }

  lemma KeyLonger(s: Builder, chars: seq<Byte>)
    ensures Longer(Key(s, chars), s) && Key(s, chars).stringPool == s.stringPool
  {
    hide FindKey;
    hide Chars;
  }

  lemma StringCall(s: Builder, ts: seq<Tree>, chars: seq<Byte>)
    requires PoolsOk(s) && Shared(s, ts) && |chars| < MAX_UINT64
    ensures Shared(String(s, chars), ts + [TString(chars)])
  {
    var r := String(s, chars);
    StringHolds(s, chars);
    StringLonger(s, chars);
    if s.flags.shareStrings {
      StringShared(s, chars);
    }
    hide String;
    hide Holds;
    hide StringPoolOk;
    hide KeyPoolOk;
    hide StringFound;
    var more := Grown(r.buf, s.buf);
    StringsDifferAppend(s.buf, more, s.stringPool);
    WholeStack(ts);
    SharedStep(s, r, ts, |ts|, TString(chars));
  }

  lemma StringLonger(s: Builder, chars: seq<Byte>)
    requires |chars| < MAX_UINT64
    ensures Longer(String(s, chars), s) && String(s, chars).keyPool == s.keyPool
    ensures !s.flags.shareStrings ==> String(s, chars).stringPool == s.stringPool
  {
    hide String;
    hide StringVal;
    hide WidthU;
    hide ReadLE;
    hide At;
    hide StringBytes;
    hide FindString;
    hide StringPooled;
    StringIs(s, chars);
    StringStored(s.buf, chars);
  }

  /** The other calls leave the pools alone and push neither a key nor a string. */
  lemma OtherCall(s: Builder, ts: seq<Tree>, op: Op)
    requires Inv(s, ts) && Shared(s, ts) && OpOk(op, ts) && Apply(s, op).Done? && !op.AddKey? && !op.AddString?
    ensures Shared(Apply(s, op).s, Meaning(op, ts))
  {
    var r := Apply(s, op).s;
    SharedLength(s, ts);
    ApplyInv(s, ts, op);
    var n, t := OtherShape(s, ts, op);
    InvKeys(r, Meaning(op, ts));
    hide Apply;
    hide Meaning;
    hide Inv;
    hide OpOk;
    hide StringPoolOk;
    hide KeyPoolOk;
    var more := Grown(r.buf, s.buf);
    StringsDifferAppend(s.buf, more, s.stringPool);
    SharedStep(s, r, ts, n, t);
  }

  lemma SharedLength(s: Builder, ts: seq<Tree>)
    requires Shared(s, ts)
    ensures |s.stack| == |ts|
  {
  }

  lemma InvKeys(s: Builder, ts: seq<Tree>)
    requires Inv(s, ts)
    ensures KeyPoolOk(s.buf, s.keyPool)
  {
  }

  lemma OtherShape(s: Builder, ts: seq<Tree>, op: Op) returns (n: nat, t: Tree)
    requires Inv(s, ts) && |s.stack| == |ts| && OpOk(op, ts) && Apply(s, op).Done? && !op.AddKey? && !op.AddString?
    ensures var r := Apply(s, op).s;
      && n <= |ts| && Meaning(op, ts) == ts[..n] + [t] && !t.TKey? && !t.TString?
      && |r.stack| == n + 1 && r.stack[..n] == s.stack[..n]
      && Longer(r, s) && r.keyPool == s.keyPool && r.stringPool == s.stringPool
  {
    hide *;
    WholeStack(ts);
    if op.EndsVector? || op.EndsFixed? || op.EndsMap? {
      n, t := EndShape(s, ts, op);
    } else {
      PlainLonger(s, ts, op);
      n, t := |ts|, Meaning(op, ts)[|ts|];
      assert Meaning(op, ts) == ts[..n] + [t];
    }
  }

  lemma EndShape(s: Builder, ts: seq<Tree>, op: Op) returns (n: nat, t: Tree)
    requires |s.stack| == |ts| && OpOk(op, ts) && Apply(s, op).Done?
    requires op.EndsVector? || op.EndsFixed? || op.EndsMap?
    ensures var r := Apply(s, op).s;
      && n <= |ts| && Meaning(op, ts) == ts[..n] + [t] && !t.TKey? && !t.TString?
      && |r.stack| == n + 1 && r.stack[..n] == s.stack[..n]
      && Longer(r, s) && r.keyPool == s.keyPool && r.stringPool == s.stringPool
  {
    hide VectorAsserts;
    hide MapAsserts;
    hide CreateVector;
    hide CreateFixed;
    hide CreateMap;
    hide Sorted;
    hide Duplicates;
    hide Entries;
    hide SortEntries;
    n := op.start;
    if op.EndsVector? {
      t := VectorTree(ts[op.start..], op.typed);
      VectorLonger(s, op.start, op.typed);
    } else if op.EndsFixed? {
      t := TFixed(KindOf(ts[op.start]), ts[op.start..]);
      FixedLonger(s, op.start);
    } else {
      t := TMap(SortEntries(Entries(ts[op.start..])));
      MapLonger(s, op.start);
    }
  }

  lemma VectorLonger(s: Builder, start: nat, typed: bool)
    requires CanEnd(s, start) && (typed ==> SameKinds(s.stack[start..]))
    ensures var r := EndVector(s, start, typed);
      Longer(r, s) && r.keyPool == s.keyPool && r.stringPool == s.stringPool
  {
    hide CreateVector;
    VectorExtends(s.buf, s.stack[start..], 1, typed, None, s.flags.minWidth);
  }

  lemma FixedLonger(s: Builder, start: nat)
    requires CanEnd(s, start) && CanFix(s.stack[start..])
    ensures var r := EndFixed(s, start);
      Longer(r, s) && r.keyPool == s.keyPool && r.stringPool == s.stringPool
  {
    hide CreateFixed;
    FixedExtends(s.buf, s.stack[start..], s.flags.minWidth);
  }

  lemma MapLonger(s: Builder, start: nat)
    requires CanEndMap(s, start)
    ensures var r := EndMap(s, start);
      Longer(r, s) && r.keyPool == s.keyPool && r.stringPool == s.stringPool
  {
    hide Sorted;
    hide CreateMap;
    hide Duplicates;
    CreateMapExtends(s.buf, Sorted(s.buf, Pairs(s.stack[start..])), s.flags.minWidth);
  }

  lemma CreateMapExtends(b: seq<Byte>, ps: seq<TwoValue>, minWidth: nat)
    requires PairsOk(ps, |b|) && IsWidth(minWidth)
    ensures var r := CreateMap(b, ps, minWidth).0; |b| <= |r| && r[..|b|] == b
  {
    hide CreateVector;
    KeyValuesSame(ps, |b|);
    CreateVectorKind(b, KeyValues(ps), minWidth);
    var (b1, keys) := CreateVector(b, KeyValues(ps), 2, true, None, minWidth);
    VectorExtends(b, KeyValues(ps), 2, true, None, minWidth);
    VectorExtends(b1, ValValues(ps), 2, false, Some(keys), minWidth);
    assert CreateMap(b, ps, minWidth).0[..|b|] == b1[..|b|];
  }

  lemma PlainLonger(s: Builder, ts: seq<Tree>, op: Op)
    requires OpOk(op, ts) && Apply(s, op).Done? && |s.stack| == |ts|
    requires !op.AddKey? && !op.AddString? && !op.EndsVector? && !op.EndsFixed? && !op.EndsMap?
    ensures var r := Apply(s, op).s;
      && Longer(r, s) && r.keyPool == s.keyPool && r.stringPool == s.stringPool
      && |r.stack| == |s.stack| + 1 && r.stack[..|s.stack|] == s.stack
      && Meaning(op, ts)[..|ts|] == ts && |Meaning(op, ts)| == |ts| + 1
      && !Meaning(op, ts)[|ts|].TKey? && !Meaning(op, ts)[|ts|].TString?
  {
    hide LE;
    hide WidthU;
    hide PaddingBytes;
    hide IntBytes;
    hide WriteScalars;
    hide ScalarOk;
    hide VectorAsserts;
    hide MapAsserts;
    hide CanEnd;
    hide CanEndMap;
    hide IsDict;
    hide SameType;
    if op.AddScalars? {
      var head := Pad(s.buf, op.width) + LE(|op.elems|, op.width);
      ScalarsExtend(head, op.elems, op.width);
      assert WriteScalars(head, op.elems, op.width)[..|s.buf|] == head[..|s.buf|];
    } else if op.AddFixed? {
      ScalarsExtend(Pad(s.buf, op.width), op.elems, op.width);
      assert WriteScalars(Pad(s.buf, op.width), op.elems, op.width)[..|s.buf|] == Pad(s.buf, op.width)[..|s.buf|];
    }
  }

  lemma {:induction false} RunShared(ops: seq<Op>, flags: Flags)
    requires OpsOk(ops) && IsWidth(flags.minWidth) && Run(ops, flags).Done?
    ensures Shared(Run(ops, flags).s, Trees(ops)) && Run(ops, flags).s.flags == flags
    decreases |ops|
  {
    hide Apply;
    hide Meaning;
    hide OpOk;
    hide Inv;
    hide Shared;
    if ops == [] {
      NothingShared(flags);
    } else {
      var n := |ops| - 1;
      RunHolds(ops[..n], flags);
      RunShared(ops[..n], flags);
      ApplyShared(Run(ops[..n], flags).s, Trees(ops[..n]), ops[n]);
      FlagsStay(Run(ops[..n], flags).s, ops[n]);
    }
  }

  lemma NothingShared(flags: Flags)
    ensures Shared(New(flags), [])
  {
  }

  lemma FlagsStay(s: Builder, op: Op)
    requires Apply(s, op).Done?
    ensures Apply(s, op).s.flags == s.flags
  {
    hide FindKey;
    hide FindString;
    hide CreateVector;
    hide CreateMap;
    hide CreateFixed;
    hide VectorAsserts;
    hide MapAsserts;
    hide WriteScalars;
    hide PaddingBytes;
    hide LE;
    hide Sorted;
    hide CanEnd;
    hide CanEndMap;
  }

  /** Equal keys on the stack have one offset, and so have equal strings, when they are shared. */
  lemma EqualOffsets(ops: seq<Op>, flags: Flags, i: nat, j: nat)
    requires OpsOk(ops) && IsWidth(flags.minWidth) && Run(ops, flags).Done?
    requires i < |Trees(ops)| && j < |Trees(ops)| && Trees(ops)[i] == Trees(ops)[j]
    requires (Trees(ops)[i].TKey? && flags.shareKeys) || (Trees(ops)[i].TString? && flags.shareStrings)
    ensures var s := Run(ops, flags).s;
      i < |s.stack| && j < |s.stack| && s.stack[i].u == s.stack[j].u
  {
    RunShared(ops, flags);
    hide Run;
    hide Trees;
    hide FindKey;
    hide StringFound;
    hide StringsDiffer;
    var s, t := Run(ops, flags).s, Trees(ops)[i];
    assert FromPool(s, s.stack[i], t) && FromPool(s, s.stack[j], t);
    if t.TString? {
      StringFoundOnce(s.buf, s.stringPool, t.chars, s.stack[i].u, s.stack[j].u);
    }
  }

  /** A call only adds to buffer and pools. */
  lemma ApplyLonger(s: Builder, ts: seq<Tree>, op: Op)
    requires Inv(s, ts) && |s.stack| == |ts| && OpOk(op, ts) && Apply(s, op).Done?
    ensures Longer(Apply(s, op).s, s)
  {
    hide Inv;
    hide Longer;
    hide Meaning;
    if op.AddKey? {
      KeyLonger(s, op.chars);
    } else if op.AddString? {
      StringLonger(s, op.chars);
    } else {
      var _, _ := OtherShape(s, ts, op);
    }
  }

  lemma LongerTrans(r: Builder, s: Builder, s0: Builder)
    requires Longer(r, s) && Longer(s, s0)
    ensures Longer(r, s0)
  {
    assert r.buf[..|s0.buf|] == r.buf[..|s.buf|][..|s0.buf|];
  }

  /** What a run has written and pooled at some point is there at its end. */
  lemma {:induction false} RunLonger(ops: seq<Op>, flags: Flags, k: nat)
    requires OpsOk(ops) && IsWidth(flags.minWidth) && Run(ops, flags).Done? && k <= |ops|
    ensures OpsOk(ops[..k]) && Run(ops[..k], flags).Done?
    ensures Longer(Run(ops, flags).s, Run(ops[..k], flags).s)
    decreases |ops|
  {
    hide Apply;
    hide Meaning;
    hide OpOk;
    hide Inv;
    hide Shared;
    hide Longer;
    if k == |ops| {
      assert ops[..k] == ops;
      LongerSelf(Run(ops, flags).s);
    } else {
      var n := |ops| - 1;
      RunLonger(ops[..n], flags, k);
      assert ops[..n][..k] == ops[..k];
      RunHolds(ops[..n], flags);
      RunShared(ops[..n], flags);
      SharedLength(Run(ops[..n], flags).s, Trees(ops[..n]));
      ApplyLonger(Run(ops[..n], flags).s, Trees(ops[..n]), ops[n]);
      LongerTrans(Run(ops, flags).s, Run(ops[..n], flags).s, Run(ops[..k], flags).s);
    }
  }

  lemma LongerSelf(s: Builder)
    ensures Longer(s, s)
  {
    assert s.buf[..|s.buf|] == s.buf;
  }

  /** What call number `k` of a run has left on top of the stack. */
  function TopAfter(ops: seq<Op>, flags: Flags, k: nat): Option<Value>
    requires k < |ops|
  {
    match Run(ops[..k + 1], flags)
    case Done(s) => if s.stack == [] then None else Some(s.stack[|s.stack| - 1])
    case _ => None
  }

  lemma CallShared(ops: seq<Op>, flags: Flags, k: nat) returns (v: Value, t: Tree)
    requires OpsOk(ops) && IsWidth(flags.minWidth) && Run(ops, flags).Done? && k < |ops|
    requires ops[k].AddKey? || ops[k].AddString?
    ensures Run(ops[..k + 1], flags).Done? && TopAfter(ops, flags, k) == Some(v)
    ensures t == if ops[k].AddKey? then TKey(ops[k].chars) else TString(ops[k].chars)
    ensures var s := Run(ops[..k + 1], flags).s;
      && KeyPoolOk(s.buf, s.keyPool) && StringsDiffer(s.buf, s.stringPool) && s.flags == flags
      && FromPool(s, v, t) && Longer(Run(ops, flags).s, s)
  {
    hide FromPool;
    hide Longer;
    hide Run;
    hide KeyPoolOk;
    hide StringsDiffer;
    RunLonger(ops, flags, k + 1);
    RunShared(ops[..k + 1], flags);
    var s, ts := Run(ops[..k + 1], flags).s, Trees(ops[..k + 1]);
    assert ops[..k + 1][..k] == ops[..k];
    v := s.stack[|ts| - 1];
    t := ts[|ts| - 1];
    assert FromPool(s, s.stack[|ts| - 1], ts[|ts| - 1]);
  }

  /**
    All calls of a run that add the same key push the same offset, and so do those that add the same string,
    if these are shared: also long after the first has become part of a vector or a map.
   */
  lemma EqualCalls(ops: seq<Op>, flags: Flags, i: nat, j: nat)
    requires OpsOk(ops) && IsWidth(flags.minWidth) && Run(ops, flags).Done?
    requires i < |ops| && j < |ops| && ops[i] == ops[j]
    requires (ops[i].AddKey? && flags.shareKeys) || (ops[i].AddString? && flags.shareStrings)
    ensures TopAfter(ops, flags, i).Some? && TopAfter(ops, flags, j).Some?
    ensures TopAfter(ops, flags, i).value.u == TopAfter(ops, flags, j).value.u
  {
    hide Run;
    hide TopAfter;
    hide FindKey;
    hide StringFound;
    hide StringsDiffer;
    hide KeyPoolOk;
    RunShared(ops, flags);
    var s := Run(ops, flags).s;
    var v, t := CallShared(ops, flags, i);
    var w, _ := CallShared(ops, flags, j);
    FromPoolLonger(s, Run(ops[..i + 1], flags).s, v, t);
    FromPoolLonger(s, Run(ops[..j + 1], flags).s, w, t);
    if t.TString? {
      StringFoundOnce(s.buf, s.stringPool, t.chars, v.u, w.u);
    }
  }

  /** A reader cannot tell whether keys or strings were shared, nor which minimum width was asked for. */
  lemma SharingInvisible(ops: seq<Op>, f1: Flags, f2: Flags, b1: seq<Byte>, b2: seq<Byte>)
    requires Finished(ops, f1, b1) && Finished(ops, f2, b2)
    ensures ReadsAt(b1, GetRoot(b1), Trees(ops)[0]) && ReadsAt(b2, GetRoot(b2), Trees(ops)[0])
  {
    hide ReadsAt;
    FlexRoundTrip(ops, f1, b1);
    FlexRoundTrip(ops, f2, b2);
  }

  /** Looking up any key in the map at the root of a finished buffer finds what was added under it, or null. */
  lemma RootMapLookup(ops: seq<Op>, flags: Flags, b: seq<Byte>, added: seq<Entry>, key: seq<Byte>)
    requires Finished(ops, flags, b) && KeysOk(added) && Trees(ops)[0] == TMap(SortEntries(added)) && 0 !in key
    ensures GetRoot(b).Ok? && Indirect(b, GetRoot(b).value.pos, GetRoot(b).value.parentWidth).Ok?
    ensures var r := GetRoot(b).value;
      var p := Indirect(b, r.pos, r.parentWidth).value;
      && IsWidth(r.byteWidth) && MapFind(b, p, r.byteWidth, key).Ok?
      && (forall e | e in added && e.key == key :: Reads(b, MapFind(b, p, r.byteWidth, key).value, e.value))
      && ((forall e | e in added :: e.key != key) ==> MapFind(b, p, r.byteWidth, key) == Ok(NULL_REF))
  {
    FlexRoundTrip(ops, flags, b);
    hide Finished;
    hide Trees;
    hide GetRoot;
    hide MapFind;
    hide SortEntries;
    hide Ascending;
    hide KeysStand;
    var r := GetRoot(b).value;
    MapAt(b, r, SortEntries(added));
    AddedFound(b, Indirect(b, r.pos, r.parentWidth).value, r.byteWidth, added, key);
  }

  lemma MapAt(b: seq<Byte>, r: Ref, es: seq<Entry>)
    requires Reads(b, r, TMap(es))
    ensures Indirect(b, r.pos, r.parentWidth).Ok?
    ensures IsWidth(r.byteWidth) && Stands(b, Indirect(b, r.pos, r.parentWidth).value, r.byteWidth, MAP, TMap(es))
  {
    hide Ascending;
    hide KeysStand;
  }
}
