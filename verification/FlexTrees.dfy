/**
  The values that can be built: exactly those of which each number fits 64 bits, each key is a C string, each
  typed vector has elements of its type and each map has distinct keys. Each is built by calls that follow its
  shape.
 */
module FlexTrees {
  import opened Bytes
  import opened FlexReader
  import opened FlexBuilder
  import opened FlexValues
  import opened FlexMaps
  import opened FlexRun

  predicate HasElems(t: Tree) {
    t.TVector? || t.TTyped? || t.TFixed?
  }

  predicate TreeOk(t: Tree)
    decreases t
  {
    match t
    case TInt(i) => IsInt64(i)
    case TUInt(u) => u < MAX_UINT64
    case TIndirectInt(i) => IsInt64(i)
    case TIndirectUInt(u) => u < MAX_UINT64
    case TKey(chars) => 0 !in chars
    case TString(chars) => |chars| < MAX_UINT64
    case TBlob(bytes) => |bytes| < MAX_UINT64
    case TVector(es) => forall i | 0 <= i < |es| :: TreeOk(es[i])
    case TTyped(k, es) =>
      && (k == 1 || k == 2 || k == 4 || k == 26)
      && forall i | 0 <= i < |es| :: TreeOk(es[i]) && KindOf(es[i]) == k
    case TFixed(k, es) =>
      && (k == 1 || k == 2) && 2 <= |es| <= 4
      && forall i | 0 <= i < |es| :: TreeOk(es[i]) && KindOf(es[i]) == k
    case TMap(es) => KeysOk(es) && Ascending(es) && forall i | 0 <= i < |es| :: TreeOk(es[i].value)
    case _ => true
  }

  /** The calls that put the value on a stack of height `h`. */
  function Calls(h: nat, t: Tree): seq<Op>
    decreases t, 1
  {
    match t
    case TNull => [AddNull]
    case TBool(x) => [AddBool(x)]
    case TInt(i) => [AddInt(i)]
    case TUInt(u) => [AddUInt(u)]
    case TIndirectInt(i) => [AddIndirectInt(i)]
    case TIndirectUInt(u) => [AddIndirectUInt(u)]
    case TKey(chars) => [AddKey(chars)]
    case TString(chars) => [AddString(chars)]
    case TBlob(bytes) => [AddBlob(bytes)]
    case TVector(es) => ElemCalls(h, t, |es|) + [EndsVector(h, false)]
    case TTyped(k, es) =>
      if es == [] && k != KEY then [AddScalars(k, 1, [])] else ElemCalls(h, t, |es|) + [EndsVector(h, true)]
    case TFixed(_, es) => ElemCalls(h, t, |es|) + [EndsFixed(h)]
    case TMap(es) => EntryCalls(h, t, |es|) + [EndsMap(h)]
  }

  /** Those for the first `n` elements. */
  function ElemCalls(h: nat, t: Tree, n: nat): seq<Op>
    requires HasElems(t) && n <= |t.elems|
    decreases t, 0, n
  {
    if n == 0 then [] else ElemCalls(h, t, n - 1) + Calls(h + n - 1, t.elems[n - 1])
  }

  function EntryCalls(h: nat, t: Tree, n: nat): seq<Op>
    requires t.TMap? && n <= |t.entries|
    decreases t, 0, n
  {
    if n == 0 then [] else
    EntryCalls(h, t, n - 1) + ([AddKey(t.entries[n - 1].key)] + Calls(h + 2 * n - 1, t.entries[n - 1].value))
  }

  /** Keys and values in turn, as they wait on the stack. */
  function Flat(es: seq<Entry>): (ts: seq<Tree>)
    ensures |ts| == 2 * |es|
  {
    if es == [] then [] else
    var last := es[|es| - 1];
    Flat(es[..|es| - 1]) + ([TKey(last.key)] + [last.value])
  }

  lemma {:induction false} FlatAt(es: seq<Entry>, i: nat)
    requires i < |es|
    ensures Flat(es)[2 * i] == TKey(es[i].key) && Flat(es)[2 * i + 1] == es[i].value
    decreases |es|
  {
    if i < |es| - 1 {
      FlatAt(es[..|es| - 1], i);
    }
  }

  lemma FlatNext(es: seq<Entry>, n: nat)
    requires n < |es|
    ensures Flat(es[..n + 1]) == Flat(es[..n]) + ([TKey(es[n].key)] + [es[n].value])
  {
    assert es[..n + 1][..n] == es[..n];
  }

  lemma FlatEntries(es: seq<Entry>)
    requires KeysOk(es)
    ensures IsDict(Flat(es)) && Entries(Flat(es)) == es
  {
    hide KeysOk;
    hide Flat;
    var ts := Flat(es);
    forall i | 0 <= i < |es| ensures ts[2 * i] == TKey(es[i].key) && ts[2 * i + 1] == es[i].value {
      FlatAt(es, i);
    }
    assert forall i | 0 <= i < |es| :: Entries(ts)[i] == es[i];
    assert Entries(ts) == es;
  }

  /** After `ops`, the calls put these values on top of the stack. */
  predicate Adds(ops: seq<Op>, calls: seq<Op>, ts: seq<Tree>)
    requires OpsOk(ops)
  {
    OpsOk(ops + calls) && Trees(ops + calls) == Trees(ops) + ts
  }

  lemma AddsOne(ops: seq<Op>, op: Op, t: Tree)
    requires OpsOk(ops) && OpOk(op, Trees(ops)) && Meaning(op, Trees(ops)) == Trees(ops) + [t]
    ensures Adds(ops, [op], [t])
  {
    hide OpOk;
    hide Meaning;
    assert (ops + [op])[..|ops|] == ops;
  }

  lemma AddsNone(ops: seq<Op>)
    requires OpsOk(ops)
    ensures Adds(ops, [], [])
  {
    hide OpsOk;
    hide Trees;
    assert ops + [] == ops && Trees(ops) + [] == Trees(ops);
  }

  lemma AddsThen(ops: seq<Op>, first: seq<Op>, ts: seq<Tree>, second: seq<Op>, us: seq<Tree>)
    requires OpsOk(ops) && Adds(ops, first, ts) && Adds(ops + first, second, us)
    ensures Adds(ops, first + second, ts + us)
  {
    hide OpsOk;
    hide Trees;
    assert ops + (first + second) == ops + first + second;
    assert Trees(ops) + (ts + us) == Trees(ops) + ts + us;
  }

  lemma HeightAfter(ops: seq<Op>, calls: seq<Op>, ts: seq<Tree>)
    requires OpsOk(ops) && Adds(ops, calls, ts)
    ensures OpsOk(ops + calls) && |Trees(ops + calls)| == |Trees(ops)| + |ts|
  {
    hide OpsOk;
    hide Trees;
  }

  /** A vector or map is ended behind its contents, in whose place it stands. */
  lemma AddsEnd(ops: seq<Op>, inner: seq<Op>, ts: seq<Tree>, end: Op, t: Tree)
    requires OpsOk(ops) && Adds(ops, inner, ts)
    requires OpOk(end, Trees(ops) + ts) && Meaning(end, Trees(ops) + ts) == Trees(ops) + [t]
    ensures Adds(ops, inner + [end], [t])
  {
    hide OpOk;
    hide Meaning;
    var all := ops + inner;
    assert (all + [end])[..|all|] == all;
    assert ops + (inner + [end]) == all + [end];
  }

  lemma InsertFirst(es: seq<Entry>, e: Entry)
    requires es == [] || Strcmp(e.key, es[0].key) < 0
    ensures InsertEntry(es, e) == [e] + es
  {
  }

  lemma SortNext(es: seq<Entry>)
    requires es != []
    ensures SortEntries(es) == InsertEntry(SortEntries(es[1..]), es[0]) && es == [es[0]] + es[1..]
  {
    hide InsertEntry;
  }

  /** Sorted entries stay as they are. */
  lemma {:induction false} SortedStays(es: seq<Entry>)
    requires StrcmpAscending(es)
    ensures SortEntries(es) == es
  {
    if es == [] {
    } else {
      assert |es| > 1 ==> Strcmp(es[0].key, es[1].key) < 0;
      TailAscending(es);
      hide *;
      SortedStays(es[1..]);
      SortNext(es);
      InsertFirst(es[1..], es[0]);
    }
  }

  lemma {:induction false} CallsAdd(ops: seq<Op>, t: Tree)
    requires OpsOk(ops) && TreeOk(t)
    ensures Adds(ops, Calls(|Trees(ops)|, t), [t])
    decreases t, 1
  {
    hide OpsOk;
    hide Trees;
    hide OpOk;
    hide Meaning;
    hide TreeOk;
    hide Adds;
    var ts := Trees(ops);
    var h := |ts|;
    if HasElems(t) && !IsEmptyScalars(t) {
      ElemsAdd(ops, t, |t.elems|);
      assert t.elems[..|t.elems|] == t.elems;
      VectorEnds(ts, t);
      AddsEnd(ops, ElemCalls(h, t, |t.elems|), t.elems, VectorEnd(h, t), t);
    } else if t.TMap? {
      EntriesAdd(ops, t, |t.entries|);
      assert t.entries[..|t.entries|] == t.entries;
      MapEnds(ts, t.entries);
      AddsEnd(ops, EntryCalls(h, t, |t.entries|), Flat(t.entries), EndsMap(h), t);
    } else {
      LeafMeans(ts, t);
      AddsOne(ops, Calls(h, t)[0], t);
    }
  }

  predicate IsEmptyScalars(t: Tree) {
    t.TTyped? && t.elems == [] && t.kind != KEY
  }

  /** A value that takes one call. */
  lemma LeafMeans(ts: seq<Tree>, t: Tree)
    requires TreeOk(t) && (!HasElems(t) || IsEmptyScalars(t)) && !t.TMap?
    ensures |Calls(|ts|, t)| == 1
    ensures var op := Calls(|ts|, t)[0]; OpOk(op, ts) && Meaning(op, ts) == ts + [t]
  {
    if IsEmptyScalars(t) {
      assert ScalarTrees(t.kind, []) == t.elems;
    }
  }

  function VectorEnd(h: nat, t: Tree): Op {
    if t.TFixed? then EndsFixed(h) else EndsVector(h, t.TTyped?)
  }

  lemma VectorEnds(ts: seq<Tree>, t: Tree)
    requires TreeOk(t) && HasElems(t) && !IsEmptyScalars(t)
    ensures var op := VectorEnd(|ts|, t); OpOk(op, ts + t.elems) && Meaning(op, ts + t.elems) == ts + [t]
  {
    assert (ts + t.elems)[..|ts|] == ts && (ts + t.elems)[|ts|..] == t.elems;
    assert t.elems != [] ==> TreeOk(t.elems[0]) && (!t.TVector? ==> KindOf(t.elems[0]) == t.kind);
  }

  lemma MapEnds(ts: seq<Tree>, es: seq<Entry>)
    requires TreeOk(TMap(es))
    ensures OpOk(EndsMap(|ts|), ts + Flat(es)) && Meaning(EndsMap(|ts|), ts + Flat(es)) == ts + [TMap(es)]
  {
    assert KeysOk(es) && Ascending(es);
    AscendingIs(es);
    hide *;
    var all := ts + Flat(es);
    assert all[..|ts|] == ts && all[|ts|..] == Flat(es);
    FlatEntries(es);
    SortedStays(es);
    MapIs(all, |ts|);
  }

  lemma MapIs(ts: seq<Tree>, start: nat)
    requires start <= |ts| && IsDict(ts[start..])
    ensures OpOk(EndsMap(start), ts)
    ensures Meaning(EndsMap(start), ts) == ts[..start] + [TMap(SortEntries(Entries(ts[start..])))]
  {
    hide IsDict;
    hide SortEntries;
    hide Entries;
  }

  lemma {:induction false} ElemsAdd(ops: seq<Op>, t: Tree, n: nat)
    requires OpsOk(ops) && TreeOk(t) && HasElems(t) && n <= |t.elems|
    ensures Adds(ops, ElemCalls(|Trees(ops)|, t, n), t.elems[..n])
    decreases t, 0, n
  {
    hide OpsOk;
    hide Trees;
    hide Calls;
    hide Adds;
    var h := |Trees(ops)|;
    if n == 0 {
      AddsNone(ops);
    } else {
      assert TreeOk(t.elems[n - 1]);
      hide TreeOk;
      ElemsAdd(ops, t, n - 1);
      HeightAfter(ops, ElemCalls(h, t, n - 1), t.elems[..n - 1]);
      CallsAdd(ops + ElemCalls(h, t, n - 1), t.elems[n - 1]);
      AddsThen(ops, ElemCalls(h, t, n - 1), t.elems[..n - 1], Calls(h + n - 1, t.elems[n - 1]), [t.elems[n - 1]]);
      assert t.elems[..n] == t.elems[..n - 1] + [t.elems[n - 1]];
    }
  }

  lemma KeyMeans(ts: seq<Tree>, key: seq<Byte>)
    requires 0 !in key
    ensures OpOk(AddKey(key), ts) && Meaning(AddKey(key), ts) == ts + [TKey(key)]
  {
  }

  lemma {:induction false} EntryAdd(ops: seq<Op>, key: seq<Byte>, t: Tree)
    requires OpsOk(ops) && 0 !in key && TreeOk(t)
    ensures Adds(ops, [AddKey(key)] + Calls(|Trees(ops)| + 1, t), [TKey(key)] + [t])
    decreases t, 2
  {
    hide *;
    KeyMeans(Trees(ops), key);
    AddsOne(ops, AddKey(key), TKey(key));
    HeightAfter(ops, [AddKey(key)], [TKey(key)]);
    CallsAdd(ops + [AddKey(key)], t);
    AddsThen(ops, [AddKey(key)], [TKey(key)], Calls(|Trees(ops)| + 1, t), [t]);
  }

  lemma {:induction false} EntriesAdd(ops: seq<Op>, t: Tree, n: nat)
    requires OpsOk(ops) && TreeOk(t) && t.TMap? && n <= |t.entries|
    ensures Adds(ops, EntryCalls(|Trees(ops)|, t, n), Flat(t.entries[..n]))
    decreases t, 0, n
  {
    hide OpsOk;
    hide Trees;
    hide Calls;
    hide Adds;
    var h, es := |Trees(ops)|, t.entries;
    if n == 0 {
      AddsNone(ops);
    } else {
      EntryOk(es, n - 1);
      hide TreeOk;
      var key, value := es[n - 1].key, es[n - 1].value;
      EntriesAdd(ops, t, n - 1);
      HeightAfter(ops, EntryCalls(h, t, n - 1), Flat(es[..n - 1]));
      EntryAdd(ops + EntryCalls(h, t, n - 1), key, value);
      AddsThen(
        ops, EntryCalls(h, t, n - 1), Flat(es[..n - 1]),
        [AddKey(key)] + Calls(h + 2 * n - 1, value), [TKey(key)] + [value]);
      FlatNext(es, n - 1);
    }
  }

  lemma EntryOk(es: seq<Entry>, i: nat)
    requires TreeOk(TMap(es)) && i < |es|
    ensures 0 !in es[i].key && TreeOk(es[i].value)
  {
  }

  lemma SortedOk(es: seq<Entry>)
    requires KeysOk(es) && forall i | 0 <= i < |es| :: TreeOk(es[i].value)
    ensures TreeOk(TMap(SortEntries(es)))
  {
    hide SortEntries;
    hide KeyBefore;
    SortAscending(es);
    SortedMembers(es);
    var r := SortEntries(es);
    forall i | 0 <= i < |r| ensures 0 !in r[i].key && TreeOk(r[i].value) {
      assert r[i] in es;
    }
    forall i, j | 0 <= i < j < |r| ensures r[i].key != r[j].key {
      NotBeforeSelf(r[i].key);
    }
  }

  /** Whatever a call leaves on the stack is of this kind. */
  lemma MeaningOk(op: Op, ts: seq<Tree>)
    requires OpOk(op, ts) && forall i | 0 <= i < |ts| :: TreeOk(ts[i])
    ensures forall i | 0 <= i < |Meaning(op, ts)| :: TreeOk(Meaning(op, ts)[i])
  {
    if op.EndsVector? || op.EndsFixed? || op.EndsMap? {
      var t := EndOk(op, ts);
    } else {
      var t := AppendedOk(op, ts);
    }
  }

  lemma ScalarTreesOk(kind: nat, w: nat, xs: seq<int>)
    requires ScalarsOk(kind, w, xs)
    ensures forall t | t in ScalarTrees(kind, xs) :: TreeOk(t) && KindOf(t) == kind
  {
    forall t | t in ScalarTrees(kind, xs) ensures TreeOk(t) && KindOf(t) == kind {
      var i :| 0 <= i < |xs| && t == ScalarTrees(kind, xs)[i];
      assert ScalarOk(kind, w, xs[i]);
    }
  }

  lemma AppendedOk(op: Op, ts: seq<Tree>) returns (t: Tree)
    requires OpOk(op, ts) && !op.EndsVector? && !op.EndsFixed? && !op.EndsMap?
    ensures Meaning(op, ts) == ts + [t] && TreeOk(t)
  {
    t := Meaning(op, ts)[|ts|];
    if op.AddScalars? || op.AddFixed? {
      ScalarTreesOk(op.kind, op.width, op.elems);
    }
  }

  lemma EndOk(op: Op, ts: seq<Tree>) returns (t: Tree)
    requires OpOk(op, ts) && forall i | 0 <= i < |ts| :: TreeOk(ts[i])
    requires op.EndsVector? || op.EndsFixed? || op.EndsMap?
    ensures op.start <= |ts| && Meaning(op, ts) == ts[..op.start] + [t] && TreeOk(t)
  {
    hide SortEntries;
    hide KeysOk;
    hide TreeOk;
    var es := ts[op.start..];
    assert forall i | 0 <= i < |es| :: es[i] == ts[op.start + i];
    if op.EndsMap? {
      hide Entries;
      t := TMap(SortEntries(Entries(es)));
      EntriesOk(es);
      SortedOk(Entries(es));
    } else {
      hide IsDict;
      t := if op.EndsFixed? then TFixed(KindOf(es[0]), es) else VectorTree(es, op.typed);
      VectorOk(es, t);
    }
  }

  lemma EntriesOk(es: seq<Tree>)
    requires IsDict(es) && forall i | 0 <= i < |es| :: TreeOk(es[i])
    ensures forall i | 0 <= i < |Entries(es)| :: TreeOk(Entries(es)[i].value)
  {
    hide TreeOk;
    hide KeysOk;
  }

  lemma VectorOk(es: seq<Tree>, t: Tree)
    requires forall i | 0 <= i < |es| :: TreeOk(es[i])
    requires t == TVector(es) || (SameType(es) && t == VectorTree(es, true))
      || (SameType(es) && 2 <= |es| <= 4 && IsFixedElement(KindOf(es[0])) && t == TFixed(KindOf(es[0]), es))
    ensures TreeOk(t)
  {
    assert es != [] && SameType(es) ==> IsTypedElement(KindOf(es[0]));
  }

  lemma {:induction false} TreesOk(ops: seq<Op>)
    requires OpsOk(ops)
    ensures forall i | 0 <= i < |Trees(ops)| :: TreeOk(Trees(ops)[i])
    decreases |ops|
  {
    hide OpOk;
    hide Meaning;
    hide TreeOk;
    if ops != [] {
      TreesOk(ops[..|ops| - 1]);
      MeaningOk(ops[|ops| - 1], Trees(ops[..|ops| - 1]));
    }
  }

  /** The calls for a value, on a new builder. */
  lemma CallsBuild(t: Tree)
    requires TreeOk(t)
    ensures OpsOk(Calls(0, t)) && Trees(Calls(0, t)) == [t]
  {
    hide TreeOk;
    hide Calls;
    CallsAdd([], t);
    assert [] + Calls(0, t) == Calls(0, t);
    assert Trees([]) + [t] == [t];
  }

  /** The values that runs of the builder describe. */
  lemma TreesExactly(t: Tree)
    ensures TreeOk(t) <==> exists ops :: OpsOk(ops) && Trees(ops) == [t]
  {
    hide TreeOk;
    hide Calls;
    if TreeOk(t) {
      CallsBuild(t);
    }
    forall ops | OpsOk(ops) && Trees(ops) == [t] ensures TreeOk(t) {
      TreesOk(ops);
      assert t == Trees(ops)[0];
    }
  }

  /** The round trip for every such value, with and without sharing, at any minimum width. */
  lemma TreeRoundTrip(t: Tree, flags: Flags, b: seq<Byte>)
    requires TreeOk(t) && Finished(Calls(0, t), flags, b)
    ensures ReadsAt(b, GetRoot(b), t)
  {
    hide *;
    CallsBuild(t);
    FlexRoundTrip(Calls(0, t), flags, b);
  }
}
