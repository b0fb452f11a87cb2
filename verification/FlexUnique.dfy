/** Reading is definite: the accessors find one value at most, so different values have different buffers. */
module FlexUnique {
  import opened Bytes
  import opened FlexReader
  import opened FlexBuilder
  import opened FlexRun
  import opened FlexTrees

  /** A reader can find one value at most. */
  lemma {:induction false} ReadsOne(b: seq<Byte>, r: Ref, t: Tree, u: Tree)
    requires Reads(b, r, t) && Reads(b, r, u)
    ensures t == u
    decreases t, 1
  {
    hide ReadLE;
    hide Stands;
    if !IsLeaf(t) {
      StandsKind(b, Indirect(b, r.pos, r.parentWidth).value, r.byteWidth, r.kind, t);
      StandsOne(b, Indirect(b, r.pos, r.parentWidth).value, r.byteWidth, r.kind, t, u);
    } else if !IsLeaf(u) {
      StandsKind(b, Indirect(b, r.pos, r.parentWidth).value, r.byteWidth, r.kind, u);
    }
  }

  predicate IsLeaf(t: Tree) {
    t.TNull? || t.TBool? || t.TInt? || t.TUInt?
  }

  lemma StandsKind(b: seq<Byte>, p: int, w: nat, kind: nat, t: Tree)
    requires Stands(b, p, w, kind, t)
    ensures !IsInline(kind)
  {
  }

  lemma AtOne(b: seq<Byte>, p: int, s: seq<Byte>, t: seq<Byte>)
    requires |s| == |t| && At(b, p, s) && At(b, p, t)
    ensures s == t
  {
  }

  lemma CStringBytes(b: seq<Byte>, p: int, s: seq<Byte>)
    requires CString(b, p, s)
    ensures 0 <= p && p + |s| < |b| && b[p + |s|] == 0
    ensures forall i | 0 <= i < |s| :: b[p + i] == s[i] != 0
  {
    forall i | 0 <= i < |s| ensures b[p + i] == s[i] != 0 {
      assert (s + [0])[i] == b[p..p + |s| + 1][i] && s[i] in s;
    }
    assert (s + [0])[|s|] == b[p..p + |s| + 1][|s|];
  }

  lemma CStringOne(b: seq<Byte>, p: int, s: seq<Byte>, t: seq<Byte>)
    requires CString(b, p, s) && CString(b, p, t)
    ensures s == t
  {
    CStringBytes(b, p, s);
    CStringBytes(b, p, t);
    hide CString;
    assert |s| <= |t|;
  }

  /** The type of an object tells the kind of value, its element type and whether its length is fixed. */
  lemma TypeTells(b: seq<Byte>, p: int, w: nat, kind: nat, t: Tree, u: Tree)
    requires Stands(b, p, w, kind, t) && Stands(b, p, w, kind, u)
    ensures t.TIndirectInt? == u.TIndirectInt? && t.TIndirectUInt? == u.TIndirectUInt?
    ensures t.TKey? == u.TKey? && t.TString? == u.TString? && t.TBlob? == u.TBlob? && t.TMap? == u.TMap?
    ensures t.TVector? == u.TVector? && t.TTyped? == u.TTyped? && t.TFixed? == u.TFixed?
    ensures t.TTyped? || t.TFixed? ==> t.kind == u.kind
    ensures HasElems(t) ==> |t.elems| == |u.elems|
  {
    hide ReadLE;
    hide At;
    hide Reads;
    hide KeysStand;
    hide Ascending;
  }

  lemma {:induction false} StandsOne(b: seq<Byte>, p: int, w: nat, kind: nat, t: Tree, u: Tree)
    requires Stands(b, p, w, kind, t) && Stands(b, p, w, kind, u)
    ensures t == u
    decreases t, 0
  {
    TypeTells(b, p, w, kind, t, u);
    hide ReadLE;
    hide Reads;
    hide At;
    hide KeyStands;
    hide Ascending;
    match t
    case TIndirectInt(_) =>
    case TIndirectUInt(_) =>
    case TKey(chars) => CStringOne(b, p, chars, u.chars);
    case TString(chars) =>
      AtOne(b, p, chars + [0], u.chars + [0]);
      assert chars == (chars + [0])[..|chars|] == u.chars;
    case TBlob(bytes) => AtOne(b, p, bytes, u.bytes);
    case TVector(es) =>
      forall i | 0 <= i < |es| ensures es[i] == u.elems[i] {
        ReadsOne(b, VectorAt(b, p, w, i).value, es[i], u.elems[i]);
      }
    case TTyped(k, es) =>
      forall i | 0 <= i < |es| ensures es[i] == u.elems[i] {
        ReadsOne(b, TypedVectorAt(b, p, w, k, i).value, es[i], u.elems[i]);
      }
    case TFixed(_, es) =>
      forall i | 0 <= i < |es| ensures es[i] == u.elems[i] {
        ReadsOne(b, FixedVectorAt(p, w, kind, i), es[i], u.elems[i]);
      }
    case TMap(es) =>
      forall i | 0 <= i < |es| ensures es[i] == u.entries[i] {
        KeysOne(b, MapKeys(b, p, w), es, u.entries, i);
        ReadsOne(b, VectorAt(b, p, w, i).value, es[i].value, u.entries[i].value);
      }
  }

  lemma KeysOne(b: seq<Byte>, at: Read<(int, nat)>, es: seq<Entry>, us: seq<Entry>, i: nat)
    requires KeysStand(b, at, es) && KeysStand(b, at, us) && i < |es|
    ensures i < |us| && es[i].key == us[i].key
  {
    hide ReadLE;
    hide CString;
    var r := TypedVectorAt(b, at.value.0, at.value.1, KEY, i);
    assert KeyStands(b, r, es[i].key) && KeyStands(b, r, us[i].key);
    CStringOne(b, Indirect(b, r.value.pos, r.value.parentWidth).value, es[i].key, us[i].key);
  }

  /** Different values have different buffers, however they were built and whatever was shared. */
  lemma BufferTells(ops: seq<Op>, flags: Flags, others: seq<Op>, otherFlags: Flags, b: seq<Byte>)
    requires Finished(ops, flags, b) && Finished(others, otherFlags, b)
    ensures OpsOk(ops) && OpsOk(others) && Trees(ops) == Trees(others)
  {
    hide *;
    var t := OnlyTree(ops, flags, b);
    var u := OnlyTree(others, otherFlags, b);
    ReadsAtOne(b, GetRoot(b), t, u);
  }

  lemma OnlyTree(ops: seq<Op>, flags: Flags, b: seq<Byte>) returns (t: Tree)
    requires Finished(ops, flags, b)
    ensures OpsOk(ops) && Trees(ops) == [t] && ReadsAt(b, GetRoot(b), t)
  {
    hide Run;
    hide Trees;
    hide OpsOk;
    hide ReadsAt;
    FlexRoundTrip(ops, flags, b);
    t := Trees(ops)[0];
  }

  lemma ReadsAtOne(b: seq<Byte>, r: Read<Ref>, t: Tree, u: Tree)
    requires ReadsAt(b, r, t) && ReadsAt(b, r, u)
    ensures t == u
  {
    hide Reads;
    ReadsOne(b, r.value, t, u);
  }
}
