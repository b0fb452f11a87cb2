/** Maps: sorting by key, the two vectors of a map, and looking a key up by binary search. */
module FlexMaps {
  import opened Bytes
  import opened FlexReader
  import opened FlexBuilder
  import opened FlexWidths
  import opened FlexValues
  import opened FlexVectors

  /** `strcmp` orders strings without NUL totally; it yields 0 only for equal ones. */
  lemma {:induction false} StrcmpZero(a: seq<Byte>, c: seq<Byte>)
    requires 0 !in a && 0 !in c
    ensures Strcmp(a, c) == 0 <==> a == c
    ensures Strcmp(a, c) == -Strcmp(c, a)
  {
    if a != [] && c != [] {
      StrcmpZero(a[1..], c[1..]);
      if a[0] == c[0] {
        assert a == [a[0]] + a[1..] && c == [c[0]] + c[1..];
      }
    } else if a != [] {
      assert a[0] in a;
    } else if c != [] {
      assert c[0] in c;
    }
  }

  lemma {:induction false} StrcmpTrans(a: seq<Byte>, c: seq<Byte>, e: seq<Byte>)
    requires 0 !in a && 0 !in c && 0 !in e
    requires Strcmp(a, c) < 0 && Strcmp(c, e) < 0
    ensures Strcmp(a, e) < 0
  {
    if c != [] {
      assert c[0] in c;
    }
    if e != [] {
      assert e[0] in e;
    }
    if a != [] && c != [] && e != [] && a[0] == c[0] == e[0] {
      StrcmpTrans(a[1..], c[1..], e[1..]);
    }
  }

  /** A C string in the buffer is found again up to its NUL. */
  lemma {:induction false} CharsOf(b: seq<Byte>, p: nat, chars: seq<Byte>)
    requires CString(b, p, chars)
    ensures Chars(b, p) == chars
    decreases |chars|
  {
    if chars == [] {
      assert b[p..p + 1] == [0];
    } else {
      assert b[p] == (chars + [0])[0] == chars[0];
      assert chars[0] in chars;
      AtInner(b, p, chars + [0], 1, chars[1..] + [0]);
      CharsOf(b, p + 1, chars[1..]);
      assert chars == [chars[0]] + chars[1..];
    }
  }

  /** The entries by key, as the builder sorts the pairs on its stack. */
  function InsertEntry(es: seq<Entry>, e: Entry): (r: seq<Entry>)
    ensures |r| == |es| + 1
    ensures multiset(r) == multiset(es) + multiset{e}
  {
    if es == [] then [e]
    else if Strcmp(e.key, es[0].key) < 0 then [e] + es
    else
      InsertCounts(es, InsertEntry(es[1..], e), e);
      [es[0]] + InsertEntry(es[1..], e)
  }

  lemma InsertCounts(es: seq<Entry>, rest: seq<Entry>, e: Entry)
    requires es != [] && multiset(rest) == multiset(es[1..]) + multiset{e}
    ensures multiset([es[0]] + rest) == multiset(es) + multiset{e}
  {
    assert es == [es[0]] + es[1..];
    assert multiset(es) == multiset{es[0]} + multiset(es[1..]);
  }

  function SortEntries(es: seq<Entry>): (r: seq<Entry>)
    ensures |r| == |es|
    ensures multiset(r) == multiset(es)
  {
    if es == [] then [] else
    assert es == [es[0]] + es[1..];
    InsertEntry(SortEntries(es[1..]), es[0])
  }

  predicate KeysOk(es: seq<Entry>) {
    && (forall i | 0 <= i < |es| :: 0 !in es[i].key)
    && (forall i, j | 0 <= i < j < |es| :: es[i].key != es[j].key)
  }

  lemma {:induction false} InsertMembers(es: seq<Entry>, e: Entry)
    ensures forall x | x in InsertEntry(es, e) :: x == e || x in es
  {
    if es != [] {
      InsertMembers(es[1..], e);
    }
  }

  predicate StrcmpAscending(es: seq<Entry>) {
    forall i, j | 0 <= i < j < |es| :: Strcmp(es[i].key, es[j].key) < 0
  }

  /** For keys without NUL `strcmp` is the order of their bytes. */
  lemma {:induction false} StrcmpOrder(a: seq<Byte>, c: seq<Byte>)
    requires 0 !in a && 0 !in c
    ensures Strcmp(a, c) < 0 <==> KeyBefore(a, c)
  {
    if a != [] && c != [] && a[0] == c[0] {
      StrcmpOrder(a[1..], c[1..]);
      BeforeCons(a, c);
    } else if a == [] && c != [] {
      assert c[0] in c;
      assert a[..0] == c[..0];
    } else if a != [] && c != [] {
      BeforeFirst(a, c);
    } else if a != [] {
      assert a[0] in a;
    }
  }

  lemma BeforeFirst(a: seq<Byte>, c: seq<Byte>)
    requires a != [] && c != [] && a[0] != c[0]
    ensures KeyBefore(a, c) <==> a[0] < c[0]
  {
    if a[0] < c[0] {
      assert a[..0] == c[..0];
    }
    forall k | 0 < k <= |a| && k < |c| ensures a[..k] != c[..k] {
      assert a[..k][0] == a[0] && c[..k][0] == c[0];
    }
  }

  lemma BeforeCons(a: seq<Byte>, c: seq<Byte>)
    requires a != [] && c != [] && a[0] == c[0]
    ensures KeyBefore(a, c) <==> KeyBefore(a[1..], c[1..])
  {
    if KeyBefore(a, c) {
      var k :| 0 <= k <= |a| && k < |c| && a[..k] == c[..k] && (k == |a| || a[k] < c[k]);
      BeforeTail(a, c, k);
    }
    if KeyBefore(a[1..], c[1..]) {
      var k :| 0 <= k <= |a[1..]| && k < |c[1..]| && a[1..][..k] == c[1..][..k]
        && (k == |a[1..]| || a[1..][k] < c[1..][k]);
      BeforeWhole(a, c, k);
    }
  }

  lemma BeforeTail(a: seq<Byte>, c: seq<Byte>, k: nat)
    requires k <= |a| && k < |c| && a[..k] == c[..k] && (k == |a| || a[k] < c[k])
    requires a != [] && c != [] && a[0] == c[0]
    ensures KeyBefore(a[1..], c[1..])
  {
    assert k > 0;
    assert a[1..][..k - 1] == a[..k][1..] && c[1..][..k - 1] == c[..k][1..];
  }

  lemma BeforeWhole(a: seq<Byte>, c: seq<Byte>, k: nat)
    requires a != [] && c != [] && a[0] == c[0] && k <= |a[1..]| && k < |c[1..]|
    requires a[1..][..k] == c[1..][..k] && (k == |a[1..]| || a[1..][k] < c[1..][k])
    ensures KeyBefore(a, c)
  {
    assert a[..k + 1] == [a[0]] + a[1..][..k] && c[..k + 1] == [c[0]] + c[1..][..k];
  }

  lemma AscendingIs(es: seq<Entry>)
    requires forall i | 0 <= i < |es| :: 0 !in es[i].key
    ensures Ascending(es) <==> StrcmpAscending(es)
  {
    hide Strcmp;
    hide KeyBefore;
    forall i, j | 0 <= i < j < |es|
      ensures KeyBefore(es[i].key, es[j].key) <==> Strcmp(es[i].key, es[j].key) < 0
    {
      StrcmpOrder(es[i].key, es[j].key);
    }
  }

  lemma ConsAscending(e: Entry, es: seq<Entry>)
    requires StrcmpAscending(es) && forall x | x in es :: Strcmp(e.key, x.key) < 0
    ensures StrcmpAscending([e] + es)
  {
    hide Strcmp;
  }

  lemma HeadFirst(es: seq<Entry>, x: Entry)
    requires es != [] && StrcmpAscending(es) && x in es[1..]
    ensures Strcmp(es[0].key, x.key) < 0
  {
    hide Strcmp;
    var k :| 0 <= k < |es[1..]| && es[1..][k] == x;
    assert es[k + 1] == x;
  }

  lemma TailAscending(es: seq<Entry>)
    requires es != [] && StrcmpAscending(es)
    ensures StrcmpAscending(es[1..])
  {
    hide Strcmp;
  }

  lemma {:induction false} InsertAscending(es: seq<Entry>, e: Entry)
    requires StrcmpAscending(es) && 0 !in e.key
    requires forall x | x in es :: 0 !in x.key && x.key != e.key
    ensures StrcmpAscending(InsertEntry(es, e))
  {
    hide Strcmp;
    hide StrcmpAscending;
    if es == [] {
      SingleAscending(e);
    } else {
      assert es[0] in es;
      StrcmpZero(e.key, es[0].key);
      if Strcmp(e.key, es[0].key) < 0 {
        forall x | x in es ensures Strcmp(e.key, x.key) < 0 {
          if x != es[0] {
            assert es == [es[0]] + es[1..];
            HeadFirst(es, x);
            StrcmpTrans(e.key, es[0].key, x.key);
          }
        }
        ConsAscending(e, es);
      } else {
        TailAscending(es);
        InsertAscending(es[1..], e);
        InsertMembers(es[1..], e);
        forall x | x in InsertEntry(es[1..], e) ensures Strcmp(es[0].key, x.key) < 0 {
          if x != e {
            HeadFirst(es, x);
          }
        }
        ConsAscending(es[0], InsertEntry(es[1..], e));
      }
    }
  }

  lemma SingleAscending(e: Entry)
    ensures StrcmpAscending([e])
  {
  }

  lemma {:induction false} SortStrcmp(es: seq<Entry>)
    requires KeysOk(es)
    ensures StrcmpAscending(SortEntries(es))
  {
    hide Strcmp;
    hide StrcmpAscending;
    hide InsertEntry;
    if es == [] {
      NoneAscending();
    } else {
      SortStrcmp(es[1..]);
      SortedMembers(es[1..]);
      forall x | x in SortEntries(es[1..]) ensures 0 !in x.key && x.key != es[0].key {
        var k :| 0 <= k < |es[1..]| && es[1..][k] == x;
        assert es[k + 1] == x;
      }
      InsertAscending(SortEntries(es[1..]), es[0]);
    }
  }

  lemma NoneAscending()
    ensures StrcmpAscending([])
  {
  }

  /** Distinct keys come out in strictly ascending order of their bytes. */
  lemma SortAscending(es: seq<Entry>)
    requires KeysOk(es)
    ensures Ascending(SortEntries(es))
  {
    hide Ascending;
    hide StrcmpAscending;
    hide SortEntries;
    SortStrcmp(es);
    SortedMembers(es);
    var r := SortEntries(es);
    forall i | 0 <= i < |r| ensures 0 !in r[i].key {
      assert r[i] in es;
    }
    AscendingIs(r);
  }

  lemma SortedMembers(es: seq<Entry>)
    ensures forall x :: x in SortEntries(es) <==> x in es
  {
    hide SortEntries;
    forall x: Entry ensures x in SortEntries(es) <==> x in es {
      assert x in SortEntries(es) <==> x in multiset(SortEntries(es));
      assert x in es <==> x in multiset(es);
    }
  }

  ghost predicate PairHolds(b: seq<Byte>, p: TwoValue, e: Entry) {
    Holds(b, p.key, TKey(e.key)) && Holds(b, p.val, e.value)
  }

  ghost predicate PairsHold(b: seq<Byte>, ps: seq<TwoValue>, es: seq<Entry>) {
    |ps| == |es| && forall i | 0 <= i < |ps| :: PairHolds(b, ps[i], es[i])
  }

  lemma KeyOfPair(b: seq<Byte>, p: TwoValue, e: Entry)
    requires PairHolds(b, p, e)
    ensures KeyOf(b, p) == e.key && 0 !in e.key
  {
    hide Chars;
    CharsOf(b, p.key.u, e.key);
  }

  lemma {:induction false} InsertHolds(b: seq<Byte>, ps: seq<TwoValue>, p: TwoValue, es: seq<Entry>, e: Entry)
    requires PairsHold(b, ps, es) && PairHolds(b, p, e)
    ensures PairsHold(b, Insert(b, ps, p), InsertEntry(es, e))
  {
    hide PairHolds;
    hide KeyOf;
    if ps != [] {
      KeyOfPair(b, p, e);
      KeyOfPair(b, ps[0], es[0]);
      InsertHolds(b, ps[1..], p, es[1..], e);
    }
  }

  /** Sorting the pairs on the stack sorts the entries they stand for. */
  lemma {:induction false} SortedHolds(b: seq<Byte>, ps: seq<TwoValue>, es: seq<Entry>)
    requires PairsHold(b, ps, es)
    ensures PairsHold(b, Sorted(b, ps), SortEntries(es))
  {
    hide PairHolds;
    if ps != [] {
      SortedHolds(b, ps[1..], es[1..]);
      InsertHolds(b, Sorted(b, ps[1..]), ps[0], SortEntries(es[1..]), es[0]);
    }
  }

  lemma PairsAreOk(b: seq<Byte>, ps: seq<TwoValue>, es: seq<Entry>)
    requires PairsHold(b, ps, es)
    ensures PairsOk(ps, |b|)
  {
    forall i | 0 <= i < |ps|
      ensures ps[i].key.kind == KEY && ValueOk(ps[i].key, |b|) && ValueOk(ps[i].val, |b|) && ps[i].val.kind <= BOOL + 10
    {
      assert PairHolds(b, ps[i], es[i]);
    }
  }

  function KeyTrees(es: seq<Entry>): (ts: seq<Tree>)
    ensures |ts| == |es| && forall i | 0 <= i < |es| :: ts[i] == TKey(es[i].key)
  {
    seq(|es|, i requires 0 <= i < |es| => TKey(es[i].key))
  }

  function ValTrees(es: seq<Entry>): (ts: seq<Tree>)
    ensures |ts| == |es| && forall i | 0 <= i < |es| :: ts[i] == es[i].value
  {
    seq(|es|, i requires 0 <= i < |es| => es[i].value)
  }

  lemma PartsHold(b: seq<Byte>, ps: seq<TwoValue>, es: seq<Entry>)
    requires PairsHold(b, ps, es)
    ensures AllHold(b, KeyValues(ps), KeyTrees(es)) && AllHold(b, ValValues(ps), ValTrees(es))
  {
    hide Holds;
    forall i | 0 <= i < |ps|
      ensures Holds(b, KeyValues(ps)[i], KeyTrees(es)[i]) && Holds(b, ValValues(ps)[i], ValTrees(es)[i])
    {
      assert PairHolds(b, ps[i], es[i]);
    }
  }

  /** A typed vector of keys is what a map needs in front of its values. */
  lemma KeysFromTyped(b: seq<Byte>, p: int, w: nat, es: seq<Entry>)
    requires Stands(b, p, w, ToTypedVector(KEY), TTyped(KEY, KeyTrees(es)))
    ensures KeysStand(b, Ok((p, w)), es)
  {
    hide ReadLE;
    forall i | 0 <= i < |es| ensures KeyStands(b, TypedVectorAt(b, p, w, KEY, i), es[i].key) {
      var r := TypedVectorAt(b, p, w, KEY, i);
      assert ReadsAt(b, r, KeyTrees(es)[i]);
      KeyFromReads(b, r.value, es[i].key);
    }
  }

  lemma KeyFromReads(b: seq<Byte>, r: Ref, key: seq<Byte>)
    requires Reads(b, r, TKey(key))
    ensures KeyStands(b, Ok(r), key)
  {
  }

  /** The offset and width of the keys in front of the values lead to the keys. */
  lemma MapKeysRead(b: seq<Byte>, vs: seq<Value>, keys: Value, minWidth: nat)
    requires ValuesOk(vs, |b|) && IsWidth(minWidth) && CanPack(vs)
    requires ValueOk(keys, |b|) && !IsInline(keys.kind)
    requires |CreateVector(b, vs, 2, false, Some(keys), minWidth).0| < MAX_UINT64
    ensures var (r, v) := CreateVector(b, vs, 2, false, Some(keys), minWidth);
      MapKeys(r, v.u, v.width) == Ok((keys.u, keys.width))
  {
    hide *;
    var (r, v) := CreateVector(b, vs, 2, false, Some(keys), minWidth);
    var w := v.width;
    VectorExtends(b, vs, 2, false, Some(keys), minWidth);
    WidthIs(b, vs, 2, false, Some(keys), minWidth);
    HeadSize(b, |vs|, w, Some(keys));
    HeadKeys(b, |vs|, w, keys);
    var h := VectorHead(b, |vs|, w, Some(keys));
    AtPrefix(h, r, |h| - 3 * w, LE(|h| - 3 * w - keys.u, w));
    AtPrefix(h, r, |h| - 2 * w, LE(keys.width, w));
    OffsetKind(keys, |b|);
    SmallWidth(keys.width, w);
    KeysFit(b, vs, keys, minWidth);
    KeysRead(r, |h|, w, keys.u, keys.width);
  }

  lemma KeysFit(b: seq<Byte>, vs: seq<Value>, keys: Value, minWidth: nat)
    requires ValuesOk(vs, |b|) && IsWidth(minWidth) && CanPack(vs)
    requires ValueOk(keys, |b|) && !IsInline(keys.kind)
    requires |CreateVector(b, vs, 2, false, Some(keys), minWidth).0| < MAX_UINT64
    ensures var v := CreateVector(b, vs, 2, false, Some(keys), minWidth).1;
      IsWidth(v.width) && v.u - 3 * v.width - keys.u < Range(v.width)
  {
    assert MAX_UINT64 == 0x1_0000_0000_0000_0000;
    hide *;
    var (r, v) := CreateVector(b, vs, 2, false, Some(keys), minWidth);
    var w := v.width;
    VectorExtends(b, vs, 2, false, Some(keys), minWidth);
    WidthIs(b, vs, 2, false, Some(keys), minWidth);
    WidthCovers(b, vs, 2, Some(keys), minWidth);
    HeadSize(b, |vs|, w, Some(keys));
    SamePrefix(keys);
    KeysPlace(v.u, |b|, w);
    OffsetFits(keys, |b|, 0, 0, w);
    KeysDistance(keys.u, v.u, |b|, w);
  }

  /** The offset of the keys is stored at the first place behind the padding. */
  lemma KeysSafe(b: seq<Byte>, vs: seq<Value>, keys: Value, minWidth: nat)
    requires ValuesOk(vs, |b|) && IsWidth(minWidth) && CanPack(vs)
    requires ValueOk(keys, |b|) && !IsInline(keys.kind)
    requires |CreateVector(b, vs, 2, false, Some(keys), minWidth).0| < MAX_UINT64
    ensures var w := VectorWidth(b, vs, 2, Some(keys), minWidth); ElemAsserts(keys, |b|, 0, |Pad(b, w)|, w)
  {
    hide *;
    var v := CreateVector(b, vs, 2, false, Some(keys), minWidth).1;
    var w := v.width;
    VectorExtends(b, vs, 2, false, Some(keys), minWidth);
    WidthIs(b, vs, 2, false, Some(keys), minWidth);
    HeadSize(b, |vs|, w, Some(keys));
    SamePrefix(keys);
    KeysPlace(v.u, |b|, w);
    ScaleNone(w);
    KeysFit(b, vs, keys, minWidth);
    SearchSafe(keys, |b|, 0);
    Stored(keys, |b|, 0, |Pad(b, w)|, w);
  }

  lemma ScaleNone(w: nat)
    requires IsWidth(w)
    ensures Scale(0, w) == 0
  {
  }

  lemma SortedKeys(ps: seq<TwoValue>, size: nat)
    requires PairsOk(ps, size)
    ensures SameKinds(KeyValues(ps)) && CanPack(KeyValues(ps)) && ValuesOk(KeyValues(ps), size)
    ensures CanPack(ValValues(ps)) && ValuesOk(ValValues(ps), size)
  {
  }

  lemma CreateMapSteps(b: seq<Byte>, ps: seq<TwoValue>, minWidth: nat)
    requires PairsOk(ps, |b|) && IsWidth(minWidth)
    ensures SameKinds(KeyValues(ps)) && CanPack(KeyValues(ps)) && ValuesOk(KeyValues(ps), |b|)
    ensures var (b1, keys) := CreateVector(b, KeyValues(ps), 2, true, None, minWidth);
      && |b| <= |b1| && ValuesOk(ValValues(ps), |b1|) && CanPack(ValValues(ps))
      && ValueOk(keys, |b1|) && !IsInline(keys.kind)
      && CreateMap(b, ps, minWidth) == CreateVector(b1, ValValues(ps), 2, false, Some(keys), minWidth)
  {
    hide VectorHead;
    hide VectorWidth;
    VectorExtends(b, KeyValues(ps), 2, true, None, minWidth);
    hide WriteAll;
  }

  /** No assertion fails while the two vectors of a map are written. */
  lemma MapSafe(b: seq<Byte>, ps: seq<TwoValue>, minWidth: nat)
    requires PairsOk(ps, |b|) && IsWidth(minWidth)
    requires |CreateMap(b, ps, minWidth).0| < MAX_UINT64
    ensures MapAsserts(b, ps, minWidth)
  {
    hide *;
    CreateMapSteps(b, ps, minWidth);
    ShorterFirst(b, ps, minWidth);
    var (b1, keys) := CreateVector(b, KeyValues(ps), 2, true, None, minWidth);
    VectorSafe(b, KeyValues(ps), 2, true, None, minWidth);
    KeysSafe(b1, ValValues(ps), keys, minWidth);
    VectorSafe(b1, ValValues(ps), 2, false, Some(keys), minWidth);
    MapAssertsIs(b, ps, b1, keys, minWidth);
  }

  lemma MapAssertsIs(b: seq<Byte>, ps: seq<TwoValue>, b1: seq<Byte>, keys: Value, minWidth: nat)
    requires PairsOk(ps, |b|) && IsWidth(minWidth) && SameKinds(KeyValues(ps))
    requires ValuesOk(KeyValues(ps), |b|) && CanPack(KeyValues(ps))
    requires (b1, keys) == CreateVector(b, KeyValues(ps), 2, true, None, minWidth)
    requires ValuesOk(ValValues(ps), |b1|) && ValueOk(keys, |b1|) && !IsInline(keys.kind)
    requires VectorAsserts(b, KeyValues(ps), 2, None, minWidth)
    requires VectorAsserts(b1, ValValues(ps), 2, Some(keys), minWidth)
    ensures MapAsserts(b, ps, minWidth)
  {
    hide VectorAsserts;
    hide CreateVector;
  }

  lemma SamePrefix(keys: Value)
    ensures Prefix(Some(keys)) == 3 == Prefix(Some(Value(0, 0, 1)))
  {
  }

  lemma OffsetKind(keys: Value, size: nat)
    requires ValueOk(keys, size) && !IsInline(keys.kind)
    ensures IsWidth(keys.width) && 0 <= keys.u <= size
  {
  }

  lemma KeysPlace(p: nat, size: nat, w: nat)
    requires IsWidth(w) && p == size + PaddingBytes(size, w) + Scale(Prefix(Some(Value(0, 0, 1))), w)
    ensures p - 3 * w == size + PaddingBytes(size, w) + Scale(0, w)
  {
    hide PaddingBytes;
  }

  lemma KeysDistance(u: int, p: nat, size: nat, w: nat)
    requires IsWidth(w) && p - 3 * w == size + PaddingBytes(size, w) + Scale(0, w)
    ensures Distance(u, size, 0, w) == p - 3 * w - u
  {
  }

  lemma SmallWidth(kw: nat, w: nat)
    requires IsWidth(kw) && IsWidth(w)
    ensures kw < Range(w)
  {
    Ranges();
  }

  lemma KeysRead(r: seq<Byte>, p: nat, w: nat, u: int, kw: nat)
    requires IsWidth(w) && p >= 3 * w && 0 <= p - 3 * w - u < Range(w) && kw < Range(w)
    requires At(r, p - 3 * w, LE(p - 3 * w - u, w)) && At(r, p - 2 * w, LE(kw, w))
    ensures MapKeys(r, p, w) == Ok((u, kw))
  {
    hide LE;
    hide At;
    ReadOfAt(r, p - 3 * w, p - 3 * w - u, w);
    ReadOfAt(r, p - 2 * w, kw, w);
  }

  /** A map of sorted pairs. */
  lemma MapHolds(b: seq<Byte>, ps: seq<TwoValue>, es: seq<Entry>, minWidth: nat)
    requires PairsHold(b, ps, es) && PairsOk(ps, |b|) && IsWidth(minWidth) && Ascending(es)
    requires |CreateMap(b, ps, minWidth).0| < MAX_UINT64
    ensures var (r, v) := CreateMap(b, ps, minWidth);
      && |b| <= |r| && r[..|b|] == b && Holds(r, v, TMap(es))
  {
    hide CreateVector;
    hide Holds;
    PartsHold(b, ps, es);
    AllHoldOk(b, KeyValues(ps), KeyTrees(es));
    KeyValuesSame(ps, |b|);
    var (b1, keys) := CreateVector(b, KeyValues(ps), 2, true, None, minWidth);
    ShorterFirst(b, ps, minWidth);
    TypedHolds(b, KeyValues(ps), KeyTrees(es), 2, minWidth);
    AllHoldAppend(b1, b, ValValues(ps), ValTrees(es));
    MapOver(b1, ValValues(ps), keys, es, minWidth);
    var r := CreateMap(b, ps, minWidth).0;
    assert r[..|b|] == b1[..|b|];
  }

  lemma KeyValuesSame(ps: seq<TwoValue>, size: nat)
    requires PairsOk(ps, size)
    ensures SameKinds(KeyValues(ps)) && ElementKind(KeyValues(ps)) == KEY
  {
  }

  lemma ShorterFirst(b: seq<Byte>, ps: seq<TwoValue>, minWidth: nat)
    requires PairsOk(ps, |b|) && IsWidth(minWidth)
    ensures |CreateVector(b, KeyValues(ps), 2, true, None, minWidth).0| <= |CreateMap(b, ps, minWidth).0|
  {
    hide CreateVector;
    CreateVectorKind(b, KeyValues(ps), minWidth);
    var (b1, keys) := CreateVector(b, KeyValues(ps), 2, true, None, minWidth);
    KeyValuesSame(ps, |b|);
    VectorExtends(b, KeyValues(ps), 2, true, None, minWidth);
    VectorExtends(b1, ValValues(ps), 2, false, Some(keys), minWidth);
  }

  lemma CreateVectorKind(b: seq<Byte>, vs: seq<Value>, minWidth: nat)
    requires ValuesOk(vs, |b|) && IsWidth(minWidth) && CanPack(vs) && SameKinds(vs)
    ensures var (r, v) := CreateVector(b, vs, 2, true, None, minWidth);
      !IsInline(v.kind) && IsWidth(v.width) && 0 <= v.u <= |r|
  {
    hide VectorHead;
    hide VectorWidth;
    VectorExtends(b, vs, 2, true, None, minWidth);
  }

  lemma MapOver(b: seq<Byte>, vs: seq<Value>, keys: Value, es: seq<Entry>, minWidth: nat)
    requires AllHold(b, vs, ValTrees(es)) && Holds(b, keys, TTyped(KEY, KeyTrees(es)))
    requires keys.kind == ToTypedVector(KEY) && ValuesOk(vs, |b|) && CanPack(vs) && IsWidth(minWidth) && Ascending(es)
    requires |CreateVector(b, vs, 2, false, Some(keys), minWidth).0| < MAX_UINT64
    ensures var (r, v) := CreateVector(b, vs, 2, false, Some(keys), minWidth);
      && |b| <= |r| && r[..|b|] == b && Holds(r, v, TMap(es))
  {
    hide *;
    KeysOffset(b, keys, es);
    VectorExtends(b, vs, 2, false, Some(keys), minWidth);
    SizeReads(b, vs, 2, false, Some(keys), minWidth);
    MapKeysRead(b, vs, keys, minWidth);
    var (r, v) := CreateVector(b, vs, 2, false, Some(keys), minWidth);
    KeysGrow(b, r, keys, es);
    forall k | 0 <= k < |vs| ensures k < |es| && ReadsAt(r, VectorAt(r, v.u, v.width, k), es[k].value) {
      UntypedReads(b, vs, ValTrees(es), 2, Some(keys), minWidth, k);
    }
    MapKind(b, vs, keys, minWidth);
    AllHoldLength(b, vs, ValTrees(es));
    MapStands(r, v, es);
    VectorValue(r, v, TMap(es));
  }

  lemma AllHoldLength(b: seq<Byte>, vs: seq<Value>, ts: seq<Tree>)
    requires AllHold(b, vs, ts)
    ensures |vs| == |ts|
  {
  }

  lemma MapKind(b: seq<Byte>, vs: seq<Value>, keys: Value, minWidth: nat)
    requires ValuesOk(vs, |b|) && CanPack(vs) && IsWidth(minWidth) && ValueOk(keys, |b|) && !IsInline(keys.kind)
    ensures CreateVector(b, vs, 2, false, Some(keys), minWidth).1.kind == MAP
  {
    hide VectorHead;
    hide VectorWidth;
    hide WriteAll;
  }

  lemma MapStands(r: seq<Byte>, v: Value, es: seq<Entry>)
    requires IsWidth(v.width) && v.kind == MAP && SizeBefore(r, v.u, v.width) == Ok(|es|) && Ascending(es)
    requires KeysStand(r, MapKeys(r, v.u, v.width), es)
    requires forall k | 0 <= k < |es| :: ReadsAt(r, VectorAt(r, v.u, v.width, k), es[k].value)
    ensures Stands(r, v.u, v.width, v.kind, TMap(es))
  {
    hide Reads;
    hide ReadsAt;
    hide VectorAt;
    hide KeysStand;
    hide MapKeys;
    hide Ascending;
  }

  lemma KeysOffset(b: seq<Byte>, keys: Value, es: seq<Entry>)
    requires Holds(b, keys, TTyped(KEY, KeyTrees(es)))
    ensures ValueOk(keys, |b|) && !IsInline(keys.kind)
  {
    hide Stands;
  }

  lemma KeysGrow(b: seq<Byte>, r: seq<Byte>, keys: Value, es: seq<Entry>)
    requires Holds(b, keys, TTyped(KEY, KeyTrees(es))) && keys.kind == ToTypedVector(KEY)
    requires |b| <= |r| && r[..|b|] == b
    ensures KeysStand(r, Ok((keys.u, keys.width)), es)
  {
    hide Stands;
    hide KeysStand;
    var more := Grown(r, b);
    StandsAppend(b, more, keys.u, keys.width, keys.kind, TTyped(KEY, KeyTrees(es)));
    KeysFromTyped(r, keys.u, keys.width, es);
  }

  /** The key at place `i` of a vector of keys. */
  function KeyAt(b: seq<Byte>, keys: int, kw: nat, i: nat): Read<seq<Byte>>
    requires IsWidth(kw)
  {
    var p :- Indirect(b, keys + Scale(i, kw), kw);
    if 0 <= p < |b| then Ok(Chars(b, p)) else Oob
  }

  /** `bsearch` among the keys from `lo` to `hi`. */
  function Bsearch(b: seq<Byte>, keys: int, kw: nat, key: seq<Byte>, lo: nat, hi: nat): Read<Option<nat>>
    requires IsWidth(kw)
    decreases hi - lo
  {
    if lo >= hi then Ok(None) else
    var mid := lo + (hi - lo) / 2;
    var k :- KeyAt(b, keys, kw, mid);
    var c := Strcmp(key, k);
    if c == 0 then Ok(Some(mid))
    else if c < 0 then Bsearch(b, keys, kw, key, lo, mid)
    else Bsearch(b, keys, kw, key, mid + 1, hi)
  }

  const NULL_REF := Ref(0, 1, 1, NULL)

  /** `Map::operator[]`: the value under the key, or null. */
  function MapFind(b: seq<Byte>, p: int, w: nat, key: seq<Byte>): Read<Ref>
    requires IsWidth(w)
  {
    var (keys, kw) :- MapKeys(b, p, w);
    if !IsWidth(kw) then Ok(NULL_REF) else
    var n :- SizeBefore(b, keys, kw);
    var i :- Bsearch(b, keys, kw, key, 0, n);
    if i.None? then Ok(NULL_REF) else VectorAt(b, p, w, i.value)
  }

  lemma KeyAtIs(b: seq<Byte>, keys: int, kw: nat, es: seq<Entry>, i: nat)
    requires KeysStand(b, Ok((keys, kw)), es) && i < |es|
    ensures KeyAt(b, keys, kw, i) == Ok(es[i].key) && 0 !in es[i].key
  {
    hide Chars;
    assert KeyStands(b, TypedVectorAt(b, keys, kw, KEY, i), es[i].key);
    var p := Indirect(b, keys + Scale(i, kw), kw).value;
    CharsOf(b, p, es[i].key);
  }

  /** The search finds a key that is there, and says so when it is not. */
  lemma {:induction false} BsearchFinds(
    b: seq<Byte>, keys: int, kw: nat, es: seq<Entry>, key: seq<Byte>, lo: nat, hi: nat)
    requires KeysStand(b, Ok((keys, kw)), es) && Ascending(es) && 0 !in key && lo <= hi <= |es|
    requires forall i | 0 <= i < lo :: Strcmp(es[i].key, key) < 0
    requires forall i | hi <= i < |es| :: Strcmp(key, es[i].key) < 0
    ensures match Bsearch(b, keys, kw, key, lo, hi)
      case Ok(Some(i)) => i < |es| && es[i].key == key
      case Ok(None) => forall i | 0 <= i < |es| :: es[i].key != key
      case Oob => false
    decreases hi - lo
  {
    hide KeysStand;
    hide KeyAt;
    if lo < hi {
      var mid := lo + (hi - lo) / 2;
      KeyAtIs(b, keys, kw, es, mid);
      StrcmpZero(key, es[mid].key);
      var c := Strcmp(key, es[mid].key);
      if c < 0 {
        forall i | mid <= i < |es| ensures Strcmp(key, es[i].key) < 0 {
          if mid < i {
            KeyAtIs(b, keys, kw, es, i);
            StrcmpOrder(es[mid].key, es[i].key);
            StrcmpTrans(key, es[mid].key, es[i].key);
          }
        }
        BsearchFinds(b, keys, kw, es, key, lo, mid);
      } else if c > 0 {
        forall i | 0 <= i < mid + 1 ensures Strcmp(es[i].key, key) < 0 {
          if i < mid {
            KeyAtIs(b, keys, kw, es, i);
            StrcmpOrder(es[i].key, es[mid].key);
            StrcmpTrans(es[i].key, es[mid].key, key);
          }
        }
        BsearchFinds(b, keys, kw, es, key, mid + 1, hi);
      }
    } else {
      forall i | 0 <= i < |es| ensures es[i].key != key {
        KeyAtIs(b, keys, kw, es, i);
        StrcmpZero(key, es[i].key);
        StrcmpZero(es[i].key, key);
      }
    }
  }

  /** The builder notices exactly the keys that were added twice. */
  lemma DuplicatesExactly(b: seq<Byte>, ps: seq<TwoValue>, es: seq<Entry>)
    requires PairsHold(b, ps, es)
    ensures Duplicates(b, ps) <==> exists i, j | 0 <= i < j < |es| :: es[i].key == es[j].key
  {
    hide KeyOf;
    hide PairHolds;
    forall i | 0 <= i < |ps| ensures KeyOf(b, ps[i]) == es[i].key {
      KeyOfPair(b, ps[i], es[i]);
    }
  }

  /** Looking up a key yields the value stored under it, and null for every other key. */
  lemma MapFindReads(b: seq<Byte>, p: int, w: nat, es: seq<Entry>, key: seq<Byte>)
    requires Stands(b, p, w, MAP, TMap(es)) && 0 !in key
    ensures MapFind(b, p, w, key).Ok?
    ensures forall i | 0 <= i < |es| && es[i].key == key :: Reads(b, MapFind(b, p, w, key).value, es[i].value)
    ensures (forall i | 0 <= i < |es| :: es[i].key != key) ==> MapFind(b, p, w, key) == Ok(NULL_REF)
  {
    hide Reads;
    hide VectorAt;
    hide Bsearch;
    hide KeyStands;
    var (keys, kw) := MapKeys(b, p, w).value;
    BsearchFinds(b, keys, kw, es, key, 0, |es|);
    var r := Bsearch(b, keys, kw, key, 0, |es|).value;
    if r.Some? {
      var i := r.value;
      assert ReadsAt(b, VectorAt(b, p, w, i), es[i].value);
      forall j | 0 <= j < |es| && es[j].key == key ensures j == i {
        KeysDiffer(es, i, j);
      }
    }
  }

  lemma KeysDiffer(es: seq<Entry>, i: nat, j: nat)
    requires Ascending(es) && i < |es| && j < |es| && es[i].key == es[j].key
    ensures i == j
  {
    hide KeyBefore;
    NotBeforeSelf(es[i].key);
  }

  lemma NotBeforeSelf(a: seq<Byte>)
    ensures !KeyBefore(a, a)
  {
  }

  lemma {:induction false} StrcmpSelf(a: seq<Byte>)
    ensures Strcmp(a, a) == 0
  {
    if a != [] {
      StrcmpSelf(a[1..]);
    }
  }

  /** In terms of what was added: each key finds what was added under it, in whatever order that was. */
  lemma AddedFound(b: seq<Byte>, p: int, w: nat, added: seq<Entry>, key: seq<Byte>)
    requires KeysOk(added) && Stands(b, p, w, MAP, TMap(SortEntries(added))) && 0 !in key
    ensures MapFind(b, p, w, key).Ok?
    ensures forall e | e in added && e.key == key :: Reads(b, MapFind(b, p, w, key).value, e.value)
    ensures (forall e | e in added :: e.key != key) ==> MapFind(b, p, w, key) == Ok(NULL_REF)
  {
    hide *;
    var es := SortEntries(added);
    SortedMembers(added);
    MapFindReads(b, p, w, es, key);
  }
}
