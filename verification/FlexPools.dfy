/** Shared keys and strings: what the pools hold stays readable, and a pooled offset is as good as a fresh copy. */
module FlexPools {
  import opened Bytes
  import opened FlexReader
  import opened FlexBuilder
  import opened FlexWidths
  import opened FlexValues
  import opened FlexMaps

  /** A pooled key is a C string in the buffer. */
  predicate KeyPooled(b: seq<Byte>, p: nat) {
    p < |b| && CString(b, p, Chars(b, p))
  }

  predicate KeyPoolOk(b: seq<Byte>, pool: seq<nat>) {
    forall i | 0 <= i < |pool| :: KeyPooled(b, pool[i])
  }

  /** A pooled string has its length in front of it and a NUL behind it. */
  predicate StringPooled(b: seq<Byte>, so: StringOffset) {
    && so.len < MAX_UINT64
    && SizeBefore(b, so.off, WidthU(so.len)) == Ok(so.len)
    && so.off + so.len < |b| && b[so.off + so.len] == 0
  }

  predicate StringPoolOk(b: seq<Byte>, pool: seq<StringOffset>) {
    forall i | 0 <= i < |pool| :: StringPooled(b, pool[i])
  }

  lemma KeyPooledAppend(b: seq<Byte>, more: seq<Byte>, p: nat)
    requires KeyPooled(b, p)
    ensures KeyPooled(b + more, p) && Chars(b + more, p) == Chars(b, p)
  {
    hide Chars;
    AtAppend(b, more, p, Chars(b, p) + [0]);
    CharsOf(b + more, p, Chars(b, p));
  }

  lemma KeyPoolAppend(b: seq<Byte>, more: seq<Byte>, pool: seq<nat>)
    requires KeyPoolOk(b, pool)
    ensures KeyPoolOk(b + more, pool)
  {
    hide KeyPooled;
    forall i | 0 <= i < |pool| ensures KeyPooled(b + more, pool[i]) {
      KeyPooledAppend(b, more, pool[i]);
    }
  }

  lemma StringPoolAppend(b: seq<Byte>, more: seq<Byte>, pool: seq<StringOffset>)
    requires StringPoolOk(b, pool)
    ensures StringPoolOk(b + more, pool)
  {
    hide ReadLE;
    forall i | 0 <= i < |pool| ensures StringPooled(b + more, pool[i]) {
      ReadAppend(b, more, pool[i].off - WidthU(pool[i].len), WidthU(pool[i].len));
    }
  }

  /** Exactly a pooled copy of the same key is found. */
  lemma {:induction false} FindKeyIs(b: seq<Byte>, pool: seq<nat>, chars: seq<Byte>)
    requires KeyPoolOk(b, pool) && 0 !in chars
    ensures match FindKey(b, pool, chars)
      case Some(p) => p in pool && KeyPooled(b, p) && Chars(b, p) == chars
      case None => forall i | 0 <= i < |pool| :: Chars(b, pool[i]) != chars
  {
    hide KeyPooled;
    hide Chars;
    hide Strcmp;
    if pool != [] {
      var c := Chars(b, pool[0]);
      StrcmpZero(c, chars);
      if c != chars {
        assert Strcmp(c, chars) != 0;
        FindKeyIs(b, pool[1..], chars);
      }
    }
  }

  /** `memcmp` that finds no difference has seen equal bytes. */
  lemma {:induction false} MemcmpZero(b: seq<Byte>, p: nat, q: nat, n: nat)
    requires p + n <= |b| && q + n <= |b|
    ensures Memcmp(b, p, q, n) == 0 <==> b[p..p + n] == b[q..q + n]
    ensures Memcmp(b, p, q, n) == -Memcmp(b, q, p, n)
    decreases n
  {
    if n > 0 {
      MemcmpZero(b, p + 1, q + 1, n - 1);
      assert b[p..p + n] == [b[p]] + b[p + 1..p + n] && b[q..q + n] == [b[q]] + b[q + 1..q + n];
      assert b[p..p + n][0] == b[p] && b[q..q + n][0] == b[q];
      assert b[p..p + n][1..] == b[p + 1..p + n] && b[q..q + n][1..] == b[q + 1..q + n];
    }
  }

  /** Neither string comes before the other exactly when they are the same. */
  lemma NeitherBefore(b: seq<Byte>, a: StringOffset, c: StringOffset)
    requires a.off + a.len < |b| && c.off + c.len < |b| && b[a.off + a.len] == 0 == b[c.off + c.len]
    ensures !StringBefore(b, a, c) && !StringBefore(b, c, a) <==>
      a.len == c.len && b[a.off..a.off + a.len] == b[c.off..c.off + c.len]
  {
    var n := if a.len < c.len then a.len else c.len;
    MemcmpZero(b, a.off, c.off, n + 1);
    var x, y := b[a.off..a.off + n + 1], b[c.off..c.off + n + 1];
    assert x[..n] == b[a.off..a.off + n] && y[..n] == b[c.off..c.off + n];
    if a.len == c.len {
      assert x[n] == 0 == y[n];
      assert x == x[..n] + [0] && y == y[..n] + [0];
    }
  }

  lemma {:induction false} FindStringIs(b: seq<Byte>, pool: seq<StringOffset>, so: StringOffset)
    requires StringPoolOk(b, pool) && so.off + so.len < |b| && b[so.off + so.len] == 0
    ensures match FindString(b, pool, so)
      case Some(k) =>
        && StringPooled(b, k) && k.len == so.len
        && b[k.off..k.off + k.len] == b[so.off..so.off + so.len]
      case None => forall i | 0 <= i < |pool| ::
        !(pool[i].len == so.len && b[pool[i].off..pool[i].off + pool[i].len] == b[so.off..so.off + so.len])
  {
    hide StringBefore;
    if pool != [] {
      NeitherBefore(b, pool[0], so);
      if StringBefore(b, pool[0], so) || StringBefore(b, so, pool[0]) {
        FindStringIs(b, pool[1..], so);
      }
    }
  }

  /** What every operation keeps of the pools. */
  predicate PoolsOk(s: Builder) {
    KeyPoolOk(s.buf, s.keyPool) && StringPoolOk(s.buf, s.stringPool)
  }

  lemma PoolsAppend(b: seq<Byte>, more: seq<Byte>, keys: seq<nat>, strings: seq<StringOffset>)
    requires KeyPoolOk(b, keys) && StringPoolOk(b, strings)
    ensures KeyPoolOk(b + more, keys) && StringPoolOk(b + more, strings)
  {
    KeyPoolAppend(b, more, keys);
    StringPoolAppend(b, more, strings);
  }

  lemma KeyStored(b: seq<Byte>, chars: seq<Byte>)
    requires 0 !in chars
    ensures var r := b + (chars + [0]);
      CString(r, |b|, chars) && Chars(r, |b|) == chars && KeyPooled(r, |b|)
  {
    AtLast(b, chars + [0]);
    CharsOf(b + (chars + [0]), |b|, chars);
  }

  /** A key, fresh or shared: its value on the stack stands for its characters. */
  lemma KeyHolds(s: Builder, chars: seq<Byte>)
    requires PoolsOk(s) && 0 !in chars
    ensures Pushed(s, Key(s, chars), TKey(chars))
  {
    hide Chars;
    hide KeyPooled;
    hide StringPooled;
    var sloc, b := |s.buf|, s.buf + (chars + [0]);
    KeyStored(s.buf, chars);
    PoolsAppend(s.buf, chars + [0], s.keyPool, s.stringPool);
    if s.flags.shareKeys {
      FindKeyIs(b, s.keyPool, chars);
      var k := FindKey(b, s.keyPool, chars);
      if k.Some? {
        var i :| 0 <= i < |s.keyPool| && s.keyPool[i] == k.value;
        KeyPooledAppend(s.buf, chars + [0], k.value);
        PooledKey(s.buf, k.value);
      }
    }
  }

  lemma PooledKey(b: seq<Byte>, p: nat)
    requires KeyPooled(b, p)
    ensures p < |b| && CString(b, p, Chars(b, p))
  {
  }

  /** What `CreateBlob` appends. */
  lemma BlobStored(b: seq<Byte>, bytes: seq<Byte>, trailing: seq<Byte>)
    requires |bytes| < MAX_UINT64
    ensures var w := WidthU(|bytes|);
      var p := |Pad(b, w)| + w;
      var r := Pad(b, w) + LE(|bytes|, w) + (bytes + trailing);
      && SizeBefore(r, p, w) == Ok(|bytes|) && At(r, p, bytes + trailing) && At(r, p, bytes)
      && |b| <= |r| && r[..|b|] == b && p + |bytes| + |trailing| == |r|
  {
    hide LE;
    hide ReadLE;
    hide PaddingBytes;
    hide At;
    var w := WidthU(|bytes|);
    var b1 := Pad(b, w);
    var b2 := b1 + LE(|bytes|, w);
    AtLast(b1, LE(|bytes|, w));
    AtAppend(b2, bytes + trailing, |b1|, LE(|bytes|, w));
    UIntSurvives(|bytes|, w);
    ReadOfAt(b2 + (bytes + trailing), |b1|, |bytes|, w);
    AtLast(b2, bytes + trailing);
    AtSplit(b2 + (bytes + trailing), |b2|, bytes, trailing);
  }

  /** The buffer with a string at its end, and the place of the string. */
  function StringBytes(b: seq<Byte>, chars: seq<Byte>): (seq<Byte>, nat) {
    var w := WidthU(|chars|);
    (Pad(b, w) + LE(|chars|, w) + (chars + [0]), |Pad(b, w)| + w)
  }

  function StringVal(u: int, len: nat): (v: Value)
    ensures v.u == u
  {
    Value(u, STRING, WidthU(len))
  }

  lemma StringIs(s: Builder, chars: seq<Byte>)
    ensures var (b, p) := StringBytes(s.buf, chars);
      var fresh1 := Push(s.(buf := b), StringVal(p, |chars|));
      String(s, chars) ==
        if !s.flags.shareStrings then fresh1 else
        match FindString(b, s.stringPool, StringOffset(p, |chars|))
        case Some(known) => Push(s, StringVal(known.off, |chars|))
        case None => fresh1.(stringPool := s.stringPool + [StringOffset(p, |chars|)])
  {
    hide WidthU;
    hide LE;
    hide PaddingBytes;
    hide FindString;
  }

  lemma StringStored(b0: seq<Byte>, chars: seq<Byte>)
    requires |chars| < MAX_UINT64
    ensures var (b, p) := StringBytes(b0, chars);
      && |b0| <= |b| && b[..|b0|] == b0 && p <= |b|
      && SizeBefore(b, p, WidthU(|chars|)) == Ok(|chars|) && At(b, p, chars + [0])
      && p + |chars| < |b| && b[p + |chars|] == 0 && b[p..p + |chars|] == chars
      && StringPooled(b, StringOffset(p, |chars|))
  {
    BlobStored(b0, chars, [0]);
    var (b, p) := StringBytes(b0, chars);
    hide WidthU;
    hide LE;
    hide ReadLE;
    hide PaddingBytes;
    hide At;
    StoredBytes(b, p, chars);
  }

  lemma StringValue(b: seq<Byte>, p: nat, chars: seq<Byte>)
    requires p <= |b| && SizeBefore(b, p, WidthU(|chars|)) == Ok(|chars|) && At(b, p, chars + [0])
    ensures Holds(b, StringVal(p, |chars|), TString(chars))
  {
    hide WidthU;
    hide ReadLE;
    hide At;
  }

  /** What is true after an operation that pushed one value: it stands for `t`, and all else is kept. */
  ghost predicate Pushed(s: Builder, r: Builder, t: Tree) {
    && PoolsOk(r) && |s.buf| <= |r.buf| && r.buf[..|s.buf|] == s.buf
    && |r.stack| == |s.stack| + 1 && r.stack[..|s.stack|] == s.stack
    && Holds(r.buf, r.stack[|s.stack|], t)
    && r.flags == s.flags && r.duplicateKeys == s.duplicateKeys
  }

  lemma PushedIs(s: Builder, r: Builder, b: seq<Byte>, v: Value, keys: seq<nat>, strings: seq<StringOffset>, t: Tree)
    requires r == s.(buf := b, stack := s.stack + [v], keyPool := keys, stringPool := strings)
    requires |s.buf| <= |b| && b[..|s.buf|] == s.buf && Holds(b, v, t)
    requires KeyPoolOk(b, keys) && StringPoolOk(b, strings)
    ensures Pushed(s, r, t)
  {
    hide Holds;
    hide KeyPoolOk;
    hide StringPoolOk;
  }

  /** A string, fresh or shared. */
  lemma StringHolds(s: Builder, chars: seq<Byte>)
    requires PoolsOk(s) && |chars| < MAX_UINT64
    ensures Pushed(s, String(s, chars), TString(chars))
  {
    hide *;
    StringIs(s, chars);
    StringStored(s.buf, chars);
    PoolsAre(s);
    var (b, p) := StringBytes(s.buf, chars);
    var more := Grown(b, s.buf);
    PoolsAppend(s.buf, more, s.keyPool, s.stringPool);
    var so := StringOffset(p, |chars|);
    var k := if s.flags.shareStrings then FindString(b, s.stringPool, so) else None;
    if k.Some? {
      FindStringApart(b, s.stringPool, so, chars);
      PoolMember(s.buf, s.stringPool, k.value);
      SameChars(s.buf, more, k.value, chars);
      StringValue(s.buf, k.value.off, chars);
      WholeBuffer(s.buf);
      PushIs(s, StringVal(k.value.off, |chars|));
      PushedIs(s, Push(s, StringVal(k.value.off, |chars|)), s.buf, StringVal(k.value.off, |chars|),
               s.keyPool, s.stringPool, TString(chars));
    } else {
      StringValue(b, p, chars);
      StringPoolAdd(b, s.stringPool, so);
      PushIs(s.(buf := b), StringVal(p, |chars|));
      var strings := if s.flags.shareStrings then s.stringPool + [so] else s.stringPool;
      PushedIs(s, String(s, chars), b, StringVal(p, |chars|), s.keyPool, strings, TString(chars));
    }
  }

  lemma PoolsAre(s: Builder)
    requires PoolsOk(s)
    ensures KeyPoolOk(s.buf, s.keyPool) && StringPoolOk(s.buf, s.stringPool)
  {
  }

  lemma WholeBuffer(b: seq<Byte>)
    ensures b[..|b|] == b
  {
  }

  lemma PushIs(s: Builder, v: Value)
    ensures Push(s, v) == s.(stack := s.stack + [v])
  {
  }

  lemma StringPoolAdd(b: seq<Byte>, pool: seq<StringOffset>, so: StringOffset)
    requires StringPoolOk(b, pool) && StringPooled(b, so)
    ensures StringPoolOk(b, pool + [so])
  {
    hide StringPooled;
  }

  lemma StoredBytes(b: seq<Byte>, p: nat, chars: seq<Byte>)
    requires At(b, p, chars + [0])
    ensures p + |chars| < |b| && b[p + |chars|] == 0 && b[p..p + |chars|] == chars
  {
    var t := chars + [0];
    assert b[p..p + |t|][|chars|] == 0;
    assert b[p..p + |chars|] == b[p..p + |t|][..|chars|];
  }

  lemma PoolMember(b: seq<Byte>, pool: seq<StringOffset>, k: StringOffset)
    requires StringPoolOk(b, pool) && k in pool
    ensures StringPooled(b, k)
  {
  }

  /** The pooled string, seen in the buffer without the fresh copy. */
  lemma SameChars(b: seq<Byte>, more: seq<Byte>, k: StringOffset, chars: seq<Byte>)
    requires StringPooled(b, k) && k.len == |chars| && (b + more)[k.off..k.off + k.len] == chars
    ensures At(b, k.off, chars + [0]) && k.off <= |b|
    ensures SizeBefore(b, k.off, WidthU(|chars|)) == Ok(|chars|)
  {
    assert b[k.off..k.off + k.len] == chars;
    assert b[k.off..k.off + k.len + 1] == chars + [0];
  }

  /** A key found once is found ever after, at the same offset, whatever is appended to buffer and pool. */
  lemma {:induction false} FindKeyStable(b: seq<Byte>, more: seq<Byte>, pool: seq<nat>, later: seq<nat>, chars: seq<Byte>)
    requires KeyPoolOk(b, pool) && FindKey(b, pool, chars).Some?
    ensures FindKey(b + more, pool + later, chars) == FindKey(b, pool, chars)
  {
    hide KeyPooled;
    hide Chars;
    hide Strcmp;
    KeyPooledAppend(b, more, pool[0]);
    assert (pool + later)[1..] == pool[1..] + later;
    var c := Chars(b, pool[0]);
    if Strcmp(c, chars) < 0 || Strcmp(chars, c) < 0 {
      FindKeyStable(b, more, pool[1..], later, chars);
    }
  }

  /** With sharing on, what is pushed for a key is what the pool has for it from then on. */
  lemma KeyShared(s: Builder, chars: seq<Byte>)
    requires PoolsOk(s) && 0 !in chars && s.flags.shareKeys
    ensures var r := Key(s, chars);
      && |r.stack| == |s.stack| + 1
      && FindKey(r.buf, r.keyPool, chars) == Some(r.stack[|s.stack|].u)
      && s.keyPool <= r.keyPool
  {
    hide Chars;
    hide KeyPooled;
    hide StringPooled;
    hide FindKey;
    var sloc, b, r := |s.buf|, s.buf + (chars + [0]), Key(s, chars);
    KeyStored(s.buf, chars);
    PoolsAppend(s.buf, chars + [0], s.keyPool, s.stringPool);
    var k := FindKey(b, s.keyPool, chars);
    if k.Some? {
      FindKeySame(s.buf, chars + [0], s.keyPool, chars);
    } else {
      FindKeyLast(b, s.keyPool, sloc, chars);
    }
  }

  /** Appending to the buffer alone changes no answer of the pool. */
  lemma {:induction false} FindKeySame(b: seq<Byte>, more: seq<Byte>, pool: seq<nat>, chars: seq<Byte>)
    requires KeyPoolOk(b, pool)
    ensures FindKey(b + more, pool, chars) == FindKey(b, pool, chars)
  {
    hide KeyPooled;
    hide Chars;
    hide Strcmp;
    if pool != [] {
      KeyPooledAppend(b, more, pool[0]);
      FindKeySame(b, more, pool[1..], chars);
    }
  }

  lemma {:induction false} FindKeyLast(b: seq<Byte>, pool: seq<nat>, p: nat, chars: seq<Byte>)
    requires FindKey(b, pool, chars).None? && Chars(b, p) == chars
    ensures FindKey(b, pool + [p], chars) == Some(p)
  {
    hide Chars;
    if pool == [] {
      StrcmpSelf(chars);
      assert pool + [p] == [p];
    } else {
      hide Strcmp;
      assert (pool + [p])[1..] == pool[1..] + [p];
      FindKeyLast(b, pool[1..], p, chars);
    }
  }

  function StringPart(b: seq<Byte>, so: StringOffset): seq<Byte>
    requires StringPooled(b, so)
  {
    b[so.off..so.off + so.len]
  }

  predicate Denotes(b: seq<Byte>, so: StringOffset, chars: seq<Byte>) {
    StringPooled(b, so) && StringPart(b, so) == chars
  }

  /** The offset the pool has for a string with these characters. */
  predicate StringFound(b: seq<Byte>, pool: seq<StringOffset>, chars: seq<Byte>, off: int) {
    exists i | 0 <= i < |pool| :: pool[i].off == off && Denotes(b, pool[i], chars)
  }

  /** No two pooled strings are alike. */
  predicate StringsDiffer(b: seq<Byte>, pool: seq<StringOffset>) {
    && StringPoolOk(b, pool)
    && forall i, j | 0 <= i < j < |pool| :: StringPart(b, pool[i]) != StringPart(b, pool[j])
  }

  /** So all values pushed for one string have one offset. */
  lemma StringFoundOnce(b: seq<Byte>, pool: seq<StringOffset>, chars: seq<Byte>, p: int, q: int)
    requires StringsDiffer(b, pool) && StringFound(b, pool, chars, p) && StringFound(b, pool, chars, q)
    ensures p == q
  {
    hide StringPooled;
    hide StringPart;
    var i :| 0 <= i < |pool| && pool[i].off == p && Denotes(b, pool[i], chars);
    var j :| 0 <= j < |pool| && pool[j].off == q && Denotes(b, pool[j], chars);
    assert !(i < j) && !(j < i);
  }

  lemma DenotesAppend(b: seq<Byte>, more: seq<Byte>, so: StringOffset)
    requires StringPooled(b, so)
    ensures StringPooled(b + more, so) && StringPart(b + more, so) == StringPart(b, so)
  {
    hide ReadLE;
    ReadAppend(b, more, so.off - WidthU(so.len), WidthU(so.len));
  }

  lemma StringFoundAppend(b: seq<Byte>, more: seq<Byte>, pool: seq<StringOffset>, later: seq<StringOffset>,
    chars: seq<Byte>, off: int)
    requires StringFound(b, pool, chars, off)
    ensures StringFound(b + more, pool + later, chars, off)
  {
    hide StringPooled;
    hide StringPart;
    var i :| 0 <= i < |pool| && pool[i].off == off && Denotes(b, pool[i], chars);
    DenotesAppend(b, more, pool[i]);
    assert (pool + later)[i] == pool[i];
  }

  lemma StringsDifferAppend(b: seq<Byte>, more: seq<Byte>, pool: seq<StringOffset>)
    requires StringsDiffer(b, pool)
    ensures StringsDiffer(b + more, pool)
  {
    hide StringPooled;
    hide StringPart;
    forall i | 0 <= i < |pool|
      ensures StringPooled(b + more, pool[i]) && StringPart(b + more, pool[i]) == StringPart(b, pool[i])
    {
      DenotesAppend(b, more, pool[i]);
    }
  }

  /** With sharing on, a string is pushed with the offset the pool has for it, and the pool keeps its strings apart. */
  lemma StringShared(s: Builder, chars: seq<Byte>)
    requires PoolsOk(s) && |chars| < MAX_UINT64 && s.flags.shareStrings && StringsDiffer(s.buf, s.stringPool)
    ensures var r := String(s, chars);
      && |r.stack| == |s.stack| + 1 && s.stringPool <= r.stringPool
      && StringsDiffer(r.buf, r.stringPool)
      && StringFound(r.buf, r.stringPool, chars, r.stack[|s.stack|].u)
  {
    hide *;
    PoolsAre(s);
    StringIs(s, chars);
    StringStored(s.buf, chars);
    var (b, p) := StringBytes(s.buf, chars);
    var more := Grown(b, s.buf);
    StringPoolAppend(s.buf, more, s.stringPool);
    var so := StringOffset(p, |chars|);
    FindStringApart(b, s.stringPool, so, chars);
    var k := FindString(b, s.stringPool, so);
    if k.Some? {
      PoolMember(s.buf, s.stringPool, k.value);
      SharedFound(s.buf, more, s.stringPool, k.value, chars);
      PushIs(s, StringVal(k.value.off, |chars|));
    } else {
      StringsDifferAppend(s.buf, more, s.stringPool);
      FreshFound(b, s.stringPool, so, chars);
      PushIs(s.(buf := b), StringVal(p, |chars|));
    }
  }

  lemma SharedFound(b: seq<Byte>, more: seq<Byte>, pool: seq<StringOffset>, k: StringOffset, chars: seq<Byte>)
    requires k in pool && StringPooled(b, k) && k.len == |chars| && k.off + k.len <= |b + more|
    requires (b + more)[k.off..k.off + k.len] == chars
    ensures StringFound(b, pool, chars, k.off)
  {
    hide ReadLE;
    assert b[k.off..k.off + k.len] == (b + more)[k.off..k.off + k.len];
    var i :| 0 <= i < |pool| && pool[i] == k;
    assert Denotes(b, pool[i], chars);
  }

  lemma FreshFound(b: seq<Byte>, pool: seq<StringOffset>, so: StringOffset, chars: seq<Byte>)
    requires StringsDiffer(b, pool) && StringPooled(b, so) && StringPart(b, so) == chars
    requires forall i | 0 <= i < |pool| :: StringPart(b, pool[i]) != chars
    ensures StringsDiffer(b, pool + [so]) && StringFound(b, pool + [so], chars, so.off)
    ensures pool <= pool + [so]
  {
    hide StringPooled;
    hide StringPart;
    assert (pool + [so])[|pool|] == so;
  }

  lemma FindStringApart(b: seq<Byte>, pool: seq<StringOffset>, so: StringOffset, chars: seq<Byte>)
    requires StringPoolOk(b, pool) && StringPooled(b, so) && so.len == |chars|
    requires so.off + so.len <= |b| && b[so.off..so.off + so.len] == chars
    ensures StringPart(b, so) == chars
    ensures match FindString(b, pool, so)
      case Some(k) => k in pool && k.len == |chars| && k.off + k.len <= |b| && b[k.off..k.off + k.len] == chars
      case None => forall i | 0 <= i < |pool| :: StringPart(b, pool[i]) != chars
  {
    FindStringIs(b, pool, so);
  }
}
