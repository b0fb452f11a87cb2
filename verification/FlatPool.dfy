/** Shared strings: the pool finds a string exactly when it was stored before. */
module FlatPool {
  import opened Bytes
  import opened FlatLayout
  import opened FlatBuilder
  import opened FlatObjects

  lemma {:induction false} MemcmpEqual(a: seq<Byte>, c: seq<Byte>, n: nat)
    requires n <= |a| && n <= |c|
    ensures Memcmp(a, c, n) == 0 <==> a[..n] == c[..n]
    ensures Memcmp(a, c, n) == -Memcmp(c, a, n)
  {
    if n > 0 {
      MemcmpEqual(a[1..], c[1..], n - 1);
      assert a[..n] == [a[0]] + a[1..][..n - 1];
      assert c[..n] == [c[0]] + c[1..][..n - 1];
      if a[..n] == c[..n] {
        assert a[1..][..n - 1] == a[..n][1..] == c[..n][1..] == c[1..][..n - 1];
        assert a[0] == a[..n][0] == c[..n][0] == c[0];
      }
    }
  }

  /** Strings neither of which is less than the other are equal. */
  lemma NeitherLess(a: seq<Byte>, c: seq<Byte>)
    ensures !StringLessThan(a, c) && !StringLessThan(c, a) <==> a == c
  {
    var n := if |a| < |c| then |a| else |c|;
    MemcmpEqual(a, c, n);
    assert a[..|a|] == a && c[..|c|] == c;
  }

  lemma StringAtHeld(d: seq<Byte>, m: nat, off: nat, chars: seq<Byte>)
    requires HoldsAt(d, m, off, Str(chars))
    ensures StringAt(d, off) == chars
  {
    var p := |d| - off;
    AtSplit(d, p, LE(|chars|, 4) + chars, [0]);
    AtSplit(d, p, LE(|chars|, 4), chars);
    Ranges();
    ReadOfAt(d, p, |chars|, 4);
  }

  /** Every pooled offset is that of a string, and no string is pooled twice. */
  ghost predicate PoolOk(d: seq<Byte>, m: nat, pool: seq<nat>) {
    && (forall i | 0 <= i < |pool| :: HoldsAt(d, m, pool[i], Str(StringAt(d, pool[i]))))
    && (forall i, j | 0 <= i < j < |pool| :: StringAt(d, pool[i]) != StringAt(d, pool[j]))
  }

  lemma StringAtExtends(d1: seq<Byte>, m1: nat, d0: seq<Byte>, m0: nat, off: nat)
    requires Extends(d1, d0) && m0 <= m1 && HoldsAt(d0, m0, off, Str(StringAt(d0, off)))
    ensures HoldsAt(d1, m1, off, Str(StringAt(d0, off)))
    ensures StringAt(d1, off) == StringAt(d0, off)
  {
    HoldsAtExtends(d1, m1, d0, m0, off, Str(StringAt(d0, off)));
    StringAtHeld(d1, m1, off, StringAt(d0, off));
  }

  lemma PoolExtends(d1: seq<Byte>, m1: nat, d0: seq<Byte>, m0: nat, pool: seq<nat>)
    requires Extends(d1, d0) && m0 <= m1 && PoolOk(d0, m0, pool)
    ensures PoolOk(d1, m1, pool)
    ensures forall i | 0 <= i < |pool| :: StringAt(d1, pool[i]) == StringAt(d0, pool[i])
  {
    hide HoldsAt;
    hide StringAt;
    forall i | 0 <= i < |pool|
      ensures StringAt(d1, pool[i]) == StringAt(d0, pool[i])
      ensures HoldsAt(d1, m1, pool[i], Str(StringAt(d1, pool[i])))
    {
      StringAtExtends(d1, m1, d0, m0, pool[i]);
    }
  }

  lemma {:induction false} FindStringFinds(d: seq<Byte>, pool: seq<nat>, chars: seq<Byte>)
    ensures match FindString(d, pool, chars)
      case Some(off) => off in pool && StringAt(d, off) == chars
      case None => forall i | 0 <= i < |pool| :: StringAt(d, pool[i]) != chars
  {
    if pool != [] {
      NeitherLess(StringAt(d, pool[0]), chars);
      FindStringFinds(d, pool[1..], chars);
    }
  }

  /**
    A shared string reads back as itself, wherever it is stored. Pooled offsets keep their strings although
    a fresh copy was written over the same bytes and taken back.
   */
  lemma SharedStringHolds(s: Builder, chars: seq<Byte>)
    requires PoolOk(s.data, s.minalign, s.pool) && |CreateString(s, chars).data| < MAX_BUFFER_SIZE
    ensures var (r, off) := CreateSharedString(s, chars);
      && Grows(r, s) && HoldsAt(r.data, r.minalign, off, Str(chars))
      && PoolOk(r.data, r.minalign, r.pool) && off in r.pool
      && (forall p | p in s.pool :: p in r.pool)
  {
    hide HoldsAt;
    hide StringAt;
    var s1 := CreateString(s, chars);
    CreateStringLength(s, chars);
    StringHolds(s, chars);
    StringAtHeld(s1.data, s1.minalign, |s1.data|, chars);
    PoolExtends(s1.data, s1.minalign, s.data, s.minalign, s.pool);
    FindStringFinds(s1.data, s.pool, chars);
    match FindString(s1.data, s.pool, chars)
    case Some(known) =>
      var i :| 0 <= i < |s.pool| && s.pool[i] == known;
      assert s.data[|s.data| - |s.data|..] == s.data;
      PoolExtends(s.data, s1.minalign, s.data, s.minalign, s.pool);
    case None =>
  }

  lemma CreateStringLength(s: Builder, chars: seq<Byte>)
    ensures |CreateString(s, chars).data| > |chars|
    ensures CreateString(s, chars).pool == s.pool
  {
  }

  /** A string pooled before is found at the offset it had then. */
  lemma SharedStringAgain(s: Builder, chars: seq<Byte>, off: nat)
    requires PoolOk(s.data, s.minalign, s.pool) && |CreateString(s, chars).data| < MAX_BUFFER_SIZE
    requires off in s.pool && HoldsAt(s.data, s.minalign, off, Str(chars))
    ensures CreateSharedString(s, chars).1 == off
    ensures CreateSharedString(s, chars).0.data == s.data
  {
    hide HoldsAt;
    hide StringAt;
    var s1 := CreateString(s, chars);
    CreateStringLength(s, chars);
    StringHolds(s, chars);
    PoolExtends(s1.data, s1.minalign, s.data, s.minalign, s.pool);
    StringAtHeld(s.data, s.minalign, off, chars);
    FindStringFinds(s1.data, s.pool, chars);
  }
}
