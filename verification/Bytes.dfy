/** Little-endian scalars, byte strings at a position, and reads that say when they leave the buffer. */
module Bytes {

  type Byte = x: int | 0 <= x < 256

  /** The outcome of an access to memory: a value, or an access outside the buffer. */
  datatype Read<+T> = Ok(value: T) | Oob {
    predicate IsFailure() { Oob? }
    function PropagateFailure<U>(): Read<U>
      requires Oob?
    {
      Oob
    }
    function Extract(): T
      requires Ok?
    {
      value
    }
  }

  datatype Option<+T> = None | Some(value: T)

  /** Buffers of this size and more are not supported. */
  const MAX_BUFFER_SIZE := 0x7FFF_FFFF

  function Max(x: nat, y: nat): nat {
    if x < y then y else x
  }

  /** The number of values a scalar of `k` bytes can take. */
  function Range(k: nat): (r: nat)
    ensures r >= 1
  {
    if k == 0 then 1 else 256 * Range(k - 1)
  }

  lemma Ranges()
    ensures Range(1) == 0x100
    ensures Range(2) == 0x1_0000
    ensures Range(4) == 0x1_0000_0000
    ensures Range(8) == 0x1_0000_0000_0000_0000
  {
    assert Range(4) == 0x100 * (0x100 * Range(2));
    assert Range(6) == 0x100 * (0x100 * Range(4));
    assert Range(8) == 0x100 * (0x100 * Range(6));
  }

  /** The `k` low bytes of `n`, lowest first. */
  function LE(n: nat, k: nat): (s: seq<Byte>)
    ensures |s| == k
  {
    if k == 0 then [] else [n % 256] + LE(n / 256, k - 1)
  }

  /** The number whose bytes are `s`, lowest first. */
  function Val(s: seq<Byte>): nat {
    if s == [] then 0 else s[0] + 256 * Val(s[1..])
  }

  lemma {:induction false} ValOfLE(n: nat, k: nat)
    requires n < Range(k)
    ensures Val(LE(n, k)) == n
  {
    if k > 0 {
      assert LE(n, k)[1..] == LE(n / 256, k - 1);
      ValOfLE(n / 256, k - 1);
    }
  }

  lemma {:induction false} LEOfVal(s: seq<Byte>)
    ensures Val(s) < Range(|s|)
    ensures LE(Val(s), |s|) == s
  {
    if s != [] {
      LEOfVal(s[1..]);
      assert (s[0] + 256 * Val(s[1..])) % 256 == s[0];
      assert (s[0] + 256 * Val(s[1..])) / 256 == Val(s[1..]);
    }
  }

  lemma {:induction false} LEOfZero(k: nat)
    ensures LE(0, k) == Zeros(k)
  {
    if k > 0 {
      LEOfZero(k - 1);
    }
  }

  function Zeros(n: nat): (s: seq<Byte>)
    ensures |s| == n
  {
    seq(n, i => 0)
  }

  /** The bytes `s` stand in `b` from position `p` on. */
  predicate At(b: seq<Byte>, p: int, s: seq<Byte>) {
    0 <= p && p + |s| <= |b| && b[p..p + |s|] == s
  }

  /** The `n` bytes from position `p` on. */
  function Part(b: seq<Byte>, p: nat, n: nat): (s: seq<Byte>)
    requires p + n <= |b|
    ensures |s| == n
  {
    b[p..p + n]
  }

  lemma AtShift(pre: seq<Byte>, b: seq<Byte>, p: int, s: seq<Byte>)
    requires At(b, p, s)
    ensures At(pre + b, |pre| + p, s)
  {
    assert (pre + b)[|pre| + p..|pre| + p + |s|] == b[p..p + |s|];
  }

  lemma AtSplit(b: seq<Byte>, p: int, s: seq<Byte>, t: seq<Byte>)
    requires At(b, p, s + t)
    ensures At(b, p, s) && At(b, p + |s|, t)
  {
    assert b[p..p + |s|] == (s + t)[..|s|] == s;
    assert b[p + |s|..p + |s| + |t|] == (s + t)[|s|..] == t;
  }

  lemma AtMiddle(pre: seq<Byte>, s: seq<Byte>, post: seq<Byte>)
    ensures At(pre + s + post, |pre|, s)
    ensures At(pre + (s + post), |pre|, s)
  {
    assert pre + s + post == pre + (s + post);
    assert (pre + s + post)[|pre|..|pre| + |s|] == s;
  }

  lemma AtFront(s: seq<Byte>, post: seq<Byte>)
    ensures At(s + post, 0, s)
  {
    assert (s + post)[0..|s|] == s;
  }

  lemma Assoc(s: seq<Byte>, t: seq<Byte>, u: seq<Byte>)
    ensures s + (t + u) == (s + t) + u
  {
  }

  lemma AtInner(b: seq<Byte>, p: int, s: seq<Byte>, i: nat, t: seq<Byte>)
    requires At(b, p, s)
    requires i + |t| <= |s| && s[i..i + |t|] == t
    ensures At(b, p + i, t)
  {
    assert forall k | 0 <= k < |t| :: b[p + i + k] == b[p..p + |s|][i + k] == s[i + k] == t[k];
  }

  /** A scalar of `k` bytes at `p`. */
  function ReadLE(b: seq<Byte>, p: int, k: nat): Read<nat> {
    if 0 <= p && p + k <= |b| then Ok(Val(b[p..p + k])) else Oob
  }

  lemma ReadShift(pre: seq<Byte>, b: seq<Byte>, p: int, k: nat)
    requires ReadLE(b, p, k).Ok?
    ensures ReadLE(pre + b, |pre| + p, k) == ReadLE(b, p, k)
  {
    AtShift(pre, b, p, b[p..p + k]);
  }

  lemma ReadOfAt(b: seq<Byte>, p: int, n: nat, k: nat)
    requires At(b, p, LE(n, k)) && n < Range(k)
    ensures ReadLE(b, p, k) == Ok(n)
  {
    ValOfLE(n, k);
  }

  lemma ReadBound(b: seq<Byte>, p: int, k: nat)
    requires ReadLE(b, p, k).Ok?
    ensures ReadLE(b, p, k).value < Range(k)
  {
    LEOfVal(b[p..p + k]);
  }

  /** A signed 32-bit scalar is stored as its value modulo 2^32. */
  function SignedLE(n: int): (s: seq<Byte>)
    ensures |s| == 4
  {
    LE(n % 0x1_0000_0000, 4)
  }

  function ReadSigned(b: seq<Byte>, p: int): Read<int> {
    var u :- ReadLE(b, p, 4);
    Ok(if u < 0x8000_0000 then u else u - 0x1_0000_0000)
  }

  lemma ReadSignedOfAt(b: seq<Byte>, p: int, n: int)
    requires -0x8000_0000 <= n < 0x8000_0000
    requires At(b, p, SignedLE(n))
    ensures ReadSigned(b, p) == Ok(n)
  {
    Ranges();
    ReadOfAt(b, p, n % 0x1_0000_0000, 4);
  }

  /** The sizes of scalars. */
  predicate IsWidth(w: nat) {
    w == 1 || w == 2 || w == 4 || w == 8
  }

  /** The supported alignments: the powers of two up to 32. */
  predicate IsAlign(a: nat) {
    IsWidth(a) || a == 16 || a == 32
  }

  /** `n * w`, spelled out for the sizes of scalars to keep arithmetic linear. */
  function Scale(n: nat, w: nat): (r: nat)
    requires IsWidth(w)
    ensures r >= n
  {
    if w == 1 then n else if w == 2 then 2 * n else if w == 4 then 4 * n else 8 * n
  }

  lemma ScaleIsTimes(n: nat, w: nat)
    requires IsWidth(w)
    ensures Scale(n, w) == n * w
  {
    if w == 1 {} else if w == 2 {} else if w == 4 {} else {}
  }

  /** `n % a`, spelled out for the alignments. */
  function Rem(n: int, a: nat): (r: nat)
    requires IsAlign(a)
    ensures r < a
  {
    if a == 1 then 0 else if a == 2 then n % 2 else if a == 4 then n % 4
    else if a == 8 then n % 8 else if a == 16 then n % 16 else n % 32
  }

  lemma RemIsMod(n: int, a: nat)
    requires IsAlign(a)
    ensures Rem(n, a) == n % a
  {
    if a == 1 {} else if a == 2 {} else if a == 4 {} else if a == 8 {} else if a == 16 {} else {}
  }

  lemma Rem4(n: int)
    ensures Rem(n, 4) == n % 4
  {
  }

  function Mul(q: int, a: nat): int
    requires IsAlign(a)
  {
    if a == 1 then q else if a == 2 then 2 * q else if a == 4 then 4 * q
    else if a == 8 then 8 * q else if a == 16 then 16 * q else 32 * q
  }

  function Quot(n: int, a: nat): int
    requires IsAlign(a)
  {
    if a == 1 then n else if a == 2 then n / 2 else if a == 4 then n / 4
    else if a == 8 then n / 8 else if a == 16 then n / 16 else n / 32
  }

  lemma RemQuot(n: int, a: nat)
    requires IsAlign(a)
    ensures n == Mul(Quot(n, a), a) + Rem(n, a)
  {
  }

  lemma MulSum(p: int, q: int, a: nat)
    requires IsAlign(a)
    ensures Mul(p, a) + Mul(q, a) == Mul(p + q, a)
    ensures Mul(p, a) - Mul(q, a) == Mul(p - q, a)
    ensures p > 0 ==> Mul(p, a) >= a
    ensures p < 0 ==> Mul(p, a) <= 0 - a
    ensures Mul(0, a) == 0 && Mul(1, a) == a
    ensures 2 <= a ==> IsAlign(a / 2) && Mul(p, a) == Mul(2 * p, a / 2)
  {
  }

  lemma RemUnique(q: int, r: nat, a: nat)
    requires IsAlign(a) && r < a
    ensures Rem(Mul(q, a) + r, a) == r
  {
    hide *;
    var n := Mul(q, a) + r;
    RemQuot(n, a);
    MulSum(q, Quot(n, a), a);
    MulSum(q - Quot(n, a), 0, a);
  }

  lemma RemSum(m: int, n: int, a: nat)
    requires IsAlign(a) && Rem(m, a) == 0 && Rem(n, a) == 0
    ensures Rem(m + n, a) == 0 && Rem(m - n, a) == 0
  {
    hide *;
    var p, q := Quot(m, a), Quot(n, a);
    RemQuot(m, a);
    RemQuot(n, a);
    MulSum(p, q, a);
    RemUnique(p + q, 0, a);
    RemUnique(p - q, 0, a);
  }

  /** A multiple of a larger alignment is a multiple of a smaller one. */
  lemma {:induction false} RemDivides(n: int, a: nat, m: nat)
    requires IsAlign(a) && IsAlign(m) && a <= m && Rem(n, m) == 0
    ensures Rem(n, a) == 0
    decreases m
  {
    hide *;
    if a < m {
      AlignHalf(a, m);
      RemQuot(n, m);
      MulSum(Quot(n, m), 0, m);
      RemUnique(2 * Quot(n, m), 0, m / 2);
      RemDivides(n, a, m / 2);
    }
  }

  lemma AlignHalf(a: nat, m: nat)
    requires IsAlign(a) && IsAlign(m) && a < m
    ensures 2 <= m && a <= m / 2
  {
  }

  /** Different multiples are at least one alignment apart. */
  lemma RemGap(p: int, q: int, a: nat)
    requires IsAlign(a) && Rem(p, a) == 0 && Rem(q, a) == 0
    ensures p > q ==> p >= q + a
  {
    hide *;
    RemQuot(p, a);
    RemQuot(q, a);
    MulSum(Quot(p, a), Quot(q, a), a);
    MulSum(Quot(p, a) - Quot(q, a), 0, a);
  }

  /** How many bytes to add before a scalar of `a` bytes when the buffer holds `size`. */
  function PaddingBytes(size: nat, a: nat): (r: nat)
    requires IsAlign(a)
    ensures r < a && Rem(size + r, a) == 0
    ensures Rem(size, a) == 0 ==> r == 0
  {
    RemPad(size, a);
    if Rem(size, a) == 0 then 0 else a - Rem(size, a)
  }

  lemma RemPad(size: nat, a: nat)
    requires IsAlign(a)
    ensures Rem(size + (if Rem(size, a) == 0 then 0 else a - Rem(size, a)), a) == 0
  {
    hide *;
    RemQuot(size, a);
    MulSum(Quot(size, a), 1, a);
    RemUnique(Quot(size, a) + 1, 0, a);
  }

  /** The elements of a scalar vector, one after the other. */
  function Encode(w: nat, xs: seq<nat>): (s: seq<Byte>)
    requires IsWidth(w)
    ensures |s| == Scale(|xs|, w)
  {
    if xs == [] then [] else LE(xs[0], w) + Encode(w, xs[1..])
  }

  lemma {:induction false} EncodeAt(w: nat, xs: seq<nat>, i: nat)
    requires IsWidth(w) && i < |xs|
    ensures Scale(i, w) + w <= Scale(|xs|, w)
    ensures Encode(w, xs)[Scale(i, w)..Scale(i, w) + w] == LE(xs[i], w)
  {
    hide LE;
    hide Scale;
    ScaleStep(|xs| - 1, w);
    if i > 0 {
      EncodeAt(w, xs[1..], i - 1);
      var rest := Encode(w, xs[1..]);
      var k := Scale(i - 1, w);
      ScaleStep(i - 1, w);
      SliceBehind(LE(xs[0], w), rest, k, w);
    } else {
      ScaleStep(0, w);
      assert Encode(w, xs)[0..w] == LE(xs[0], w);
    }
  }

  lemma ScaleStep(n: nat, w: nat)
    requires IsWidth(w)
    ensures Scale(n + 1, w) == w + Scale(n, w) && Scale(0, w) == 0
  {
  }

  lemma SliceBehind(s: seq<Byte>, t: seq<Byte>, k: nat, n: nat)
    requires k + n <= |t|
    ensures (s + t)[|s| + k..|s| + k + n] == t[k..k + n]
  {
  }

  lemma ReadOfEncode(b: seq<Byte>, p: int, w: nat, xs: seq<nat>, i: nat)
    requires IsWidth(w) && At(b, p, Encode(w, xs)) && i < |xs| && xs[i] < Range(w)
    ensures ReadLE(b, p + Scale(i, w), w) == Ok(xs[i])
  {
    hide Encode;
    hide LE;
    EncodeAt(w, xs, i);
    AtInner(b, p, Encode(w, xs), Scale(i, w), LE(xs[i], w));
    ReadOfAt(b, p + Scale(i, w), xs[i], w);
  }
}
