/**
  `ToUTF8` and `FromUTF8`: one code point to bytes and back, with the accepted set that section 4 of RFC 3629
  gives as a grammar. Strings end with a NUL that is not among their bytes.
 */
module Utf8 {
  import opened Bytes

  type Octets = seq<bv8>

  /** The NUL behind the last byte is what stops a sequence that was cut off. */
  function ByteAt(s: Octets, p: nat): bv8 {
    if p < |s| then s[p] else 0
  }

  /** Unicode scalar values: all code points but the surrogates. */
  predicate IsScalar(u: bv32) {
    u <= 0x10FFFF && !(0xD800 <= u <= 0xDFFF)
  }

  /** How many bits the encoding with `i` continuation bytes can hold. */
  function MaxBits(i: nat): nat {
    6 + i * 5 + if i == 0 then 1 else 0
  }

  predicate FitsIn(u: bv32, i: nat)
    requires i < 6
  {
    u < (1 as bv32) << MaxBits(i)
  }

  /** The least number of continuation bytes, from `i` on. */
  function Continuations(u: bv32, i: nat): (n: nat)
    requires i <= 6
    ensures i <= n <= 6
    ensures n < 6 ==> FitsIn(u, n)
    decreases 6 - i
  {
    if i == 6 || FitsIn(u, i) then i else Continuations(u, i + 1)
  }

  /** `u >> j * 6`, spelled out. */
  function DropSixes(u: bv32, j: nat): bv32
    requires j < 6
  {
    if j == 0 then u else if j == 1 then u >> 6 else if j == 2 then u >> 12
    else if j == 3 then u >> 18 else if j == 4 then u >> 24 else u >> 30
  }

  /** `0xFE << MaxBits(n) - n * 6`, spelled out: the ones that tell the number of bytes. */
  function Ones(n: nat): bv32
    requires n < 6
  {
    if n == 0 then 0xFE << 7 else if n == 1 then 0xFE << 5 else if n == 2 then 0xFE << 4
    else if n == 3 then 0xFE << 3 else if n == 4 then 0xFE << 2 else 0xFE << 1
  }

  lemma OnesShift(n: nat)
    requires n < 6
    ensures 0 < MaxBits(n) - n * 6 <= 7 && Ones(n) == ShiftLeft(0xFE, MaxBits(n) - n * 6)
  {
    if n == 0 {} else if n == 1 {} else if n == 2 {} else if n == 3 {} else if n == 4 {} else {}
  }

  function ShiftLeft(u: bv32, k: nat): bv32
    requires k <= 30
  {
    u << k
  }

  /** The low eight bits, which is what a cast to `char` keeps. */
  function FirstByteOf(ones: bv32, rest: bv32): bv8 {
    ((ones | rest) & 0xFF) as bv8
  }

  function FirstByte(u: bv32, n: nat): bv8
    requires n < 6
  {
    FirstByteOf(Ones(n), DropSixes(u, n))
  }

  function ContinuationByte(u: bv32, j: nat): bv8
    requires j < 5
  {
    ((DropSixes(u, j) & 0x3F) | 0x80) as bv8
  }

  function ContinuationBytes(u: bv32, n: nat): (r: Octets)
    requires n <= 5
    ensures |r| == n
  {
    if n == 0 then [] else [ContinuationByte(u, n - 1)] + ContinuationBytes(u, n - 1)
  }

  lemma BitsFit(u: bv32)
    requires u & 0x8000_0000 == 0
    ensures FitsIn(u, 5)
  {
    assert MaxBits(5) == 31;
  }

  lemma SomethingFits(u: bv32)
    requires u & 0x8000_0000 == 0
    ensures Continuations(u, 0) < 6
  {
    if Continuations(u, 0) == 6 {
      NoneFits(u, 0);
      BitsFit(u);
    }
  }

  lemma {:induction false} NoneFits(u: bv32, i: nat)
    requires i <= 6 && Continuations(u, i) == 6
    ensures forall k | i <= k < 6 :: !FitsIn(u, k)
    decreases 6 - i
  {
    if i < 6 {
      NoneFits(u, i + 1);
    }
  }

  function Encoding(u: bv32): (r: Octets)
    requires u & 0x8000_0000 == 0
    ensures 1 <= |r| <= 6
  {
    SomethingFits(u);
    var n := Continuations(u, 0);
    [FirstByte(u, n)] + ContinuationBytes(u, n)
  }

  /** Appends the encoding of a code point to `out`; returns how many bytes that was. */
  method ToUTF8(ucc: bv32, out: Octets) returns (r: Octets, n: nat)
    requires ucc & 0x8000_0000 == 0
    ensures r == out + Encoding(ucc) && n == |Encoding(ucc)|
  {
    hide FitsIn;
    hide FirstByteOf;
    hide Ones;
    hide DropSixes;
    hide ShiftLeft;
    hide ContinuationBytes;
    hide Encoding;
    SomethingFits(ucc);
    var i := 0;
    while !FitsIn(ucc, i)
      invariant i < 6 && i <= Continuations(ucc, 0) && Continuations(ucc, i) == Continuations(ucc, 0)
      decreases 6 - i
    {
      i := i + 1;
    }
    OnesShift(i);
    EncodingParts(ucc, i, out);
    var first := FirstByteOf(ShiftLeft(0xFE, MaxBits(i) - i * 6), DropSixes(ucc, i));
    r := WriteContinuations(ucc, i, out + [first]);
    n := i + 1;
  }

  lemma EncodingParts(u: bv32, n: nat, out: Octets)
    requires u & 0x8000_0000 == 0 && n < 6 && n == Continuations(u, 0)
    ensures out + [FirstByte(u, n)] + ContinuationBytes(u, n) == out + Encoding(u) && |Encoding(u)| == n + 1
  {
    hide FirstByte;
    hide ContinuationBytes;
  }

  /** Six bits a byte, the highest first. */
  method WriteContinuations(ucc: bv32, n: nat, out: Octets) returns (r: Octets)
    requires n <= 5
    ensures r == out + ContinuationBytes(ucc, n)
  {
    hide ContinuationByte;
    r := out;
    var j := n - 1;
    while j >= 0
      invariant -1 <= j < n
      invariant r + ContinuationBytes(ucc, j + 1) == out + ContinuationBytes(ucc, n)
    {
      assert r + ContinuationBytes(ucc, j + 1) == (r + [ContinuationByte(ucc, j)]) + ContinuationBytes(ucc, j);
      r := r + [ContinuationByte(ucc, j)];
      j := j - 1;
    }
    assert r + [] == r;
  }

  function LeadingOnes(b: bv8): (n: nat)
    ensures n <= 6
  {
    if b & 0x80 == 0 then 0 else if b & 0x40 == 0 then 1 else if b & 0x20 == 0 then 2
    else if b & 0x10 == 0 then 3 else if b & 0x08 == 0 then 4 else if b & 0x04 == 0 then 5 else 6
  }

  predicate IsContinuation(b: bv8) {
    b & 0xC0 == 0x80
  }

  /** The six bits of a continuation byte. */
  function Six(b: bv8): bv32 {
    (b & 0x3F) as bv32
  }

  function Join(u: bv32, six: bv32): bv32 {
    (u << 6) | six
  }

  function AppendSix(u: bv32, b: bv8): bv32 {
    Join(u, Six(b))
  }

  /** `n` more bytes of six bits each behind the bits so far. */
  function SixBits(s: Octets, p: nat, n: nat, ucc: bv32): Option<bv32>
    decreases n
  {
    if n == 0 then Some(ucc)
    else if !IsContinuation(ByteAt(s, p)) then None
    else SixBits(s, p + 1, n - 1, AppendSix(ucc, ByteAt(s, p)))
  }

  /** The bits of the first byte behind its leading ones and the zero. */
  function LeadBits(b: bv8, len: nat): bv32
    requires 2 <= len <= 4
  {
    (b & (((1 as bv8) << (7 - len)) - 1)) as bv32
  }

  /** The bit behind the leading ones is not zero. */
  predicate Stray(b: bv8, len: nat)
    requires len <= 6
  {
    (b << len) & 0x80 != 0
  }

  predicate Shortest(u: bv32, len: nat) {
    if len == 2 then 0x80 <= u <= 0x7FF
    else if len == 3 then 0x800 <= u <= 0xFFFF
    else 0x10000 <= u <= 0x10FFFF
  }

  /** The code point at `p` and the position behind it. */
  function Decoded(s: Octets, p: nat): (r: Option<(bv32, nat)>)
    ensures r.Some? ==> p < r.value.1
  {
    var b, len := ByteAt(s, p), LeadingOnes(ByteAt(s, p));
    if Stray(b, len) then None
    else if len == 0 then Some((b as bv32, p + 1))
    else if len < 2 || len > 4 then None
    else
      var r := SixBits(s, p + 1, len - 1, LeadBits(b, len));
      if r.None? || 0xD800 <= r.value <= 0xDFFF || !Shortest(r.value, len) then None
      else Some((r.value, p + len))
  }

  /** The bit that is looked at after `n` leading ones. */
  function MaskAfter(n: nat): bv8 {
    if n == 0 then 0x80 else if n == 1 then 0x40 else if n == 2 then 0x20 else if n == 3 then 0x10
    else if n == 4 then 0x08 else if n == 5 then 0x04 else 0x02
  }

  lemma OneMore(b: bv8, n: nat)
    requires n <= LeadingOnes(b) && n < 6
    ensures b & MaskAfter(n) == 0 <==> LeadingOnes(b) == n
    ensures MaskAfter(n) >> 1 == MaskAfter(n + 1) && MaskAfter(n) >= 0x04
  {
  }

  method CountLeadingOnes(b: bv8) returns (len: nat)
    ensures len == LeadingOnes(b)
  {
    hide LeadingOnes;
    len := 0;
    var mask: bv8 := 0x80;
    while mask >= 0x04
      invariant len <= LeadingOnes(b) && mask == MaskAfter(len)
      decreases mask
    {
      OneMore(b, len);
      if b & mask == 0 {
        return;
      }
      len := len + 1;
      mask := mask >> 1;
    }
  }

  /** The next code point of `s` from `p` on, or none when what stands there is not UTF-8. */
  method FromUTF8(s: Octets, p: nat) returns (ucc: Option<bv32>, next: nat)
    ensures (if ucc.Some? then Some((ucc.value, next)) else None) == Decoded(s, p)
  {
    hide LeadingOnes;
    hide LeadBits;
    hide Stray;
    hide IsContinuation;
    hide AppendSix;
    hide Shortest;
    hide ByteAt;
    next := p;
    var b := ByteAt(s, p);
    var len := CountLeadingOnes(b);
    if Stray(b, len) {
      return None, next;
    }
    next := next + 1;
    if len == 0 {
      return Some(b as bv32), next;
    }
    if len < 2 || len > 4 {
      return None, next;
    }
    var u := LeadBits(b, len);
    ghost var u0 := u;
    var i := 0;
    while i < len - 1
      invariant i <= len - 1 && next == p + 1 + i
      invariant SixBits(s, p + 1, len - 1, u0) == SixBits(s, next, len - 1 - i, u)
    {
      if !IsContinuation(ByteAt(s, next)) {
        return None, next;
      }
      u := AppendSix(u, ByteAt(s, next));
      next := next + 1;
      i := i + 1;
    }
    if 0xD800 <= u <= 0xDFFF || !Shortest(u, len) {
      return None, next;
    }
    ucc := Some(u);
  }

  predicate IsTail(b: bv8) {
    0x80 <= b <= 0xBF
  }

  /** The length of the character at `p` by the grammar of section 4 of RFC 3629, or 0. */
  function CharLength(s: Octets, p: nat): nat {
    CharLengthOf(ByteAt(s, p), ByteAt(s, p + 1), ByteAt(s, p + 2), ByteAt(s, p + 3))
  }

  function CharLengthOf(b0: bv8, b1: bv8, b2: bv8, b3: bv8): nat {
    if b0 <= 0x7F then 1
    else if 0xC2 <= b0 <= 0xDF then if IsTail(b1) then 2 else 0
    else if b0 == 0xE0 then if 0xA0 <= b1 <= 0xBF && IsTail(b2) then 3 else 0
    else if 0xE1 <= b0 <= 0xEC || 0xEE <= b0 <= 0xEF then if IsTail(b1) && IsTail(b2) then 3 else 0
    else if b0 == 0xED then if 0x80 <= b1 <= 0x9F && IsTail(b2) then 3 else 0
    else if b0 == 0xF0 then if 0x90 <= b1 <= 0xBF && IsTail(b2) && IsTail(b3) then 4 else 0
    else if 0xF1 <= b0 <= 0xF3 then if IsTail(b1) && IsTail(b2) && IsTail(b3) then 4 else 0
    else if b0 == 0xF4 then if 0x80 <= b1 <= 0x8F && IsTail(b2) && IsTail(b3) then 4 else 0
    else 0
  }

  /** Continuation bytes one after the other, for the counts that occur. */
  lemma SixBitsUnrolled(s: Octets, p: nat, u: bv32)
    ensures var b1, b2, b3 := ByteAt(s, p), ByteAt(s, p + 1), ByteAt(s, p + 2);
      var u1 := AppendSix(u, b1);
      var u2 := AppendSix(u1, b2);
      && SixBits(s, p, 1, u) == (if IsContinuation(b1) then Some(u1) else None)
      && SixBits(s, p, 2, u) == (if IsContinuation(b1) && IsContinuation(b2) then Some(u2) else None)
      && SixBits(s, p, 3, u) ==
        (if IsContinuation(b1) && IsContinuation(b2) && IsContinuation(b3) then Some(AppendSix(u2, b3)) else None)
  {
    hide ByteAt;
    hide AppendSix;
    hide IsContinuation;
    var u1 := AppendSix(u, ByteAt(s, p));
    var u2 := AppendSix(u1, ByteAt(s, p + 1));
    assert SixBits(s, p + 2, 1, u2) ==
      if IsContinuation(ByteAt(s, p + 2)) then Some(AppendSix(u2, ByteAt(s, p + 2))) else None;
    assert SixBits(s, p + 1, 1, u1) == if IsContinuation(ByteAt(s, p + 1)) then Some(u2) else None;
  }

  lemma Lead(b: bv8)
    ensures b <= 0x7F <==> LeadingOnes(b) == 0
    ensures 0xC0 <= b <= 0xDF <==> LeadingOnes(b) == 2
    ensures 0xE0 <= b <= 0xEF <==> LeadingOnes(b) == 3
    ensures 0xF0 <= b <= 0xF7 <==> LeadingOnes(b) == 4
  {
  }

  lemma NotStray(b: bv8)
    ensures LeadingOnes(b) == 0 ==> !Stray(b, 0)
    ensures LeadingOnes(b) == 2 ==> !Stray(b, 2) && LeadBits(b, 2) == (b & 0x1F) as bv32
    ensures LeadingOnes(b) == 3 ==> !Stray(b, 3) && LeadBits(b, 3) == (b & 0x0F) as bv32
    ensures LeadingOnes(b) == 4 ==> !Stray(b, 4) && LeadBits(b, 4) == (b & 0x07) as bv32
  {
    assert ((1 as bv8) << 5) - 1 == 0x1F && ((1 as bv8) << 4) - 1 == 0x0F && ((1 as bv8) << 3) - 1 == 0x07;
  }

  /** The decoder by the number of leading ones, with the shifts worked out. */
  lemma DecodedIs(s: Octets, p: nat)
    ensures var b := ByteAt(s, p);
      Decoded(s, p) ==
        if b <= 0x7F then Some((b as bv32, p + 1))
        else if 0xC0 <= b <= 0xDF then Accept(SixBits(s, p + 1, 1, (b & 0x1F) as bv32), 2, p)
        else if 0xE0 <= b <= 0xEF then Accept(SixBits(s, p + 1, 2, (b & 0x0F) as bv32), 3, p)
        else if 0xF0 <= b <= 0xF7 then Accept(SixBits(s, p + 1, 3, (b & 0x07) as bv32), 4, p)
        else None
  {
    hide SixBits;
    hide ByteAt;
    hide LeadingOnes;
    hide Stray;
    hide LeadBits;
    hide Shortest;
    Lead(ByteAt(s, p));
    NotStray(ByteAt(s, p));
  }

  function Accept(r: Option<bv32>, len: nat, p: nat): Option<(bv32, nat)> {
    if r.None? || 0xD800 <= r.value <= 0xDFFF || !Shortest(r.value, len) then None else Some((r.value, p + len))
  }

  /** A code point of two bytes as its encoder would see it. */
  lemma Two(b0: bv8, b1: bv8)
    requires 0xC0 <= b0 <= 0xDF && IsTail(b1)
    ensures var u := AppendSix((b0 & 0x1F) as bv32, b1);
      && IsContinuation(b1) && !(0xD800 <= u <= 0xDFFF)
      && (0xC2 <= b0 <==> Shortest(u, 2))
      && u <= 0x7FF && b0 == FirstByte(u, 1) && b1 == ContinuationByte(u, 0)
  {
  }

  lemma Three(b0: bv8, b1: bv8, b2: bv8)
    requires 0xE0 <= b0 <= 0xEF && IsTail(b1) && IsTail(b2)
    ensures var u := AppendSix(AppendSix((b0 & 0x0F) as bv32, b1), b2);
      && IsContinuation(b1) && IsContinuation(b2)
      && ((Shortest(u, 3) && !(0xD800 <= u <= 0xDFFF)) <==>
           !(b0 == 0xE0 && b1 < 0xA0) && !(b0 == 0xED && b1 > 0x9F))
      && u <= 0xFFFF && b0 == FirstByte(u, 2) && b1 == ContinuationByte(u, 1) && b2 == ContinuationByte(u, 0)
  {
  }

  lemma Four(b0: bv8, b1: bv8, b2: bv8, b3: bv8)
    requires 0xF0 <= b0 <= 0xF7 && IsTail(b1) && IsTail(b2) && IsTail(b3)
    ensures var u := AppendSix(AppendSix(AppendSix((b0 & 0x07) as bv32, b1), b2), b3);
      && IsContinuation(b1) && IsContinuation(b2) && IsContinuation(b3) && !(0xD800 <= u <= 0xDFFF && b0 > 0xF0)
      && (Shortest(u, 4) <==> b0 <= 0xF4 && !(b0 == 0xF0 && b1 < 0x90) && !(b0 == 0xF4 && b1 > 0x8F))
      && u < 0x200000 && b0 == FirstByte(u, 3) && b1 == ContinuationByte(u, 2)
      && b2 == ContinuationByte(u, 1) && b3 == ContinuationByte(u, 0)
  {
  }

  lemma TailBits(b: bv8)
    ensures IsContinuation(b) <==> IsTail(b)
  {
  }

  /** The decoder accepts exactly the grammar, and consumes exactly one character. */
  lemma AcceptsGrammar(s: Octets, p: nat)
    ensures Decoded(s, p).Some? <==> CharLength(s, p) > 0
    ensures Decoded(s, p).Some? ==> Decoded(s, p).value.1 == p + CharLength(s, p)
  {
    hide Decoded;
    hide SixBits;
    hide ByteAt;
    hide AppendSix;
    hide IsContinuation;
    hide Shortest;
    DecodedIs(s, p);
    var b0, b1, b2, b3 := ByteAt(s, p), ByteAt(s, p + 1), ByteAt(s, p + 2), ByteAt(s, p + 3);
    TailBits(b1);
    TailBits(b2);
    TailBits(b3);
    if 0xC0 <= b0 <= 0xDF {
      SixBitsUnrolled(s, p + 1, (b0 & 0x1F) as bv32);
      if IsTail(b1) {
        Two(b0, b1);
      }
    } else if 0xE0 <= b0 <= 0xEF {
      SixBitsUnrolled(s, p + 1, (b0 & 0x0F) as bv32);
      if IsTail(b1) && IsTail(b2) {
        Three(b0, b1, b2);
      }
    } else if 0xF0 <= b0 <= 0xF7 {
      SixBitsUnrolled(s, p + 1, (b0 & 0x07) as bv32);
      if IsTail(b1) && IsTail(b2) && IsTail(b3) {
        Four(b0, b1, b2, b3);
        ShortestFour(AppendSix(AppendSix(AppendSix((b0 & 0x07) as bv32, b1), b2), b3));
      }
    }
  }

  lemma ShortestFour(u: bv32)
    ensures Shortest(u, 4) ==> !(0xD800 <= u <= 0xDFFF)
  {
  }

  /** The encoder by ranges. */
  lemma EncodingIs(u: bv32)
    requires u <= 0x10FFFF
    ensures u & 0x8000_0000 == 0
    ensures Encoding(u) ==
      if u < 0x80 then [FirstByte(u, 0)]
      else if u < 0x800 then [FirstByte(u, 1), ContinuationByte(u, 0)]
      else if u < 0x10000 then [FirstByte(u, 2), ContinuationByte(u, 1), ContinuationByte(u, 0)]
      else [FirstByte(u, 3), ContinuationByte(u, 2), ContinuationByte(u, 1), ContinuationByte(u, 0)]
  {
    hide FirstByte;
    hide ContinuationByte;
    Fits(u);
    hide FitsIn;
    assert Continuations(u, 0) ==
      (if u < 0x80 then 0 else if u < 0x800 then 1 else if u < 0x10000 then 2 else 3) by {
      assert Continuations(u, 2) == if FitsIn(u, 2) then 2 else Continuations(u, 3);
      assert Continuations(u, 3) == 3;
      assert Continuations(u, 1) == if FitsIn(u, 1) then 1 else Continuations(u, 2);
    }
    Trailing(u);
  }

  lemma Trailing(u: bv32)
    ensures ContinuationBytes(u, 1) == [ContinuationByte(u, 0)]
    ensures ContinuationBytes(u, 2) == [ContinuationByte(u, 1), ContinuationByte(u, 0)]
    ensures ContinuationBytes(u, 3) == [ContinuationByte(u, 2), ContinuationByte(u, 1), ContinuationByte(u, 0)]
  {
    hide ContinuationByte;
  }

  lemma Fits(u: bv32)
    requires u <= 0x10FFFF
    ensures FitsIn(u, 0) <==> u < 0x80
    ensures FitsIn(u, 1) <==> u < 0x800
    ensures FitsIn(u, 2) <==> u < 0x10000
    ensures FitsIn(u, 3) && u & 0x8000_0000 == 0
  {
    assert MaxBits(0) == 7 && MaxBits(1) == 11 && MaxBits(2) == 16 && MaxBits(3) == 21;
    assert (1 as bv32) << 7 == 0x80 && (1 as bv32) << 11 == 0x800;
    assert (1 as bv32) << 16 == 0x10000 && (1 as bv32) << 21 == 0x200000;
  }

  /** Whatever is accepted is a scalar value, and encoding it again gives exactly the bytes consumed. */
  lemma Reencodes(s: Octets, p: nat)
    requires p < |s| && Decoded(s, p).Some?
    ensures var (u, q) := Decoded(s, p).value;
      && p < q <= |s| && IsScalar(u) && u & 0x8000_0000 == 0 && s[p..q] == Encoding(u)
  {
    hide Decoded;
    hide SixBits;
    hide AppendSix;
    hide IsContinuation;
    hide Shortest;
    hide Encoding;
    hide ByteAt;
    hide FirstByte;
    hide ContinuationByte;
    DecodedIs(s, p);
    var (u, q) := Decoded(s, p).value;
    DecodedScalar(s, p);
    EncodingIs(u);
    ShortestRange(u);
    var b0, b1, b2, b3 := ByteAt(s, p), ByteAt(s, p + 1), ByteAt(s, p + 2), ByteAt(s, p + 3);
    TailBits(b1);
    TailBits(b2);
    TailBits(b3);
    PartOf(s, p);
    if b0 <= 0x7F {
      AsciiForth(b0);
    } else if b0 <= 0xDF {
      SixBitsUnrolled(s, p + 1, (b0 & 0x1F) as bv32);
      Two(b0, b1);
    } else if b0 <= 0xEF {
      SixBitsUnrolled(s, p + 1, (b0 & 0x0F) as bv32);
      Three(b0, b1, b2);
    } else {
      SixBitsUnrolled(s, p + 1, (b0 & 0x07) as bv32);
      Four(b0, b1, b2, b3);
    }
  }

  lemma AsciiForth(b: bv8)
    requires b <= 0x7F
    ensures (b as bv32) < 0x80 && FirstByte(b as bv32, 0) == b
  {
  }

  /** A byte of a character is inside the string unless it is the NUL behind it. */
  lemma PartOf(s: Octets, p: nat)
    requires p < |s|
    ensures var b0, b1, b2, b3 := ByteAt(s, p), ByteAt(s, p + 1), ByteAt(s, p + 2), ByteAt(s, p + 3);
      && s[p..p + 1] == [b0]
      && (IsTail(b1) ==> p + 2 <= |s| && s[p..p + 2] == [b0, b1])
      && (IsTail(b1) && IsTail(b2) ==> p + 3 <= |s| && s[p..p + 3] == [b0, b1, b2])
      && (IsTail(b1) && IsTail(b2) && IsTail(b3) ==> p + 4 <= |s| && s[p..p + 4] == [b0, b1, b2, b3])
  {
  }

  lemma ShortestRange(u: bv32)
    ensures Shortest(u, 2) ==> 0x80 <= u < 0x800
    ensures Shortest(u, 3) ==> 0x800 <= u < 0x10000
    ensures Shortest(u, 4) ==> 0x10000 <= u <= 0x10FFFF
  {
  }

  lemma DecodedScalar(s: Octets, p: nat)
    requires Decoded(s, p).Some?
    ensures IsScalar(Decoded(s, p).value.0)
  {
    hide SixBits;
    hide ByteAt;
    hide LeadBits;
    hide Stray;
    hide LeadingOnes;
    DecodedIs(s, p);
  }

  /** Decoding after encoding gives back the code point if it is a scalar value, and nothing otherwise. */
  lemma DecodesEncoding(pre: Octets, u: bv32, post: Octets)
    requires u & 0x8000_0000 == 0
    ensures Decoded(pre + Encoding(u) + post, |pre|) ==
      if IsScalar(u) then Some((u, |pre| + |Encoding(u)|)) else None
  {
    hide *;
    var s, p := pre + Encoding(u) + post, |pre|;
    EncodedBytes(pre, Encoding(u), post);
    ScalarBelow(u);
    if u < 0x80 {
      EncodingIs(u);
      OneDecodes(s, p, u);
    } else if u < 0x800 {
      EncodingIs(u);
      TwoDecode(s, p, u);
    } else if u < 0x10000 {
      EncodingIs(u);
      ThreeDecode(s, p, u);
    } else if u <= 0x10FFFF {
      EncodingIs(u);
      FourDecode(s, p, u);
    } else {
      LargeDecodes(s, p, u);
    }
  }

  lemma ScalarBelow(u: bv32)
    ensures u < 0x800 ==> IsScalar(u)
    ensures 0x10000 <= u <= 0x10FFFF ==> IsScalar(u)
    ensures u > 0x10FFFF ==> !IsScalar(u)
  {
  }

  lemma OneDecodes(s: Octets, p: nat, u: bv32)
    requires u < 0x80 && ByteAt(s, p) == FirstByte(u, 0)
    ensures Decoded(s, p) == Some((u, p + 1))
  {
    hide *;
    DecodedIs(s, p);
    AsciiBack(u);
  }

  lemma TwoDecode(s: Octets, p: nat, u: bv32)
    requires 0x80 <= u < 0x800
    requires ByteAt(s, p) == FirstByte(u, 1) && ByteAt(s, p + 1) == ContinuationByte(u, 0)
    ensures Decoded(s, p) == Some((u, p + 2))
  {
    hide *;
    DecodedIs(s, p);
    LeadBack(u);
    BytesBack(u);
    SixBitsUnrolled(s, p + 1, (ByteAt(s, p) & 0x1F) as bv32);
    RangeAccepted(u, p);
  }

  lemma ThreeDecode(s: Octets, p: nat, u: bv32)
    requires 0x800 <= u < 0x10000
    requires ByteAt(s, p) == FirstByte(u, 2) && ByteAt(s, p + 1) == ContinuationByte(u, 1)
    requires ByteAt(s, p + 1 + 1) == ContinuationByte(u, 0)
    ensures Decoded(s, p) == if IsScalar(u) then Some((u, p + 3)) else None
  {
    hide *;
    DecodedIs(s, p);
    LeadBack(u);
    BytesBack(u);
    SixBitsUnrolled(s, p + 1, (ByteAt(s, p) & 0x0F) as bv32);
    RangeAccepted(u, p);
  }

  lemma FourDecode(s: Octets, p: nat, u: bv32)
    requires 0x10000 <= u < 0x200000
    requires ByteAt(s, p) == FirstByte(u, 3) && ByteAt(s, p + 1) == ContinuationByte(u, 2)
    requires ByteAt(s, p + 1 + 1) == ContinuationByte(u, 1) && ByteAt(s, p + 1 + 2) == ContinuationByte(u, 0)
    ensures Decoded(s, p) == if u <= 0x10FFFF then Some((u, p + 4)) else None
  {
    hide *;
    DecodedIs(s, p);
    LeadBack(u);
    BytesBack(u);
    SixBitsUnrolled(s, p + 1, (ByteAt(s, p) & 0x07) as bv32);
    RangeAccepted(u, p);
  }

  lemma RangeAccepted(u: bv32, p: nat)
    ensures 0x80 <= u < 0x800 ==> Accept(Some(u), 2, p) == Some((u, p + 2))
    ensures 0x800 <= u < 0x10000 ==> Accept(Some(u), 3, p) == if IsScalar(u) then Some((u, p + 3)) else None
    ensures 0x10000 <= u ==> Accept(Some(u), 4, p) == if u <= 0x10FFFF then Some((u, p + 4)) else None
  {
  }

  /** Beyond the last code point the encoding either starts with a byte that is refused or comes out too large. */
  lemma LargeDecodes(s: Octets, p: nat, u: bv32)
    requires 0x10FFFF < u && u & 0x8000_0000 == 0
    requires var e := Encoding(u);
      && ByteAt(s, p) == e[0]
      && (|e| > 1 ==> ByteAt(s, p + 1) == e[1])
      && (|e| > 2 ==> ByteAt(s, p + 1 + 1) == e[2])
      && (|e| > 3 ==> ByteAt(s, p + 1 + 2) == e[3])
    ensures Decoded(s, p) == None
  {
    hide FirstByte;
    hide ContinuationByte;
    hide FitsIn;
    hide Decoded;
    hide ByteAt;
    hide SixBits;
    LargeFits(u);
    assert Continuations(u, 2) == Continuations(u, 3) >= 3;
    assert Continuations(u, 0) == Continuations(u, 1) == Continuations(u, 2);
    Trailing(u);
    if Continuations(u, 0) == 3 {
      FourDecode(s, p, u);
    } else {
      LargeFirst(u);
      DecodedIs(s, p);
    }
  }

  lemma EncodedBytes(pre: Octets, e: Octets, post: Octets)
    requires e != []
    ensures var s, p := pre + e + post, |pre|;
      && ByteAt(s, p) == e[0]
      && (|e| > 1 ==> ByteAt(s, p + 1) == e[1])
      && (|e| > 2 ==> ByteAt(s, p + 1 + 1) == e[2])
      && (|e| > 3 ==> ByteAt(s, p + 1 + 2) == e[3])
  {
  }

  /** The six lowest bits. */
  function Low(u: bv32): bv32 {
    u & 0x3F
  }

  lemma AsciiBack(u: bv32)
    requires u < 0x80
    ensures FirstByte(u, 0) <= 0x7F && FirstByte(u, 0) as bv32 == u
  {
  }

  /** A continuation byte gives back its six bits, the first byte the bits above all of these. */
  lemma ByteBack(u: bv32, j: nat)
    requires j < 5
    ensures IsContinuation(ContinuationByte(u, j)) && Six(ContinuationByte(u, j)) == Low(DropSixes(u, j))
  {
    hide DropSixes;
  }

  lemma LeadBack(u: bv32)
    ensures u < 0x800 ==> 0xC0 <= FirstByte(u, 1) <= 0xDF && (FirstByte(u, 1) & 0x1F) as bv32 == DropSixes(u, 1)
    ensures u < 0x10000 ==> 0xE0 <= FirstByte(u, 2) <= 0xEF && (FirstByte(u, 2) & 0x0F) as bv32 == DropSixes(u, 2)
    ensures u < 0x200000 ==> 0xF0 <= FirstByte(u, 3) <= 0xF7 && (FirstByte(u, 3) & 0x07) as bv32 == DropSixes(u, 3)
  {
  }

  lemma Rejoin0(u: bv32)
    ensures Join(DropSixes(u, 1), Low(DropSixes(u, 0))) == u
  {
  }

  lemma Rejoin1(u: bv32)
    ensures Join(DropSixes(u, 2), Low(DropSixes(u, 1))) == DropSixes(u, 1)
  {
  }

  lemma Rejoin2(u: bv32)
    ensures Join(DropSixes(u, 3), Low(DropSixes(u, 2))) == DropSixes(u, 2)
  {
  }

  /** Bytes of the encoding put together again. */
  lemma BytesBack(u: bv32)
    ensures forall j | 0 <= j < 3 :: IsContinuation(ContinuationByte(u, j))
    ensures u < 0x800 ==> AppendSix((FirstByte(u, 1) & 0x1F) as bv32, ContinuationByte(u, 0)) == u
    ensures u < 0x10000 ==>
      AppendSix(AppendSix((FirstByte(u, 2) & 0x0F) as bv32, ContinuationByte(u, 1)), ContinuationByte(u, 0)) == u
    ensures u < 0x200000 ==>
      AppendSix(AppendSix(AppendSix((FirstByte(u, 3) & 0x07) as bv32, ContinuationByte(u, 2)),
        ContinuationByte(u, 1)), ContinuationByte(u, 0)) == u
  {
    hide FirstByte;
    hide ContinuationByte;
    hide IsContinuation;
    hide Six;
    hide Join;
    hide Low;
    hide DropSixes;
    ByteBack(u, 0);
    ByteBack(u, 1);
    ByteBack(u, 2);
    LeadBack(u);
    Rejoin0(u);
    Rejoin1(u);
    Rejoin2(u);
  }

  lemma LargeFits(u: bv32)
    requires 0x10FFFF < u
    ensures !FitsIn(u, 0) && !FitsIn(u, 1) && !FitsIn(u, 2)
    ensures FitsIn(u, 3) ==> u < 0x200000
  {
    assert MaxBits(0) == 7 && MaxBits(1) == 11 && MaxBits(2) == 16 && MaxBits(3) == 21;
    assert (1 as bv32) << 7 == 0x80 && (1 as bv32) << 11 == 0x800;
    assert (1 as bv32) << 16 == 0x10000 && (1 as bv32) << 21 == 0x200000;
  }

  lemma LargeFirst(u: bv32)
    ensures FirstByte(u, 4) >= 0xF8 && FirstByte(u, 5) >= 0xFC
  {
  }
}
