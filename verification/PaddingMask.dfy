/**
  `PaddingBytes` of the source works with bit operations on a 64-bit word: it masks the low bits of the
  negated size. Here these are shown to be the number that the rest of the model pads with.
 */
module PaddingMask {
  import opened Bytes

  const WORD := 0x1_0000_0000_0000_0000

  /** The five lowest binary digits of a number. */
  datatype Low = Low(b0: bool, b1: bool, b2: bool, b3: bool, b4: bool)

  function LowOf(n: nat): Low {
    Low(n % 2 == 1, n / 2 % 2 == 1, n / 4 % 2 == 1, n / 8 % 2 == 1, n / 16 % 2 == 1)
  }

  /** Only the digits below `a`. */
  function Below(d: Low, a: nat): Low {
    Low(a > 1 && d.b0, a > 2 && d.b1, a > 4 && d.b2, a > 8 && d.b3, a > 16 && d.b4)
  }

  function Weight(d: Low): nat {
    (if d.b0 then 1 else 0) + (if d.b1 then 2 else 0) + (if d.b2 then 4 else 0)
    + (if d.b3 then 8 else 0) + (if d.b4 then 16 else 0)
  }

  function Word(d: Low): bv64 {
    (if d.b0 then 1 else 0) | (if d.b1 then 2 else 0) | (if d.b2 then 4 else 0)
    | (if d.b3 then 8 else 0) | (if d.b4 then 16 else 0)
  }

  /** `a - 1` as a word. */
  function Mask(a: nat): bv64
    requires IsAlign(a)
  {
    if a == 1 then 0 else if a == 2 then 1 else if a == 4 then 3
    else if a == 8 then 7 else if a == 16 then 15 else 31
  }

  lemma MaskIs(a: nat)
    requires IsAlign(a)
    ensures Mask(a) == (a - 1) as bv64
  {
    if a == 1 {} else if a == 2 {} else if a == 4 {} else if a == 8 {} else if a == 16 {} else {}
  }

  lemma Digits(n: nat)
    requires n < WORD
    ensures (n as bv64) & 31 == Word(LowOf(n))
  {
    Single(n);
    Five(n as bv64);
  }

  lemma Single(n: nat)
    requires n < WORD
    ensures var u, d := n as bv64, LowOf(n);
      && u & 1 == (if d.b0 then 1 else 0) && u & 2 == (if d.b1 then 2 else 0) && u & 4 == (if d.b2 then 4 else 0)
      && u & 8 == (if d.b3 then 8 else 0) && u & 16 == (if d.b4 then 16 else 0)
  {
  }

  lemma Five(u: bv64)
    ensures u & 31 == (u & 1) | (u & 2) | (u & 4) | (u & 8) | (u & 16)
  {
  }

  lemma Halves(n: nat)
    ensures n / 4 == n / 2 / 2 && n / 8 == n / 4 / 2 && n / 16 == n / 8 / 2 && n / 32 == n / 16 / 2
  {
  }

  /** The digits below `a` make up the remainder. */
  lemma Remainder(n: nat, a: nat)
    requires IsAlign(a)
    ensures Weight(Below(LowOf(n), a)) == Rem(n, a)
  {
    RemIsMod(n, a);
    Carried(n);
  }

  lemma Carried(n: nat)
    ensures n % 4 == n % 2 + 2 * (n / 2 % 2) && n % 8 == n % 4 + 4 * (n / 4 % 2)
    ensures n % 16 == n % 8 + 8 * (n / 8 % 2) && n % 32 == n % 16 + 16 * (n / 16 % 2)
  {
    Halves(n);
  }

  lemma Masked(u: bv64)
    ensures (!u + 1) & 1 == (2 - (u & 1)) & 1 && (!u + 1) & 3 == (4 - (u & 3)) & 3
    ensures (!u + 1) & 7 == (8 - (u & 7)) & 7 && (!u + 1) & 15 == (16 - (u & 15)) & 15
    ensures (!u + 1) & 31 == (32 - (u & 31)) & 31 && (!u + 1) & 0 == 0
    ensures u & 1 == (u & 31) & 1 && u & 3 == (u & 31) & 3 && u & 7 == (u & 31) & 7 && u & 15 == (u & 31) & 15
  {
  }

  lemma WordBelow(d: Low, a: nat)
    requires IsAlign(a)
    ensures Word(d) & Mask(a) == Word(Below(d, a))
  {
  }

  /** Digits that complete each other to nothing or to `a`. */
  lemma Negated(d: Low, e: Low, a: nat)
    requires IsAlign(a) && d == Below(d, a) && e == Below(e, a)
    requires Weight(d) + Weight(e) == 0 || Weight(d) + Weight(e) == a
    ensures ((Mask(a) + 1) - Word(d)) & Mask(a) == Word(e)
  {
    if a == 32 {
      Negated32(d, e);
    }
  }

  lemma Negated32(d: Low, e: Low)
    requires Weight(d) + Weight(e) == 0 || Weight(d) + Weight(e) == 32
    ensures (32 - Word(d)) & 31 == Word(e)
  {
  }

  /** A number below 32 is its digits. */
  lemma Small(p: nat)
    requires p < 32
    ensures p as bv64 == Word(LowOf(p))
  {
    hide Word;
    hide LowOf;
    Digits(p);
  }

  lemma NoneAbove(p: nat, a: nat)
    requires IsAlign(a) && p < a
    ensures Below(LowOf(p), a) == LowOf(p)
  {
  }

  /** The expression of the source, with the mask for the alignment. */
  function MaskedNegative(u: bv64, mask: bv64): bv64 {
    (!u + 1) & mask
  }

  function Complement(u: bv64, mask: bv64): bv64 {
    ((mask + 1) - u) & mask
  }

  lemma MaskedBy(u: bv64, d: Low, a: nat)
    requires IsAlign(a) && u & 31 == Word(d)
    ensures MaskedNegative(u, Mask(a)) == Complement(Word(Below(d, a)), Mask(a))
  {
    hide Word;
    Masked(u);
    WordBelow(d, a);
  }

  lemma NegatedWord(d: Low, e: Low, a: nat)
    requires IsAlign(a) && e == Below(e, a)
    requires Weight(Below(d, a)) + Weight(e) == 0 || Weight(Below(d, a)) + Weight(e) == a
    ensures Complement(Word(Below(d, a)), Mask(a)) == Word(e)
  {
    hide Word;
    hide Weight;
    hide Mask;
    BelowBelow(d, a);
    Negated(Below(d, a), e, a);
  }

  lemma BelowBelow(d: Low, a: nat)
    ensures Below(Below(d, a), a) == Below(d, a)
  {
  }

  lemma Completes(size: nat, a: nat)
    requires IsAlign(a)
    ensures var p := PaddingBytes(size, a); p < a && Rem(p, a) == p
    ensures var p := PaddingBytes(size, a); Rem(size, a) + p == 0 || Rem(size, a) + p == a
  {
  }

  lemma PaddingDigits(p: nat, a: nat)
    requires IsAlign(a) && p < a
    ensures Below(LowOf(p), a) == LowOf(p) && p < 32 && p as bv64 == Word(LowOf(p))
  {
    hide Word;
    NoneAbove(p, a);
    hide LowOf;
    hide Below;
    Small(p);
  }

  lemma PaddingWord(size: nat, a: nat)
    requires size < WORD && IsAlign(a)
    ensures MaskedNegative(size as bv64, Mask(a)) == PaddingBytes(size, a) as bv64
  {
    var p, d := PaddingBytes(size, a), LowOf(size);
    assert size as bv64 & 31 == Word(d) by { Digits(size); }
    Completes(size, a);
    hide *;
    MaskedBy(size as bv64, d, a);
    Remainder(size, a);
    Remainder(p, a);
    PaddingDigits(p, a);
    NegatedWord(d, LowOf(p), a);
  }

  /** For every size and alignment the expression of the source is the padding of the model. */
  lemma PaddingBits(size: nat, a: nat)
    requires size < WORD && IsAlign(a)
    ensures (!(size as bv64) + 1) & ((a - 1) as bv64) == PaddingBytes(size, a) as bv64
  {
    MaskIs(a);
    PaddingWord(size, a);
    hide Mask;
    hide PaddingBytes;
  }
}
