/** All six lengths of `ToUTF8`, byte by byte, as section 2 of RFC 2279 draws them. */
module Utf8Table {
  import opened Utf8

  /** `10xxxxxx` with the six bits. */
  function Tail(u: bv32): bv8 {
    (0x80 | (u & 0x3F)) as bv8
  }

  function Drawn(u: bv32): Octets
    requires u < 0x8000_0000
  {
    if u < 0x80 then [u as bv8]
    else if u < 0x800 then [(0xC0 | (u >> 6)) as bv8, Tail(u)]
    else if u < 0x10000 then [(0xE0 | (u >> 12)) as bv8, Tail(u >> 6), Tail(u)]
    else if u < 0x200000 then [(0xF0 | (u >> 18)) as bv8, Tail(u >> 12), Tail(u >> 6), Tail(u)]
    else if u < 0x4000000 then [(0xF8 | (u >> 24)) as bv8, Tail(u >> 18), Tail(u >> 12), Tail(u >> 6), Tail(u)]
    else [(0xFC | (u >> 30)) as bv8, Tail(u >> 24), Tail(u >> 18), Tail(u >> 12), Tail(u >> 6), Tail(u)]
  }

  lemma FitsTable(u: bv32)
    requires u < 0x8000_0000
    ensures u & 0x8000_0000 == 0
    ensures FitsIn(u, 0) <==> u < 0x80
    ensures FitsIn(u, 1) <==> u < 0x800
    ensures FitsIn(u, 2) <==> u < 0x10000
    ensures FitsIn(u, 3) <==> u < 0x200000
    ensures FitsIn(u, 4) <==> u < 0x4000000
    ensures FitsIn(u, 5)
  {
    assert MaxBits(0) == 7 && MaxBits(1) == 11 && MaxBits(2) == 16 && MaxBits(3) == 21;
    assert MaxBits(4) == 26 && MaxBits(5) == 31;
    assert (1 as bv32) << 7 == 0x80 && (1 as bv32) << 11 == 0x800 && (1 as bv32) << 16 == 0x10000;
    assert (1 as bv32) << 21 == 0x200000 && (1 as bv32) << 26 == 0x4000000 && (1 as bv32) << 31 == 0x8000_0000;
  }

  function LengthOf(u: bv32): nat {
    if u < 0x80 then 0 else if u < 0x800 then 1 else if u < 0x10000 then 2
    else if u < 0x200000 then 3 else if u < 0x4000000 then 4 else 5
  }

  lemma LengthIs(u: bv32)
    requires u < 0x8000_0000
    ensures Continuations(u, 0) == LengthOf(u)
  {
    FitsTable(u);
    hide FitsIn;
    assert Continuations(u, 4) == if FitsIn(u, 4) then 4 else Continuations(u, 5);
    assert Continuations(u, 3) == if FitsIn(u, 3) then 3 else Continuations(u, 4);
    assert Continuations(u, 2) == if FitsIn(u, 2) then 2 else Continuations(u, 3);
    assert Continuations(u, 1) == if FitsIn(u, 1) then 1 else Continuations(u, 2);
  }

  lemma FirstIs(u: bv32)
    requires u < 0x8000_0000
    ensures FirstByte(u, LengthOf(u)) == Drawn(u)[0]
  {
  }

  lemma TailIs(u: bv32, j: nat)
    requires j < 5
    ensures ContinuationByte(u, j) == Tail(DropSixes(u, j))
  {
    hide DropSixes;
  }

  lemma {:induction false} TailsAre(u: bv32, n: nat, k: nat)
    requires k < n <= 5
    ensures ContinuationBytes(u, n)[k] == Tail(DropSixes(u, n - 1 - k))
    decreases n
  {
    hide ContinuationByte;
    hide Tail;
    hide DropSixes;
    TailIs(u, n - 1);
    if k > 0 {
      TailsAre(u, n - 1, k - 1);
    }
  }

  lemma DrawnTails(u: bv32, k: nat)
    requires u < 0x8000_0000 && k < LengthOf(u)
    ensures |Drawn(u)| == LengthOf(u) + 1 && Drawn(u)[k + 1] == Tail(DropSixes(u, LengthOf(u) - 1 - k))
  {
    hide Tail;
  }

  lemma DrawnLength(u: bv32)
    requires u < 0x8000_0000
    ensures |Drawn(u)| == LengthOf(u) + 1
  {
    hide Tail;
  }

  /** For everything that fits 31 bits, Unicode or not. */
  lemma EncodingDrawn(u: bv32)
    requires u < 0x8000_0000
    ensures u & 0x8000_0000 == 0 && Encoding(u) == Drawn(u)
  {
    FitsTable(u);
    LengthIs(u);
    FirstIs(u);
    DrawnLength(u);
    var n := LengthOf(u);
    hide FirstByte;
    hide Drawn;
    hide LengthOf;
    hide Tail;
    hide DropSixes;
    hide Continuations;
    hide FitsIn;
    forall i | 0 <= i < n + 1 ensures Encoding(u)[i] == Drawn(u)[i] {
      if i > 0 {
        TailsAre(u, n, i - 1);
        DrawnTails(u, i - 1);
      }
    }
  }
}
