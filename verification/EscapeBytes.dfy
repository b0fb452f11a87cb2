/**
  `EscapeString` when ill-formed bytes are allowed: it always succeeds, and a reader that also knows the escape
  `\x` with two digits, high digit first, gets back every byte of the input.
 */
module EscapeBytes {
  import opened Bytes
  import opened Utf8
  import opened EscapeJson

  function UnHex2(a: bv8, b: bv8): Option<bv8> {
    match (UnHex(a), UnHex(b))
    case (Some(x), Some(y)) => Some(((x << 4) | y) as bv8)
    case _ => None
  }

  /** The bytes that the text from `p` to its closing quote stands for; characters count as their UTF-8. */
  function ByteString(t: Octets, p: nat): Option<Octets>
    decreases |t| - p
  {
    if p >= |t| then None
    else if t[p] == 0x22 then if p + 1 == |t| then Some([]) else None
    else if t[p] == 0x5C && ByteAt(t, p + 1) == 0x78 then
      match UnHex2(ByteAt(t, p + 2), ByteAt(t, p + 3))
      case None => None
      case Some(c) => Prepend([c], ByteString(t, p + 4))
    else
      match JsonChar(t, p)
      case None => None
      case Some((u, q)) => Prepend(Utf8Of(u), ByteString(t, q))
  }

  function Utf8Of(u: bv32): Octets {
    if u & 0x8000_0000 == 0 then Encoding(u) else []
  }

  function Prepend(s: Octets, r: Option<Octets>): Option<Octets> {
    match r
    case None => None
    case Some(rest) => Some(s + rest)
  }

  /** The whole text, from quote to quote. */
  function ReadBytes(t: Octets): Option<Octets> {
    if t != [] && t[0] == 0x22 then ByteString(t, 1) else None
  }

  lemma NextByte(t: Octets, p: nat, c: bv8)
    requires p < |t| && t[p] == BACKSLASH && ByteAt(t, p + 1) == LETTER_X
    requires UnHex2(ByteAt(t, p + 2), ByteAt(t, p + 3)) == Some(c)
    ensures ByteString(t, p) == Prepend([c], ByteString(t, p + 4))
  {
    hide JsonChar;
    hide ByteAt;
    hide UnHex2;
    hide Utf8Of;
    hide Prepend;
  }

  lemma NextChar(t: Octets, p: nat)
    requires p < |t| && t[p] != QUOTE && !(t[p] == BACKSLASH && ByteAt(t, p + 1) == LETTER_X)
    ensures ByteString(t, p) ==
      match JsonChar(t, p)
      case None => None
      case Some((u, q)) => Prepend(Utf8Of(u), ByteString(t, q))
  {
    hide JsonChar;
    hide ByteAt;
    hide UnHex2;
    hide Utf8Of;
    hide Prepend;
  }

  lemma Utf8Is(u: bv32)
    requires u & 0x8000_0000 == 0
    ensures Utf8Of(u) == Encoding(u)
  {
    hide Encoding;
  }

  lemma Hex2Reads(c: bv8)
    ensures var h := Hex2(c); |h| == 2 && UnHex2(h[0], h[1]) == Some(c)
  {
    var x, y := (c >> 4) as bv32, (c & 0xF) as bv32;
    NibblesOfByte(c);
    DigitReads(x);
    DigitReads(y);
    hide HexDigit;
    hide UnHex;
  }

  lemma NibblesOfByte(c: bv8)
    ensures (c >> 4) as bv32 < 16 && (c & 0xF) as bv32 < 16
    ensures ((((c >> 4) as bv32) << 4) | ((c & 0xF) as bv32)) as bv8 == c
  {
  }

  lemma ByteReads(pre: Octets, c: bv8, post: Octets)
    ensures var t := pre + ([BACKSLASH, LETTER_X] + Hex2(c)) + post;
      && |Hex2(c)| == 2
      && ByteString(t, |pre|) == Prepend([c], ByteString(t, |pre| + 4))
  {
    Hex2Reads(c);
    hide *;
    var e := [BACKSLASH, LETTER_X] + Hex2(c);
    var t := pre + e + post;
    ChunkAt(pre, e, post, 1);
    ChunkAt(pre, e, post, 2);
    ChunkAt(pre, e, post, 3);
    assert t[|pre|] == e[0];
    assert |pre| + 1 < |t|;
    NextByte(t, |pre|, c);
  }

  /** Whatever is not an ill-formed byte is written as if none were allowed, and not with `\x`. */
  lemma WellFormedChunk(pre: Octets, s: Octets, i: nat, natural: bool, post: Octets)
    requires i < |s| && Chunk(s, i, false, natural).Some?
    ensures Chunk(s, i, true, natural) == Chunk(s, i, false, natural)
    ensures var t := Chunk(s, i, false, natural).value.0;
      t != [] && !(t[0] == BACKSLASH && ByteAt(pre + t + post, |pre| + 1) == LETTER_X)
  {
    hide Decoded;
    hide Encoding;
    hide IsScalar;
    var (t, q) := Chunk(s, i, false, natural).value;
    if ShortEscape(s[i]).Some? {
      ChunkAt(pre, t, post, 1);
    } else if !IsPrintable(s[i]) && !natural {
      hide Hex4;
      ChunkAt(pre, t, post, 1);
    }
  }

  lemma ChunkBytes(pre: Octets, s: Octets, i: nat, natural: bool, post: Octets)
    requires i < |s|
    ensures Chunk(s, i, true, natural).Some?
    ensures var (t, q) := Chunk(s, i, true, natural).value;
      var text := pre + t + post;
      ByteString(text, |pre|) ==
        if natural && IsRaw(s[i]) then None else Prepend(s[i..q], ByteString(text, |pre| + |t|))
  {
    hide JsonChar;
    hide Decoded;
    hide Encoding;
    hide ByteAt;
    hide IsScalar;
    if Decoded(s, i).Some? {
      hide *;
      CharBytes(pre, s, i, natural, post);
    } else {
      HighByte(s, i);
      IllFormedChunk(s, i, natural);
      hide *;
      ByteReads(pre, s[i], post);
    }
  }

  lemma CharBytes(pre: Octets, s: Octets, i: nat, natural: bool, post: Octets)
    requires i < |s| && Decoded(s, i).Some?
    ensures Chunk(s, i, true, natural).Some?
    ensures var (t, q) := Chunk(s, i, true, natural).value;
      var text := pre + t + post;
      ByteString(text, |pre|) ==
        if natural && IsRaw(s[i]) then None else Prepend(s[i..q], ByteString(text, |pre| + |t|))
  {
    hide *;
    var t := CharStarts(pre, s, i, natural, post);
    var (u, q) := Decoded(s, i).value;
    NextChar(pre + t + post, |pre|);
    CharAgain(s, i);
    CharReads(pre, s, i, natural, post);
  }

  lemma CharStarts(pre: Octets, s: Octets, i: nat, natural: bool, post: Octets) returns (t: Octets)
    requires i < |s| && Decoded(s, i).Some?
    ensures Chunk(s, i, true, natural) == Some((t, Decoded(s, i).value.1))
    ensures var text := pre + t + post;
      |pre| < |text| && text[|pre|] != QUOTE && !(text[|pre|] == BACKSLASH && ByteAt(text, |pre| + 1) == LETTER_X)
  {
    ChunkOfChar(s, i, natural);
    hide *;
    WellFormedChunk(pre, s, i, natural, post);
    ChunkReads(pre, s, i, natural, post);
    t := Chunk(s, i, false, natural).value.0;
    assert (pre + t + post)[|pre|] == t[0];
  }

  lemma CharReads(pre: Octets, s: Octets, i: nat, natural: bool, post: Octets)
    requires i < |s| && Decoded(s, i).Some? && Chunk(s, i, true, natural).Some?
    ensures var (u, q) := Decoded(s, i).value;
      var t := Chunk(s, i, true, natural).value.0;
      JsonChar(pre + t + post, |pre|) == if natural && IsRaw(s[i]) then None else Some((u, |pre| + |t|))
  {
    ChunkOfChar(s, i, natural);
    hide *;
    WellFormedChunk(pre, s, i, natural, post);
    ChunkReads(pre, s, i, natural, post);
  }

  lemma CharAgain(s: Octets, i: nat)
    requires i < |s| && Decoded(s, i).Some?
    ensures var (u, q) := Decoded(s, i).value; i < q <= |s| && Utf8Of(u) == s[i..q]
  {
    hide *;
    Reencodes(s, i);
    Utf8Is(Decoded(s, i).value.0);
  }

  lemma ChunkOfChar(s: Octets, i: nat, natural: bool)
    requires i < |s| && Decoded(s, i).Some?
    ensures Chunk(s, i, false, natural).Some?
  {
    hide Decoded;
  }

  lemma IllFormedChunk(s: Octets, i: nat, natural: bool)
    requires i < |s| && Decoded(s, i).None?
    ensures Chunk(s, i, true, natural) == Some(([BACKSLASH, LETTER_X] + Hex2(s[i]), i + 1))
    ensures s[i..i + 1] == [s[i]]
  {
    PlainAscii(s, i);
    hide Decoded;
    hide Hex2;
    hide ShortEscape;
  }

  lemma HighByte(s: Octets, i: nat)
    requires i < |s| && Decoded(s, i).None?
    ensures s[i] >= 0x80 && !IsRaw(s[i])
  {
    hide Decoded;
    DecodedIs(s, i);
  }

  /** From any place on, the text reads as the bytes from there on. */
  lemma {:induction false} EscapedBytes(pre: Octets, s: Octets, i: nat, natural: bool)
    requires i <= |s|
    ensures Escaped(s, i, true, natural).Some?
    ensures ByteString(pre + Escaped(s, i, true, natural).value + [QUOTE], |pre|) ==
      if natural && RawControl(s, i) then None else Some(s[i..])
    decreases |s| - i
  {
    hide JsonChar;
    hide Chunk;
    hide IsRaw;
    if i == |s| {
      assert (pre + [] + [QUOTE])[|pre|] == QUOTE;
    } else {
      ChunkBytes(pre, s, i, natural, []);
      var (t, q) := Chunk(s, i, true, natural).value;
      EscapedBytes(pre + t, s, q, natural);
      var rest := Escaped(s, q, true, natural).value;
      ChunkBytes(pre, s, i, natural, rest + [QUOTE]);
      var text := pre + Escaped(s, i, true, natural).value + [QUOTE];
      assert text == pre + t + (rest + [QUOTE]) && text == (pre + t) + rest + [QUOTE];
      RawChunk(s, i, natural);
      assert s[i..] == s[i..q] + s[q..];
      hide ByteString;
    }
  }

  /** Raw control characters are met one by one. */
  lemma RawChunk(s: Octets, i: nat, natural: bool)
    requires i < |s| && Chunk(s, i, true, natural).Some?
    ensures var q := Chunk(s, i, true, natural).value.1;
      i < q <= |s| && (RawControl(s, i) <==> IsRaw(s[i]) || RawControl(s, q))
  {
    hide Decoded;
    hide IsRaw;
    hide CharLength;
    PlainAscii(s, i);
    AcceptsGrammar(s, i);
    if CharLength(s, i) > 0 {
      RawStep(s, i);
    }
  }

  /** Nothing is lost, whatever the input: success, and all bytes again. */
  lemma BytesCorrect(s: Octets)
    ensures EscapedText(s, true, false).Some? && ReadBytes(EscapedText(s, true, false).value) == Some(s)
    ensures EscapedText(s, true, true).Some?
    ensures ReadBytes(EscapedText(s, true, true).value) == if RawControl(s, 0) then None else Some(s)
  {
    hide ByteString;
    hide Escaped;
    hide RawControl;
    EscapedBytes([QUOTE], s, 0, false);
    EscapedBytes([QUOTE], s, 0, true);
    assert s[0..] == s;
  }

  predicate UpperDigits(t: Octets, p: nat, n: nat) {
    p + n <= |t| && forall k | p <= k < p + n :: 0x30 <= t[k] <= 0x39 || 0x41 <= t[k] <= 0x46
  }

  /** One escape with four upper-case digits, or two when the code point needs them. */
  predicate IsEscape(t: Octets, u: bv32) {
    if u <= 0xFFFF then |t| == 6 && EscapeAt(t, 0, u) && UpperDigits(t, 2, 4)
    else
      && |t| == 12 && UpperDigits(t, 2, 4) && UpperDigits(t, 8, 4)
      && EscapeAt(t, 0, HighSurrogate(u)) && EscapeAt(t, 6, LowSurrogate(u))
  }

  /** The text for the character at the front of the rest, which ends before `q`. */
  predicate Written(s: Octets, i: nat, q: nat, natural: bool, t: Octets)
    requires i < q <= |s|
  {
    var c := s[i];
    if c == 0x22 || c == 0x5C then t == [0x5C, c]
    else if c == 0x08 then t == [0x5C, 0x62]
    else if c == 0x09 then t == [0x5C, 0x74]
    else if c == 0x0A then t == [0x5C, 0x6E]
    else if c == 0x0C then t == [0x5C, 0x66]
    else if c == 0x0D then t == [0x5C, 0x72]
    else if 0x20 <= c <= 0x7E then t == [c]
    else
      match Decoded(s, i)
      case None => |t| == 4 && t[0] == 0x5C && t[1] == 0x78 && UpperDigits(t, 2, 2)
      case Some((u, _)) => if natural then t == s[i..q] else IsEscape(t, u)
  }

  lemma DigitsUpper(u: bv32)
    ensures UpperDigits(Hex4(u), 0, 4)
  {
    DigitReads((u >> 12) & 0xF);
    DigitReads((u >> 8) & 0xF);
    DigitReads((u >> 4) & 0xF);
    DigitReads(u & 0xF);
    hide HexDigit;
    hide UnHex;
  }

  lemma EscapeForm(u: bv32)
    requires IsScalar(u)
    ensures IsEscape(UnicodeEscape(u), u)
  {
    var e := [BACKSLASH, LETTER_U];
    if u <= 0xFFFF {
      DigitsUpper(u);
      EscapeStands([], u, []);
      assert [] + (e + Hex4(u)) + [] == UnicodeEscape(u);
      hide Hex4;
      hide EscapeAt;
    } else {
      Surrogates(u);
      hide HighSurrogate;
      hide LowSurrogate;
      var h, l := e + Hex4(HighSurrogate(u)), e + Hex4(LowSurrogate(u));
      assert UnicodeEscape(u) == h + l;
      DigitsUpper(HighSurrogate(u));
      DigitsUpper(LowSurrogate(u));
      EscapeStands([], HighSurrogate(u), l);
      EscapeStands(h, LowSurrogate(u), []);
      assert [] + h + l == h + l && h + l + [] == h + l;
      hide Hex4;
      hide EscapeAt;
    }
  }

  /** The form of what is written, character by character. */
  lemma ChunkWritten(s: Octets, i: nat, allow: bool, natural: bool)
    requires i < |s| && Chunk(s, i, allow, natural).Some?
    ensures var (t, q) := Chunk(s, i, allow, natural).value;
      Written(s, i, q, natural, t) && q == (if Decoded(s, i).Some? then Decoded(s, i).value.1 else i + 1)
  {
    hide Decoded;
    hide IsEscape;
    hide UnicodeEscape;
    hide Encoding;
    PlainAscii(s, i);
    if Decoded(s, i).Some? {
      Reencodes(s, i);
      EscapeForm(Decoded(s, i).value.0);
    } else {
      ByteForm(s[i]);
      hide Hex2;
    }
  }

  lemma ByteForm(c: bv8)
    ensures |Hex2(c)| == 2 && UpperDigits([BACKSLASH, LETTER_X] + Hex2(c), 2, 2)
  {
    NibblesOfByte(c);
    DigitReads((c >> 4) as bv32);
    DigitReads((c & 0xF) as bv32);
    hide HexDigit;
    hide UnHex;
  }
}
