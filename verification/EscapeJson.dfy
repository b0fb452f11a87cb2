/** `EscapeString`: UTF-8 to the text of a JSON string, and a reader of such texts after section 7 of RFC 8259. */
module EscapeJson {
  import opened Bytes
  import opened Utf8

  const QUOTE: bv8 := 0x22
  const BACKSLASH: bv8 := 0x5C
  const LETTER_U: bv8 := 0x75
  const LETTER_X: bv8 := 0x78

  /** The letter behind the backslash, for characters that have one. */
  function ShortEscape(c: bv8): Option<bv8> {
    if c == 0x0A then Some(0x6E) else if c == 0x09 then Some(0x74) else if c == 0x0D then Some(0x72)
    else if c == 0x08 then Some(0x62) else if c == 0x0C then Some(0x66)
    else if c == QUOTE || c == BACKSLASH then Some(c) else None
  }

  predicate IsPrintable(c: bv8) {
    0x20 <= c <= 0x7E
  }

  function HexDigit(n: bv32): bv8
    requires n < 16
  {
    if n < 10 then (0x30 + n) as bv8 else (0x37 + n) as bv8
  }

  function Hex4(u: bv32): (r: Octets)
    ensures |r| == 4
  {
    [HexDigit((u >> 12) & 0xF), HexDigit((u >> 8) & 0xF), HexDigit((u >> 4) & 0xF), HexDigit(u & 0xF)]
  }

  function Hex2(c: bv8): Octets {
    [HexDigit((c >> 4) as bv32), HexDigit((c & 0xF) as bv32)]
  }

  function HighSurrogate(u: bv32): bv32 {
    ((u - 0x10000) >> 10) + 0xD800
  }

  function LowSurrogate(u: bv32): bv32 {
    ((u - 0x10000) & 0x03FF) + 0xDC00
  }

  function UnicodeEscape(u: bv32): Octets {
    if u <= 0xFFFF then [BACKSLASH, LETTER_U] + Hex4(u)
    else [BACKSLASH, LETTER_U] + Hex4(HighSurrogate(u)) + [BACKSLASH, LETTER_U] + Hex4(LowSurrogate(u))
  }

  /** What is written for the character at `i`, and where the next one is. */
  function Chunk(s: Octets, i: nat, allowNonUtf8: bool, naturalUtf8: bool): (r: Option<(Octets, nat)>)
    requires i < |s|
    ensures r.Some? ==> i < r.value.1 <= |s|
  {
    var c := s[i];
    if ShortEscape(c).Some? then Some(([BACKSLASH, ShortEscape(c).value], i + 1))
    else if IsPrintable(c) then Some(([c], i + 1))
    else if Decoded(s, i).None? then
      if allowNonUtf8 then Some(([BACKSLASH, LETTER_X] + Hex2(c), i + 1)) else None
    else
      var (u, q) := Decoded(s, i).value;
      Reencodes(s, i);
      Some((if naturalUtf8 then s[i..q] else UnicodeEscape(u), q))
  }

  function Escaped(s: Octets, i: nat, allowNonUtf8: bool, naturalUtf8: bool): Option<Octets>
    decreases |s| - i
  {
    if i >= |s| then Some([]) else
    match Chunk(s, i, allowNonUtf8, naturalUtf8)
    case None => None
    case Some((t, q)) =>
      match Escaped(s, q, allowNonUtf8, naturalUtf8)
      case None => None
      case Some(rest) => Some(t + rest)
  }

  function EscapedText(s: Octets, allowNonUtf8: bool, naturalUtf8: bool): Option<Octets> {
    match Escaped(s, 0, allowNonUtf8, naturalUtf8)
    case None => None
    case Some(t) => Some([QUOTE] + t + [QUOTE])
  }

  function Behind(done: Octets, r: Option<Octets>): Option<Octets> {
    match r
    case None => None
    case Some(rest) => Some(done + rest)
  }

  lemma BehindStep(done: Octets, s: Octets, i: nat, allow: bool, natural: bool)
    requires i < |s|
    ensures match Chunk(s, i, allow, natural)
      case None => Behind(done, Escaped(s, i, allow, natural)) == None
      case Some((t, q)) =>
        Behind(done, Escaped(s, i, allow, natural)) == Behind(done + t, Escaped(s, q, allow, natural))
  {
    hide Chunk;
    var c := Chunk(s, i, allow, natural);
    if c.Some? {
      var (t, q) := c.value;
      var r := Escaped(s, q, allow, natural);
      if r.Some? {
        assert done + (t + r.value) == (done + t) + r.value;
      }
    }
  }

  /** Appends the string as JSON text; false, and no text to use, when it has to give up. */
  method EscapeString(s: Octets, text: Octets, allowNonUtf8: bool, naturalUtf8: bool) returns (ok: bool, r: Octets)
    requires |s| < 0x1_0000_0000
    ensures ok == EscapedText(s, allowNonUtf8, naturalUtf8).Some?
    ensures ok ==> r == text + EscapedText(s, allowNonUtf8, naturalUtf8).value
  {
    hide Chunk;
    hide Escaped;
    r := text + [QUOTE];
    ghost var done: Octets := [];
    var i := 0;
    assert Escaped(s, 0, allowNonUtf8, naturalUtf8) == Behind([], Escaped(s, 0, allowNonUtf8, naturalUtf8)) by {
      BehindNothing(Escaped(s, 0, allowNonUtf8, naturalUtf8));
    }
    while i < |s|
      invariant i <= |s| && r == text + [QUOTE] + done
      invariant Escaped(s, 0, allowNonUtf8, naturalUtf8) == Behind(done, Escaped(s, i, allowNonUtf8, naturalUtf8))
    {
      BehindStep(done, s, i, allowNonUtf8, naturalUtf8);
      var c := WriteChunk(s, i, allowNonUtf8, naturalUtf8);
      if c.None? {
        return false, r;
      }
      done := done + c.value.0;
      r := r + c.value.0;
      i := c.value.1;
    }
    EscapedEnd(s, i, allowNonUtf8, naturalUtf8);
    r := r + [QUOTE];
    ok := true;
    assert r == text + ([QUOTE] + done + [QUOTE]);
  }

  lemma BehindNothing(r: Option<Octets>)
    ensures Behind([], r) == r
  {
    if r.Some? {
      assert [] + r.value == r.value;
    }
  }

  lemma EscapedEnd(s: Octets, i: nat, allow: bool, natural: bool)
    requires i >= |s|
    ensures Escaped(s, i, allow, natural) == Some([])
  {
  }

  /** One round of the loop: the character at `i`. */
  method WriteChunk(s: Octets, i: nat, allowNonUtf8: bool, naturalUtf8: bool) returns (r: Option<(Octets, nat)>)
    requires i < |s|
    ensures r == Chunk(s, i, allowNonUtf8, naturalUtf8)
  {
    hide Decoded;
    hide ShortEscape;
    hide IsPrintable;
    hide UnicodeEscape;
    hide Hex2;
    hide Encoding;
    hide IsScalar;
    hide ByteAt;
    var c := s[i];
    if ShortEscape(c).Some? {
      return Some(([BACKSLASH, ShortEscape(c).value], i + 1));
    }
    if IsPrintable(c) {
      return Some(([c], i + 1));
    }
    var ucc, next := FromUTF8(s, i);
    if ucc.None? {
      return if allowNonUtf8 then Some(([BACKSLASH, LETTER_X] + Hex2(c), i + 1)) else None;
    }
    Reencodes(s, i);
    if naturalUtf8 {
      return Some((s[i..next], next));
    }
    var t := WriteUnicode(ucc.value);
    return Some((t, next));
  }

  /** One `\\u` escape, or two for a code point that takes a surrogate pair. */
  method WriteUnicode(ucc: bv32) returns (t: Octets)
    ensures t == UnicodeEscape(ucc)
  {
    hide Hex4;
    if ucc <= 0xFFFF {
      return [BACKSLASH, LETTER_U] + Hex4(ucc);
    }
    var base := ucc - 0x10000;
    var high, low := (base >> 10) + 0xD800, (base & 0x03FF) + 0xDC00;
    t := [BACKSLASH, LETTER_U] + Hex4(high) + [BACKSLASH, LETTER_U] + Hex4(low);
  }

  /** The rest of the string is a sequence of characters by the grammar of RFC 3629. */
  predicate ValidUtf8(s: Octets, i: nat)
    decreases |s| - i
  {
    i >= |s| || (CharLength(s, i) > 0 && ValidUtf8(s, i + CharLength(s, i)))
  }

  /** The code points of the rest of the string. */
  function CodePoints(s: Octets, i: nat): seq<bv32>
    decreases |s| - i
  {
    if i >= |s| || Decoded(s, i).None? then [] else
    var (u, q) := Decoded(s, i).value;
    [u] + CodePoints(s, q)
  }

  /** A control character without a letter of its own. */
  predicate IsRaw(c: bv8) {
    c < 0x20 && ShortEscape(c).None?
  }

  /** There is one from `i` on; the natural form writes it as it is, which JSON does not allow. */
  predicate RawControl(s: Octets, i: nat) {
    exists k | i <= k < |s| :: IsRaw(s[k])
  }

  lemma RawStep(s: Octets, i: nat)
    requires i < |s| && CharLength(s, i) > 0
    ensures RawControl(s, i) <==> IsRaw(s[i]) || RawControl(s, i + CharLength(s, i))
  {
    hide ShortEscape;
    var q := i + CharLength(s, i);
    forall k | i < k < q && k < |s| ensures !IsRaw(s[k]) {
      assert ByteAt(s, i + 1) >= 0x80;
      assert k == i + 1 || (k == i + 2 && ByteAt(s, i + 2) >= 0x80) || (k == i + 3 && ByteAt(s, i + 3) >= 0x80);
    }
  }

  function UnHex(c: bv8): Option<bv32> {
    if 0x30 <= c <= 0x39 then Some((c - 0x30) as bv32)
    else if 0x41 <= c <= 0x46 then Some((c - 0x37) as bv32)
    else if 0x61 <= c <= 0x66 then Some((c - 0x57) as bv32)
    else None
  }

  function UnHex4(a: bv8, b: bv8, c: bv8, d: bv8): Option<bv32> {
    match (UnHex(a), UnHex(b), UnHex(c), UnHex(d))
    case (Some(x), Some(y), Some(z), Some(w)) => Some((x << 12) | (y << 8) | (z << 4) | w)
    case _ => None
  }

  function HexAt(t: Octets, p: nat): Option<bv32> {
    UnHex4(ByteAt(t, p), ByteAt(t, p + 1), ByteAt(t, p + 2), ByteAt(t, p + 3))
  }

  /** The characters that a single letter behind the backslash stands for. */
  function LongForm(e: bv8): Option<bv32> {
    if e == 0x22 || e == 0x5C || e == 0x2F then Some(e as bv32)
    else if e == 0x62 then Some(0x08) else if e == 0x66 then Some(0x0C) else if e == 0x6E then Some(0x0A)
    else if e == 0x72 then Some(0x0D) else if e == 0x74 then Some(0x09) else None
  }

  function JoinSurrogates(h: bv32, l: bv32): bv32 {
    0x10000 + (((h - 0xD800) << 10) + (l - 0xDC00))
  }

  /** One character of a JSON string, and where the next one is. */
  function JsonChar(t: Octets, p: nat): (r: Option<(bv32, nat)>)
    ensures r.Some? ==> p < r.value.1
  {
    var c, e := ByteAt(t, p), ByteAt(t, p + 1);
    if c < 0x20 || c == 0x22 then None
    else if c != 0x5C then Decoded(t, p)
    else if LongForm(e).Some? then Some((LongForm(e).value, p + 2))
    else if e != 0x75 || HexAt(t, p + 2).None? then None
    else
      var h := HexAt(t, p + 2).value;
      if !(0xD800 <= h <= 0xDFFF) then Some((h, p + 6))
      else if h > 0xDBFF || ByteAt(t, p + 6) != 0x5C || ByteAt(t, p + 7) != 0x75 then None
      else
        match HexAt(t, p + 8)
        case None => None
        case Some(l) =>
          if 0xDC00 <= l <= 0xDFFF then Some((JoinSurrogates(h, l), p + 12)) else None
  }

  /** The characters up to the closing quote, which must be the end of the text. */
  function JsonChars(t: Octets, p: nat): Option<seq<bv32>>
    decreases |t| - p
  {
    if p >= |t| then None
    else if t[p] == 0x22 then if p + 1 == |t| then Some([]) else None
    else
      match JsonChar(t, p)
      case None => None
      case Some((u, q)) =>
        match JsonChars(t, q)
        case None => None
        case Some(rest) => Some([u] + rest)
  }

  function JsonString(t: Octets): Option<seq<bv32>> {
    if t != [] && t[0] == 0x22 then JsonChars(t, 1) else None
  }

  /** With non-UTF-8 not allowed, success means valid UTF-8, and validity success. */
  lemma {:induction false} EscapedIfValid(s: Octets, i: nat, natural: bool)
    ensures Escaped(s, i, false, natural).Some? <==> ValidUtf8(s, i)
    decreases |s| - i
  {
    hide Decoded;
    hide CharLength;
    if i < |s| {
      AcceptsGrammar(s, i);
      PlainAscii(s, i);
      if CharLength(s, i) > 0 {
        EscapedIfValid(s, i + CharLength(s, i), natural);
      }
    }
  }

  /** Single bytes that are written without asking the decoder are characters of one byte. */
  lemma PlainAscii(s: Octets, i: nat)
    requires i < |s|
    ensures ShortEscape(s[i]).Some? || IsPrintable(s[i]) ==>
      CharLength(s, i) == 1 && Decoded(s, i) == Some((s[i] as bv32, i + 1))
  {
    hide Decoded;
    DecodedIs(s, i);
  }

  /** The bytes of `t` behind `pre` in a text. */
  lemma ChunkAt(pre: Octets, t: Octets, post: Octets, k: nat)
    requires k < |t|
    ensures ByteAt(pre + t + post, |pre| + k) == t[k]
  {
  }

  lemma ShortReads(pre: Octets, c: bv8, post: Octets)
    requires ShortEscape(c).Some?
    ensures JsonChar(pre + [BACKSLASH, ShortEscape(c).value] + post, |pre|) == Some((c as bv32, |pre| + 2))
  {
    hide ByteAt;
    hide Decoded;
    var t := [BACKSLASH, ShortEscape(c).value];
    ChunkAt(pre, t, post, 0);
    ChunkAt(pre, t, post, 1);
    ShortLong(c);
    hide LongForm;
    hide ShortEscape;
  }

  lemma ShortLong(c: bv8)
    requires ShortEscape(c).Some?
    ensures LongForm(ShortEscape(c).value) == Some(c as bv32)
  {
  }

  /** A printable character, or a whole encoded one, is read as it stands unless it is a control character. */
  lemma PlainReads(pre: Octets, u: bv32, post: Octets)
    requires IsScalar(u) && u & 0x8000_0000 == 0 && Encoding(u) != []
    requires Encoding(u)[0] != QUOTE && Encoding(u)[0] != BACKSLASH
    ensures JsonChar(pre + Encoding(u) + post, |pre|) ==
      if Encoding(u)[0] < 0x20 then None else Some((u, |pre| + |Encoding(u)|))
  {
    hide Encoding;
    hide Decoded;
    hide ByteAt;
    ChunkAt(pre, Encoding(u), post, 0);
    DecodesEncoding(pre, u, post);
  }

  lemma DigitReads(n: bv32)
    requires n < 16
    ensures UnHex(HexDigit(n)) == Some(n) && IsPrintable(HexDigit(n))
    ensures 0x30 <= HexDigit(n) <= 0x39 || 0x41 <= HexDigit(n) <= 0x46
  {
  }

  lemma NibblesJoin(u: bv32)
    requires u <= 0xFFFF
    ensures (((u >> 12) & 0xF) << 12) | (((u >> 8) & 0xF) << 8) | (((u >> 4) & 0xF) << 4) | (u & 0xF) == u
  {
  }

  lemma HexReads(u: bv32)
    requires u <= 0xFFFF
    ensures var h := Hex4(u); UnHex4(h[0], h[1], h[2], h[3]) == Some(u)
  {
    hide HexDigit;
    hide UnHex;
    NibblesJoin(u);
    DigitReads((u >> 12) & 0xF);
    DigitReads((u >> 8) & 0xF);
    DigitReads((u >> 4) & 0xF);
    DigitReads(u & 0xF);
  }

  lemma HexAtReads(pre: Octets, u: bv32, post: Octets)
    requires u <= 0xFFFF
    ensures HexAt(pre + Hex4(u) + post, |pre|) == Some(u)
  {
    hide ByteAt;
    hide Hex4;
    hide UnHex4;
    HexReads(u);
    ChunkAt(pre, Hex4(u), post, 0);
    ChunkAt(pre, Hex4(u), post, 1);
    ChunkAt(pre, Hex4(u), post, 2);
    ChunkAt(pre, Hex4(u), post, 3);
  }

  /** `\u` and four digits at `p`. */
  predicate EscapeAt(t: Octets, p: nat, u: bv32) {
    ByteAt(t, p) == 0x5C && ByteAt(t, p + 1) == 0x75 && HexAt(t, p + 2) == Some(u)
  }

  lemma EscapeStands(pre: Octets, u: bv32, post: Octets)
    requires u <= 0xFFFF
    ensures EscapeAt(pre + ([BACKSLASH, LETTER_U] + Hex4(u)) + post, |pre|, u)
  {
    hide ByteAt;
    hide Hex4;
    hide HexAt;
    var e := [BACKSLASH, LETTER_U];
    var t := pre + (e + Hex4(u)) + post;
    ChunkAt(pre, e + Hex4(u), post, 0);
    ChunkAt(pre, e + Hex4(u), post, 1);
    assert t == (pre + e) + Hex4(u) + post;
    HexAtReads(pre + e, u, post);
  }

  lemma EscapeReads(t: Octets, p: nat, u: bv32)
    requires EscapeAt(t, p, u) && !(0xD800 <= u <= 0xDFFF)
    ensures JsonChar(t, p) == Some((u, p + 6))
  {
    hide ByteAt;
    hide HexAt;
    hide Decoded;
  }

  lemma PairReads(t: Octets, p: nat, u: bv32)
    requires 0x10000 <= u <= 0x10FFFF
    requires EscapeAt(t, p, HighSurrogate(u)) && EscapeAt(t, p + 6, LowSurrogate(u))
    ensures JsonChar(t, p) == Some((u, p + 12))
  {
    hide ByteAt;
    hide HexAt;
    hide Decoded;
    Surrogates(u);
    hide HighSurrogate;
    hide LowSurrogate;
    hide JoinSurrogates;
    assert p + 6 + 1 == p + 7 && p + 6 + 2 == p + 8;
  }

  lemma Surrogates(u: bv32)
    requires 0x10000 <= u <= 0x10FFFF
    ensures 0xD800 <= HighSurrogate(u) <= 0xDBFF && 0xDC00 <= LowSurrogate(u) <= 0xDFFF
    ensures JoinSurrogates(HighSurrogate(u), LowSurrogate(u)) == u
  {
    SurrogateParts(u - 0x10000);
    SurrogateJoin(u - 0x10000);
  }

  lemma SurrogateParts(b: bv32)
    requires b <= 0xFFFFF
    ensures (b >> 10) <= 0x3FF && (b & 0x3FF) <= 0x3FF
  {
  }

  lemma SurrogateJoin(b: bv32)
    ensures ((b >> 10) << 10) + (b & 0x3FF) == b
  {
  }

  lemma UnicodeReads(pre: Octets, u: bv32, post: Octets)
    requires IsScalar(u)
    ensures JsonChar(pre + UnicodeEscape(u) + post, |pre|) == Some((u, |pre| + |UnicodeEscape(u)|))
  {
    hide JsonChar;
    hide Hex4;
    hide HexAt;
    hide EscapeAt;
    if u <= 0xFFFF {
      EscapeStands(pre, u, post);
      EscapeReads(pre + UnicodeEscape(u) + post, |pre|, u);
    } else {
      Surrogates(u);
      hide HighSurrogate;
      hide LowSurrogate;
      hide JoinSurrogates;
      var e := [BACKSLASH, LETTER_U];
      var h, l := e + Hex4(HighSurrogate(u)), e + Hex4(LowSurrogate(u));
      var t := pre + UnicodeEscape(u) + post;
      assert UnicodeEscape(u) == h + l;
      assert t == pre + h + (l + post) && t == (pre + h) + l + post;
      EscapeStands(pre, HighSurrogate(u), l + post);
      EscapeStands(pre + h, LowSurrogate(u), post);
      PairReads(t, |pre|, u);
    }
  }

  /** What was written for a character is read back as that character, a raw control character excepted. */
  lemma ChunkReads(pre: Octets, s: Octets, i: nat, natural: bool, post: Octets)
    requires i < |s| && Chunk(s, i, false, natural).Some?
    ensures var (t, q) := Chunk(s, i, false, natural).value;
      && Decoded(s, i).Some? && q == Decoded(s, i).value.1 && t != [] && t[0] != QUOTE
      && JsonChar(pre + t + post, |pre|) ==
        if natural && IsRaw(s[i]) then None
        else Some((Decoded(s, i).value.0, |pre| + |t|))
  {
    hide JsonChar;
    hide Decoded;
    hide Encoding;
    PlainAscii(s, i);
    var c := s[i];
    if ShortEscape(c).Some? {
      ShortReads(pre, c, post);
    } else {
      var (u, q) := Decoded(s, i).value;
      Reencodes(s, i);
      FirstOfEncoding(s, i, q, u);
      if IsPrintable(c) {
        assert s[i..i + 1] == [c];
        PlainReads(pre, u, post);
      } else if natural {
        PlainReads(pre, u, post);
      } else {
        UnicodeReads(pre, u, post);
      }
    }
  }

  lemma FirstOfEncoding(s: Octets, i: nat, q: nat, u: bv32)
    requires i < q <= |s| && u & 0x8000_0000 == 0 && s[i..q] == Encoding(u)
    ensures Encoding(u) != [] && Encoding(u)[0] == s[i]
  {
    hide Encoding;
    assert s[i..q][0] == s[i];
  }

  /**
    Reading the text gives back the code points, from any place on. It fails exactly when a control
    character was written as it is, which happens in the natural form only.
   */
  lemma {:induction false} EscapedReads(pre: Octets, s: Octets, i: nat, natural: bool)
    requires Escaped(s, i, false, natural).Some?
    ensures JsonChars(pre + Escaped(s, i, false, natural).value + [QUOTE], |pre|) ==
      if natural && RawControl(s, i) then None else Some(CodePoints(s, i))
    decreases |s| - i
  {
    hide JsonChar;
    hide Decoded;
    hide Chunk;
    hide IsRaw;
    hide CharLength;
    if i >= |s| {
      assert (pre + [] + [QUOTE])[|pre|] == QUOTE;
    } else {
      var (t, q) := Chunk(s, i, false, natural).value;
      var rest := Escaped(s, q, false, natural).value;
      var text := pre + Escaped(s, i, false, natural).value + [QUOTE];
      assert text == pre + t + (rest + [QUOTE]);
      ChunkReads(pre, s, i, natural, rest + [QUOTE]);
      assert text[|pre|] == t[0];
      EscapedReads(pre + t, s, q, natural);
      AcceptsGrammar(s, i);
      RawStep(s, i);
      assert text == (pre + t) + rest + [QUOTE];
    }
  }

  lemma {:induction false} EscapedPrintable(s: Octets, i: nat)
    requires Escaped(s, i, false, false).Some?
    ensures forall k | 0 <= k < |Escaped(s, i, false, false).value| :: IsPrintable(Escaped(s, i, false, false).value[k])
    decreases |s| - i
  {
    hide Decoded;
    if i < |s| {
      var (t, q) := Chunk(s, i, false, false).value;
      ChunkPrintable(s, i);
      hide Chunk;
      EscapedPrintable(s, q);
    }
  }

  lemma ChunkPrintable(s: Octets, i: nat)
    requires i < |s| && Chunk(s, i, false, false).Some?
    ensures var t := Chunk(s, i, false, false).value.0; forall k | 0 <= k < |t| :: IsPrintable(t[k])
  {
    hide Decoded;
    if ShortEscape(s[i]).None? && !IsPrintable(s[i]) {
      var u := Decoded(s, i).value.0;
      UnicodePrintable(u);
    }
  }

  lemma HexPrintable(u: bv32)
    ensures forall k | 0 <= k < 4 :: IsPrintable(Hex4(u)[k])
  {
    hide HexDigit;
    hide IsPrintable;
    DigitReads((u >> 12) & 0xF);
    DigitReads((u >> 8) & 0xF);
    DigitReads((u >> 4) & 0xF);
    DigitReads(u & 0xF);
  }

  lemma UnicodePrintable(u: bv32)
    ensures forall k | 0 <= k < |UnicodeEscape(u)| :: IsPrintable(UnicodeEscape(u)[k])
  {
    hide Hex4;
    HexPrintable(u);
    HexPrintable(HighSurrogate(u));
    HexPrintable(LowSurrogate(u));
  }

  /**
    Escaping everything: it succeeds exactly on valid UTF-8, the text is printable ASCII, and a JSON reader gets
    back exactly the code points of the input, surrogate pairs joined.
   */
  lemma EscapeCorrect(s: Octets)
    ensures EscapedText(s, false, false).Some? <==> ValidUtf8(s, 0)
    ensures EscapedText(s, false, false).Some? ==>
      var t := EscapedText(s, false, false).value;
      && (forall k | 0 <= k < |t| :: 0x20 <= t[k] <= 0x7E)
      && JsonString(t) == Some(CodePoints(s, 0))
  {
    hide JsonChars;
    hide Escaped;
    hide CodePoints;
    EscapedIfValid(s, 0, false);
    if Escaped(s, 0, false, false).Some? {
      EscapedPrintable(s, 0);
      EscapedReads([QUOTE], s, 0, false);
    }
  }

  /** Leaving UTF-8 as it is: valid JSON exactly when no byte is a control character without a letter of its own. */
  lemma NaturalCorrect(s: Octets)
    ensures EscapedText(s, false, true).Some? <==> ValidUtf8(s, 0)
    ensures EscapedText(s, false, true).Some? ==>
      JsonString(EscapedText(s, false, true).value) == if RawControl(s, 0) then None else Some(CodePoints(s, 0))
  {
    hide JsonChars;
    hide Escaped;
    hide CodePoints;
    hide RawControl;
    EscapedIfValid(s, 0, true);
    if Escaped(s, 0, false, true).Some? {
      EscapedReads([QUOTE], s, 0, true);
    }
  }

  /** The byte 1 is such a character. */
  lemma NaturalFails()
    ensures ValidUtf8([1], 0) && EscapedText([1], false, true).Some?
    ensures JsonString(EscapedText([1], false, true).value) == None
  {
    hide Decoded;
    var s: Octets := [1];
    DecodedIs(s, 0);
    AcceptsGrammar(s, 0);
    NaturalCorrect(s);
    assert RawControl(s, 0);
  }
}
