/**
  The part of JSON that the messages use: strings, arrays and objects, written as `json.dumps` does with its
  default settings and read as `json.loads` does.
 */
module Json {
  import opened Bytes

  datatype Json = JString(s: string) | JArray(items: seq<Json>) | JObject(members: seq<Member>)

  datatype Member = Member(key: string, value: Json)

  function HexDigit(n: nat): char
    requires n < 16
  {
    if n < 10 then '0' + n as char else 'a' + (n - 10) as char
  }

  /** The format `04x`. */
  function Hex4(n: nat): (s: string)
    requires n < 0x1_0000
    ensures |s| == 4
  {
    [HexDigit(n / 0x1000), HexDigit(n / 0x100 % 16), HexDigit(n / 16 % 16), HexDigit(n % 16)]
  }

  function UnicodeEscape(n: nat): string
    requires n < 0x1_0000
  {
    "\\u" + Hex4(n)
  }

  /** Everything but printable ASCII is escaped; what does not fit four digits as two surrogates. */
  function CharText(c: char): (s: string)
    ensures s != ""
  {
    if c == '"' then "\\\"" else if c == '\\' then "\\\\"
    else if c == '\n' then "\\n" else if c == '\r' then "\\r" else if c == '\t' then "\\t"
    else if c as int == 8 then "\\b" else if c as int == 12 then "\\f"
    else if ' ' <= c <= '~' then [c]
    else if c as int < 0x1_0000 then UnicodeEscape(c as int)
    else
      var n := c as int - 0x1_0000;
      UnicodeEscape(0xD800 + n / 0x400) + UnicodeEscape(0xDC00 + n % 0x400)
  }

  function CharsText(s: string): string {
    if s == "" then "" else CharText(s[0]) + CharsText(s[1..])
  }

  function StringText(s: string): string {
    "\"" + CharsText(s) + "\""
  }

  function Dumps(v: Json): string
    decreases v, 1
  {
    match v
    case JString(s) => StringText(s)
    case JArray(_) => "[" + ItemsText(v, 0) + "]"
    case JObject(_) => "{" + MembersText(v, 0) + "}"
  }

  function ItemsText(v: Json, i: nat): string
    requires v.JArray? && i <= |v.items|
    decreases v, 0, |v.items| - i
  {
    if i == |v.items| then "" else
    Separator(i) + Dumps(v.items[i]) + ItemsText(v, i + 1)
  }

  function MembersText(v: Json, i: nat): string
    requires v.JObject? && i <= |v.members|
    decreases v, 0, |v.members| - i
  {
    if i == |v.members| then "" else
    Separator(i) + (StringText(v.members[i].key) + ": " + Dumps(v.members[i].value)) + MembersText(v, i + 1)
  }

  function Separator(i: nat): string {
    if i == 0 then "" else ", "
  }

  predicate IsSpace(c: char) {
    c == ' ' || c == '\t' || c == '\n' || c == '\r'
  }

  function SkipSpaces(t: string): (r: string)
    ensures |r| <= |t|
  {
    if t != "" && IsSpace(t[0]) then SkipSpaces(t[1..]) else t
  }

  function UnHex(c: char): Option<nat> {
    if '0' <= c <= '9' then Some(c as int - 48)
    else if 'a' <= c <= 'f' then Some(c as int - 87)
    else if 'A' <= c <= 'F' then Some(c as int - 55)
    else None
  }

  function UnHex4(t: string): (r: Option<nat>)
    requires |t| >= 4
    ensures r.Some? ==> r.value < 0x1_0000
  {
    match (UnHex(t[0]), UnHex(t[1]), UnHex(t[2]), UnHex(t[3]))
    case (Some(a), Some(b), Some(c), Some(d)) =>
      if a < 16 && b < 16 && c < 16 && d < 16 then Some(0x1000 * a + 0x100 * b + 0x10 * c + d) else None
    case _ => None
  }

  /** The value of `\u` and four digits at the front. */
  function EscapedUnit(t: string): (r: Option<nat>)
    ensures r.Some? ==> |t| >= 6 && r.value < 0x1_0000
  {
    if |t| >= 6 && t[0] == '\\' && t[1] == 'u' then UnHex4(t[2..6]) else None
  }

  /** An escape at the front: the character and what follows. */
  function ParseEscape(t: string): (r: Option<(char, string)>)
    requires t != "" && t[0] == '\\'
    ensures r.Some? ==> |r.value.1| < |t|
  {
    if |t| < 2 then None else
    match t[1]
    case '"' => Some(('"', t[2..]))
    case '\\' => Some(('\\', t[2..]))
    case '/' => Some(('/', t[2..]))
    case 'b' => Some((8 as char, t[2..]))
    case 'f' => Some((12 as char, t[2..]))
    case 'n' => Some(('\n', t[2..]))
    case 'r' => Some(('\r', t[2..]))
    case 't' => Some(('\t', t[2..]))
    case _ =>
      match EscapedUnit(t)
      case None => None
      case Some(u) =>
        if u < 0xD800 || 0xDFFF < u then Some((u as char, t[6..])) else
        match EscapedUnit(t[6..])
        case None => None
        case Some(l) =>
          if u <= 0xDBFF && 0xDC00 <= l <= 0xDFFF
          then Some(((0x1_0000 + 0x400 * (u - 0xD800) + (l - 0xDC00)) as char, t[12..]))
          else None
  }

  /** The characters up to the closing quote, and what follows it. */
  function ParseChars(t: string): (r: Option<(string, string)>)
    ensures r.Some? ==> |r.value.1| < |t|
    decreases |t|
  {
    if t == "" then None
    else if t[0] == '"' then Some(("", t[1..]))
    else if t[0] == '\\' then
      match ParseEscape(t)
      case None => None
      case Some((c, rest)) => Behind(c, ParseChars(rest))
    else if t[0] < ' ' then None
    else Behind(t[0], ParseChars(t[1..]))
  }

  function Behind(c: char, r: Option<(string, string)>): (q: Option<(string, string)>)
    ensures q.Some? <==> r.Some?
    ensures q.Some? ==> q.value.1 == r.value.1
  {
    match r
    case None => None
    case Some((s, rest)) => Some(([c] + s, rest))
  }

  function ParseValue(t: string): (r: Option<(Json, string)>)
    ensures r.Some? ==> |r.value.1| < |t|
    decreases |t|, 0
  {
    if t == "" then None
    else if t[0] == '"' then
      match ParseChars(t[1..])
      case None => None
      case Some((s, rest)) => Some((JString(s), rest))
    else if t[0] == '[' then
      var u := SkipSpaces(t[1..]);
      if u != "" && u[0] == ']' then Some((JArray([]), u[1..])) else
      match ParseItems(u)
      case None => None
      case Some((items, rest)) => Some((JArray(items), rest))
    else if t[0] == '{' then
      var u := SkipSpaces(t[1..]);
      if u != "" && u[0] == '}' then Some((JObject([]), u[1..])) else
      match ParseMembers(u)
      case None => None
      case Some((members, rest)) => Some((JObject(members), rest))
    else None
  }

  /** The items of an array up to its closing bracket. */
  function ParseItems(t: string): (r: Option<(seq<Json>, string)>)
    ensures r.Some? ==> |r.value.1| < |t|
    decreases |t|, 1
  {
    match ParseValue(t)
    case None => None
    case Some((v, rest)) =>
      var u := SkipSpaces(rest);
      if u != "" && u[0] == ']' then Some(([v], u[1..]))
      else if u != "" && u[0] == ',' then
        match ParseItems(SkipSpaces(u[1..]))
        case None => None
        case Some((vs, rest1)) => Some(([v] + vs, rest1))
      else None
  }

  /** A key, a colon and a value. */
  function ParseMember(t: string): (r: Option<(Member, string)>)
    ensures r.Some? ==> |r.value.1| < |t|
    decreases |t|, 1
  {
    if t == "" || t[0] != '"' then None else
    match ParseChars(t[1..])
    case None => None
    case Some((key, rest)) =>
      var u := SkipSpaces(rest);
      if u == "" || u[0] != ':' then None else
      match ParseValue(SkipSpaces(u[1..]))
      case None => None
      case Some((v, rest1)) => Some((Member(key, v), rest1))
  }

  function ParseMembers(t: string): (r: Option<(seq<Member>, string)>)
    ensures r.Some? ==> |r.value.1| < |t|
    decreases |t|, 2
  {
    match ParseMember(t)
    case None => None
    case Some((m, rest)) =>
      var u := SkipSpaces(rest);
      if u != "" && u[0] == '}' then Some(([m], u[1..]))
      else if u != "" && u[0] == ',' then
        match ParseMembers(SkipSpaces(u[1..]))
        case None => None
        case Some((ms, rest1)) => Some(([m] + ms, rest1))
      else None
  }

  function Loads(t: string): Option<Json> {
    match ParseValue(SkipSpaces(t))
    case Some((v, rest)) => if SkipSpaces(rest) == "" then Some(v) else None
    case None => None
  }

  /** The value of the last member with this key, as in a dictionary. */
  function Lookup(v: Json, key: string): Option<Json> {
    if v.JObject? then Find(v.members, key) else None
  }

  function Find(members: seq<Member>, key: string): Option<Json> {
    if members == [] then None else
    var last := members[|members| - 1];
    if last.key == key then Some(last.value) else Find(members[..|members| - 1], key)
  }

  lemma DigitReads(n: nat)
    requires n < 16
    ensures UnHex(HexDigit(n)) == Some(n)
  {
  }

  lemma DigitsJoin(n: nat)
    requires n < 0x1_0000
    ensures 0x1000 * (n / 0x1000) + 0x100 * (n / 0x100 % 16) + 0x10 * (n / 16 % 16) + n % 16 == n
  {
    assert n / 0x100 == n / 16 / 16 && n / 0x1000 == n / 0x100 / 16;
  }

  lemma HexReads(n: nat)
    requires n < 0x1_0000
    ensures UnHex4(Hex4(n)) == Some(n)
  {
    DigitReads(n / 0x1000);
    DigitReads(n / 0x100 % 16);
    DigitReads(n / 16 % 16);
    DigitReads(n % 16);
    DigitsJoin(n);
    hide HexDigit;
    hide UnHex;
  }

  lemma EscapeReads(n: nat, rest: string)
    requires n < 0x1_0000
    ensures EscapedUnit(UnicodeEscape(n) + rest) == Some(n)
    ensures |UnicodeEscape(n)| == 6 && (UnicodeEscape(n) + rest)[6..] == rest
    ensures UnicodeEscape(n)[0] == '\\' && UnicodeEscape(n)[1] == 'u'
  {
    HexReads(n);
    hide Hex4;
    hide UnHex4;
    var t := UnicodeEscape(n) + rest;
    assert t[2..6] == Hex4(n);
  }

  /** Each character is read back from what is written for it. */
  lemma CharReads(c: char, rest: string)
    ensures ParseChars(CharText(c) + rest) == Behind(c, ParseChars(rest))
  {
    hide UnicodeEscape;
    hide EscapedUnit;
    var t := CharText(c) + rest;
    if |CharText(c)| <= 2 {
      ShortReads(c, rest);
    } else {
      hide Behind;
      LongReads(c, rest);
    }
  }

  lemma ShortReads(c: char, rest: string)
    requires |CharText(c)| <= 2
    ensures ParseChars(CharText(c) + rest) == Behind(c, ParseChars(rest))
  {
    var t := CharText(c) + rest;
    assert t[|CharText(c)|..] == rest;
  }

  lemma LongReads(c: char, rest: string)
    requires |CharText(c)| > 2
    ensures ParseChars(CharText(c) + rest) == Behind(c, ParseChars(rest))
  {
    LongText(c);
    hide CharText;
    if c as int < 0x1_0000 {
      OneUnit(c, rest);
    } else {
      TwoUnits(c, rest);
    }
  }

  lemma LongText(c: char)
    requires |CharText(c)| > 2
    ensures CharText(c) ==
      if c as int < 0x1_0000 then UnicodeEscape(c as int) else
      var n := c as int - 0x1_0000;
      UnicodeEscape(0xD800 + n / 0x400) + UnicodeEscape(0xDC00 + n % 0x400)
  {
  }

  lemma EscapeOfUnit(t: string)
    requires |t| >= 6 && t[0] == '\\' && t[1] == 'u' && EscapedUnit(t).Some?
    ensures ParseChars(t) ==
      match ParseEscape(t)
      case None => None
      case Some((c, rest)) => Behind(c, ParseChars(rest))
  {
    hide ParseEscape;
    hide Behind;
  }

  lemma OneUnit(c: char, rest: string)
    requires c as int < 0x1_0000
    ensures ParseChars(UnicodeEscape(c as int) + rest) == Behind(c, ParseChars(rest))
  {
    var t := UnicodeEscape(c as int) + rest;
    EscapeReads(c as int, rest);
    hide UnicodeEscape;
    assert t[0] == '\\' && t[1] == 'u';
    EscapeOfUnit(t);
    hide ParseChars;
    hide Behind;
    hide EscapedUnit;
  }

  lemma TwoUnits(c: char, rest: string)
    requires c as int >= 0x1_0000
    ensures var n := c as int - 0x1_0000;
      ParseChars(UnicodeEscape(0xD800 + n / 0x400) + UnicodeEscape(0xDC00 + n % 0x400) + rest)
      == Behind(c, ParseChars(rest))
  {
    var n := c as int - 0x1_0000;
    var h, l := 0xD800 + n / 0x400, 0xDC00 + n % 0x400;
    var t := UnicodeEscape(h) + UnicodeEscape(l) + rest;
    UnitsStand(h, l, rest);
    PairReads(t, c, h, l, rest);
    EscapeOfUnit(t);
  }

  lemma UnitsStand(h: nat, l: nat, rest: string)
    requires h < 0x1_0000 && l < 0x1_0000
    ensures var t := UnicodeEscape(h) + UnicodeEscape(l) + rest;
      && |t| >= 12 && t[0] == '\\' && t[1] == 'u' && t[12..] == rest
      && EscapedUnit(t) == Some(h) && EscapedUnit(t[6..]) == Some(l)
  {
    var t := UnicodeEscape(h) + UnicodeEscape(l) + rest;
    assert t == UnicodeEscape(h) + (UnicodeEscape(l) + rest);
    EscapeReads(h, UnicodeEscape(l) + rest);
    EscapeReads(l, rest);
    assert t[12..] == t[6..][6..];
    hide UnicodeEscape;
    hide EscapedUnit;
  }

  lemma PairReads(t: string, c: char, h: nat, l: nat, rest: string)
    requires |t| >= 12 && t[0] == '\\' && t[1] == 'u' && t[12..] == rest
    requires EscapedUnit(t) == Some(h) && EscapedUnit(t[6..]) == Some(l) && c as int >= 0x1_0000
    requires h == 0xD800 + (c as int - 0x1_0000) / 0x400 && l == 0xDC00 + (c as int - 0x1_0000) % 0x400
    ensures ParseEscape(t) == Some((c, rest))
  {
    hide EscapedUnit;
  }

  lemma {:induction false} StringReads(s: string, rest: string)
    ensures ParseChars(CharsText(s) + ("\"" + rest)) == Some((s, rest))
  {
    hide CharText;
    var end := "\"" + rest;
    if s == "" {
      assert CharsText(s) + end == end && end[1..] == rest;
    } else {
      assert CharsText(s) + end == CharText(s[0]) + (CharsText(s[1..]) + end);
      CharReads(s[0], CharsText(s[1..]) + end);
      hide ParseChars;
      StringReads(s[1..], rest);
      assert [s[0]] + s[1..] == s;
    }
  }

  lemma ValueStarts(v: Json, rest: string)
    ensures var t := Dumps(v) + rest;
      t != "" && (t[0] == '"' || t[0] == '[' || t[0] == '{') && SkipSpaces(t) == t && SkipSpaces(" " + t) == t
  {
    var t := Dumps(v) + rest;
    assert (" " + t)[1..] == t;
  }

  lemma ItemsEnd(t: string, v: Json, rest: string)
    requires ParseValue(t) == Some((v, "]" + rest))
    ensures ParseItems(t) == Some(([v], rest))
  {
    hide ParseValue;
    assert ("]" + rest)[1..] == rest;
  }

  lemma ItemsMore(t: string, v: Json, next: string, vs: seq<Json>, rest: string)
    requires ParseValue(t) == Some((v, ", " + next)) && SkipSpaces(" " + next) == next
    requires ParseItems(next) == Some((vs, rest)) && |next| < |t|
    ensures ParseItems(t) == Some(([v] + vs, rest))
  {
    hide ParseValue;
    assert (", " + next)[1..] == " " + next;
  }

  lemma MembersEnd(t: string, m: Member, rest: string)
    requires ParseMember(t) == Some((m, "}" + rest))
    ensures ParseMembers(t) == Some(([m], rest))
  {
    hide ParseMember;
    assert ("}" + rest)[1..] == rest;
  }

  lemma MembersMore(t: string, m: Member, next: string, ms: seq<Member>, rest: string)
    requires ParseMember(t) == Some((m, ", " + next)) && SkipSpaces(" " + next) == next
    requires ParseMembers(next) == Some((ms, rest)) && |next| < |t|
    ensures ParseMembers(t) == Some(([m] + ms, rest))
  {
    hide ParseMember;
    assert (", " + next)[1..] == " " + next;
  }

  lemma ArrayParses(inner: string, items: seq<Json>, rest: string)
    requires if items == [] then inner == "]" + rest
      else ParseItems(inner) == Some((items, rest)) && SkipSpaces(inner) == inner && inner != "" && inner[0] != ']'
    ensures ParseValue("[" + inner) == Some((JArray(items), rest))
  {
    hide ParseItems;
    assert ("[" + inner)[1..] == inner;
    assert ("]" + rest)[1..] == rest;
  }

  lemma ObjectParses(inner: string, members: seq<Member>, rest: string)
    requires if members == [] then inner == "}" + rest
      else ParseMembers(inner) == Some((members, rest)) && SkipSpaces(inner) == inner && inner != "" && inner[0] != '}'
    ensures ParseValue("{" + inner) == Some((JObject(members), rest))
  {
    hide ParseMembers;
    assert ("{" + inner)[1..] == inner;
    assert ("}" + rest)[1..] == rest;
  }

  lemma StringParses(s: string, rest: string)
    ensures ParseValue(StringText(s) + rest) == Some((JString(s), rest))
  {
    hide CharsText;
    hide ParseChars;
    var t := StringText(s) + rest;
    assert t[1..] == CharsText(s) + ("\"" + rest);
    StringReads(s, rest);
  }

  lemma DumpsIs(v: Json, rest: string)
    ensures match v
      case JString(s) => Dumps(v) + rest == StringText(s) + rest
      case JArray(_) => Dumps(v) + rest == "[" + (ItemsText(v, 0) + ("]" + rest))
      case JObject(_) => Dumps(v) + rest == "{" + (MembersText(v, 0) + ("}" + rest))
  {
    hide StringText;
    hide ItemsText;
    hide MembersText;
  }

  lemma ItemStarts(v: Json, i: nat, rest: string)
    requires v.JArray? && i < |v.items|
    ensures var t := Dumps(v.items[i]) + (ItemsText(v, i + 1) + ("]" + rest));
      && t != "" && t[0] != ']' && SkipSpaces(t) == t && SkipSpaces(" " + t) == t
      && ItemsText(v, i) + ("]" + rest) == Separator(i) + t
  {
    ValueStarts(v.items[i], ItemsText(v, i + 1) + ("]" + rest));
    ItemsIs(v, i);
    hide *;
    Regroup(Separator(i), Dumps(v.items[i]), ItemsText(v, i + 1), "]" + rest);
    StartsNoBracket(v.items[i], ItemsText(v, i + 1) + ("]" + rest));
  }

  lemma Regroup(w: string, x: string, y: string, z: string)
    ensures w + x + y + z == w + (x + (y + z))
  {
  }

  lemma StartsNoBracket(v: Json, rest: string)
    ensures Dumps(v) + rest != "" && (Dumps(v) + rest)[0] != ']'
  {
  }

  lemma NoSeparator(t: string)
    ensures Separator(0) + t == t
  {
  }

  lemma ItemsIs(v: Json, i: nat)
    requires v.JArray? && i < |v.items|
    ensures ItemsText(v, i) == Separator(i) + Dumps(v.items[i]) + ItemsText(v, i + 1)
  {
    hide Dumps;
  }

  /** What is written for a value reads as that value, and what follows is left. */
  lemma {:induction false} ValueReads(v: Json, rest: string)
    ensures ParseValue(Dumps(v) + rest) == Some((v, rest))
    decreases v, 2
  {
    hide *;
    DumpsIs(v, rest);
    match v
    case JString(s) => StringParses(s, rest);
    case JArray(items) =>
      ItemsStart(v, rest);
      if items != [] {
        ItemsReads(v, 0, rest);
        WholeOf(items);
      }
      ArrayParses(ItemsText(v, 0) + ("]" + rest), items, rest);
    case JObject(members) =>
      MembersStart(v, rest);
      if members != [] {
        MembersReads(v, 0, rest);
        WholeOf(members);
      }
      ObjectParses(MembersText(v, 0) + ("}" + rest), members, rest);
  }

  lemma WholeOf<T>(s: seq<T>)
    ensures s[0..] == s
  {
  }

  lemma ItemsStart(v: Json, rest: string)
    requires v.JArray?
    ensures var t := ItemsText(v, 0) + ("]" + rest);
      if v.items == [] then t == "]" + rest
      else
        && t == Dumps(v.items[0]) + (ItemsText(v, 1) + ("]" + rest))
        && SkipSpaces(t) == t && t != "" && t[0] != ']'
  {
    if v.items != [] {
      hide *;
      ItemStarts(v, 0, rest);
      NoSeparator(Dumps(v.items[0]) + (ItemsText(v, 1) + ("]" + rest)));
    }
  }

  lemma MembersStart(v: Json, rest: string)
    requires v.JObject?
    ensures var t := MembersText(v, 0) + ("}" + rest);
      if v.members == [] then t == "}" + rest
      else
        && t == MemberText(v.members[0]) + (MembersText(v, 1) + ("}" + rest))
        && SkipSpaces(t) == t && t != "" && t[0] != '}'
  {
    if v.members != [] {
      MemberStarts(v, 0, rest);
      hide MemberText;
      hide MembersText;
      hide SkipSpaces;
    }
  }

  /** Between two elements stands a comma and a space. */
  lemma ItemsNext(v: Json, i: nat, rest: string)
    requires v.JArray? && i < |v.items|
    ensures var t := ItemsText(v, i + 1) + ("]" + rest);
      if i + 1 == |v.items| then t == "]" + rest && v.items[i..] == [v.items[i]]
      else
        var next := Dumps(v.items[i + 1]) + (ItemsText(v, i + 2) + ("]" + rest));
        && t == ", " + next && SkipSpaces(" " + next) == next && v.items[i..] == [v.items[i]] + v.items[i + 1..]
  {
    if i + 1 < |v.items| {
      ItemStarts(v, i + 1, rest);
      hide Dumps;
      hide ItemsText;
      hide SkipSpaces;
    }
  }

  lemma MembersNext(v: Json, i: nat, rest: string)
    requires v.JObject? && i < |v.members|
    ensures var t := MembersText(v, i + 1) + ("}" + rest);
      if i + 1 == |v.members| then t == "}" + rest && v.members[i..] == [v.members[i]]
      else
        var next := MemberText(v.members[i + 1]) + (MembersText(v, i + 2) + ("}" + rest));
        && t == ", " + next && SkipSpaces(" " + next) == next
        && v.members[i..] == [v.members[i]] + v.members[i + 1..]
  {
    if i + 1 < |v.members| {
      MemberStarts(v, i + 1, rest);
      hide MemberText;
      hide SkipSpaces;
    }
  }

  /** The elements from `i` on, without the separator in front. */
  lemma {:induction false} ItemsReads(v: Json, i: nat, rest: string)
    requires v.JArray? && i < |v.items|
    ensures ParseItems(Dumps(v.items[i]) + (ItemsText(v, i + 1) + ("]" + rest))) == Some((v.items[i..], rest))
    decreases v, 1, |v.items| - i
  {
    hide *;
    var after := ItemsText(v, i + 1) + ("]" + rest);
    ValueReads(v.items[i], after);
    ItemsNext(v, i, rest);
    if i + 1 == |v.items| {
      ItemsEnd(Dumps(v.items[i]) + after, v.items[i], rest);
    } else {
      ItemsReads(v, i + 1, rest);
      var next := Dumps(v.items[i + 1]) + (ItemsText(v, i + 2) + ("]" + rest));
      ItemsMore(Dumps(v.items[i]) + after, v.items[i], next, v.items[i + 1..], rest);
    }
  }

  function MemberText(m: Member): string {
    StringText(m.key) + ": " + Dumps(m.value)
  }

  lemma MemberStarts(v: Json, i: nat, rest: string)
    requires v.JObject? && i < |v.members|
    ensures var t := MemberText(v.members[i]) + (MembersText(v, i + 1) + ("}" + rest));
      && t != "" && t[0] == '"' && SkipSpaces(t) == t && SkipSpaces(" " + t) == t
      && MembersText(v, i) + ("}" + rest) == Separator(i) + t
  {
    hide Dumps;
    hide CharsText;
    var t := MemberText(v.members[i]) + (MembersText(v, i + 1) + ("}" + rest));
    assert (" " + t)[1..] == t;
  }

  lemma {:induction false} MemberReads(m: Member, rest: string)
    ensures ParseMember(MemberText(m) + rest) == Some((m, rest))
    decreases m, 3
  {
    hide Dumps;
    hide CharsText;
    hide ParseChars;
    hide ParseValue;
    var value := Dumps(m.value) + rest;
    var t := MemberText(m) + rest;
    assert t[1..] == CharsText(m.key) + ("\"" + (": " + value));
    StringReads(m.key, ": " + value);
    assert (": " + value)[1..] == " " + value;
    ValueStarts(m.value, rest);
    ValueReads(m.value, rest);
  }

  lemma {:induction false} MembersReads(v: Json, i: nat, rest: string)
    requires v.JObject? && i < |v.members|
    ensures ParseMembers(MemberText(v.members[i]) + (MembersText(v, i + 1) + ("}" + rest)))
      == Some((v.members[i..], rest))
    decreases v, 1, |v.members| - i
  {
    hide *;
    var after := MembersText(v, i + 1) + ("}" + rest);
    MemberReads(v.members[i], after);
    MembersNext(v, i, rest);
    if i + 1 == |v.members| {
      MembersEnd(MemberText(v.members[i]) + after, v.members[i], rest);
    } else {
      MembersReads(v, i + 1, rest);
      var next := MemberText(v.members[i + 1]) + (MembersText(v, i + 2) + ("}" + rest));
      MembersMore(MemberText(v.members[i]) + after, v.members[i], next, v.members[i + 1..], rest);
    }
  }

  /** The round trip, for every value. */
  lemma LoadsDumps(v: Json)
    ensures Loads(Dumps(v)) == Some(v)
  {
    hide Dumps;
    hide ParseValue;
    ValueStarts(v, "");
    assert Dumps(v) + "" == Dumps(v);
    ValueReads(v, "");
  }

  /** Characters that stand for themselves. */
  predicate IsPlain(s: string) {
    forall i | 0 <= i < |s| :: 0x20 <= s[i] as int <= 0x7E && s[i] != '"' && s[i] != '\\'
  }

  /** Printable text is written as it is, everything else in ASCII. */
  lemma PlainText(s: string)
    requires IsPlain(s)
    ensures Dumps(JString(s)) == "\"" + s + "\""
  {
    PlainChars(s);
  }

  lemma {:induction false} PlainChars(s: string)
    requires IsPlain(s)
    ensures CharsText(s) == s
  {
    if s != "" {
      assert CharText(s[0]) == [s[0]];
      PlainChars(s[1..]);
      assert s == [s[0]] + s[1..];
    }
  }
}
