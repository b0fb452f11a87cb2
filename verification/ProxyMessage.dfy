/**
  The messages of the proxy as text: eight digits of instance id, the message type and a JSON text, separated
  by slashes. Brokers route them by the prefix a subscriber asks for, without looking further.
 */
module ProxyMessage {
  import opened Bytes

  datatype MessageType = ActionDescribeStart | ActionDescribeEnd | RemoteHostStarted

  /** `data` is the JSON text of the payload; it may contain slashes. */
  datatype Message = Message(instanceId: int, kind: MessageType, data: string)

  function TypeText(t: MessageType): (s: string)
    ensures '/' !in s
  {
    match t
    case ActionDescribeStart => "ActionDescribeStart"
    case ActionDescribeEnd => "ActionDescribeEnd"
    case RemoteHostStarted => "RemoteHostStarted"
  }

  function ParseType(s: string): Option<MessageType> {
    if s == "ActionDescribeStart" then Some(ActionDescribeStart)
    else if s == "ActionDescribeEnd" then Some(ActionDescribeEnd)
    else if s == "RemoteHostStarted" then Some(RemoteHostStarted)
    else None
  }

  function Digit(d: nat): char
    requires d < 10
  {
    '0' + d as char
  }

  predicate IsDigit(c: char) {
    '0' <= c <= '9'
  }

  /** Decimal digits, most significant first, no leading zero. */
  function Digits(n: nat): (s: string)
    ensures s != "" && forall i | 0 <= i < |s| :: IsDigit(s[i])
  {
    if n < 10 then [Digit(n)] else Digits(n / 10) + [Digit(n % 10)]
  }

  function Fill(w: nat): (s: string)
    ensures |s| == w && forall i | 0 <= i < w :: s[i] == '0'
  {
    seq(w, i => '0')
  }

  function PadTo(s: string, w: nat): (r: string)
    ensures |r| == if |s| < w then w else |s|
  {
    if |s| < w then Fill(w - |s|) + s else s
  }

  /** The format `08d`. */
  function InstancePrefix(id: int): (s: string)
    ensures |s| >= 8
  {
    if id >= 0 then PadTo(Digits(id), 8) else "-" + PadTo(Digits(-id), 7)
  }

  function ParseDigits(s: string): nat
    requires forall i | 0 <= i < |s| :: IsDigit(s[i])
  {
    if s == "" then 0 else
    var c := s[|s| - 1];
    assert IsDigit(c);
    10 * ParseDigits(s[..|s| - 1]) + (c as int - '0' as int)
  }

  predicate AllDigits(s: string) {
    s != "" && forall i | 0 <= i < |s| :: IsDigit(s[i])
  }

  /** An optional minus sign and digits. */
  function ParseInt(s: string): Option<int> {
    if AllDigits(s) then Some(ParseDigits(s))
    else if s != "" && s[0] == '-' && AllDigits(s[1..]) then Some(0 - ParseDigits(s[1..]))
    else None
  }

  function ToBytes(m: Message): string {
    InstancePrefix(m.instanceId) + "/" + TypeText(m.kind) + "/" + m.data
  }

  /** Where the first slash is, or the length. */
  function Slash(s: string): (i: nat)
    ensures i <= |s| && '/' !in s[..i] && (i < |s| ==> s[i] == '/')
  {
    if s == "" then 0 else if s[0] == '/' then 0 else
    var i := Slash(s[1..]);
    assert s[..i + 1] == [s[0]] + s[1..][..i];
    i + 1
  }

  /** Splits at the first two slashes; no message comes of fewer, of an unknown type or of no number. */
  function FromBytes(s: string): Option<Message> {
    var i := Slash(s);
    if i == |s| then None else
    var rest := s[i + 1..];
    var j := Slash(rest);
    if j == |rest| then None else
    match (ParseInt(s[..i]), ParseType(rest[..j]))
    case (Some(id), Some(kind)) => Some(Message(id, kind, rest[j + 1..]))
    case _ => None
  }

  lemma {:induction false} ParseOfDigits(n: nat)
    ensures ParseDigits(Digits(n)) == n
  {
    if n >= 10 {
      ParseOfDigits(n / 10);
      var s := Digits(n);
      assert s[..|s| - 1] == Digits(n / 10);
    } else {
      assert Digits(n)[..0] == "";
    }
  }

  lemma {:induction false} ParseOfPadded(k: nat, s: string)
    requires AllDigits(s)
    ensures AllDigits(Fill(k) + s) && ParseDigits(Fill(k) + s) == ParseDigits(s)
    decreases |s|
  {
    var t := Fill(k) + s;
    var n := |s| - 1;
    assert t[..|t| - 1] == Fill(k) + s[..n];
    assert t[|t| - 1] == s[n];
    if n > 0 {
      ParseOfPadded(k, s[..n]);
    } else {
      assert s[..n] == "" && Fill(k) + "" == Fill(k);
      ParseZeros(k);
    }
  }

  lemma {:induction false} ParseZeros(k: nat)
    ensures ParseDigits(Fill(k)) == 0
  {
    if k > 0 {
      assert Fill(k)[..k - 1] == Fill(k - 1);
      ParseZeros(k - 1);
    }
  }

  lemma PaddedDigits(n: nat, w: nat)
    ensures AllDigits(PadTo(Digits(n), w)) && ParseDigits(PadTo(Digits(n), w)) == n
  {
    var s := Digits(n);
    ParseOfDigits(n);
    if |s| < w {
      ParseOfPadded(w - |s|, s);
    }
  }

  lemma ParsePrefix(id: int)
    ensures ParseInt(InstancePrefix(id)) == Some(id) && '/' !in InstancePrefix(id)
  {
    if id >= 0 {
      PaddedDigits(id, 8);
    } else {
      PaddedDigits(-id, 7);
      var s := InstancePrefix(id);
      assert s[1..] == PadTo(Digits(-id), 7);
      assert !IsDigit(s[0]);
    }
  }

  lemma SlashAfter(s: string, t: string)
    requires '/' !in s
    ensures Slash(s + "/" + t) == |s|
  {
    var u := s + "/" + t;
    var i := Slash(u);
    assert u[|s|] == '/' && u[..|s|] == s;
    if i > |s| {
      assert false;
    }
  }

  /** Decoding gives back the message, for every id and with any slashes in the payload. */
  lemma MessageRoundTrip(m: Message)
    ensures FromBytes(ToBytes(m)) == Some(m)
  {
    hide InstancePrefix;
    hide TypeText;
    var p, t := InstancePrefix(m.instanceId), TypeText(m.kind);
    ParsePrefix(m.instanceId);
    var rest := t + "/" + m.data;
    assert ToBytes(m) == p + "/" + rest;
    SlashAfter(p, rest);
    assert ToBytes(m)[..|p|] == p && ToBytes(m)[|p| + 1..] == rest;
    SlashAfter(t, m.data);
    assert rest[..|t|] == t && rest[|t| + 1..] == m.data;
    ParseOfType(m.kind);
  }

  lemma ParseOfType(t: MessageType)
    ensures ParseType(TypeText(t)) == Some(t)
  {
  }

  /** A subscriber gets what starts with its prefix. */
  predicate Delivered(id: int, data: string) {
    InstancePrefix(id) <= data
  }

  lemma {:induction false} DigitsLength(n: nat, w: nat)
    requires w >= 1
    ensures |Digits(n)| <= w <==> n < Pow10(w)
    decreases w
  {
    if w > 1 && n >= 10 {
      DigitsLength(n / 10, w - 1);
    } else if n >= 10 {
      assert |Digits(n)| >= 2;
    } else {
      PowAtLeast(w);
    }
  }

  function Pow10(k: nat): (r: nat)
    ensures r >= 1
  {
    if k == 0 then 1 else 10 * Pow10(k - 1)
  }

  lemma PowAtLeast(k: nat)
    requires k >= 1
    ensures Pow10(k) >= 10
  {
  }

  lemma Powers()
    ensures Pow10(7) == 10_000_000 && Pow10(8) == 100_000_000
  {
    assert Pow10(4) == 10 * (10 * (10 * (10 * Pow10(0))));
    assert Pow10(8) == 10 * (10 * (10 * (10 * Pow10(4))));
    assert Pow10(7) == 10 * (10 * (10 * Pow10(4)));
  }

  /** Only the id part of a message can meet a prefix. */
  lemma DeliveredById(id: int, m: Message)
    ensures Delivered(id, ToBytes(m)) <==> InstancePrefix(id) <= InstancePrefix(m.instanceId)
  {
    hide InstancePrefix;
    hide TypeText;
    var p, q := InstancePrefix(id), InstancePrefix(m.instanceId);
    ParsePrefix(id);
    ParsePrefix(m.instanceId);
    var s := ToBytes(m);
    assert s == q + ("/" + TypeText(m.kind) + "/" + m.data);
    assert s[..|q|] == q;
    assert s[|q|] == '/';
    if p <= s {
      if |p| > |q| {
        assert false;
      }
      assert q[..|p|] == s[..|p|];
    }
    if p <= q {
      assert s[..|p|] == q[..|p|];
    }
  }

  lemma PrefixInjective(i: int, j: int)
    requires InstancePrefix(i) == InstancePrefix(j)
    ensures i == j
  {
    ParsePrefix(i);
    ParsePrefix(j);
  }

  /** Ids of at most eight digits: each message reaches exactly the subscriber with its id. */
  lemma RoutedExactly(id: int, m: Message)
    requires 0 <= id < 100_000_000 && m.instanceId < 100_000_000
    ensures Delivered(id, ToBytes(m)) <==> id == m.instanceId
  {
    DeliveredById(id, m);
    Powers();
    DigitsLength(id, 8);
    if m.instanceId >= 0 {
      DigitsLength(m.instanceId, 8);
      if InstancePrefix(id) <= InstancePrefix(m.instanceId) {
        assert InstancePrefix(id) == InstancePrefix(m.instanceId)[..8] == InstancePrefix(m.instanceId);
        PrefixInjective(id, m.instanceId);
      }
    } else {
      PaddedDigits(id, 8);
      assert InstancePrefix(id)[0] != InstancePrefix(m.instanceId)[0];
    }
  }

  /** The number without its last `k` decimal digits. */
  function Shorten(n: nat, k: nat): nat {
    if k == 0 then n else Shorten(n / 10, k - 1)
  }

  lemma {:induction false} DigitsPrefix(n: nat, k: nat)
    requires k < |Digits(n)|
    ensures Digits(n)[..|Digits(n)| - k] == Digits(Shorten(n, k))
  {
    var s := Digits(n);
    if k > 0 {
      assert n >= 10;
      var t := Digits(n / 10);
      assert s[..|s| - 1] == t;
      DigitsPrefix(n / 10, k - 1);
      assert s[..|s| - k] == t[..|t| - (k - 1)];
    } else {
      assert s[..|s|] == s;
    }
  }

  /** Without that bound ids go astray: a nine-digit id begins with the digits of another instance. */
  lemma RoutingFails()
    ensures Delivered(10_000_000, ToBytes(Message(100_000_000, ActionDescribeEnd, "")))
  {
    RoutedExcept(10_000_000, Message(100_000_000, ActionDescribeEnd, ""));
    assert Shorten(100_000_000, 1) == Shorten(10_000_000, 0) == 10_000_000;
  }

  /**
    For all ids: besides its own messages a subscriber gets those whose id begins with its own, which takes
    an id of at least eight digits.
   */
  lemma RoutedExcept(id: nat, m: Message)
    requires m.instanceId >= 0
    ensures Delivered(id, ToBytes(m)) <==>
      id == m.instanceId || (id >= 10_000_000 && exists k | k >= 1 :: Shorten(m.instanceId, k) == id)
  {
    hide ToBytes;
    var n: nat := m.instanceId;
    DeliveredById(id, m);
    if InstancePrefix(id) <= InstancePrefix(n) && id != n {
      var k := Strayed(id, n);
      assert Shorten(n, k) == id;
    }
    if id >= 10_000_000 && exists k | k >= 1 :: Shorten(n, k) == id {
      var k :| k >= 1 && Shorten(n, k) == id;
      Strays(id, n, k);
    }
  }

  lemma Strayed(id: nat, n: nat) returns (k: nat)
    requires InstancePrefix(id) <= InstancePrefix(n) && id != n
    ensures id >= 10_000_000 && k >= 1 && Shorten(n, k) == id
  {
    var p, q := InstancePrefix(id), InstancePrefix(n);
    if |p| == |q| {
      PrefixInjective(id, n);
    }
    k := |q| - |p|;
    assert q == Digits(n);
    DigitsPrefix(n, k);
    assert p == Digits(Shorten(n, k));
    PaddedDigits(id, 8);
    ParseOfDigits(Shorten(n, k));
    Powers();
    DigitsLength(id, 7);
  }

  lemma Strays(id: nat, n: nat, k: nat)
    requires id >= 10_000_000 && k >= 1 && Shorten(n, k) == id
    ensures InstancePrefix(id) <= InstancePrefix(n)
  {
    Powers();
    DigitsLength(id, 7);
    ShortenLength(n, k);
    DigitsPrefix(n, k);
  }

  lemma {:induction false} ShortenLength(n: nat, k: nat)
    requires Shorten(n, k) > 0
    ensures |Digits(n)| == |Digits(Shorten(n, k))| + k
  {
    if k > 0 {
      if n < 10 {
        ShortenZero(k - 1);
        assert false;
      }
      ShortenLength(n / 10, k - 1);
    }
  }

  lemma {:induction false} ShortenZero(k: nat)
    ensures Shorten(0, k) == 0
  {
    if k > 0 {
      ShortenZero(k - 1);
    }
  }
}
