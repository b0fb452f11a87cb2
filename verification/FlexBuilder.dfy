/**
  The FlexBuffers builder on values: finished objects are appended to the buffer, unfinished ones wait on a
  stack. These are the functions the class in FlexBuilderClass.dfy is proved against.
 */
module FlexBuilder {
  import opened Bytes
  import opened FlexReader

  /** `u` is the number itself, or the position of the object; `width` its least width, or that of its elements. */
  datatype Value = Value(u: int, kind: nat, width: nat)

  datatype Flags = Flags(shareKeys: bool, shareStrings: bool, minWidth: nat)

  /** A pooled string and its length. */
  datatype StringOffset = StringOffset(off: nat, len: nat)

  datatype Builder = Builder(
    buf: seq<Byte>, stack: seq<Value>, flags: Flags, keyPool: seq<nat>, stringPool: seq<StringOffset>,
    duplicateKeys: bool, finished: bool)

  function New(flags: Flags): Builder {
    Builder([], [], flags, [], [], false, false)
  }

  /** The least number of bytes for an unsigned number. */
  function WidthU(u: nat): (w: nat)
    ensures IsWidth(w)
  {
    if u < 0x100 then 1 else if u < 0x1_0000 then 2 else if u < 0x1_0000_0000 then 4 else 8
  }

  function WidthI(i: int): (w: nat)
    ensures IsWidth(w)
  {
    WidthU(if i >= 0 then 2 * i else -2 * i - 1)
  }

  function Pad(b: seq<Byte>, w: nat): (r: seq<Byte>)
    requires IsWidth(w)
    ensures |r| == |b| + PaddingBytes(|b|, w)
  {
    b + Zeros(PaddingBytes(|b|, w))
  }

  /** The low `w` bytes of a number, in two's complement. */
  function IntBytes(i: int, w: nat): (s: seq<Byte>)
    requires IsWidth(w)
    ensures |s| == w
  {
    LE(i % Range(w), w)
  }

  /** The distance to the object at `u` from element `index` of a vector of width `w` behind `size` bytes. */
  function Distance(u: int, size: nat, index: nat, w: nat): int
    requires IsWidth(w)
  {
    size + PaddingBytes(size, w) + Scale(index, w) - u
  }

  /** Tries the widths from `w` on: one matches when it is exactly what the distance at this width takes. */
  function SearchWidth(u: int, size: nat, index: nat, w: nat): (r: Option<nat>)
    requires IsWidth(w) && u <= size
    ensures r.Some? ==> IsWidth(r.value)
    decreases 8 - w
  {
    if WidthU(Distance(u, size, index, w)) == w then Some(w)
    else if w == 8 then None
    else SearchWidth(u, size, index, 2 * w)
  }

  predicate ValueOk(v: Value, size: nat) {
    IsWidth(v.width) && (!IsInline(v.kind) ==> 0 <= v.u <= size)
  }

  predicate ValuesOk(vs: seq<Value>, size: nat) {
    forall i | 0 <= i < |vs| :: ValueOk(vs[i], size)
  }

  /** The width the value needs as element `index` of a vector behind `size` bytes. */
  function ElemWidth(v: Value, size: nat, index: nat): (w: nat)
    requires ValueOk(v, size)
    ensures IsWidth(w)
  {
    if IsInline(v.kind) then v.width else
    match SearchWidth(v.u, size, index, 1)
    case Some(w) => w
    case None => 8
  }

  function StoredWidth(v: Value, parent: nat): nat {
    if IsInline(v.kind) then Max(v.width, parent) else v.width
  }

  function WriteOffset(b: seq<Byte>, o: int, w: nat): (r: seq<Byte>)
    requires 0 <= o <= |b|
    ensures |r| == |b| + w
  {
    b + LE(|b| - o, w)
  }

  function WriteAny(b: seq<Byte>, v: Value, w: nat): (r: seq<Byte>)
    requires IsWidth(w) && ValueOk(v, |b|)
    ensures |r| == |b| + w
  {
    if IsInline(v.kind) then b + IntBytes(v.u, w) else WriteOffset(b, v.u, w)
  }

  function WriteAll(b: seq<Byte>, vs: seq<Value>, w: nat): (r: seq<Byte>)
    requires IsWidth(w) && ValuesOk(vs, |b|)
    ensures |r| == |b| + Scale(|vs|, w)
    decreases |vs|
  {
    if vs == [] then ScaleStep(0, w); b else
    var n := |vs| - 1;
    ScaleStep(n, w);
    WriteAny(WriteAll(b, vs[..n], w), vs[n], w)
  }

  predicate CanPack(vs: seq<Value>) {
    forall i | 0 <= i < |vs| :: vs[i].kind <= BOOL + 10 && IsWidth(vs[i].width)
  }

  /** The types behind the elements of an untyped vector, one byte each. */
  function TypeBytes(vs: seq<Value>, parent: nat): (s: seq<Byte>)
    requires IsWidth(parent) && CanPack(vs)
    ensures |s| == |vs|
  {
    seq(|vs|, i requires 0 <= i < |vs| => PackedByte(vs[i], parent))
  }

  function PackedByte(v: Value, parent: nat): Byte
    requires IsWidth(parent) && IsWidth(v.width) && v.kind <= BOOL + 10
  {
    PackedType(StoredWidth(v, parent), v.kind)
  }

  /** The largest width any of the elements needs; their places are counted in steps of `step`. */
  function ElemsWidth(vs: seq<Value>, size: nat, step: nat, prefix: nat, w: nat): (r: nat)
    requires ValuesOk(vs, size) && IsWidth(w)
    ensures IsWidth(r) && r >= w
    decreases |vs|
  {
    if vs == [] then w else
    var n := |vs| - 1;
    Max(ElemsWidth(vs[..n], size, step, prefix, w), ElemWidth(vs[n], size, step * n + prefix))
  }

  predicate SameKinds(vs: seq<Value>) {
    forall i | 0 <= i < |vs| :: vs[i].kind == vs[0].kind && IsTypedElement(vs[i].kind)
  }

  function VectorWidth(b: seq<Byte>, vs: seq<Value>, step: nat, keys: Option<Value>, minWidth: nat): (w: nat)
    requires ValuesOk(vs, |b|) && (keys.Some? ==> ValueOk(keys.value, |b|)) && IsWidth(minWidth)
    ensures IsWidth(w)
  {
    var w0 := Max(minWidth, WidthU(|vs|));
    var w1 := if keys.Some? then Max(w0, ElemWidth(keys.value, |b|, 0)) else w0;
    ElemsWidth(vs, |b|, step, if keys.Some? then 3 else 1, w1)
  }

  /** Everything in front of the first element. */
  function VectorHead(b: seq<Byte>, n: nat, w: nat, keys: Option<Value>): (r: seq<Byte>)
    requires IsWidth(w) && (keys.Some? ==> ValueOk(keys.value, |b|) && !IsInline(keys.value.kind))
    ensures |r| == |b| + PaddingBytes(|b|, w) + w + if keys.Some? then 2 * w else 0
  {
    var b1 := Pad(b, w);
    var b2 := if keys.Some? then WriteOffset(b1, keys.value.u, w) + LE(keys.value.width, w) else b1;
    b2 + LE(n, w)
  }

  /** A vector of the values, typed or with their types behind them, with its keys in front if it is a map. */
  function CreateVector(
    b: seq<Byte>, vs: seq<Value>, step: nat, typed: bool, keys: Option<Value>, minWidth: nat): (seq<Byte>, Value)
    requires ValuesOk(vs, |b|) && IsWidth(minWidth) && CanPack(vs)
    requires keys.Some? ==> ValueOk(keys.value, |b|) && !IsInline(keys.value.kind)
    requires typed ==> SameKinds(vs)
  {
    var w := VectorWidth(b, vs, step, keys, minWidth);
    var head := VectorHead(b, |vs|, w, keys);
    var elems := WriteAll(head, vs, w);
    var kind := if keys.Some? then MAP else if typed then ToTypedVector(if vs == [] then KEY else vs[0].kind) else VECTOR;
    (if typed then elems else elems + TypeBytes(vs, w), Value(|head|, kind, w))
  }

  predicate CanFix(vs: seq<Value>) {
    2 <= |vs| <= 4 && SameKinds(vs) && IsFixedElement(vs[0].kind)
  }

  /** A vector of fixed length has neither its size in front nor types behind. */
  function CreateFixed(b: seq<Byte>, vs: seq<Value>, minWidth: nat): (seq<Byte>, Value)
    requires ValuesOk(vs, |b|) && IsWidth(minWidth) && CanFix(vs)
  {
    var w := VectorWidth(b, vs, 1, None, minWidth);
    var head := Pad(b, w);
    (WriteAll(head, vs, w), Value(|head|, ToFixedVector(vs[0].kind, |vs|), w))
  }

  /** What the search for the width of a value asserts: it ends with a match. */
  predicate SearchEnds(v: Value, size: nat, index: nat)
    requires ValueOk(v, size)
  {
    IsInline(v.kind) || SearchWidth(v.u, size, index, 1).Some?
  }

  /** What `WriteOffset` asserts when it stores at `q`, in `w` bytes, the way to the object at `u`. */
  predicate OffsetStored(q: int, u: int, w: nat)
    requires IsWidth(w)
  {
    w == 8 || q - u < Range(w)
  }

  /** Both for a value stored at `q` that was taken to become element `index` behind `size` bytes. */
  predicate ElemAsserts(v: Value, size: nat, index: nat, q: int, w: nat)
    requires ValueOk(v, size) && IsWidth(w)
  {
    SearchEnds(v, size, index) && (!IsInline(v.kind) ==> OffsetStored(q, v.u, w))
  }

  /** The number of elements in front of the first: the size, and for a map also offset and width of the keys. */
  function Prefix(keys: Option<Value>): nat {
    if keys.Some? then 3 else 1
  }

  /** The place that the width search assumes for element `k`. */
  function Index(step: nat, k: nat, keys: Option<Value>): nat {
    step * k + Prefix(keys)
  }

  predicate ElemsAssert(vs: seq<Value>, size: nat, step: nat, keys: Option<Value>, start: nat, w: nat)
    requires ValuesOk(vs, size) && IsWidth(w)
  {
    forall k | 0 <= k < |vs| :: ElemAsserts(vs[k], size, Index(step, k, keys), start + Scale(k, w), w)
  }

  /** No assertion fails in `CreateVector`, neither in the searches for widths nor in storing offsets. */
  predicate VectorAsserts(b: seq<Byte>, vs: seq<Value>, step: nat, keys: Option<Value>, minWidth: nat)
    requires ValuesOk(vs, |b|) && IsWidth(minWidth)
    requires keys.Some? ==> ValueOk(keys.value, |b|) && !IsInline(keys.value.kind)
  {
    var w := VectorWidth(b, vs, step, keys, minWidth);
    && (keys.Some? ==> ElemAsserts(keys.value, |b|, 0, |Pad(b, w)|, w))
    && ElemsAssert(vs, |b|, step, keys, |VectorHead(b, |vs|, w, keys)|, w)
  }

  function Push(s: Builder, v: Value): Builder {
    s.(stack := s.stack + [v])
  }

  function Null(s: Builder): Builder {
    Push(s, Value(0, NULL, 1))
  }

  function Int(s: Builder, i: int): Builder {
    Push(s, Value(i, INT, WidthI(i)))
  }

  function UInt(s: Builder, u: nat): Builder {
    Push(s, Value(u, UINT, WidthU(u)))
  }

  function Bool(s: Builder, x: bool): Builder {
    Push(s, Value(if x then 1 else 0, BOOL, 1))
  }

  function PushIndirect(s: Builder, i: int, kind: nat, w: nat): Builder
    requires IsWidth(w)
  {
    var b := Pad(s.buf, w);
    Push(s.(buf := b + IntBytes(i, w)), Value(|b|, kind, w))
  }

  /** The characters at `p` up to the NUL. */
  function Chars(b: seq<Byte>, p: nat): (r: seq<Byte>)
    ensures 0 !in r
    decreases |b| - p
  {
    if p >= |b| || b[p] == 0 then [] else [b[p]] + Chars(b, p + 1)
  }

  /** What a set ordered by `strcmp` finds for a key. */
  function FindKey(b: seq<Byte>, pool: seq<nat>, chars: seq<Byte>): (r: Option<nat>)
    ensures r.Some? ==> r.value in pool
  {
    if pool == [] then None
    else
      var c := Chars(b, pool[0]);
      if !(Strcmp(c, chars) < 0) && !(Strcmp(chars, c) < 0) then Some(pool[0])
      else FindKey(b, pool[1..], chars)
  }

  function Key(s: Builder, chars: seq<Byte>): Builder {
    var sloc, b := |s.buf|, s.buf + (chars + [0]);
    if !s.flags.shareKeys then Push(s.(buf := b), Value(sloc, KEY, 1)) else
    match FindKey(b, s.keyPool, Chars(b, sloc))
    case Some(known) => Push(s, Value(known, KEY, 1))
    case None => Push(s.(buf := b, keyPool := s.keyPool + [sloc]), Value(sloc, KEY, 1))
  }

  function CreateBlob(s: Builder, bytes: seq<Byte>, trailing: seq<Byte>, kind: nat): Builder {
    var w := WidthU(|bytes|);
    var b := Pad(s.buf, w) + LE(|bytes|, w);
    Push(s.(buf := b + (bytes + trailing)), Value(|b|, kind, w))
  }

  /** `memcmp` of `n` bytes, as far as they are in the buffer. */
  function Memcmp(b: seq<Byte>, p: nat, q: nat, n: nat): int
    decreases n
  {
    if n == 0 || p >= |b| || q >= |b| then 0
    else if b[p] != b[q] then b[p] - b[q]
    else Memcmp(b, p + 1, q + 1, n - 1)
  }

  predicate StringBefore(b: seq<Byte>, a: StringOffset, c: StringOffset) {
    var cr := Memcmp(b, a.off, c.off, (if a.len < c.len then a.len else c.len) + 1);
    cr < 0 || (cr == 0 && a.len < c.len)
  }

  function FindString(b: seq<Byte>, pool: seq<StringOffset>, so: StringOffset): (r: Option<StringOffset>)
    ensures r.Some? ==> r.value in pool
  {
    if pool == [] then None
    else if !StringBefore(b, pool[0], so) && !StringBefore(b, so, pool[0]) then Some(pool[0])
    else FindString(b, pool[1..], so)
  }

  function String(s: Builder, chars: seq<Byte>): Builder {
    var s1 := CreateBlob(s, chars, [0], STRING);
    if !s.flags.shareStrings then s1 else
    var v := s1.stack[|s.stack|];
    match FindString(s1.buf, s.stringPool, StringOffset(v.u, |chars|))
    case Some(known) => Push(s, v.(u := known.off))
    case None => s1.(stringPool := s.stringPool + [StringOffset(v.u, |chars|)])
  }

  function Blob(s: Builder, bytes: seq<Byte>): Builder {
    CreateBlob(s, bytes, [], BLOB)
  }

  function WriteScalars(b: seq<Byte>, elems: seq<int>, w: nat): (r: seq<Byte>)
    requires IsWidth(w)
    ensures |r| == |b| + Scale(|elems|, w)
    decreases |elems|
  {
    if elems == [] then ScaleStep(0, w); b else
    ScaleStep(|elems| - 1, w);
    WriteScalars(b, elems[..|elems| - 1], w) + IntBytes(elems[|elems| - 1], w)
  }

  /** A typed vector straight from an array of scalars; its length must fit the width of the scalars. */
  function ScalarVector(s: Builder, kind: nat, w: nat, elems: seq<int>): Builder
    requires IsWidth(w) && WidthU(|elems|) <= w && kind >= INT
  {
    var b := Pad(s.buf, w) + LE(|elems|, w);
    Push(s.(buf := WriteScalars(b, elems, w)), Value(|b|, ToTypedVector(kind), w))
  }

  function ScalarFixed(s: Builder, kind: nat, w: nat, elems: seq<int>): Builder
    requires IsWidth(w) && IsFixedElement(kind) && 2 <= |elems| <= 4
  {
    var b := Pad(s.buf, w);
    Push(s.(buf := WriteScalars(b, elems, w)), Value(|b|, ToFixedVector(kind, |elems|), w))
  }

  function EndFixed(s: Builder, start: nat): Builder
    requires start <= |s.stack| && ValuesOk(s.stack[start..], |s.buf|) && CanFix(s.stack[start..])
    requires IsWidth(s.flags.minWidth)
  {
    var (b, v) := CreateFixed(s.buf, s.stack[start..], s.flags.minWidth);
    s.(buf := b, stack := s.stack[..start] + [v])
  }

  function EndVector(s: Builder, start: nat, typed: bool): Builder
    requires start <= |s.stack| && ValuesOk(s.stack[start..], |s.buf|) && CanPack(s.stack[start..])
    requires IsWidth(s.flags.minWidth) && (typed ==> SameKinds(s.stack[start..]))
  {
    var (b, v) := CreateVector(s.buf, s.stack[start..], 1, typed, None, s.flags.minWidth);
    s.(buf := b, stack := s.stack[..start] + [v])
  }

  datatype TwoValue = TwoValue(key: Value, val: Value)

  /** The stack from `start` on as pairs of a key and its value. */
  function Pairs(vs: seq<Value>): (ps: seq<TwoValue>)
    requires |vs| % 2 == 0
    ensures |ps| == |vs| / 2
  {
    seq(|vs| / 2, i requires 0 <= i < |vs| / 2 => TwoValue(vs[2 * i], vs[2 * i + 1]))
  }

  function KeyOf(b: seq<Byte>, p: TwoValue): seq<Byte> {
    Chars(b, if p.key.u < 0 then 0 else p.key.u)
  }

  function Insert(b: seq<Byte>, ps: seq<TwoValue>, p: TwoValue): (r: seq<TwoValue>)
    ensures |r| == |ps| + 1
  {
    if ps == [] then [p]
    else if Strcmp(KeyOf(b, p), KeyOf(b, ps[0])) < 0 then [p] + ps
    else [ps[0]] + Insert(b, ps[1..], p)
  }

  /** The pairs by `strcmp` of their keys. */
  function Sorted(b: seq<Byte>, ps: seq<TwoValue>): (r: seq<TwoValue>)
    ensures |r| == |ps|
  {
    if ps == [] then [] else Insert(b, Sorted(b, ps[1..]), ps[0])
  }

  predicate Duplicates(b: seq<Byte>, ps: seq<TwoValue>) {
    exists i, j | 0 <= i < j < |ps| :: KeyOf(b, ps[i]) == KeyOf(b, ps[j])
  }

  function KeyValues(ps: seq<TwoValue>): (vs: seq<Value>)
    ensures |vs| == |ps| && forall i | 0 <= i < |ps| :: vs[i] == ps[i].key
  {
    seq(|ps|, i requires 0 <= i < |ps| => ps[i].key)
  }

  function ValValues(ps: seq<TwoValue>): (vs: seq<Value>)
    ensures |vs| == |ps| && forall i | 0 <= i < |ps| :: vs[i] == ps[i].val
  {
    seq(|ps|, i requires 0 <= i < |ps| => ps[i].val)
  }

  predicate PairsOk(ps: seq<TwoValue>, size: nat) {
    forall i | 0 <= i < |ps| ::
      && ps[i].key.kind == KEY && ValueOk(ps[i].key, size)
      && ValueOk(ps[i].val, size) && ps[i].val.kind <= BOOL + 10
  }

  /** A vector of the keys and then one of the values, with the first in front of the second. */
  function CreateMap(b: seq<Byte>, ps: seq<TwoValue>, minWidth: nat): (seq<Byte>, Value)
    requires PairsOk(ps, |b|) && IsWidth(minWidth)
  {
    var (b1, keys) := CreateVector(b, KeyValues(ps), 2, true, None, minWidth);
    CreateVector(b1, ValValues(ps), 2, false, Some(keys), minWidth)
  }

  predicate MapAsserts(b: seq<Byte>, ps: seq<TwoValue>, minWidth: nat)
    requires PairsOk(ps, |b|) && IsWidth(minWidth)
  {
    var (b1, keys) := CreateVector(b, KeyValues(ps), 2, true, None, minWidth);
    VectorAsserts(b, KeyValues(ps), 2, None, minWidth) && VectorAsserts(b1, ValValues(ps), 2, Some(keys), minWidth)
  }

  function EndMap(s: Builder, start: nat): Builder
    requires start <= |s.stack| && (|s.stack| - start) % 2 == 0 && IsWidth(s.flags.minWidth)
    requires PairsOk(Sorted(s.buf, Pairs(s.stack[start..])), |s.buf|)
  {
    var ps := Pairs(s.stack[start..]);
    var (b, v) := CreateMap(s.buf, Sorted(s.buf, ps), s.flags.minWidth);
    s.(buf := b, stack := s.stack[..start] + [v], duplicateKeys := s.duplicateKeys || Duplicates(s.buf, ps))
  }

  function Finish(s: Builder): Builder
    requires |s.stack| == 1 && ValueOk(s.stack[0], |s.buf|) && s.stack[0].kind <= BOOL + 10
  {
    var v := s.stack[0];
    var w := ElemWidth(v, |s.buf|, 0);
    var b := WriteAny(Pad(s.buf, w), v, w);
    s.(buf := b + [PackedByte(v, 1)] + [w], finished := true)
  }
}
