/** FlexBuffers: type tags, widths and the accessors of a finished buffer, and what it means to read a tree. */
module FlexReader {
  import opened Bytes

  const NULL := 0
  const INT := 1
  const UINT := 2
  const FLOAT := 3
  const KEY := 4
  const STRING := 5
  const INDIRECT_INT := 6
  const INDIRECT_UINT := 7
  const MAP := 9
  const VECTOR := 10
  const VECTOR_INT := 11
  const VECTOR_INT2 := 16
  const BLOB := 25
  const BOOL := 26

  predicate IsInline(kind: nat) {
    kind <= FLOAT || kind == BOOL
  }

  /** The element types of typed vectors, without the deprecated strings and without floats. */
  predicate IsTypedElement(kind: nat) {
    kind == INT || kind == UINT || kind == KEY || kind == BOOL
  }

  function ToTypedVector(kind: nat): nat
    requires kind >= INT
  {
    kind - INT + VECTOR_INT
  }

  /** The element types of vectors of fixed length, floats left out. */
  predicate IsFixedElement(kind: nat) {
    kind == INT || kind == UINT
  }

  function ToFixedVector(kind: nat, n: nat): nat
    requires IsFixedElement(kind) && 2 <= n <= 4
  {
    kind - INT + VECTOR_INT2 + 3 * (n - 2)
  }

  /** The element type and the length that the type of such a vector tells. */
  function FixedElement(kind: nat): (nat, nat)
    requires VECTOR_INT2 <= kind
  {
    ((kind - VECTOR_INT2) % 3 + INT, (kind - VECTOR_INT2) / 3 + 2)
  }

  /** The two low bits of a packed type: 0, 1, 2, 3 for one, two, four, eight bytes. */
  function WidthBits(w: nat): nat
    requires IsWidth(w)
  {
    if w == 1 then 0 else if w == 2 then 1 else if w == 4 then 2 else 3
  }

  function ByteWidth(bits: nat): (w: nat)
    ensures IsWidth(w)
  {
    if bits == 0 then 1 else if bits == 1 then 2 else if bits == 2 then 4 else 8
  }

  function PackedType(w: nat, kind: nat): nat
    requires IsWidth(w)
  {
    WidthBits(w) + 4 * kind
  }

  /** A scalar of `w` bytes with its sign. */
  function ReadInt(b: seq<Byte>, p: int, w: nat): Read<int>
    requires IsWidth(w)
  {
    var u :- ReadLE(b, p, w);
    Ok(if 2 * u < Range(w) then u else u - Range(w))
  }

  /** What a value looks like from where it is stored. */
  datatype Ref = Ref(pos: int, parentWidth: nat, byteWidth: nat, kind: nat)

  predicate RefOk(r: Ref) {
    IsWidth(r.parentWidth) && IsWidth(r.byteWidth)
  }

  function Indirect(b: seq<Byte>, pos: int, w: nat): Read<int> {
    var u :- ReadLE(b, pos, w);
    Ok(pos - u)
  }

  /** The length in front of a string, blob or vector. */
  function SizeBefore(b: seq<Byte>, p: int, w: nat): Read<nat> {
    ReadLE(b, p - w, w)
  }

  function VectorAt(b: seq<Byte>, p: int, w: nat, i: nat): Read<Ref>
    requires IsWidth(w)
  {
    var n :- SizeBefore(b, p, w);
    if i >= n then Ok(Ref(0, 1, 1, NULL)) else
    var packed :- ReadLE(b, p + Scale(n, w) + i, 1);
    Ok(Ref(p + Scale(i, w), w, ByteWidth(packed % 4), packed / 4))
  }

  function TypedVectorAt(b: seq<Byte>, p: int, w: nat, kind: nat, i: nat): Read<Ref>
    requires IsWidth(w)
  {
    var n :- SizeBefore(b, p, w);
    if i >= n then Ok(Ref(0, 1, 1, NULL)) else Ok(Ref(p + Scale(i, w), w, 1, kind))
  }

  /** No size is stored: the type has it. */
  function FixedVectorAt(p: int, w: nat, kind: nat, i: nat): Ref
    requires IsWidth(w) && VECTOR_INT2 <= kind
  {
    var (elem, n) := FixedElement(kind);
    if i >= n then Ref(0, 1, 1, NULL) else Ref(p + Scale(i, w), w, 1, elem)
  }

  /** Where the keys of a map are, and how wide their offsets. */
  function MapKeys(b: seq<Byte>, p: int, w: nat): Read<(int, nat)> {
    var keys :- Indirect(b, p - 3 * w, w);
    var width :- ReadLE(b, p - 2 * w, w);
    Ok((keys, width))
  }

  function GetRoot(b: seq<Byte>): Read<Ref> {
    var w :- ReadLE(b, |b| - 1, 1);
    var packed :- ReadLE(b, |b| - 2, 1);
    Ok(Ref(|b| - 2 - w, w, ByteWidth(packed % 4), packed / 4))
  }

  datatype Tree =
    | TNull
    | TBool(flag: bool)
    | TInt(i: int)
    | TUInt(u: nat)
    | TIndirectInt(i: int)
    | TIndirectUInt(u: nat)
    | TKey(chars: seq<Byte>)
    | TString(chars: seq<Byte>)
    | TBlob(bytes: seq<Byte>)
    | TVector(elems: seq<Tree>)
    | TTyped(kind: nat, elems: seq<Tree>)
    | TFixed(kind: nat, elems: seq<Tree>)
    | TMap(entries: seq<Entry>)

  datatype Entry = Entry(key: seq<Byte>, value: Tree)

  /** The characters of a C string at `p`. */
  predicate CString(b: seq<Byte>, p: int, chars: seq<Byte>) {
    At(b, p, chars + [0]) && 0 !in chars
  }

  /** `strcmp` on strings without NUL. */
  function Strcmp(a: seq<Byte>, c: seq<Byte>): int {
    if a == [] && c == [] then 0
    else if a == [] then -c[0]
    else if c == [] then a[0]
    else if a[0] != c[0] then a[0] - c[0]
    else Strcmp(a[1..], c[1..])
  }

  /** Byte by byte: at the first difference the smaller byte, or the end, comes first. */
  predicate KeyBefore(a: seq<Byte>, c: seq<Byte>) {
    exists k | 0 <= k <= |a| && k < |c| :: a[..k] == c[..k] && (k == |a| || a[k] < c[k])
  }

  /** Strictly ascending keys: what the binary search relies on. */
  predicate Ascending(entries: seq<Entry>) {
    forall i, j | 0 <= i < j < |entries| :: KeyBefore(entries[i].key, entries[j].key)
  }

  /** The accessors, used on the value at `r`, find the tree `t`. */
  ghost predicate Reads(b: seq<Byte>, r: Ref, t: Tree)
    decreases t, 1
  {
    RefOk(r) &&
    match t
    case TNull => r.kind == NULL
    case TBool(x) => r.kind == BOOL && ReadLE(b, r.pos, r.parentWidth) == Ok(if x then 1 else 0)
    case TInt(i) => r.kind == INT && ReadInt(b, r.pos, r.parentWidth) == Ok(i)
    case TUInt(u) => r.kind == UINT && ReadLE(b, r.pos, r.parentWidth) == Ok(u)
    case _ =>
      match Indirect(b, r.pos, r.parentWidth)
      case Ok(p) => Stands(b, p, r.byteWidth, r.kind, t)
      case Oob => false
  }

  /** The object at `p`, with sizes and elements of `w` bytes. */
  ghost predicate Stands(b: seq<Byte>, p: int, w: nat, kind: nat, t: Tree)
    decreases t, 0
  {
    IsWidth(w) &&
    match t
    case TIndirectInt(i) => kind == INDIRECT_INT && ReadInt(b, p, w) == Ok(i)
    case TIndirectUInt(u) => kind == INDIRECT_UINT && ReadLE(b, p, w) == Ok(u)
    case TKey(chars) => kind == KEY && CString(b, p, chars)
    case TString(chars) => kind == STRING && SizeBefore(b, p, w) == Ok(|chars|) && At(b, p, chars + [0])
    case TBlob(bytes) => kind == BLOB && SizeBefore(b, p, w) == Ok(|bytes|) && At(b, p, bytes)
    case TVector(es) =>
      && kind == VECTOR && SizeBefore(b, p, w) == Ok(|es|)
      && forall i | 0 <= i < |es| :: ReadsAt(b, VectorAt(b, p, w, i), es[i])
    case TTyped(k, es) =>
      && IsTypedElement(k) && kind == ToTypedVector(k) && SizeBefore(b, p, w) == Ok(|es|)
      && forall i | 0 <= i < |es| :: ReadsAt(b, TypedVectorAt(b, p, w, k, i), es[i])
    case TFixed(k, es) =>
      && IsFixedElement(k) && 2 <= |es| <= 4 && kind == ToFixedVector(k, |es|)
      && forall i | 0 <= i < |es| :: Reads(b, FixedVectorAt(p, w, kind, i), es[i])
    case TMap(entries) =>
      && kind == MAP && SizeBefore(b, p, w) == Ok(|entries|) && Ascending(entries)
      && KeysStand(b, MapKeys(b, p, w), entries)
      && forall i | 0 <= i < |entries| :: ReadsAt(b, VectorAt(b, p, w, i), entries[i].value)
    case _ => false
  }

  ghost predicate ReadsAt(b: seq<Byte>, r: Read<Ref>, t: Tree)
    decreases t, 2
  {
    r.Ok? && Reads(b, r.value, t)
  }

  /** The typed vector of the keys of a map. */
  predicate KeysStand(b: seq<Byte>, at: Read<(int, nat)>, entries: seq<Entry>) {
    && at.Ok? && IsWidth(at.value.1)
    && SizeBefore(b, at.value.0, at.value.1) == Ok(|entries|)
    && forall i | 0 <= i < |entries| ::
         KeyStands(b, TypedVectorAt(b, at.value.0, at.value.1, KEY, i), entries[i].key)
  }

  predicate KeyStands(b: seq<Byte>, r: Read<Ref>, key: seq<Byte>) {
    match r
    case Ok(k) =>
      (match Indirect(b, k.pos, k.parentWidth)
       case Ok(p) => CString(b, p, key)
       case Oob => false)
    case Oob => false
  }

  /** Appending to the buffer changes nothing that can be read. */
  lemma ReadAppend(b: seq<Byte>, more: seq<Byte>, p: int, k: nat)
    requires ReadLE(b, p, k).Ok?
    ensures ReadLE(b + more, p, k) == ReadLE(b, p, k)
  {
    assert (b + more)[p..p + k] == b[p..p + k];
  }

  lemma AtAppend(b: seq<Byte>, more: seq<Byte>, p: int, s: seq<Byte>)
    requires At(b, p, s)
    ensures At(b + more, p, s)
  {
    assert (b + more)[p..p + |s|] == b[p..p + |s|];
  }

  lemma VectorAtAppend(b: seq<Byte>, more: seq<Byte>, p: int, w: nat, i: nat)
    requires IsWidth(w) && VectorAt(b, p, w, i).Ok?
    ensures VectorAt(b + more, p, w, i) == VectorAt(b, p, w, i)
  {
    hide ReadLE;
    ReadAppend(b, more, p - w, w);
    var n := SizeBefore(b, p, w).value;
    if i < n {
      ReadAppend(b, more, p + Scale(n, w) + i, 1);
    }
  }

  lemma KeyAppend(b: seq<Byte>, more: seq<Byte>, r: Read<Ref>, key: seq<Byte>)
    requires KeyStands(b, r, key)
    ensures KeyStands(b + more, r, key)
  {
    hide ReadLE;
    hide At;
    ReadAppend(b, more, r.value.pos, r.value.parentWidth);
    AtAppend(b, more, Indirect(b, r.value.pos, r.value.parentWidth).value, key + [0]);
  }

  lemma KeysAppend(b: seq<Byte>, more: seq<Byte>, p: int, w: nat, entries: seq<Entry>)
    requires KeysStand(b, MapKeys(b, p, w), entries)
    ensures KeysStand(b + more, MapKeys(b + more, p, w), entries)
  {
    hide ReadLE;
    hide KeyStands;
    ReadAppend(b, more, p - 3 * w, w);
    ReadAppend(b, more, p - 2 * w, w);
    var (keys, width) := MapKeys(b, p, w).value;
    ReadAppend(b, more, keys - width, width);
    forall i | 0 <= i < |entries|
      ensures KeyStands(b + more, TypedVectorAt(b + more, keys, width, KEY, i), entries[i].key)
    {
      KeyAppend(b, more, TypedVectorAt(b, keys, width, KEY, i), entries[i].key);
    }
  }

  lemma {:induction false} ReadsAppend(b: seq<Byte>, more: seq<Byte>, r: Ref, t: Tree)
    requires Reads(b, r, t)
    ensures Reads(b + more, r, t)
    decreases t, 1
  {
    hide ReadLE;
    hide Stands;
    match t
    case TNull =>
    case TBool(_) => ReadAppend(b, more, r.pos, r.parentWidth);
    case TInt(_) => ReadAppend(b, more, r.pos, r.parentWidth);
    case TUInt(_) => ReadAppend(b, more, r.pos, r.parentWidth);
    case _ =>
      ReadAppend(b, more, r.pos, r.parentWidth);
      StandsAppend(b, more, Indirect(b, r.pos, r.parentWidth).value, r.byteWidth, r.kind, t);
  }

  lemma {:induction false} StandsAppend(b: seq<Byte>, more: seq<Byte>, p: int, w: nat, kind: nat, t: Tree)
    requires Stands(b, p, w, kind, t)
    ensures Stands(b + more, p, w, kind, t)
    decreases t, 0
  {
    hide ReadLE;
    hide At;
    hide Reads;
    hide KeysStand;
    hide Ascending;
    hide VectorAt;
    hide MapKeys;
    match t
    case TIndirectInt(_) => ReadAppend(b, more, p, w);
    case TIndirectUInt(_) => ReadAppend(b, more, p, w);
    case TKey(chars) => AtAppend(b, more, p, chars + [0]);
    case TString(chars) =>
      ReadAppend(b, more, p - w, w);
      AtAppend(b, more, p, chars + [0]);
    case TBlob(bytes) =>
      ReadAppend(b, more, p - w, w);
      AtAppend(b, more, p, bytes);
    case TFixed(_, es) =>
      forall i | 0 <= i < |es| ensures Reads(b + more, FixedVectorAt(p, w, kind, i), es[i]) {
        ReadsAppend(b, more, FixedVectorAt(p, w, kind, i), es[i]);
      }
    case TVector(es) =>
      ReadAppend(b, more, p - w, w);
      forall i | 0 <= i < |es| ensures ReadsAt(b + more, VectorAt(b + more, p, w, i), es[i]) {
        VectorAtAppend(b, more, p, w, i);
        ReadsAppend(b, more, VectorAt(b, p, w, i).value, es[i]);
      }
    case TTyped(k, es) =>
      ReadAppend(b, more, p - w, w);
      forall i | 0 <= i < |es| ensures ReadsAt(b + more, TypedVectorAt(b + more, p, w, k, i), es[i]) {
        ReadsAppend(b, more, TypedVectorAt(b, p, w, k, i).value, es[i]);
      }
    case TMap(entries) =>
      ReadAppend(b, more, p - w, w);
      KeysAppend(b, more, p, w, entries);
      forall i | 0 <= i < |entries| ensures ReadsAt(b + more, VectorAt(b + more, p, w, i), entries[i].value) {
        VectorAtAppend(b, more, p, w, i);
        ReadsAppend(b, more, VectorAt(b, p, w, i).value, entries[i].value);
      }
  }
}
