/**
  The FlexBuffers builder object: a byte vector, a stack of values and two pools that the calls update. Every
  method is proved to do what the function of the same name in FlexBuilder.dfy does.
 */
module FlexBuilderClass {
  import opened Bytes
  import opened FlexReader
  import FB = FlexBuilder
  import opened FlexWidths
  import opened FlexVectors
  import opened FlexMaps

  class FlexBufferBuilder {
    var buf: seq<Byte>
    var stack: seq<FB.Value>
    var keyPool: seq<nat>
    var stringPool: seq<FB.StringOffset>
    var hasDuplicateKeys: bool
    var finished: bool
    const flags: FB.Flags

    ghost function State(): FB.Builder
      reads this
    {
      FB.Builder(buf, stack, flags, keyPool, stringPool, hasDuplicateKeys, finished)
    }

    constructor (flags: FB.Flags)
      ensures State() == FB.New(flags)
    {
      buf := [];
      stack := [];
      keyPool := [];
      stringPool := [];
      hasDuplicateKeys := false;
      finished := false;
      this.flags := flags;
    }

    method Push(v: FB.Value)
      modifies `stack
      ensures State() == FB.Push(old(State()), v)
    {
      stack := stack + [v];
    }

    method Null()
      modifies `stack
      ensures State() == FB.Null(old(State()))
    {
      Push(FB.Value(0, NULL, 1));
    }

    method Int(i: int)
      modifies `stack
      ensures State() == FB.Int(old(State()), i)
    {
      Push(FB.Value(i, INT, FB.WidthI(i)));
    }

    method UInt(u: nat)
      modifies `stack
      ensures State() == FB.UInt(old(State()), u)
    {
      Push(FB.Value(u, UINT, FB.WidthU(u)));
    }

    method Bool(x: bool)
      modifies `stack
      ensures State() == FB.Bool(old(State()), x)
    {
      Push(FB.Value(if x then 1 else 0, BOOL, 1));
    }

    method Align(w: nat)
      requires IsWidth(w)
      modifies `buf
      ensures buf == FB.Pad(old(buf), w)
    {
      buf := buf + Zeros(PaddingBytes(|buf|, w));
    }

    method WriteBytes(bytes: seq<Byte>)
      modifies `buf
      ensures buf == old(buf) + bytes
    {
      buf := buf + bytes;
    }

    method PushIndirect(i: int, kind: nat, w: nat)
      requires IsWidth(w)
      modifies this
      ensures State() == FB.PushIndirect(old(State()), i, kind, w)
    {
      Align(w);
      var iloc := |buf|;
      WriteBytes(FB.IntBytes(i, w));
      Push(FB.Value(iloc, kind, w));
    }

    method Key(chars: seq<Byte>)
      modifies this
      ensures State() == FB.Key(old(State()), chars)
    {
      var sloc := |buf|;
      WriteBytes(chars + [0]);
      if flags.shareKeys {
        var it := FB.FindKey(buf, keyPool, FB.Chars(buf, sloc));
        if it.Some? {
          buf := buf[..sloc];
          sloc := it.value;
        } else {
          keyPool := keyPool + [sloc];
        }
      }
      Push(FB.Value(sloc, KEY, 1));
    }

    method CreateBlob(bytes: seq<Byte>, trailing: seq<Byte>, kind: nat) returns (sloc: nat)
      modifies this
      ensures State() == FB.CreateBlob(old(State()), bytes, trailing, kind)
      ensures sloc == |FB.Pad(old(buf), FB.WidthU(|bytes|))| + FB.WidthU(|bytes|)
    {
      var w := FB.WidthU(|bytes|);
      Align(w);
      WriteBytes(LE(|bytes|, w));
      sloc := |buf|;
      WriteBytes(bytes + trailing);
      Push(FB.Value(sloc, kind, w));
    }

    method String(chars: seq<Byte>)
      modifies this
      ensures State() == FB.String(old(State()), chars)
    {
      hide FB.FindString;
      hide LE;
      hide PaddingBytes;
      hide FB.WidthU;
      var resetTo := |buf|;
      var sloc := CreateBlob(chars, [0], STRING);
      if flags.shareStrings {
        var so := FB.StringOffset(sloc, |chars|);
        var it := FB.FindString(buf, stringPool, so);
        if it.Some? {
          buf := buf[..resetTo];
          var top := |stack| - 1;
          stack := stack[top := stack[top].(u := it.value.off)];
        } else {
          stringPool := stringPool + [so];
        }
      }
    }

    method Blob(bytes: seq<Byte>)
      modifies this
      ensures State() == FB.Blob(old(State()), bytes)
    {
      var _ := CreateBlob(bytes, [], BLOB);
    }

    method ScalarVector(kind: nat, w: nat, elems: seq<int>, fixed: bool)
      requires IsWidth(w) && FB.WidthU(|elems|) <= w && kind >= INT
      requires fixed ==> IsFixedElement(kind) && 2 <= |elems| <= 4
      modifies this
      ensures State() ==
        if fixed then FB.ScalarFixed(old(State()), kind, w, elems) else FB.ScalarVector(old(State()), kind, w, elems)
    {
      hide FB.IntBytes;
      hide LE;
      hide PaddingBytes;
      Align(w);
      if !fixed {
        WriteBytes(LE(|elems|, w));
      }
      var vloc := |buf|;
      ghost var head := buf;
      var i := 0;
      assert elems[..0] == [];
      while i < |elems|
        invariant i <= |elems| && buf == FB.WriteScalars(head, elems[..i], w)
        invariant stack == old(stack) && keyPool == old(keyPool) && stringPool == old(stringPool)
        invariant hasDuplicateKeys == old(hasDuplicateKeys) && finished == old(finished)
      {
        assert elems[..i + 1][..i] == elems[..i];
        WriteBytes(FB.IntBytes(elems[i], w));
        i := i + 1;
      }
      assert elems[..i] == elems;
      Push(FB.Value(vloc, if fixed then ToFixedVector(kind, |elems|) else ToTypedVector(kind), w));
    }

    method WriteOffset(o: nat, w: nat)
      requires o <= |buf|
      modifies `buf
      ensures buf == FB.WriteOffset(old(buf), o, w)
    {
      WriteBytes(LE(|buf| - o, w));
    }

    method WriteAny(v: FB.Value, w: nat)
      requires IsWidth(w) && FB.ValueOk(v, |buf|)
      modifies `buf
      ensures buf == FB.WriteAny(old(buf), v, w)
    {
      if IsInline(v.kind) {
        WriteBytes(FB.IntBytes(v.u, w));
      } else {
        WriteOffset(v.u, w);
      }
    }

    /** The least width that is enough for all elements, starting from `w0`. */
    method FindWidth(vs: seq<FB.Value>, step: nat, prefix: nat, w0: nat) returns (w: nat)
      requires FB.ValuesOk(vs, |buf|) && IsWidth(w0)
      ensures w == FB.ElemsWidth(vs, |buf|, step, prefix, w0)
    {
      hide FB.ElemWidth;
      w := w0;
      var i := 0;
      while i < |vs|
        invariant i <= |vs| && IsWidth(w) && w == FB.ElemsWidth(vs[..i], |buf|, step, prefix, w0)
      {
        assert vs[..i + 1][..i] == vs[..i];
        var elemWidth := SearchElemWidth(vs[i], |buf|, step * i + prefix);
        w := Max(w, elemWidth);
        i := i + 1;
      }
      assert vs[..i] == vs;
    }

    method WriteElems(vs: seq<FB.Value>, w: nat)
      requires IsWidth(w) && FB.ValuesOk(vs, |buf|)
      modifies `buf
      ensures buf == FB.WriteAll(old(buf), vs, w)
    {
      hide FB.WriteAny;
      hide Scale;
      ghost var head := buf;
      var i := 0;
      while i < |vs|
        invariant i <= |vs| && |head| <= |buf| && buf == FB.WriteAll(head, vs[..i], w)
      {
        assert vs[..i + 1][..i] == vs[..i];
        ValuesGrow(vs, |head|, |buf|);
        WriteAny(vs[i], w);
        i := i + 1;
      }
      assert vs[..i] == vs;
    }

    method WriteTypes(vs: seq<FB.Value>, parent: nat)
      requires IsWidth(parent) && FB.CanPack(vs)
      modifies `buf
      ensures buf == old(buf) + FB.TypeBytes(vs, parent)
    {
      hide FB.PackedByte;
      ghost var elems := buf;
      var i := 0;
      while i < |vs|
        invariant i <= |vs| && buf == elems + FB.TypeBytes(vs, parent)[..i]
      {
        assert FB.TypeBytes(vs, parent)[..i + 1] == FB.TypeBytes(vs, parent)[..i] + [FB.PackedByte(vs[i], parent)];
        WriteBytes([FB.PackedByte(vs[i], parent)]);
        i := i + 1;
      }
      assert FB.TypeBytes(vs, parent)[..i] == FB.TypeBytes(vs, parent);
    }

    method CreateVector(vs: seq<FB.Value>, step: nat, typed: bool, fixed: bool, keys: Option<FB.Value>)
      returns (v: FB.Value)
      requires FB.ValuesOk(vs, |buf|) && IsWidth(flags.minWidth) && FB.CanPack(vs)
      requires keys.Some? ==> FB.ValueOk(keys.value, |buf|) && !IsInline(keys.value.kind)
      requires typed ==> FB.SameKinds(vs)
      requires fixed ==> typed && step == 1 && keys.None? && FB.CanFix(vs)
      modifies `buf
      ensures (buf, v) ==
        if fixed then FB.CreateFixed(old(buf), vs, flags.minWidth)
        else FB.CreateVector(old(buf), vs, step, typed, keys, flags.minWidth)
    {
      hide FB.ElemWidth;
      hide FB.ElemsWidth;
      hide FB.WidthU;
      hide LE;
      hide PaddingBytes;
      hide FB.WriteAll;
      hide FB.TypeBytes;
      var w := Max(flags.minWidth, FB.WidthU(|vs|));
      if keys.Some? {
        var keysWidth := SearchElemWidth(keys.value, |buf|, 0);
        w := Max(w, keysWidth);
      }
      w := FindWidth(vs, step, if keys.Some? then 3 else 1, w);
      Align(w);
      if keys.Some? {
        WriteOffset(keys.value.u, w);
        WriteBytes(LE(keys.value.width, w));
      }
      if !fixed {
        WriteBytes(LE(|vs|, w));
      }
      var vloc := |buf|;
      ValuesGrow(vs, |old(buf)|, |buf|);
      WriteElems(vs, w);
      if !typed {
        WriteTypes(vs, w);
      }
      v := FB.Value(
        vloc,
        if keys.Some? then MAP
        else if fixed then ToFixedVector(vs[0].kind, |vs|)
        else if typed then ToTypedVector(if vs == [] then KEY else vs[0].kind)
        else VECTOR,
        w);
    }

    method EndVector(start: nat, typed: bool, fixed: bool)
      requires start <= |stack| && FB.ValuesOk(stack[start..], |buf|) && FB.CanPack(stack[start..])
      requires IsWidth(flags.minWidth) && (typed ==> FB.SameKinds(stack[start..]))
      requires fixed ==> typed && FB.CanFix(stack[start..])
      modifies this
      ensures State() == if fixed then FB.EndFixed(old(State()), start) else FB.EndVector(old(State()), start, typed)
    {
      hide FB.CreateVector;
      hide FB.CreateFixed;
      var vec := CreateVector(stack[start..], 1, typed, fixed, None);
      stack := stack[..start];
      Push(vec);
    }

    method EndMap(start: nat)
      requires start <= |stack| && (|stack| - start) % 2 == 0 && IsWidth(flags.minWidth)
      requires FB.PairsOk(FB.Sorted(buf, FB.Pairs(stack[start..])), |buf|)
      modifies this
      ensures State() == FB.EndMap(old(State()), start)
    {
      hide FB.CreateVector;
      hide FB.Sorted;
      hide FB.Duplicates;
      var dict := FB.Pairs(stack[start..]);
      hasDuplicateKeys := hasDuplicateKeys || FB.Duplicates(buf, dict);
      dict := FB.Sorted(buf, dict);
      ghost var b := buf;
      SortedKeys(dict, |buf|);
      CreateMapSteps(buf, dict, flags.minWidth);
      var keys := CreateVector(FB.KeyValues(dict), 2, true, false, None);
      var vec := CreateVector(FB.ValValues(dict), 2, false, false, Some(keys));
      stack := stack[..start];
      Push(vec);
    }

    method Finish()
      requires |stack| == 1 && FB.ValueOk(stack[0], |buf|) && stack[0].kind <= BOOL + 10
      modifies this
      ensures State() == FB.Finish(old(State()))
    {
      hide FB.ElemWidth;
      hide FB.PackedByte;
      hide PaddingBytes;
      hide FB.IntBytes;
      hide LE;
      var w := SearchElemWidth(stack[0], |buf|, 0);
      Align(w);
      WriteAny(stack[0], w);
      WriteBytes([FB.PackedByte(stack[0], 1)]);
      WriteBytes([w]);
      finished := true;
    }
  }

  /** `ElemWidth`: tries one width after the other until one is what the distance at that width takes. */
  method SearchElemWidth(v: FB.Value, size: nat, index: nat) returns (w: nat)
    requires FB.ValueOk(v, size)
    ensures w == FB.ElemWidth(v, size, index) && IsWidth(w)
  {
    if IsInline(v.kind) {
      return v.width;
    }
    SearchFinds(v.u, size, index, 1);
    hide FB.Distance;
    hide FB.WidthU;
    w := 1;
    while FB.WidthU(FB.Distance(v.u, size, index, w)) != w
      invariant IsWidth(w) && FB.SearchWidth(v.u, size, index, 1) == FB.SearchWidth(v.u, size, index, w)
      decreases 8 - w
    {
      w := 2 * w;
    }
  }
}
