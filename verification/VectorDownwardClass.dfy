/**
  `vector_downward`: one array that holds two stacks. The buffer proper grows from the end towards the
  front, the scratch stack from the front towards the end. Every method is specified on the two contents
  alone, so they behave as two independent sequences.
 */
module VectorDownwardClass {
  import opened Bytes
  import opened FlatBuilder

  /** Copies the bytes in use at both ends of an array to the ends of a larger one. */
  method MemcpyDownward(oldP: array<Byte>, newP: array<Byte>, inUseBack: nat, inUseFront: nat)
    requires oldP != newP && inUseBack + inUseFront <= oldP.Length <= newP.Length
    modifies newP
    ensures newP[newP.Length - inUseBack..] == oldP[oldP.Length - inUseBack..]
    ensures newP[..inUseFront] == oldP[..inUseFront]
  {
    var shift := newP.Length - oldP.Length;
    forall i | newP.Length - inUseBack <= i < newP.Length {
      newP[i] := oldP[i - shift];
    }
    forall i | 0 <= i < inUseFront {
      newP[i] := oldP[i];
    }
  }

  /** Sets `n` bytes to zero, one after the other. */
  method Clear(a: array<Byte>, at: nat, n: nat)
    requires at + n <= a.Length
    modifies a
    ensures a[..at] == old(a[..at]) && a[at + n..] == old(a[at + n..])
    ensures forall k | at <= k < at + n :: a[k] == 0
  {
    var i := 0;
    while i < n
      invariant i <= n && a[..at] == old(a[..at]) && a[at + n..] == old(a[at + n..])
      invariant forall k | at <= k < at + i :: a[k] == 0
    {
      a[at + i] := 0;
      i := i + 1;
    }
  }

  lemma Cleared(was: seq<Byte>, now: seq<Byte>, at: nat, n: nat, scratch: nat)
    requires scratch <= at && at + n <= |now| == |was|
    requires now[..at] == was[..at] && now[at + n..] == was[at + n..]
    requires forall k | at <= k < at + n :: now[k] == 0
    ensures now[at..] == Zeros(n) + was[at..][n..] && now[..scratch] == was[..scratch]
  {
    assert was[at..][n..] == was[at + n..];
    forall k | at <= k < |now| ensures now[k] == (Zeros(n) + was[at + n..])[k - at] {
      if k >= at + n {
        assert now[k] == now[at + n..][k - at - n];
      }
    }
    assert now[..scratch] == now[..at][..scratch];
  }

  class VectorDownward {
    const initialSize: nat
    const bufferMinalign: nat
    var buf: array<Byte>
    var reserved: nat
    var size: nat
    /** Index of the first byte in use at the back, and of the first free byte behind the scratch stack. */
    var cur: nat
    var scratch: nat

    ghost predicate Valid()
      reads this
    {
      && IsAlign(bufferMinalign)
      && buf.Length == reserved
      && scratch <= cur <= reserved
      && size == reserved - cur
    }

    /** The buffer, lowest address first. */
    function Back(): (s: seq<Byte>)
      requires Valid()
      reads this, buf
      ensures |s| == size
    {
      buf[cur..]
    }

    /** The scratch stack, oldest byte first. */
    function Front(): (s: seq<Byte>)
      requires Valid()
      reads this, buf
      ensures |s| == scratch
    {
      buf[..scratch]
    }

    constructor (initialSize: nat, bufferMinalign: nat)
      requires IsAlign(bufferMinalign)
      ensures Valid() && fresh(buf)
      ensures Back() == [] && Front() == []
    {
      this.initialSize := initialSize;
      this.bufferMinalign := bufferMinalign;
      buf := new Byte[0];
      reserved := 0;
      size := 0;
      cur := 0;
      scratch := 0;
    }

    /** The size of the array to move to when `len` more bytes are needed. */
    function LargerCapacity(len: nat): (n: nat)
      requires Valid()
      reads this
      ensures n >= reserved + len && Rem(n, bufferMinalign) == 0
    {
      var n := reserved + Max(len, if reserved != 0 then reserved / 2 else initialSize);
      n + PaddingBytes(n, bufferMinalign)
    }

    /** Moves to a larger array with at least `len` more bytes between the two stacks. */
    method Reallocate(len: nat)
      requires Valid() && len > 0
      modifies this
      ensures Valid() && fresh(buf)
      ensures Back() == old(Back()) && Front() == old(Front())
      ensures cur - scratch >= old(cur - scratch) + len
      ensures Rem(reserved, bufferMinalign) == 0
    {
      var oldBuf, n := buf, LargerCapacity(len);
      hide LargerCapacity;
      hide IsAlign;
      hide Rem;
      var newBuf := new Byte[n];
      MemcpyDownward(oldBuf, newBuf, size, scratch);
      reserved := n;
      buf := newBuf;
      cur := reserved - size;
    }

    /** The buffer must not have grown to the largest supported size before. */
    method EnsureSpace(len: nat)
      requires Valid() && size < MAX_BUFFER_SIZE
      modifies this
      ensures Valid() && (buf == old(buf) || fresh(buf))
      ensures Back() == old(Back()) && Front() == old(Front())
      ensures cur - scratch >= len
    {
      if len > cur - scratch {
        Reallocate(len);
      }
    }

    /** Makes `len` bytes part of the buffer; what they are is not said. */
    method MakeSpace(len: nat)
      requires Valid() && size < MAX_BUFFER_SIZE && size + len < 0x1_0000_0000
      modifies this
      ensures Valid() && (buf == old(buf) || fresh(buf))
      ensures size == old(size) + len
      ensures Back()[len..] == old(Back()) && Front() == old(Front())
    {
      if len != 0 {
        EnsureSpace(len);
        cur := cur - len;
        size := size + len;
      }
    }

    method Push(bytes: seq<Byte>)
      requires Valid() && size < MAX_BUFFER_SIZE && size + |bytes| < 0x1_0000_0000
      modifies this, buf
      ensures Valid() && (buf == old(buf) || fresh(buf))
      ensures Back() == bytes + old(Back()) && Front() == old(Front())
    {
      ghost var back := Back();
      if |bytes| > 0 {
        MakeSpace(|bytes|);
        CopyTo(cur, bytes);
      }
      assert Back()[|bytes|..] == back;
    }

    /** `memcpy` into the array. */
    method CopyTo(at: nat, bytes: seq<Byte>)
      requires Valid() && at + |bytes| <= buf.Length
      modifies buf
      ensures buf[..] == WriteAt(old(buf[..]), at, bytes)
    {
      ghost var was := buf[..];
      forall i | 0 <= i < |bytes| {
        buf[at + i] := bytes[i];
      }
      assert buf[..at] == was[..at] && buf[at..at + |bytes|] == bytes;
      assert buf[at + |bytes|..] == was[at + |bytes|..];
      assert buf[..] == buf[..at] + buf[at..at + |bytes|] + buf[at + |bytes|..];
    }

    method Fill(n: nat)
      requires Valid() && size < MAX_BUFFER_SIZE && size + n < 0x1_0000_0000
      modifies this, buf
      ensures Valid() && (buf == old(buf) || fresh(buf))
      ensures Back() == Zeros(n) + old(Back()) && Front() == old(Front())
    {
      hide IsAlign;
      ghost var back, front := Back(), Front();
      MakeSpace(n);
      ghost var was := buf[..];
      assert was[cur..][n..] == back && was[..scratch] == front;
      Clear(buf, cur, n);
      assert forall k | cur <= k < cur + n :: buf[..][k] == 0;
      hide Zeros;
      Cleared(was, buf[..], cur, n, scratch);
    }

    method Pop(n: nat)
      requires Valid() && n <= size
      modifies this
      ensures Valid() && buf == old(buf)
      ensures Back() == old(Back())[n..] && Front() == old(Front())
    {
      cur := cur + n;
      size := size - n;
    }

    method ScratchPush(bytes: seq<Byte>)
      requires Valid() && size < MAX_BUFFER_SIZE
      modifies this, buf
      ensures Valid() && (buf == old(buf) || fresh(buf))
      ensures Back() == old(Back()) && Front() == old(Front()) + bytes
    {
      ghost var back, front := Back(), Front();
      EnsureSpace(|bytes|);
      CopyTo(scratch, bytes);
      scratch := scratch + |bytes|;
      assert Back() == back;
      assert Front()[..|front|] == front && Front()[|front|..] == bytes;
    }

    method ScratchPop(n: nat)
      requires Valid() && n <= scratch
      modifies this
      ensures Valid() && buf == old(buf)
      ensures Back() == old(Back()) && scratch == old(scratch) - n
      ensures Front() == old(Front())[..scratch]
    {
      scratch := scratch - n;
    }

    method ClearScratch()
      requires Valid()
      modifies this
      ensures Valid() && buf == old(buf)
      ensures Back() == old(Back()) && Front() == []
    {
      scratch := 0;
    }

    /** The index of the byte `offset` bytes before the end, whatever the array was moved to since. */
    function DataAt(offset: nat): (i: nat)
      requires Valid() && offset <= size
      reads this, buf
      ensures cur <= i && i + offset == buf.Length
      ensures buf[i..] == Back()[size - offset..]
    {
      assert buf[cur..][size - offset..] == buf[reserved - offset..];
      reserved - offset
    }

    /** The `n` bytes at `DataAt(offset)`. */
    function BytesAt(offset: nat, n: nat): (s: seq<Byte>)
      requires Valid() && n <= offset <= size
      reads this, buf
      ensures s == Part(Back(), size - offset, n)
    {
      var i := DataAt(offset);
      assert buf[i..][..n] == buf[i..i + n];
      buf[i..i + n]
    }

    /**
      Whether at `offset` there is the length `n`, in two bytes, and then the same `n` bytes as at the front.
     */
    method StartsLike(offset: nat, n: nat) returns (same: bool)
      requires Valid() && 2 <= offset <= size && n <= size
      requires Val(Part(Back(), size - offset, 2)) == n ==> n <= offset
      ensures same <==>
        Val(Part(Back(), size - offset, 2)) == n && Part(Back(), size - offset, n) == Part(Back(), 0, n)
    {
      hide Part;
      hide Val;
      hide IsAlign;
      same := Val(BytesAt(offset, 2)) == n && BytesAt(offset, n) == BytesAt(size, n);
    }

    /** Overwrites part of the buffer. */
    method Overwrite(at: nat, bytes: seq<Byte>)
      requires Valid() && at + |bytes| <= size
      modifies buf
      ensures Valid()
      ensures Back() == WriteAt(old(Back()), at, bytes) && Front() == old(Front())
    {
      ghost var back, front, was := Back(), Front(), buf[..];
      CopyTo(cur + at, bytes);
      assert buf[..] == WriteAt(was, cur + at, bytes);
      assert Front() == front;
      assert was[cur..] == back;
      forall i | 0 <= i < |back| ensures Back()[i] == WriteAt(back, at, bytes)[i] {
        assert buf[cur + i] == buf[..][cur + i];
      }
    }
  }
}
