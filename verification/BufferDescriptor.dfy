/** The buffer descriptor: a window, the block, inside a byte buffer. Its counters are ULONGs and
    wrap around; the bounds are the caller's business. */
module BufferDescriptor {
  import opened Platform

  /** Where the block starts and how long it is, in a buffer of `size` bytes. */
  datatype Window = Window(offset: nat, blockSize: nat, size: nat) {
    predicate Ulongs() {
      offset < ULONG_RANGE && blockSize < ULONG_RANGE && size < ULONG_RANGE
    }

    /** The block lies inside the buffer. */
    predicate Inside() {
      Ulongs() && offset + blockSize <= size
    }

    function LeftSize(): nat {
      Ulong(size - offset - blockSize)
    }

    function ExpandLeft(n: nat): Window {
      this.(offset := Ulong(offset - n), blockSize := Ulong(blockSize + n))
    }

    function ExpandRight(n: nat): Window {
      this.(blockSize := Ulong(blockSize + n))
    }

    function ShrinkLeft(n: nat): Window {
      this.(blockSize := Ulong(blockSize - n))
    }

    function ShrinkRight(n: nat): Window {
      this.(offset := Ulong(offset + n), blockSize := Ulong(blockSize - n))
    }

    function Block(m: seq<Byte>): (r: seq<Byte>)
      requires Inside() && |m| == size
      ensures |r| == blockSize
    {
      m[offset..offset + blockSize]
    }
  }

  /** Expanding and shrinking undo each other in either order, even where the counters wrap. */
  lemma {:induction false} Undo(w: Window, n: nat)
    requires w.Ulongs()
    ensures w.ExpandLeft(n).ShrinkRight(n) == w == w.ShrinkRight(n).ExpandLeft(n)
    ensures w.ExpandRight(n).ShrinkLeft(n) == w == w.ShrinkLeft(n).ExpandRight(n)
  {
    hide Ulong;
    BackAndForth(w.offset, n);
    BackAndForth(w.blockSize, n);
  }

  lemma {:induction false} BackAndForth(x: nat, n: nat)
    requires x < ULONG_RANGE
    ensures Ulong(Ulong(x - n) + n) == x && Ulong(Ulong(x + n) - n) == x
  {
  }

  /** Which sizes keep the block inside: those that fit, and those so large that by wrapping around
      they act as the opposite operation with a size that fits. */
  lemma {:induction false} InsideAfterExpand(w: Window, n: nat)
    requires w.Inside() && n < ULONG_RANGE
    ensures w.ExpandLeft(n).Inside() <==> n <= w.offset || ULONG_RANGE - n <= w.blockSize
    ensures w.ExpandRight(n).Inside() <==> n <= w.LeftSize() || ULONG_RANGE - n <= w.blockSize
  {
    hide Ulong;
    WrapOnce(w.offset, n);
    WrapOnce(w.blockSize, n);
    PartsFill(w);
  }

  lemma {:induction false} InsideAfterShrink(w: Window, n: nat)
    requires w.Inside() && n < ULONG_RANGE
    ensures w.ShrinkLeft(n).Inside() <==> n <= w.blockSize || ULONG_RANGE - n <= w.LeftSize()
    ensures w.ShrinkRight(n).Inside() <==> n <= w.blockSize || ULONG_RANGE - n <= w.offset
  {
    hide Ulong;
    WrapOnce(w.offset, n);
    WrapOnce(w.blockSize, n);
    PartsFill(w);
  }

  lemma {:induction false} WrapOnce(x: nat, n: nat)
    requires x < ULONG_RANGE && n < ULONG_RANGE
    ensures Ulong(x + n) == if x + n < ULONG_RANGE then x + n else x + n - ULONG_RANGE
    ensures Ulong(x - n) == if n <= x then x - n else x - n + ULONG_RANGE
  {
  }

  /** The three parts of the buffer, while the block is inside. */
  lemma {:induction false} PartsFill(w: Window)
    requires w.Inside()
    ensures w.offset + w.blockSize + w.LeftSize() == w.size
  {
  }

  /** Shrinking takes bytes off one end of the block: the left ones stay, or the right ones. */
  lemma {:induction false} ShrinkTakes(w: Window, m: seq<Byte>, n: nat)
    requires w.Inside() && |m| == w.size && n <= w.blockSize
    ensures w.ShrinkLeft(n).Inside() && w.ShrinkLeft(n).Block(m) == w.Block(m)[..w.blockSize - n]
    ensures w.ShrinkRight(n).Inside() && w.ShrinkRight(n).Block(m) == w.Block(m)[n..]
  {
  }

  /** Expanding to the left takes in what lies in the buffer before the block. */
  lemma {:induction false} ExpandLeftTakes(w: Window, m: seq<Byte>, n: nat)
    requires w.Inside() && |m| == w.size && n <= w.offset
    ensures w.ExpandLeft(n).Inside() && w.ExpandLeft(n).Block(m) == m[w.offset - n..w.offset] + w.Block(m)
  {
  }

  lemma {:induction false} ExpandRightTakes(w: Window, m: seq<Byte>, n: nat)
    requires w.Inside() && |m| == w.size && n <= w.LeftSize()
    ensures w.ExpandRight(n).Inside()
    ensures w.ExpandRight(n).Block(m) == w.Block(m) + m[w.offset + w.blockSize..w.offset + w.blockSize + n]
  {
  }

  class Descriptor {
    var owner: bool
    var buffer: array?<Byte>
    var bufferSize: nat
    var offset: nat
    var blockSize: nat
    var refCount: nat

    function View(): Window
      reads this
    {
      Window(offset, blockSize, bufferSize)
    }

    /** The block lies inside a buffer of the size said. */
    ghost predicate Valid()
      reads this
    {
      buffer != null && buffer.Length == bufferSize && View().Inside()
    }

    ghost function Block(): seq<Byte>
      requires Valid()
      reads this, buffer
    {
      View().Block(buffer[..])
    }

    constructor ()
      ensures !owner && buffer == null && View() == Window(0, 0, 0) && refCount == 0
    {
      owner, buffer, bufferSize, offset, blockSize, refCount := false, null, 0, 0, 0, 0;
    }

    /** The old buffer is handed back to be freed when it was owned. */
    method AttachBlock(owned: bool, b: array?<Byte>, size: nat, o: nat, n: nat) returns (toFree: array?<Byte>)
      modifies this
      ensures toFree == if old(owner) then old(buffer) else null
      ensures owner == owned && buffer == b && View() == Window(o, n, size) && refCount == old(refCount)
    {
      toFree := null;
      if owner && buffer != null {
        toFree := buffer;
        buffer := null;
      }
      owner, buffer, bufferSize, offset, blockSize := owned, b, size, o, n;
    }

    method ExpandLeft(n: nat)
      modifies `offset, `blockSize
      ensures View() == old(View()).ExpandLeft(n)
    {
      offset := Ulong(offset - n);
      blockSize := Ulong(blockSize + n);
    }

    method ExpandRight(n: nat)
      modifies `blockSize
      ensures View() == old(View()).ExpandRight(n)
    {
      blockSize := Ulong(blockSize + n);
    }

    method ShrinkLeft(n: nat)
      modifies `blockSize
      ensures View() == old(View()).ShrinkLeft(n)
    {
      blockSize := Ulong(blockSize - n);
    }

    method ShrinkRight(n: nat)
      modifies `offset, `blockSize
      ensures View() == old(View()).ShrinkRight(n)
    {
      offset := Ulong(offset + n);
      blockSize := Ulong(blockSize - n);
    }

    method IncRefCount(n: nat)
      modifies `refCount
      ensures refCount == Ulong(old(refCount) + n)
    {
      refCount := Ulong(refCount + n);
    }

    method DecRefCount(n: nat)
      modifies `refCount
      ensures refCount == Ulong(old(refCount) - n)
    {
      refCount := Ulong(refCount - n);
    }

    method AppendChar(c: Byte)
      requires Valid() && View().LeftSize() >= 1
      modifies this, buffer
      ensures Valid() && buffer == old(buffer) && View() == old(View()).ExpandRight(1)
      ensures Block() == old(Block()) + [c]
      ensures buffer[..] == old(buffer[..])[old(offset + blockSize) := c]
    {
      var endBlock := offset + blockSize;
      buffer[endBlock] := c;
      blockSize := Ulong(blockSize + 1);
    }

    /** The data comes to stand behind the block; no byte but those it takes changes. */
    method AppendData(data: seq<Byte>)
      requires Valid() && |data| <= View().LeftSize()
      modifies this, buffer
      ensures Valid() && buffer == old(buffer) && View() == old(View()).ExpandRight(|data|)
      ensures Block() == old(Block()) + data
      ensures forall a :: 0 <= a < buffer.Length && !(old(offset + blockSize) <= a < offset + blockSize) ==>
                buffer[a] == old(buffer[a])
    {
      var endBlock := offset + blockSize;
      blockSize := Ulong(blockSize + |data|);
      forall a | endBlock <= a < endBlock + |data| {
        buffer[a] := data[a - endBlock];
      }
    }
  }
}
