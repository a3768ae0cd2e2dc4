/** A block of the recording allocator: its size, head guard, payload and tail guard. The guards are
    looked at when the block is freed. */
module GuardedBlock {
  import opened Platform

  const HEAD_SIZE: nat := 8
  const TAIL_SIZE: nat := 32
  const HEAD_BYTE: Byte := 0x5C
  const TAIL_BYTE: Byte := 0x7A

  const PAYLOAD: nat := ULONG_BYTES + HEAD_SIZE

  function FullSize(size: nat): nat {
    size + ULONG_BYTES + HEAD_SIZE + TAIL_SIZE
  }

  function Guard(b: Byte, n: nat): (r: seq<Byte>)
    ensures |r| == n && forall i :: 0 <= i < n ==> r[i] == b
  {
    seq(n, _ => b)
  }

  /** A block that holds a payload and is otherwise as it was made. */
  function Intact(payload: seq<Byte>): (r: seq<Byte>)
    requires |payload| < ULONG_RANGE
    ensures |r| == FullSize(|payload|)
  {
    UlongBytes(|payload|) + Guard(HEAD_BYTE, HEAD_SIZE) + payload + Guard(TAIL_BYTE, TAIL_SIZE)
  }

  /** The four parts lie one after the other and leave no byte over: a block is intact exactly when
      its size and both guards are, whatever the payload. */
  lemma {:induction false} IntactParts(m: seq<Byte>, size: nat)
    requires |m| == FullSize(size) && size < ULONG_RANGE
    ensures m == Intact(m[PAYLOAD..PAYLOAD + size]) <==>
            m[..ULONG_BYTES] == UlongBytes(size) && HeadGood(m) && TailGood(m, size)
  {
    var payload := m[PAYLOAD..PAYLOAD + size];
    var whole := Intact(payload);
    assert whole[..ULONG_BYTES] == UlongBytes(size);
    assert whole[ULONG_BYTES..PAYLOAD] == Guard(HEAD_BYTE, HEAD_SIZE);
    assert whole[PAYLOAD + size..] == Guard(TAIL_BYTE, TAIL_SIZE);
    GuardedSlices(whole, size);
    if m[..ULONG_BYTES] == UlongBytes(size) && HeadGood(m) && TailGood(m, size) {
      assert m[ULONG_BYTES..PAYLOAD] == Guard(HEAD_BYTE, HEAD_SIZE);
      assert m[PAYLOAD + size..] == Guard(TAIL_BYTE, TAIL_SIZE);
      assert m == m[..ULONG_BYTES] + m[ULONG_BYTES..PAYLOAD] + payload + m[PAYLOAD + size..];
    }
  }

  lemma {:induction false} GuardedSlices(m: seq<Byte>, size: nat)
    requires |m| == FullSize(size)
    requires m[ULONG_BYTES..PAYLOAD] == Guard(HEAD_BYTE, HEAD_SIZE)
    requires m[PAYLOAD + size..] == Guard(TAIL_BYTE, TAIL_SIZE)
    ensures HeadGood(m) && TailGood(m, size)
  {
    forall a | ULONG_BYTES <= a < PAYLOAD
      ensures m[a] == HEAD_BYTE
    {
      assert m[ULONG_BYTES..PAYLOAD][a - ULONG_BYTES] == m[a];
    }
    forall a | PAYLOAD + size <= a < |m|
      ensures m[a] == TAIL_BYTE
    {
      assert m[PAYLOAD + size..][a - (PAYLOAD + size)] == m[a];
    }
  }

  /** The 8 bytes behind the size. */
  predicate HeadGood(m: seq<Byte>)
    requires |m| >= PAYLOAD
  {
    forall a :: 4 <= a < 12 ==> m[a] == 0x5C
  }

  /** The bytes taken for the tail guard when the size in front reads `size`. */
  predicate TailGood(m: seq<Byte>, size: nat)
    requires FullSize(size) <= |m|
  {
    forall a :: 12 + size <= a < 12 + size + 32 ==> m[a] == 0x7A
  }

  /** Clearing, size and guards, as the allocation writes them; the block is what malloc gave. */
  method Prepare(block: array<Byte>, size: nat)
    requires size < ULONG_RANGE && block.Length == FullSize(size)
    modifies block
    ensures block[..] == Intact(Zeros(size))
  {
    forall a | 0 <= a < block.Length {
      block[a] := 0;
    }
    forall a | 0 <= a < ULONG_BYTES {
      block[a] := UlongBytes(size)[a];
    }
    for i := 0 to HEAD_SIZE
      invariant block[..ULONG_BYTES] == UlongBytes(size)
      invariant forall a :: ULONG_BYTES <= a < ULONG_BYTES + i ==> block[a] == HEAD_BYTE
      invariant forall a :: PAYLOAD <= a < block.Length ==> block[a] == 0
    {
      block[ULONG_BYTES + i] := HEAD_BYTE;
    }
    for i := 0 to TAIL_SIZE
      invariant block[..ULONG_BYTES] == UlongBytes(size)
      invariant forall a :: ULONG_BYTES <= a < PAYLOAD ==> block[a] == HEAD_BYTE
      invariant forall a :: PAYLOAD <= a < PAYLOAD + size ==> block[a] == 0
      invariant forall a :: PAYLOAD + size <= a < PAYLOAD + size + i ==> block[a] == TAIL_BYTE
    {
      block[PAYLOAD + size + i] := TAIL_BYTE;
    }
    assert block[..][PAYLOAD..PAYLOAD + size] == Zeros(size);
    assert block[..][..ULONG_BYTES] == block[..ULONG_BYTES];
    IntactParts(block[..], size);
  }

  /** The two loops of a free; the size is read from the block. */
  method Inspect(block: array<Byte>) returns (headCorrupted: bool, tailCorrupted: bool)
    requires block.Length >= ULONG_BYTES && FullSize(UlongOf(block[..ULONG_BYTES])) <= block.Length
    ensures headCorrupted <==> !HeadGood(block[..])
    ensures tailCorrupted <==> !TailGood(block[..], UlongOf(block[..ULONG_BYTES]))
  {
    var size := UlongOf(block[..ULONG_BYTES]);
    headCorrupted, tailCorrupted := false, false;
    for i := 0 to TAIL_SIZE
      invariant !tailCorrupted
      invariant forall a :: PAYLOAD + size <= a < PAYLOAD + size + i ==> block[a] == TAIL_BYTE
    {
      if block[PAYLOAD + size + i] != TAIL_BYTE {
        tailCorrupted := true;
        break;
      }
    }
    for i := 0 to HEAD_SIZE
      invariant !headCorrupted
      invariant forall a :: ULONG_BYTES <= a < ULONG_BYTES + i ==> block[a] == HEAD_BYTE
    {
      if block[ULONG_BYTES + i] != HEAD_BYTE {
        headCorrupted := true;
        break;
      }
    }
  }

  /** While the size in front is untouched, a free reports a block exactly when some guard byte has
      changed since it was made; a client that writes only its payload is never reported, nor is
      what it wrote disturbed. */
  lemma {:induction false} ReportedIff(was: seq<Byte>, now: seq<Byte>, size: nat)
    requires size < ULONG_RANGE && |was| == |now| == FullSize(size)
    requires was == Intact(was[PAYLOAD..PAYLOAD + size]) && now[..ULONG_BYTES] == was[..ULONG_BYTES]
    ensures UlongOf(now[..ULONG_BYTES]) == size
    ensures !HeadGood(now) || !TailGood(now, size) <==>
            exists a :: ULONG_BYTES <= a < |now| && !(PAYLOAD <= a < PAYLOAD + size) && now[a] != was[a]
  {
    IntactParts(was, size);
    UlongRoundTrip(size, []);
    assert UlongBytes(size) + [] == UlongBytes(size);
  }

  /** When the size in front has changed, the loops look elsewhere and may miss a changed guard. */
  lemma {:induction false} DamagedSizeHides(payload: seq<Byte>)
    requires TAIL_SIZE <= |payload| < ULONG_RANGE && forall i :: 0 <= i < TAIL_SIZE ==> payload[i] == TAIL_BYTE
    ensures var now := UlongBytes(0) + Guard(HEAD_BYTE, HEAD_SIZE) + payload + Guard(0, TAIL_SIZE);
            UlongOf(now[..ULONG_BYTES]) == 0 && HeadGood(now) && TailGood(now, 0) && !TailGood(now, |payload|)
  {
    var now := UlongBytes(0) + Guard(HEAD_BYTE, HEAD_SIZE) + payload + Guard(0, TAIL_SIZE);
    UlongRoundTrip(0, []);
    assert now[..ULONG_BYTES] == UlongBytes(0) == UlongBytes(0) + [];
    assert now[PAYLOAD + |payload|] == 0;
  }
}
