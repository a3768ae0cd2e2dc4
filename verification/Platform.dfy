/** The machine the C code is compiled for: a 32-bit platform, where a pointer fits a ULONG and a
    plain char is a signed byte. */
module Platform {
  const ULONG_BYTES: nat := 4
  const ULONG_RANGE: nat := 0x1_0000_0000
  const USHORT_RANGE: nat := 0x1_0000

  /** The result of ULONG arithmetic. */
  function Ulong(x: int): (r: nat)
    ensures r < ULONG_RANGE
    ensures 0 <= x < ULONG_RANGE ==> r == x
  {
    x % ULONG_RANGE
  }

  /** A number stored into a char. */
  function Char(x: int): (r: int)
    ensures -128 <= r < 128
    ensures -128 <= x < 128 ==> r == x
  {
    (x + 128) % 256 - 128
  }

  /** A USHORT counting up and down. */
  lemma {:induction false} DepthUp(n: nat)
    ensures (n % USHORT_RANGE + 1) % USHORT_RANGE == (n + 1) % USHORT_RANGE
  {
  }

  lemma {:induction false} DepthDown(n: nat)
    requires n > 0
    ensures (n % USHORT_RANGE + USHORT_RANGE - 1) % USHORT_RANGE == (n - 1) % USHORT_RANGE
  {
  }

  type Byte = b: nat | b < 256

  /** A number as it lies in memory; either the low or the high byte comes first. */
  function Encode(x: nat, n: nat, little: bool): (r: seq<Byte>)
    ensures |r| == n
  {
    if n == 0 then []
    else
      var low: nat := x % 256;
      if little then [low] + Encode(x / 256, n - 1, little) else Encode(x / 256, n - 1, little) + [low]
  }

  function Decode(b: seq<Byte>, little: bool): nat {
    if b == [] then 0
    else
      var low: nat := if little then b[0] else b[|b| - 1];
      low + 256 * Decode(if little then b[1..] else b[..|b| - 1], little)
  }

  function Power(n: nat): nat {
    if n == 0 then 1 else 256 * Power(n - 1)
  }

  lemma {:induction false} DecodeEncode(x: nat, n: nat, little: bool)
    requires x < Power(n)
    ensures Decode(Encode(x, n, little), little) == x
  {
    if n > 0 {
      var rest := Encode(x / 256, n - 1, little);
      DecodeEncode(x / 256, n - 1, little);
      var all := Encode(x, n, little);
      assert (if little then all[1..] else all[..|all| - 1]) == rest;
    }
  }

  lemma {:induction false} EncodeDecode(b: seq<Byte>, little: bool)
    ensures Decode(b, little) < Power(|b|) && Encode(Decode(b, little), |b|, little) == b
  {
    if b != [] {
      var rest := if little then b[1..] else b[..|b| - 1];
      var low := if little then b[0] else b[|b| - 1];
      EncodeDecode(rest, little);
      LowestByte(low, Decode(rest, little), Power(|rest|));
      assert Decode(b, little) / 256 == Decode(rest, little);
      assert b == if little then [low] + rest else rest + [low];
    }
  }

  lemma {:induction false} LowestByte(low: Byte, high: nat, bound: nat)
    requires high < bound
    ensures var x: nat := low;
            (x + 256 * high) % 256 == x && (x + 256 * high) / 256 == high && x + 256 * high < 256 * bound
  {
  }

  lemma {:induction false} Powers()
    ensures Power(0) == 1 && Power(1) == 256 && Power(2) == USHORT_RANGE && Power(4) == ULONG_RANGE
  {
    assert Power(3) == 256 * Power(2) == 256 * 256 * Power(1);
  }

  /** A ULONG as the allocators store it: the platform's own order is low byte first. */
  function UlongBytes(x: nat): (r: seq<Byte>)
    requires x < ULONG_RANGE
    ensures |r| == ULONG_BYTES
  {
    Encode(x, ULONG_BYTES, true)
  }

  function UlongOf(b: seq<Byte>): (r: nat)
    requires |b| >= ULONG_BYTES
    ensures r < ULONG_RANGE
  {
    Powers();
    EncodeDecode(b[..ULONG_BYTES], true);
    Decode(b[..ULONG_BYTES], true)
  }

  lemma {:induction false} UlongRoundTrip(x: nat, rest: seq<Byte>)
    requires x < ULONG_RANGE
    ensures UlongOf(UlongBytes(x) + rest) == x
  {
    Powers();
    DecodeEncode(x, ULONG_BYTES, true);
    assert (UlongBytes(x) + rest)[..ULONG_BYTES] == UlongBytes(x);
  }

  function Zeros(n: nat): (r: seq<Byte>)
    ensures |r| == n && forall i :: 0 <= i < n ==> r[i] == 0
  {
    seq(n, _ => 0)
  }
}
