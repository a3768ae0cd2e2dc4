/** Reading and writing 16- and 32-bit numbers at any address, on a machine of either byte order
    that allows halfword access at even addresses and word access at multiples of 4 only. */
module WordAccess {
  import opened Platform

  // ----- what the machine offers -----

  function ByteAt(m: seq<Byte>, a: nat): nat
    requires a < |m|
  {
    m[a]
  }

  function HalfAt(m: seq<Byte>, a: nat, little: bool): nat
    requires a + 2 <= |m| && a % 2 == 0
  {
    Decode(m[a..a + 2], little)
  }

  function WordAt(m: seq<Byte>, a: nat, little: bool): nat
    requires a + 4 <= |m| && a % 4 == 0
  {
    Decode(m[a..a + 4], little)
  }

  /** The memory with some bytes stored in it. */
  function Stored(m: seq<Byte>, a: nat, b: seq<Byte>): (r: seq<Byte>)
    requires a + |b| <= |m|
    ensures |r| == |m|
  {
    m[..a] + b + m[a + |b|..]
  }

  method PutBytes(mem: array<Byte>, a: nat, b: seq<Byte>)
    requires a + |b| <= mem.Length
    modifies mem
    ensures mem[..] == Stored(old(mem[..]), a, b)
  {
    forall i | a <= i < a + |b| {
      mem[i] := b[i - a];
    }
  }

  method PutByte(mem: array<Byte>, a: nat, x: nat)
    requires a < mem.Length
    modifies mem
    ensures mem[..] == Stored(old(mem[..]), a, Encode(x, 1, true))
  {
    PutBytes(mem, a, Encode(x, 1, true));
  }

  method PutHalf(mem: array<Byte>, a: nat, x: nat, little: bool)
    requires a + 2 <= mem.Length && a % 2 == 0
    modifies mem
    ensures mem[..] == Stored(old(mem[..]), a, Encode(x, 2, little))
  {
    PutBytes(mem, a, Encode(x, 2, little));
  }

  method PutWord(mem: array<Byte>, a: nat, x: nat, little: bool)
    requires a + 4 <= mem.Length && a % 4 == 0
    modifies mem
    ensures mem[..] == Stored(old(mem[..]), a, Encode(x, 4, little))
  {
    PutBytes(mem, a, Encode(x, 4, little));
  }

  // ----- reading -----

  lemma {:induction false} DecodeOne(b: seq<Byte>, little: bool)
    requires |b| == 1
    ensures Decode(b, little) == ByteAt(b, 0)
  {
    assert b[1..] == [] && b[..0] == [];
  }

  lemma {:induction false} DecodeTwo(b: seq<Byte>, little: bool)
    requires |b| == 2
    ensures Decode(b, little) == if little then ByteAt(b, 0) + 256 * ByteAt(b, 1) else 256 * ByteAt(b, 0) + ByteAt(b, 1)
  {
    var one := if little then b[1..] else b[..1];
    assert one == [if little then b[1] else b[0]];
    DecodeOne(one, little);
  }

  lemma {:induction false} DecodeFour(b: seq<Byte>, little: bool)
    requires |b| == 4
    ensures Decode(b, little) == if little then Decode(b[..2], little) + 65536 * Decode(b[2..], little)
                                 else 65536 * Decode(b[..2], little) + Decode(b[2..], little)
  {
    if little {
      assert b[1..][1..] == b[2..];
      DecodeTwo(b[..2], little);
    } else {
      assert b[..3][..2] == b[..2];
      DecodeTwo(b[2..], little);
    }
  }

  function ReadUshort(m: seq<Byte>, a: nat, little: bool): nat
    requires a + 2 <= |m|
  {
    if a % 2 == 1 then
      if little then ByteAt(m, a) + 256 * ByteAt(m, a + 1) else 256 * ByteAt(m, a) + ByteAt(m, a + 1)
    else HalfAt(m, a, little)
  }

  function ReadUlongAtOdd(m: seq<Byte>, a: nat, little: bool): nat
    requires a + 4 <= |m| && a % 2 == 1
  {
    var b0, half, b3 := ByteAt(m, a), HalfAt(m, a + 1, little), ByteAt(m, a + 3);
    if little then b0 + 256 * half + 16777216 * b3 else 16777216 * b0 + 256 * half + b3
  }

  function ReadUlongAtEven(m: seq<Byte>, a: nat, little: bool): nat
    requires a + 4 <= |m| && a % 2 == 0
  {
    var first, second := HalfAt(m, a, little), HalfAt(m, a + 2, little);
    if little then first + 65536 * second else 65536 * first + second
  }

  function ReadUlong(m: seq<Byte>, a: nat, little: bool): nat
    requires a + 4 <= |m|
  {
    if a % 2 == 1 then ReadUlongAtOdd(m, a, little)
    else if a % 4 != 0 then ReadUlongAtEven(m, a, little)
    else WordAt(m, a, little)
  }

  /** Whatever the address, the number read is the one the bytes there encode. */
  lemma {:induction false} ReadsAreDecodings(m: seq<Byte>, a: nat, little: bool)
    ensures a + 2 <= |m| ==> ReadUshort(m, a, little) == Decode(m[a..a + 2], little)
    ensures a + 4 <= |m| ==> ReadUlong(m, a, little) == Decode(m[a..a + 4], little)
  {
    hide Decode;
    if a + 2 <= |m| {
      DecodeTwo(m[a..a + 2], little);
    }
    if a + 4 <= |m| {
      FourPieces(m, a, little);
    }
  }

  lemma {:induction false} FourPieces(m: seq<Byte>, a: nat, little: bool)
    requires a + 4 <= |m|
    ensures Decode(m[a..a + 4], little) ==
            if little then Decode(m[a..a + 2], little) + 65536 * Decode(m[a + 2..a + 4], little)
            else 65536 * Decode(m[a..a + 2], little) + Decode(m[a + 2..a + 4], little)
    ensures Decode(m[a..a + 4], little) ==
            if little then ByteAt(m, a) + 256 * Decode(m[a + 1..a + 3], little) + 16777216 * ByteAt(m, a + 3)
            else 16777216 * ByteAt(m, a) + 256 * Decode(m[a + 1..a + 3], little) + ByteAt(m, a + 3)
  {
    hide Decode;
    var b := m[a..a + 4];
    assert b[..2] == m[a..a + 2] && b[2..] == m[a + 2..a + 4];
    DecodeFour(b, little);
    DecodeTwo(m[a..a + 2], little);
    DecodeTwo(m[a + 1..a + 3], little);
    DecodeTwo(m[a + 2..a + 4], little);
  }

  // ----- writing -----

  lemma {:induction false} EncodePieces(x: nat, little: bool)
    ensures Encode(x, 2, little) == if little then Encode(x, 1, true) + Encode(x / 256, 1, true)
                                    else Encode(x / 256, 1, true) + Encode(x, 1, true)
    ensures Encode(x, 4, little) == if little then Encode(x, 2, little) + Encode(x / 65536, 2, little)
                                    else Encode(x / 65536, 2, little) + Encode(x, 2, little)
    ensures Encode(x, 4, little) ==
            if little then Encode(x, 1, true) + Encode(x / 256, 2, little) + Encode(x / 16777216, 1, true)
            else Encode(x / 16777216, 1, true) + Encode(x / 256, 2, little) + Encode(x, 1, true)
  {
    assert x / 256 / 256 == x / 65536 && x / 256 / 256 / 256 == x / 16777216;
  }

  lemma {:induction false} StoredTwice(m: seq<Byte>, a: nat, b: seq<Byte>, c: seq<Byte>)
    requires a + |b| + |c| <= |m|
    ensures Stored(Stored(m, a, b), a + |b|, c) == Stored(m, a, b + c)
  {
  }

  method WriteUshort(mem: array<Byte>, a: nat, x: nat, little: bool)
    requires a + 2 <= mem.Length && x < USHORT_RANGE
    modifies mem
    ensures mem[..] == Stored(old(mem[..]), a, Encode(x, 2, little))
  {
    hide *;
    ghost var m := mem[..];
    EncodePieces(x, little);
    if a % 2 == 1 {
      if little {
        PutByte(mem, a, x);
        PutByte(mem, a + 1, x / 256);
        StoredTwice(m, a, Encode(x, 1, true), Encode(x / 256, 1, true));
      } else {
        PutByte(mem, a, x / 256);
        PutByte(mem, a + 1, x);
        StoredTwice(m, a, Encode(x / 256, 1, true), Encode(x, 1, true));
      }
    } else {
      PutHalf(mem, a, x, little);
    }
  }

  /** The three stores at an odd address. */
  method PutThree(mem: array<Byte>, a: nat, first: nat, middle: nat, last: nat, little: bool)
    requires a + 4 <= mem.Length && a % 2 == 1
    modifies mem
    ensures mem[..] == Stored(old(mem[..]), a,
                              Encode(first, 1, true) + Encode(middle, 2, little) + Encode(last, 1, true))
  {
    hide *;
    ghost var m, b := mem[..], Encode(first, 1, true);
    PutByte(mem, a, first);
    PutHalf(mem, a + 1, middle, little);
    StoredTwice(m, a, b, Encode(middle, 2, little));
    PutByte(mem, a + 3, last);
    StoredTwice(m, a, b + Encode(middle, 2, little), Encode(last, 1, true));
  }

  /** The two stores at an even address. */
  method PutTwo(mem: array<Byte>, a: nat, first: nat, last: nat, little: bool)
    requires a + 4 <= mem.Length && a % 2 == 0
    modifies mem
    ensures mem[..] == Stored(old(mem[..]), a, Encode(first, 2, little) + Encode(last, 2, little))
  {
    hide *;
    ghost var m := mem[..];
    PutHalf(mem, a, first, little);
    PutHalf(mem, a + 2, last, little);
    StoredTwice(m, a, Encode(first, 2, little), Encode(last, 2, little));
  }

  method WriteUlong(mem: array<Byte>, a: nat, x: nat, little: bool)
    requires a + 4 <= mem.Length && x < ULONG_RANGE
    modifies mem
    ensures mem[..] == Stored(old(mem[..]), a, Encode(x, 4, little))
  {
    hide *;
    EncodePieces(x, little);
    if a % 2 == 1 {
      if little {
        PutThree(mem, a, x, x / 256, x / 16777216, little);
      } else {
        PutThree(mem, a, x / 16777216, x / 256, x, little);
      }
    } else if a % 4 != 0 {
      if little {
        PutTwo(mem, a, x, x / 65536, little);
      } else {
        PutTwo(mem, a, x / 65536, x, little);
      }
    } else {
      PutWord(mem, a, x, little);
    }
  }

  // ----- reading and writing together -----

  lemma {:induction false} StoredThere(m: seq<Byte>, a: nat, b: seq<Byte>)
    requires a + |b| <= |m|
    ensures Stored(m, a, b)[a..a + |b|] == b
  {
  }

  /** What was written is read back, at any address and in either byte order. */
  lemma {:induction false} ReadAfterWrite(m: seq<Byte>, a: nat, x: nat, little: bool)
    ensures a + 4 <= |m| && x < ULONG_RANGE ==> ReadUlong(Stored(m, a, Encode(x, 4, little)), a, little) == x
    ensures a + 2 <= |m| && x < USHORT_RANGE ==> ReadUshort(Stored(m, a, Encode(x, 2, little)), a, little) == x
  {
    hide Decode, Encode, Stored, ReadUlong, ReadUshort, Power;
    Powers();
    if a + 4 <= |m| && x < ULONG_RANGE {
      ReadsAreDecodings(Stored(m, a, Encode(x, 4, little)), a, little);
      StoredThere(m, a, Encode(x, 4, little));
      DecodeEncode(x, 4, little);
    }
    if a + 2 <= |m| && x < USHORT_RANGE {
      ReadsAreDecodings(Stored(m, a, Encode(x, 2, little)), a, little);
      StoredThere(m, a, Encode(x, 2, little));
      DecodeEncode(x, 2, little);
    }
  }

  /** Writing back what was read changes nothing, so memory holds no more than the numbers show. */
  lemma {:induction false} WriteAfterRead(m: seq<Byte>, a: nat, little: bool)
    requires a + 4 <= |m|
    ensures ReadUlong(m, a, little) < ULONG_RANGE
    ensures Stored(m, a, Encode(ReadUlong(m, a, little), 4, little)) == m
  {
    Powers();
    ReadsAreDecodings(m, a, little);
    EncodeDecode(m[a..a + 4], little);
  }

  /** The halves of a number written as a word: which one lies first is the byte order. */
  lemma {:induction false} HalvesOfWord(m: seq<Byte>, a: nat, x: nat, little: bool)
    requires a + 4 <= |m| && x < ULONG_RANGE
    ensures var w := Stored(m, a, Encode(x, 4, little));
            ReadUshort(w, a, little) == (if little then x % USHORT_RANGE else x / USHORT_RANGE) &&
            ReadUshort(w, a + 2, little) == if little then x / USHORT_RANGE else x % USHORT_RANGE
  {
    var w := Stored(m, a, Encode(x, 4, little));
    ReadAfterWrite(m, a, x, little);
    HalvesOf(w, a, little);
  }

  lemma {:induction false} HalvesOf(w: seq<Byte>, a: nat, little: bool)
    requires a + 4 <= |w|
    ensures var x := ReadUlong(w, a, little);
            ReadUshort(w, a, little) == (if little then x % USHORT_RANGE else x / USHORT_RANGE) &&
            ReadUshort(w, a + 2, little) == if little then x / USHORT_RANGE else x % USHORT_RANGE
  {
    hide Decode, Encode, ReadUlong, ReadUshort, Power;
    ReadsAreDecodings(w, a, little);
    ReadsAreDecodings(w, a + 2, little);
    FourPieces(w, a, little);
    Powers();
    EncodeDecode(w[a..a + 2], little);
    EncodeDecode(w[a + 2..a + 4], little);
    var p, q := Decode(w[a..a + 2], little), Decode(w[a + 2..a + 4], little);
    if little {
      DivMod(p, q);
    } else {
      DivMod(q, p);
    }
  }

  lemma {:induction false} DivMod(low: nat, high: nat)
    requires low < USHORT_RANGE
    ensures (low + 65536 * high) % USHORT_RANGE == low && (low + 65536 * high) / USHORT_RANGE == high
  {
  }
}
