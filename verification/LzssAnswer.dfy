/**
 A stream decoded from the definition of a stream alone, so that the order of the bits in a
 byte, of the numbers in a token and of the bytes repeated does not rest on that definition.
 */
module LzssAnswer {
  import opened Lzss

  lemma Powers()
    ensures Pow2(0) == 1 && Pow2(1) == 2 && Pow2(2) == 4 && Pow2(3) == 8 && Pow2(4) == 16
    ensures Pow2(5) == 32 && Pow2(6) == 64 && Pow2(7) == 128 && Pow2(8) == 256
  {
  }

  lemma BitAt(b: Byte, i: nat)
    requires i < 8
    ensures ByteBits(b)[i] == (b / Pow2(7 - i) % 2 == 1)
  {
  }

  /** A byte from its most significant bit down. */
  lemma EightBits(b: Byte)
    ensures ByteBits(b) == [b / 128 % 2 == 1, b / 64 % 2 == 1, b / 32 % 2 == 1, b / 16 % 2 == 1,
                            b / 8 % 2 == 1, b / 4 % 2 == 1, b / 2 % 2 == 1, b % 2 == 1]
  {
    hide Pow2, ByteBits;
    Powers();
    BitAt(b, 0);
    BitAt(b, 1);
    BitAt(b, 2);
    BitAt(b, 3);
    BitAt(b, 4);
    BitAt(b, 5);
    BitAt(b, 6);
    BitAt(b, 7);
  }

  lemma OneMoreBit(bits: Bits, k: nat)
    requires 0 < k <= |bits|
    ensures Number(bits[..k]) == 2 * Number(bits[..k - 1]) + Bit(bits[k - 1])
  {
    assert bits[..k][..k - 1] == bits[..k - 1];
  }

  lemma NoBits(bits: Bits)
    ensures Number(bits[..0]) == 0 && bits[..|bits|] == bits
  {
  }

  lemma FourMoreBits(bits: Bits, k: nat)
    requires k + 4 <= |bits|
    ensures Number(bits[..k + 4])
         == 16 * Number(bits[..k]) + 8 * Bit(bits[k]) + 4 * Bit(bits[k + 1]) + 2 * Bit(bits[k + 2]) + Bit(bits[k + 3])
  {
    hide Number, Bit;
    OneMoreBit(bits, k + 1);
    OneMoreBit(bits, k + 2);
    OneMoreBit(bits, k + 3);
    OneMoreBit(bits, k + 4);
  }

  lemma FourBits(bits: Bits)
    requires |bits| == 4
    ensures Number(bits) == 8 * Bit(bits[0]) + 4 * Bit(bits[1]) + 2 * Bit(bits[2]) + Bit(bits[3])
  {
    hide Number, Bit;
    NoBits(bits);
    FourMoreBits(bits, 0);
  }

  lemma EightBitNumber(bits: Bits)
    requires |bits| == 8
    ensures Number(bits) == 16 * (8 * Bit(bits[0]) + 4 * Bit(bits[1]) + 2 * Bit(bits[2]) + Bit(bits[3]))
                            + 8 * Bit(bits[4]) + 4 * Bit(bits[5]) + 2 * Bit(bits[6]) + Bit(bits[7])
  {
    hide Number, Bit;
    NoBits(bits);
    FourMoreBits(bits, 0);
    FourMoreBits(bits, 4);
  }

  lemma LiteralToken(bits: Bits, out: seq<Byte>, p: Params)
    requires |bits| >= 9 && bits[0]
    ensures var b := 16 * (8 * Bit(bits[1]) + 4 * Bit(bits[2]) + 2 * Bit(bits[3]) + Bit(bits[4]))
                     + 8 * Bit(bits[5]) + 4 * Bit(bits[6]) + 2 * Bit(bits[7]) + Bit(bits[8]);
            Decode(bits, out, p) == Decode(bits[9..], out + [b], p)
  {
    hide Number, Decode, Bit;
    EightBitNumber(bits[1..9]);
    ReadOne(bits, out, p);
  }

  const A: Bits := [true, false, true, true, false, false, false, false, true]
  const B: Bits := [true, false, true, true, false, false, false, true, false]
  const C: Bits := [true, false, true, true, false, false, false, true, true]
  const BACK: Bits := [false, false, false, false, false, false, false, true, false, false, true, false, false]

  lemma ExampleBits()
    ensures BitsOf([0xB0, 0xD8, 0xAC, 0x60, 0x24]) == A + (B + (C + BACK))
  {
    hide ByteBits, BitsOf;
    var stream := [0xB0, 0xD8, 0xAC, 0x60, 0x24];
    BitsOfFirst(stream);
    BitsOfFirst([0xD8, 0xAC, 0x60, 0x24]);
    BitsOfFirst([0xAC, 0x60, 0x24]);
    BitsOfFirst([0x60, 0x24]);
    OneByte(0x24);
    assert stream[1..] == [0xD8, 0xAC, 0x60, 0x24] && [0xD8, 0xAC, 0x60, 0x24][1..] == [0xAC, 0x60, 0x24];
    assert [0xAC, 0x60, 0x24][1..] == [0x60, 0x24] && [0x60, 0x24][1..] == [0x24];
    FirstExampleBytes();
    LastExampleBytes();
    Regrouped();
  }

  lemma ByteIs(b: Byte, bits: Bits)
    requires |bits| == 8
    requires bits[0] == (b / 128 % 2 == 1) && bits[1] == (b / 64 % 2 == 1)
    requires bits[2] == (b / 32 % 2 == 1) && bits[3] == (b / 16 % 2 == 1)
    requires bits[4] == (b / 8 % 2 == 1) && bits[5] == (b / 4 % 2 == 1)
    requires bits[6] == (b / 2 % 2 == 1) && bits[7] == (b % 2 == 1)
    ensures ByteBits(b) == bits
  {
    hide ByteBits;
    EightBits(b);
  }

  lemma FirstExampleBytes()
    ensures ByteBits(0xB0) == A[..8] && ByteBits(0xD8) == A[8..] + B[..7]
  {
    hide ByteBits;
    ByteIs(0xB0, A[..8]);
    ByteIs(0xD8, A[8..] + B[..7]);
  }

  lemma LastExampleBytes()
    ensures ByteBits(0xAC) == B[7..] + C[..6] && ByteBits(0x60) == C[6..] + BACK[..5] && ByteBits(0x24) == BACK[5..]
  {
    hide ByteBits;
    ByteIs(0xAC, B[7..] + C[..6]);
    ByteIs(0x60, C[6..] + BACK[..5]);
    ByteIs(0x24, BACK[5..]);
  }

  lemma Regrouped()
    ensures A[..8] + ((A[8..] + B[..7]) + ((B[7..] + C[..6]) + ((C[6..] + BACK[..5]) + BACK[5..])))
         == A + (B + (C + BACK))
  {
    Cut(A, 8, B[..7] + ((B[7..] + C[..6]) + ((C[6..] + BACK[..5]) + BACK[5..])));
    Cut(B, 7, C[..6] + ((C[6..] + BACK[..5]) + BACK[5..]));
    Cut(C, 6, BACK[..5] + BACK[5..]);
    AllJoined(A[8..], B[..7], (B[7..] + C[..6]) + ((C[6..] + BACK[..5]) + BACK[5..]));
    AllJoined(B[7..], C[..6], (C[6..] + BACK[..5]) + BACK[5..]);
    AllJoined(C[6..], BACK[..5], BACK[5..]);
    assert BACK[..5] + BACK[5..] == BACK;
  }

  lemma Cut(a: Bits, k: nat, b: Bits)
    requires k <= |a|
    ensures a[..k] + (a[k..] + b) == a + b
  {
  }

  lemma OneByte(b: Byte)
    ensures BitsOf([b]) == ByteBits(b)
  {
    hide ByteBits;
    assert [b][1..] == [] && BitsOf([]) == [];
  }

  /**
   A known answer: with window 8 and lookahead 4 these five bytes are the literals a, b, c and
   five bytes repeated from three back, which overlap themselves.
   */
  lemma KnownAnswer()
    ensures DecodeStream([0xB0, 0xD8, 0xAC, 0x60, 0x24], Params(8, 4)) == [97, 98, 99, 97, 98, 99, 97, 98]
  {
    hide Decode, BitsOf;
    var p := Params(8, 4);
    ExampleBits();
    OneLiteral(A, B + (C + BACK), [], 97, p);
    OneLiteral(B, C + BACK, [97], 98, p);
    OneLiteral(C, BACK, [97, 98], 99, p);
    LastToken(p);
    assert [] + [97] == [97] && [97] + [98] == [97, 98] && [97, 98] + [99] == [97, 98, 99];
  }

  lemma OneLiteral(token: Bits, more: Bits, out: seq<Byte>, b: Byte, p: Params)
    requires |token| == 9 && token[0]
    requires b == 16 * (8 * Bit(token[1]) + 4 * Bit(token[2]) + 2 * Bit(token[3]) + Bit(token[4]))
                  + 8 * Bit(token[5]) + 4 * Bit(token[6]) + 2 * Bit(token[7]) + Bit(token[8])
    ensures Decode(token + more, out, p) == Decode(more, out + [b], p)
  {
    hide Decode, Number;
    LiteralToken(token + more, out, p);
    assert (token + more)[9..] == more;
  }

  lemma LastToken(p: Params)
    requires p == Params(8, 4)
    ensures Decode(BACK, [97, 98, 99], p).out == [97, 98, 99, 97, 98, 99, 97, 98]
  {
    hide Number, Decode, CopyBack;
    var bits, out := BACK, [97, 98, 99];
    LastNumbers(bits);
    FiveBack(out);
    ReadOne(bits, out, p);
    assert bits[13..] == [] && out + out + out[..2] == [97, 98, 99, 97, 98, 99, 97, 98];
    ReadNone([], out + out + out[..2], p);
  }

  lemma LastNumbers(bits: Bits)
    requires bits == BACK
    ensures Number(bits[1..9]) == 2 && Number(bits[9..13]) == 4
  {
    hide Number;
    EightBitNumber(bits[1..9]);
    FourBits(bits[9..13]);
  }

  lemma FiveBack(out: seq<Byte>)
    requires |out| == 3
    ensures CopyBack(out, 3, 5) == out + out + out[..2]
  {
    assert CopyBack(out, 3, 0) == out;
    assert CopyBack(out, 3, 1) == out + out[..1];
    assert CopyBack(out, 3, 2) == out + out[..2];
    assert CopyBack(out, 3, 3) == out + out;
    assert CopyBack(out, 3, 4) == out + out + out[..1];
  }
}
