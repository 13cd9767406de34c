/**
 What a heatshrink stream means: the batch reading of a bit sequence as LZSS tokens over
 a history that starts out as zeros.  Nothing here is suspended or buffered.
 */
module Lzss {

  type Byte = b: int | 0 <= b < 256
  type Bits = seq<bool>

  /** Window and lookahead sizes in bits, within the limits heatshrink_decoder_alloc accepts. */
  datatype Params = Params(window: nat, lookahead: nat) {
    predicate Ok() {
      4 <= window <= 15 && 2 <= lookahead <= window
    }
  }

  // ---------- Numbers and bits ----------

  function Pow2(n: nat): (p: nat)
    ensures p >= 1
  {
    if n == 0 then 1 else 2 * Pow2(n - 1)
  }

  function Bit(b: bool): nat {
    if b then 1 else 0
  }

  /** Most significant bit first. */
  function Number(bits: Bits): nat {
    if bits == [] then 0 else 2 * Number(bits[..|bits| - 1]) + Bit(bits[|bits| - 1])
  }

  lemma {:induction false} NumberBound(bits: Bits)
    ensures Number(bits) < Pow2(|bits|)
  {
    if bits != [] {
      NumberBound(bits[..|bits| - 1]);
    }
  }

  lemma {:induction false} NumberConcat(a: Bits, b: Bits)
    ensures Number(a + b) == Number(a) * Pow2(|b|) + Number(b)
  {
    if b == [] {
      assert a + b == a;
    } else {
      var front := b[..|b| - 1];
      NumberConcat(a, front);
      assert (a + b)[..|a + b| - 1] == a + front;
      assert Number(a) * Pow2(|b|) == 2 * (Number(a) * Pow2(|front|));
    }
  }

  lemma {:induction false} Pow2Monotone(a: nat, b: nat)
    requires a <= b
    ensures Pow2(a) <= Pow2(b)
  {
    if a < b {
      Pow2Monotone(a, b - 1);
    }
  }

  /** The mask of the n-th bit from the right, counting from one; no bit for zero. */
  function Mask(n: nat): nat {
    if n == 0 then 0 else Pow2(n - 1)
  }

  lemma MaskOrder(a: nat, b: nat)
    requires 0 < b
    ensures Mask(a) < Mask(b) <==> a < b
  {
    if 0 < a < b {
      Pow2Monotone(a - 1, b - 2);
    } else if 0 < b <= a {
      Pow2Monotone(b - 1, a - 1);
    }
  }

  /** The bits of a byte from the top down. */
  function ByteBits(b: Byte): (bits: Bits)
    ensures |bits| == 8
  {
    seq(8, i requires 0 <= i < 8 => (b / Pow2(7 - i)) % 2 == 1)
  }

  function BitsOf(bytes: seq<Byte>): (bits: Bits)
    ensures |bits| == 8 * |bytes|
  {
    if bytes == [] then [] else ByteBits(bytes[0]) + BitsOf(bytes[1..])
  }

  lemma {:induction false} BitsOfConcat(a: seq<Byte>, b: seq<Byte>)
    ensures BitsOf(a + b) == BitsOf(a) + BitsOf(b)
  {
    hide ByteBits, BitsOf;
    if a == [] {
      assert a + b == b && BitsOf(a) == [];
    } else {
      BitsOfConcat(a[1..], b);
      assert (a + b)[1..] == a[1..] + b;
      BitsOfFirst(a);
      BitsOfFirst(a + b);
      AllJoined(ByteBits(a[0]), BitsOf(a[1..]), BitsOf(b));
    }
  }

  lemma BitsOfFirst(bytes: seq<Byte>)
    requires bytes != []
    ensures BitsOf(bytes) == ByteBits(bytes[0]) + BitsOf(bytes[1..])
  {
  }

  lemma AllJoined(a: Bits, b: Bits, c: Bits)
    ensures (a + b) + c == a + (b + c)
  {
  }

  // ---------- Tokens ----------

  /** The byte at position i of the output; before its start the history is zero. */
  function History(out: seq<Byte>, i: int): Byte {
    if 0 <= i < |out| then out[i] else 0
  }

  /** `count` bytes repeated one at a time from `offset` back, so a repetition can include itself. */
  function CopyBack(out: seq<Byte>, offset: nat, count: nat): seq<Byte>
    decreases count
  {
    if count == 0 then out
    else
      var before := CopyBack(out, offset, count - 1);
      before + [History(before, |before| - offset)]
  }

  /** What a reading leaves: the bits of an unfinished token, and the output. */
  datatype Decoded = Decoded(rest: Bits, out: seq<Byte>)

  function TokenLength(bits: Bits, p: Params): nat
    requires bits != []
  {
    if bits[0] then 9 else 1 + p.window + p.lookahead
  }

  /** The effect of one whole token. */
  function ApplyToken(bits: Bits, out: seq<Byte>, p: Params): seq<Byte>
    requires bits != [] && TokenLength(bits, p) <= |bits|
  {
    if bits[0] then
      NumberBound(bits[1..9]);
      assert Pow2(8) == 256;
      out + [Number(bits[1..9])]
    else
      CopyBack(out, Number(bits[1..1 + p.window]) + 1,
               Number(bits[1 + p.window..1 + p.window + p.lookahead]) + 1)
  }

  /** All whole tokens of `bits`, read after `out`. */
  function Decode(bits: Bits, out: seq<Byte>, p: Params): Decoded {
    if bits == [] || |bits| < TokenLength(bits, p) then Decoded(bits, out)
    else Decode(bits[TokenLength(bits, p)..], ApplyToken(bits, out, p), p)
  }

  /** The batch decoding of a compressed stream. */
  function DecodeStream(stream: seq<Byte>, p: Params): seq<Byte> {
    Decode(BitsOf(stream), [], p).out
  }

  /** A stream cut where a token ends can be read in two goes. */
  lemma {:induction false} DecodeConcat(a: Bits, b: Bits, out: seq<Byte>, p: Params)
    requires Decode(a, out, p).rest == []
    ensures Decode(a + b, out, p) == Decode(b, Decode(a, out, p).out, p)
    decreases |a|
  {
    if a == [] {
      assert a + b == b;
    } else {
      var n := TokenLength(a, p);
      TokenLocal(a, a + b, out, p);
      assert (a + b)[n..] == a[n..] + b;
      DecodeConcat(a[n..], b, ApplyToken(a, out, p), p);
    }
  }

  /** A token's effect depends on its own bits only. */
  lemma TokenLocal(a: Bits, b: Bits, out: seq<Byte>, p: Params)
    requires a != [] && TokenLength(a, p) <= |a| && TokenLength(a, p) <= |b|
    requires b[..TokenLength(a, p)] == a[..TokenLength(a, p)]
    ensures b != [] && TokenLength(b, p) == TokenLength(a, p) && ApplyToken(b, out, p) == ApplyToken(a, out, p)
  {
    var n := TokenLength(a, p);
    assert forall k :: 0 <= k < n ==> a[k] == a[..n][k] && b[k] == b[..n][k];
    assert forall i, j :: 0 <= i <= j <= n ==> a[i..j] == b[i..j];
  }

  /** Reading starts with the first token. */
  lemma DecodeToken(token: Bits, more: Bits, out: seq<Byte>, p: Params)
    requires token != [] && |token| == TokenLength(token, p)
    ensures Decode(token + more, out, p) == Decode(more, ApplyToken(token, out, p), p)
  {
    TokenLocal(token, token + more, out, p);
    assert (token + more)[|token|..] == more;
  }

  lemma CopyBackExtends(out: seq<Byte>, offset: nat, count: nat, less: nat)
    requires less <= count
    ensures CopyBack(out, offset, less) <= CopyBack(out, offset, count)
    ensures |CopyBack(out, offset, count)| == |out| + count
    decreases count
  {
    if less < count {
      CopyBackExtends(out, offset, count - 1, less);
    } else if count > 0 {
      CopyBackExtends(out, offset, count - 1, count - 1);
    }
  }

  /** Decoding only ever adds to the output. */
  lemma {:induction false} DecodeExtends(bits: Bits, out: seq<Byte>, p: Params)
    ensures out <= Decode(bits, out, p).out
    decreases |bits|
  {
    if bits != [] && TokenLength(bits, p) <= |bits| {
      var next := ApplyToken(bits, out, p);
      if !bits[0] {
        var w := p.window;
        CopyBackExtends(out, Number(bits[1..1 + w]) + 1, Number(bits[1 + w..1 + w + p.lookahead]) + 1, 0);
      }
      assert out <= next;
      DecodeExtends(bits[TokenLength(bits, p)..], next, p);
    }
  }

  /** More input adds to the output and changes none of it. */
  lemma {:induction false} DecodeMonotone(a: Bits, b: Bits, out: seq<Byte>, p: Params)
    ensures Decode(a, out, p).out <= Decode(a + b, out, p).out
    decreases |a|
  {
    hide ApplyToken;
    if a == [] || |a| < TokenLength(a, p) {
      DecodeExtends(a + b, out, p);
    } else {
      var n := TokenLength(a, p);
      TokenLocal(a, a + b, out, p);
      assert (a + b)[n..] == a[n..] + b;
      DecodeMonotone(a[n..], b, ApplyToken(a, out, p), p);
    }
  }

  lemma StreamMonotone(a: seq<Byte>, b: seq<Byte>, p: Params)
    requires a <= b
    ensures DecodeStream(a, p) <= DecodeStream(b, p)
  {
    var more := b[|a|..];
    assert b == a + more;
    BitsOfConcat(a, more);
    DecodeMonotone(BitsOf(a), BitsOf(more), [], p);
  }

  lemma {:induction false} NumberOfZeros(bits: Bits)
    requires forall i :: 0 <= i < |bits| ==> !bits[i]
    ensures Number(bits) == 0
  {
    if bits != [] {
      NumberOfZeros(bits[..|bits| - 1]);
    }
  }

  // ---------- What a decoder delivers that starts a token only with a byte in its buffer ----------

  /** As `Decode`, but a token begins only while eight bits are left: fewer are in no input byte any more. */
  function Reach(bits: Bits, out: seq<Byte>, p: Params): Decoded {
    if |bits| < 8 || |bits| < TokenLength(bits, p) then Decoded(bits, out)
    else Reach(bits[TokenLength(bits, p)..], ApplyToken(bits, out, p), p)
  }

  /** Seven bits left over that are a whole back-reference, which only the smallest sizes allow. */
  predicate HidesToken(rest: Bits, p: Params) {
    p.window + p.lookahead == 6 && |rest| == 7 && !rest[0]
  }

  /** What is delivered is the batch decoding, exactly unless the left-over bits hide a token. */
  lemma {:induction false} ReachExactly(bits: Bits, out: seq<Byte>, p: Params)
    requires p.Ok()
    ensures Reach(bits, out, p).out == Decode(bits, out, p).out <==> !HidesToken(Reach(bits, out, p).rest, p)
    decreases |bits|
  {
    hide Number, CopyBack;
    if bits == [] || |bits| < TokenLength(bits, p) {
    } else if |bits| < 8 {
      CopyBackExtends(out, Number(bits[1..5]) + 1, Number(bits[5..7]) + 1, 0);
      DecodeExtends(bits[7..], ApplyToken(bits, out, p), p);
    } else {
      ReachExactly(bits[TokenLength(bits, p)..], ApplyToken(bits, out, p), p);
    }
  }

  /** Every token of `done` began while eight bits were left, with `more` bits behind `done`. */
  predicate Begun(done: Bits, more: nat, p: Params)
    decreases |done|
  {
    done == []
    || (TokenLength(done, p) <= |done| && |done| + more >= 8 && Begun(done[TokenLength(done, p)..], more, p))
  }

  lemma {:induction false} BegunMore(done: Bits, more: nat, more': nat, p: Params)
    requires Begun(done, more, p) && more <= more'
    ensures Begun(done, more', p)
    decreases |done|
  {
    if done != [] {
      BegunMore(done[TokenLength(done, p)..], more, more', p);
    }
  }

  lemma {:induction false} BegunToken(done: Bits, token: Bits, more: nat, p: Params)
    requires Begun(done, |token| + more, p) && |token| + more >= 8
    requires token != [] && |token| == TokenLength(token, p)
    ensures Begun(done + token, more, p)
    decreases |done|
  {
    if done == [] {
      assert done + token == token && token[|token|..] == [];
    } else {
      var n := TokenLength(done, p);
      assert (done + token)[n..] == done[n..] + token;
      BegunToken(done[n..], token, more, p);
    }
  }

  lemma {:induction false} ReachBegun(done: Bits, rest: Bits, out: seq<Byte>, p: Params)
    requires Begun(done, |rest|, p)
    ensures Reach(done + rest, out, p) == Reach(rest, Decode(done, out, p).out, p)
    decreases |done|
  {
    hide ApplyToken;
    if done == [] {
      assert done + rest == rest;
    } else {
      var n := TokenLength(done, p);
      TokenLocal(done, done + rest, out, p);
      assert (done + rest)[n..] == done[n..] + rest;
      ReachBegun(done[n..], rest, ApplyToken(done, out, p), p);
    }
  }

  lemma HiddenBits()
    ensures ByteBits(0x80) == [true] + Seven() && ByteBits(0) == [false] + Seven()
  {
    forall i | 0 <= i < 8 ensures ByteBits(0x80)[i] == (i == 0) && !ByteBits(0)[i] {
      if i == 0 {
        assert Pow2(7) == 128;
      } else {
        Pow2Even(7 - i);
      }
    }
  }

  /** 128 divided by a power of two below it is even. */
  lemma Pow2Even(n: nat)
    requires n < 7
    ensures (128 / Pow2(n)) % 2 == 0
  {
    assert Pow2(0) == 1 && Pow2(1) == 2 && Pow2(2) == 4 && Pow2(3) == 8;
    assert Pow2(4) == 16 && Pow2(5) == 32 && Pow2(6) == 64;
  }

  function Seven(): Bits {
    [false, false, false, false, false, false, false]
  }

  /** The literal zero, and then seven zero bits: with the smallest sizes a back-reference to it. */
  lemma SmallTokenHides()
    ensures var p, stream := Params(4, 2), [0x80, 0x00];
            && p.Ok() && DecodeStream(stream, p) == [0, 0]
            && Reach(BitsOf(stream), [], p) == Decoded(Seven(), [0])
  {
    var p, stream := Params(4, 2), [0x80, 0x00];
    var bits := BitsOf(stream);
    HiddenBits();
    assert BitsOf(stream[1..]) == ByteBits(0);
    assert bits == [true] + Seven() + [false] + Seven();
    HiddenTokens(bits, p);
  }

  lemma ReadOne(bits: Bits, out: seq<Byte>, p: Params)
    requires bits != [] && TokenLength(bits, p) <= |bits|
    ensures var rest, out' := bits[TokenLength(bits, p)..], ApplyToken(bits, out, p);
            && Decode(bits, out, p) == Decode(rest, out', p)
            && (|bits| >= 8 ==> Reach(bits, out, p) == Reach(rest, out', p))
  {
    hide ApplyToken, TokenLength;
  }

  lemma ReadNone(bits: Bits, out: seq<Byte>, p: Params)
    ensures bits == [] ==> Decode(bits, out, p) == Decoded(bits, out)
    ensures |bits| < 8 ==> Reach(bits, out, p) == Decoded(bits, out)
  {
  }

  lemma HiddenTokens(bits: Bits, p: Params)
    requires p == Params(4, 2) && bits == [true] + Seven() + [false] + Seven()
    ensures Decode(bits, [], p).out == [0, 0] && Reach(bits, [], p) == Decoded(Seven(), [0])
  {
    hide Number, CopyBack, Decode, Reach;
    var last := bits[9..];
    assert last == Seven() && last[7..] == [];
    NumberOfZeros(bits[1..9]);
    assert ApplyToken(bits, [], p) == [0];
    ReadOne(bits, [], p);
    ReadNone(last, [0], p);
    NumberOfZeros(last[1..5]);
    NumberOfZeros(last[5..7]);
    CopyBackOnce([0], 1);
    assert ApplyToken(last, [0], p) == [0, 0];
    ReadOne(last, [0], p);
    ReadNone([], [0, 0], p);
  }

  lemma CopyBackOnce(out: seq<Byte>, offset: nat)
    ensures CopyBack(out, offset, 1) == out + [History(out, |out| - offset)]
  {
    assert CopyBack(out, offset, 0) == out;
  }

  // ---------- Before the first byte, and a known answer ----------

  /** A repetition that reaches back before the start of the stream finds zeros. */
  lemma {:induction false} CopyBackZeros(offset: nat, count: nat)
    requires offset >= 1
    ensures CopyBack([], offset, count) == seq(count, _ => 0)
  {
    if count > 0 {
      CopyBackZeros(offset, count - 1);
      var before := CopyBack([], offset, count - 1);
      assert History(before, |before| - offset) == 0;
    }
  }

  /** So whatever comes before its first literal decodes to zeros. */
  lemma StartsWithZeros(token: Bits, p: Params)
    requires token != [] && !token[0] && |token| == TokenLength(token, p)
    ensures ApplyToken(token, [], p) == seq(Number(token[1 + p.window..]) + 1, _ => 0)
  {
    assert token[1 + p.window..1 + p.window + p.lookahead] == token[1 + p.window..];
    CopyBackZeros(Number(token[1..1 + p.window]) + 1, Number(token[1 + p.window..]) + 1);
  }
}
