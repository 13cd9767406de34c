/**
 The suspendable heatshrink decoder (heatshrink_decoder.c).  Input arrives in pieces of
 any size, output leaves through buffers of any size, and the state machine may stop
 between any two bits fields; ghost fields relate it to the batch reading of Lzss.
 */
module Heatshrink {
  import opened Lzss

  datatype HsdState = Empty | InputAvailable | YieldLiteral | BackrefIndexMsb | BackrefIndexLsb
                    | BackrefCountMsb | BackrefCountLsb | YieldBackref | CheckForMoreInput

  datatype SinkResult = SinkOk | SinkFull
  datatype PollResult = PollEmpty | PollMore
  datatype FinishResult = FinishDone | FinishMore

  const NO_BITS := 0xFFFF_FFFF

  /** Truncation of a uint16_t field. */
  function U16(n: int): nat {
    n % 0x1_0000
  }

  lemma Narrow(n: nat)
    requires n < 0x1_0000
    ensures U16(n) == n
  {
  }

  // ---------- The sliding window ----------

  /** 1 << w for the window sizes there are. */
  function WindowSize(w: nat): (n: nat)
    requires 4 <= w <= 15
    ensures n > 0
  {
    match w
    case 4 => 16 case 5 => 32 case 6 => 64 case 7 => 128 case 8 => 256 case 9 => 512
    case 10 => 1024 case 11 => 2048 case 12 => 4096 case 13 => 8192 case 14 => 16384 case _ => 32768
  }

  /** The window holds the last 2^w bytes of history at their positions modulo its size. */
  ghost predicate WindowOk(window: seq<Byte>, out: seq<Byte>, w: nat)
    requires 4 <= w <= 15
  {
    var n := WindowSize(w);
    |window| == n && forall i :: |out| - n <= i < |out| ==> window[i % n] == History(out, i)
  }

  lemma ModDistinct(a: int, b: int, w: nat)
    requires 4 <= w <= 15 && a < b < a + WindowSize(w)
    ensures a % WindowSize(w) != b % WindowSize(w)
  {
    hide WindowSize;
    var n := WindowSize(w);
    var laps := b / n - a / n;
    assert b - a == n * laps + (b % n - a % n);
    NoMultipleBetween(n, laps);
  }

  lemma NoMultipleBetween(n: nat, k: int)
    ensures !(0 < n * k < n)
  {
    if k >= 1 {
      assert n * k == n + n * (k - 1);
    }
  }

  /** A quotient and a remainder in range are the ones that division finds. */
  lemma ModUnique(a: int, n: nat, q: int, r: nat)
    requires r < n && a == n * q + r
    ensures a % n == r
  {
    var laps := q - a / n;
    assert a % n - r == n * laps;
    NoMultipleBetween(n, laps);
    NoMultipleBetween(n, -laps);
  }

  /** Whole laps round the window lead back to the same slot. */
  lemma SameSlot(a: int, n: nat, laps: int)
    requires n > 0
    ensures (a + n * laps) % n == a % n
  {
    var q := a / n;
    assert n * (q + laps) == n * q + n * laps;
    ModUnique(a + n * laps, n, q + laps, a % n);
  }

  /** The window sizes divide the range of the 16-bit head index. */
  lemma WindowLaps(w: nat) returns (laps: nat)
    requires 4 <= w <= 15
    ensures WindowSize(w) * laps == 0x1_0000
  {
    laps := 0x1_0000 / WindowSize(w);
  }

  lemma PushWindow(window: seq<Byte>, out: seq<Byte>, w: nat, c: Byte)
    requires 4 <= w <= 15 && WindowOk(window, out, w)
    ensures WindowOk(window[|out| % WindowSize(w) := c], out + [c], w)
  {
    hide WindowSize;
    var n := WindowSize(w);
    var window', out' := window[|out| % n := c], out + [c];
    forall i | |out'| - n <= i < |out'| ensures window'[i % n] == History(out', i) {
      if i < |out| {
        ModDistinct(i, |out|, w);
      }
    }
  }

  /** A 16-bit position masked with the window size finds the same slot as the unbounded one. */
  lemma HeadSlot(position: nat, back: nat, w: nat)
    requires 4 <= w <= 15
    ensures (U16(position) - back) % WindowSize(w) == (position - back) % WindowSize(w)
  {
    hide WindowSize;
    var n, q := WindowSize(w), position / 0x1_0000;
    var laps := WindowLaps(w);
    assert position - back == U16(position) - back + n * (laps * q) by {
      assert n * (laps * q) == (n * laps) * q;
    }
    SameSlot(U16(position) - back, n, laps * q);
  }

  lemma HeadStep(position: nat)
    ensures U16(U16(position) + 1) == U16(position + 1)
  {
  }

  // ---------- Where in a token the machine stands ----------

  /** The fields that a partly read token determines. */
  datatype Fields = Fields(state: HsdState, outputIndex: nat, outputCount: nat)

  /**
   `token` are the bits of the current token read so far, `base` the output before it and
   `out` the output so far.
   */
  ghost predicate Mid(f: Fields, token: Bits, base: seq<Byte>, out: seq<Byte>, p: Params) {
    var w, l := p.window, p.lookahead;
    match f.state
    case Empty | InputAvailable | CheckForMoreInput => token == [] && out == base
    case YieldLiteral => token == [true] && out == base
    case BackrefIndexMsb => w > 8 && token == [false] && out == base
    case BackrefIndexLsb =>
      && out == base && |token| == 1 + (if w > 8 then w - 8 else 0) && !token[0]
      && f.outputIndex == Number(token[1..]) * 256
    case BackrefCountMsb => l > 8 && out == base && HasIndex(f, token, w) && |token| == 1 + w
    case BackrefCountLsb =>
      && out == base && HasIndex(f, token, w) && |token| == 1 + w + (if l > 8 then l - 8 else 0)
      && f.outputCount == Number(token[1 + w..]) * 256
    case YieldBackref =>
      && HasIndex(f, token, w) && |token| == 1 + w + l
      && var total := Number(token[1 + w..]) + 1;
         0 < f.outputCount <= total && out == CopyBack(base, f.outputIndex, total - f.outputCount)
  }

  ghost predicate HasIndex(f: Fields, token: Bits, w: nat) {
    |token| >= 1 + w && !token[0] && f.outputIndex == Number(token[1..1 + w]) + 1
  }

  /** `done` are whole tokens that gave `base`; with the token at hand and the unread bits they make up the input. */
  ghost predicate InSync(f: Fields, done: Bits, token: Bits, base: seq<Byte>, out: seq<Byte>, p: Params) {
    Decode(done, [], p) == Decoded([], base) && Mid(f, token, base, out, p)
  }

  /** In the middle of a token, or about to begin one. */
  predicate Busy(st: HsdState) {
    !st.Empty? && !st.CheckForMoreInput?
  }

  /** Of `total` bits of input `done` are read as tokens; every token began, or begins, with eight bits left. */
  ghost predicate Began(st: HsdState, done: Bits, total: nat, p: Params) {
    |done| <= total && Begun(done, total - |done|, p) && (Busy(st) ==> total - |done| >= 8)
  }

  lemma TokenBegan(st: HsdState, done: Bits, token: Bits, more: nat, p: Params)
    requires Busy(st) && Began(st, done, |done| + |token| + more, p)
    requires token != [] && |token| == TokenLength(token, p)
    ensures Began(CheckForMoreInput, done + token, |done| + |token| + more, p)
  {
    hide Begun;
    BegunToken(done, token, more, p);
  }

  /** How many more bits the machine waits for in this state; none where it does not read. */
  function Wanted(f: Fields, p: Params): nat {
    match f.state
    case InputAvailable => 1
    case YieldLiteral => 8
    case BackrefIndexMsb => if p.window > 8 then p.window - 8 else 0
    case BackrefIndexLsb => if p.window < 8 then p.window else 8
    case BackrefCountMsb => if p.lookahead > 8 then p.lookahead - 8 else 0
    case BackrefCountLsb => if p.lookahead < 8 then p.lookahead else 8
    case _ => 0
  }

  /** A back-reference that is being delivered is a whole token, and this is its effect. */
  lemma BackrefToken(f: Fields, token: Bits, base: seq<Byte>, out: seq<Byte>, p: Params)
    requires p.Ok() && Mid(f, token, base, out, p) && f.state.YieldBackref?
    ensures token != [] && |token| == TokenLength(token, p)
    ensures ApplyToken(token, base, p) == CopyBack(base, f.outputIndex, Number(token[1 + p.window..]) + 1)
  {
    assert token[1 + p.window..1 + p.window + p.lookahead] == token[1 + p.window..];
  }

  /** The output so far is a prefix of the batch decoding, whatever the unread bits are. */
  lemma OutputIsPrefix(f: Fields, done: Bits, token: Bits, unread: Bits, base: seq<Byte>, out: seq<Byte>, p: Params)
    requires p.Ok() && InSync(f, done, token, base, out, p)
    ensures out <= Decode(done + token + unread, [], p).out
  {
    hide Decode, CopyBack;
    assert done + token + unread == done + (token + unread);
    DecodeConcat(done, token + unread, [], p);
    if f.state.YieldBackref? {
      var total := Number(token[1 + p.window..]) + 1;
      BackrefToken(f, token, base, out, p);
      DecodeToken(token, unread, base, p);
      CopyBackExtends(base, f.outputIndex, total, total - f.outputCount);
      DecodeExtends(unread, CopyBack(base, f.outputIndex, total), p);
    } else {
      DecodeExtends(token + unread, base, p);
    }
  }

  lemma StarvedToken(f: Fields, token: Bits, unread: Bits, base: seq<Byte>, out: seq<Byte>, p: Params)
    requires p.Ok() && Mid(f, token, base, out, p) && |unread| < Wanted(f, p) && !f.state.InputAvailable?
    ensures out == base && token != [] && |token + unread| < TokenLength(token + unread, p)
  {
    hide Number, CopyBack;
  }

  /** A machine starved of bits inside a token has delivered everything the input holds. */
  lemma StarvedIsDrained(f: Fields, done: Bits, token: Bits, unread: Bits, base: seq<Byte>, out: seq<Byte>, p: Params)
    requires p.Ok() && InSync(f, done, token, base, out, p)
    requires |unread| < Wanted(f, p) && !f.state.InputAvailable?
    ensures Decode(done + token + unread, [], p).out == out
  {
    hide Number, CopyBack, Mid;
    assert done + token + unread == done + (token + unread);
    DecodeConcat(done, token + unread, [], p);
    StarvedToken(f, token, unread, base, out, p);
  }

  /** A machine at rest between tokens has delivered everything but a token hidden in the last bits. */
  lemma RestIsDrained(f: Fields, done: Bits, token: Bits, unread: Bits, base: seq<Byte>, out: seq<Byte>, p: Params)
    requires p.Ok() && InSync(f, done, token, base, out, p) && f.state.Empty? && |unread| <= 7
    ensures Decode(done + token + unread, [], p).out == out <==> !HidesToken(unread, p)
  {
    hide CopyBack, Number, Decode, ApplyToken;
    assert done + token == done;
    DecodeConcat(done, unread, [], p);
    ReachExactly(unread, out, p);
  }

  /** A machine that is at rest or starved has delivered exactly what begins with eight bits left. */
  lemma DeliveredReach(f: Fields, done: Bits, token: Bits, unread: Bits, base: seq<Byte>, out: seq<Byte>, p: Params)
    requires p.Ok() && InSync(f, done, token, base, out, p) && Begun(done, |token + unread|, p)
    requires (f.state.Empty? && |unread| <= 7) || (!f.state.InputAvailable? && |unread| < Wanted(f, p))
    ensures Reach(done + token + unread, [], p).out == out
    ensures f.state.Empty? ==> Reach(done + token + unread, [], p).rest == unread
  {
    hide CopyBack, Number, Decode, ApplyToken, Begun;
    assert done + token + unread == done + (token + unread);
    ReachBegun(done, token + unread, [], p);
    if f.state.Empty? {
      assert token + unread == unread;
    } else {
      StarvedToken(f, token, unread, base, out, p);
    }
  }

  /** A whole token read and delivered joins the tokens done. */
  lemma TokenDone(done: Bits, token: Bits, base: seq<Byte>, p: Params)
    requires Decode(done, [], p) == Decoded([], base)
    requires token != [] && |token| == TokenLength(token, p)
    ensures Decode(done + token, [], p) == Decoded([], ApplyToken(token, base, p))
  {
    DecodeConcat(done, token, [], p);
    assert token[|token|..] == [];
  }

  // ---------- What reading a field does to the machine ----------

  lemma NumberOfOne(b: bool)
    ensures Number([b]) == Bit(b)
  {
    assert [b][..0] == [];
  }

  /** A field of more than eight bits, read as high bits and then a full byte. */
  lemma NumberJoin(hi: Bits, lo: Bits)
    requires |lo| == 8 || hi == []
    ensures Number(hi + lo) == Number(hi) * 256 + Number(lo)
  {
    hide Number, Pow2;
    if hi == [] {
      NumberOfNone();
      assert hi + lo == lo;
    } else {
      NumberConcat(hi, lo);
      SmallPowers();
    }
  }

  /** What a machine in one of the reading states knows. */
  lemma ReadingFacts(f: Fields, done: Bits, token: Bits, base: seq<Byte>, out: seq<Byte>, p: Params)
    requires p.Ok() && InSync(f, done, token, base, out, p)
    ensures f.state.BackrefIndexMsb? ==> p.window > 8
    ensures f.state.BackrefCountMsb? ==> p.lookahead > 8
    ensures f.state.InputAvailable? ==> token == []
  {
  }

  /** st_input_available: the tag bit. */
  lemma ReadTag(f: Fields, done: Bits, base: seq<Byte>, out: seq<Byte>, p: Params, tag: Bits)
    requires p.Ok() && f.state.InputAvailable? && InSync(f, done, [], base, out, p) && |tag| == 1
    ensures Number(tag) == Bit(tag[0])
    ensures tag[0] ==> InSync(f.(state := YieldLiteral), done, tag, base, out, p)
    ensures !tag[0] && p.window > 8 ==> InSync(f.(state := BackrefIndexMsb), done, tag, base, out, p)
    ensures !tag[0] && p.window <= 8 ==>
              InSync(Fields(BackrefIndexLsb, 0, f.outputCount), done, tag, base, out, p)
  {
    assert tag == [tag[0]] && tag[1..] == [];
    NumberOfOne(tag[0]);
  }

  /** st_backref_index_msb: the high bits of the index. */
  lemma ReadIndexMsb(f: Fields, done: Bits, token: Bits, base: seq<Byte>, out: seq<Byte>, p: Params, hi: Bits)
    requires p.Ok() && f.state.BackrefIndexMsb? && InSync(f, done, token, base, out, p) && |hi| == p.window - 8
    ensures InSync(Fields(BackrefIndexLsb, Number(hi) * 256, f.outputCount), done, token + hi, base, out, p)
    ensures Number(hi) * 256 < 0x8000
  {
    hide Decode;
    assert (token + hi)[1..] == hi;
    NumberBound(hi);
    Pow2Monotone(|hi|, 7);
    assert Pow2(7) == 128;
  }

  /** st_backref_index_lsb: the index is complete. */
  lemma ReadIndexLsb(f: Fields, done: Bits, token: Bits, base: seq<Byte>, out: seq<Byte>, p: Params, lo: Bits)
    requires p.Ok() && f.state.BackrefIndexLsb? && InSync(f, done, token, base, out, p)
    requires |lo| == if p.window < 8 then p.window else 8
    ensures InSync(Fields(if p.lookahead > 8 then BackrefCountMsb else BackrefCountLsb,
                          f.outputIndex + Number(lo) + 1, 0),
                   done, token + lo, base, out, p)
    ensures f.outputIndex + Number(lo) + 1 <= WindowSize(p.window) <= 0x8000
  {
    hide Number, Pow2, Decode;
    var hi, next := token[1..], token + lo;
    DropConcat(token, lo, 1);
    assert next[1..1 + p.window] == next[1..];
    assert next[1 + p.window..] == [];
    NumberOfNone();
    NumberJoin(hi, lo);
    NumberBound(next[1..1 + p.window]);
    WindowSizeIsPow2(p.window);
  }

  /** st_backref_count_msb: the high bits of the count. */
  lemma ReadCountMsb(f: Fields, done: Bits, token: Bits, base: seq<Byte>, out: seq<Byte>, p: Params, hi: Bits)
    requires p.Ok() && f.state.BackrefCountMsb? && InSync(f, done, token, base, out, p) && |hi| == p.lookahead - 8
    ensures InSync(Fields(BackrefCountLsb, f.outputIndex, Number(hi) * 256), done, token + hi, base, out, p)
    ensures Number(hi) * 256 < 0x8000
  {
    hide Decode;
    var next := token + hi;
    assert next[1 + p.window..] == hi && next[1..1 + p.window] == token[1..1 + p.window];
    NumberBound(hi);
    Pow2Monotone(|hi|, 7);
    assert Pow2(7) == 128;
  }

  /** st_backref_count_lsb: the whole back-reference is known, and none of it delivered. */
  lemma ReadCountLsb(f: Fields, done: Bits, token: Bits, base: seq<Byte>, out: seq<Byte>, p: Params, lo: Bits)
    requires p.Ok() && f.state.BackrefCountLsb? && InSync(f, done, token, base, out, p)
    requires |lo| == if p.lookahead < 8 then p.lookahead else 8
    ensures InSync(Fields(YieldBackref, f.outputIndex, f.outputCount + Number(lo) + 1), done, token + lo, base, out, p)
    ensures f.outputCount + Number(lo) + 1 <= 0x8000
  {
    hide Number, Pow2, CopyBack, Decode;
    var hi, next := token[1 + p.window..], token + lo;
    DropConcat(token, lo, 1 + p.window);
    assert next[1..1 + p.window] == token[1..1 + p.window];
    NumberJoin(hi, lo);
    NumberBound(hi + lo);
    WindowSizeIsPow2(15);
    Pow2Monotone(p.lookahead, 15);
    CopyNothing(base, f.outputIndex);
  }

  lemma DropConcat(a: Bits, b: Bits, n: nat)
    requires n <= |a|
    ensures (a + b)[n..] == a[n..] + b
  {
  }

  lemma CopyNothing(out: seq<Byte>, offset: nat)
    ensures CopyBack(out, offset, 0) == out
  {
  }

  lemma WindowSizeIsPow2(w: nat)
    requires 4 <= w <= 15
    ensures WindowSize(w) == Pow2(w)
  {
    if w == 4 {
      assert Pow2(4) == 16;
    } else {
      WindowSizeIsPow2(w - 1);
    }
  }

  /** st_yield_literal: the byte is delivered and the token done. */
  lemma ReadLiteral(f: Fields, done: Bits, token: Bits, base: seq<Byte>, out: seq<Byte>, p: Params, bits: Bits)
    requires p.Ok() && f.state.YieldLiteral? && InSync(f, done, token, base, out, p) && |bits| == 8
    ensures Number(bits) < 256
    ensures var out' := out + [Number(bits)];
            InSync(f.(state := CheckForMoreInput), done + (token + bits), [], out', out', p)
    ensures |token + bits| == TokenLength(token + bits, p)
  {
    hide Decode, Number, CopyBack;
    NumberBound(bits);
    assert Pow2(8) == 256;
    var next := token + bits;
    assert next[1..9] == bits;
    TokenDone(done, next, base, p);
  }

  /** The bytes a back-reference delivers. */
  ghost function BackrefTotal(token: Bits, p: Params): nat {
    if |token| < 1 + p.window then 0 else Number(token[1 + p.window..]) + 1
  }

  lemma YieldingFacts(f: Fields, done: Bits, token: Bits, base: seq<Byte>, out: seq<Byte>, p: Params)
    requires p.Ok() && f.state.YieldBackref? && InSync(f, done, token, base, out, p)
    ensures var total := BackrefTotal(token, p);
            0 < f.outputCount <= total && out == CopyBack(base, f.outputIndex, total - f.outputCount)
  {
  }

  /** st_yield_backref, with bytes left to deliver. */
  lemma YieldMore(f: Fields, done: Bits, token: Bits, base: seq<Byte>, before: seq<Byte>, p: Params, left: nat,
      out: seq<Byte>)
    requires p.Ok() && f.state.YieldBackref? && InSync(f, done, token, base, before, p)
    requires 0 < left <= f.outputCount && out == CopyBack(base, f.outputIndex, BackrefTotal(token, p) - left)
    ensures InSync(f.(outputCount := left), done, token, base, out, p)
  {
  }

  /** st_yield_backref, after the last byte: the token is done. */
  lemma YieldDone(f: Fields, done: Bits, token: Bits, base: seq<Byte>, before: seq<Byte>, p: Params, out: seq<Byte>)
    requires p.Ok() && f.state.YieldBackref? && InSync(f, done, token, base, before, p)
    requires out == CopyBack(base, f.outputIndex, BackrefTotal(token, p))
    ensures InSync(Fields(CheckForMoreInput, f.outputIndex, 0), done + token, [], out, out, p)
    ensures token != [] && |token| == TokenLength(token, p)
  {
    hide Decode, CopyBack, Number;
    BackrefToken(f, token, base, before, p);
    TokenDone(done, token, base, p);
  }

  // ---------- The bit reader ----------

  lemma NumberShift(bits: Bits, i: nat)
    requires i < |bits|
    ensures Number(bits[..i + 1]) == 2 * Number(bits[..i]) + Bit(bits[i])
    ensures i < 8 ==> Number(bits[..i]) < 128 && Number(bits[..i + 1]) < 256
  {
    assert bits[..i + 1][..i] == bits[..i];
    NumberBound(bits[..i]);
    if i < 8 {
      Pow2Monotone(i, 7);
      assert Pow2(7) == 128;
    }
  }

  /** With the current byte used up, unread bits mean an unread byte, whose bits come next. */
  lemma PullBits(current: Byte, left: nat, rest: seq<Byte>, unread: Bits)
    requires left <= 8 && Mask(left) == 0 && unread != []
    requires unread == ByteBits(current)[8 - left..] + BitsOf(rest)
    ensures left == 0 && rest != []
    ensures unread == ByteBits(rest[0])[0..] + BitsOf(rest[1..])
  {
    assert left == 0;
    assert ByteBits(current)[8..] == [];
    assert unread == BitsOf(rest);
  }

  lemma MaskOfByte()
    ensures Mask(8) == 0x80
  {
    assert Pow2(7) == 128;
  }

  /** The mask picks out the first unread bit, and moves on to the next. */
  lemma NextBit(current: Byte, left: nat, more: Bits)
    requires 1 <= left <= 8
    ensures 0 < Mask(left) && Mask(left) / 2 == Mask(left - 1)
    ensures var unread := ByteBits(current)[8 - left..] + more;
            && unread[0] == ((current / Mask(left)) % 2 == 1)
            && unread[1..] == ByteBits(current)[8 - (left - 1)..] + more
  {
  }

  // ---------- The decoder ----------

  class Decoder {
    const p: Params
    const inputBufferSize: nat
    const buffers: array<Byte>  // the input buffer, then the window

    var inputSize: nat
    var inputIndex: nat
    var outputCount: nat
    var outputIndex: nat
    var headIndex: nat
    var bitAccumulator: nat
    var state: HsdState
    var currentByte: Byte
    var bitIndex: nat

    ghost var sunk: seq<Byte>  // the input accepted so far
    ghost var out: seq<Byte>   // the output delivered so far
    ghost var left: nat        // bits of currentByte still unread
    ghost var unread: Bits     // all bits still unread
    ghost var done: Bits       // the bits of the tokens completed
    ghost var token: Bits      // the bits read of the current token
    ghost var base: seq<Byte>  // the output when the current token began

    ghost predicate SizesOk()
    {
      p.Ok() && 0 < inputBufferSize < 0x1_0000 && buffers.Length == inputBufferSize + WindowSize(p.window)
    }

    /** What is unread is the rest of the current byte, then the rest of the input buffer. */
    ghost predicate StreamOk()
      reads this`inputSize, this`inputIndex, this`left, this`bitIndex, this`unread, this`currentByte, buffers
    {
      && SizesOk()
      && inputSize <= inputBufferSize && (if inputSize == 0 then inputIndex == 0 else inputIndex < inputSize)
      && left <= 8 && bitIndex == Mask(left)
      && unread == ByteBits(currentByte)[8 - left..] + BitsOf(buffers[inputIndex..inputSize])
    }

    ghost predicate ReaderOk()
      reads this`inputSize, this`inputIndex, this`left, this`bitIndex, this`unread, this`currentByte, buffers
      reads this`bitAccumulator, this`sunk, this`done, this`token
    {
      StreamOk() && left <= 7 && bitAccumulator == 0 && BitsOf(sunk) == done + token + unread
    }

    /** The output side: the window holds the end of the output, and the head index its length. */
    ghost predicate WriterOk()
      reads this`out, this`headIndex, buffers
    {
      SizesOk() && WindowOk(buffers[inputBufferSize..], out, p.window) && headIndex == U16(|out|)
    }

    lemma SizesFit()
      requires WriterOk()
      ensures p.Ok()
    {
    }

    ghost function View(st: HsdState): Fields
      reads this`outputIndex, this`outputCount
    {
      Fields(st, outputIndex, outputCount)
    }

    /** Consistent, with `st` for the state field, but for a token begun without input. */
    ghost predicate Consistent(st: HsdState)
      reads this`inputSize, this`inputIndex, this`left, this`bitIndex, this`unread, this`currentByte, buffers
      reads this`bitAccumulator, this`sunk, this`done, this`token, this`base
      reads this`out, this`headIndex, this`outputIndex, this`outputCount
    {
      && ReaderOk() && WriterOk()
      && InSync(View(st), done, token, base, out, p)
      && (st.YieldBackref? || st.BackrefCountMsb? || st.BackrefCountLsb? ==> 1 <= outputIndex <= WindowSize(p.window))
      && (st.Empty? ==> inputSize == 0)
    }

    /** Consistent, with `st` for the state field. */
    ghost predicate ValidAs(st: HsdState)
      reads this`inputSize, this`inputIndex, this`left, this`bitIndex, this`unread, this`currentByte, buffers
      reads this`bitAccumulator, this`sunk, this`done, this`token, this`base
      reads this`out, this`headIndex, this`outputIndex, this`outputCount
    {
      Consistent(st) && (st.InputAvailable? ==> unread != [])
    }

    /** Every token began with eight bits left, that is, with a byte in the input buffer. */
    ghost predicate FedAs(st: HsdState)
      reads this`sunk, this`done
    {
      Began(st, done, 8 * |sunk|, p)
    }

    /** So it is for a decoder that was given no empty sink at rest. */
    ghost predicate Fed()
      reads this`sunk, this`done, this`state
    {
      FedAs(state)
    }

    ghost predicate Valid()
      reads this, buffers
    {
      ValidAs(state)
    }

    /** Nothing more can come out of the input accepted so far. */
    ghost predicate Settled()
      reads this, buffers
    {
      && Valid() && inputSize == 0
      && (state.Empty? || (!state.InputAvailable? && |unread| < Wanted(View(state), p)))
    }

    /** What has come out is always the beginning of the batch decoding. */
    lemma OutputOk()
      requires Valid()
      ensures out <= DecodeStream(sunk, p)
    {
      hide ByteBits, BitsOf, Decode, InSync, WindowOk;
      OutputIsPrefix(View(state), done, token, unread, base, out, p);
    }

    /** A settled decoder has delivered the batch decoding, exactly unless it hides a token. */
    lemma DrainedExactly()
      requires Settled()
      ensures out == DecodeStream(sunk, p) <==> !(state.Empty? && HidesToken(unread, p))
    {
      hide ByteBits, BitsOf, Decode, InSync, WindowOk;
      if state.Empty? {
        LeftOver(currentByte, left, buffers[inputIndex..inputSize]);
        RestIsDrained(View(state), done, token, unread, base, out, p);
      } else {
        StarvedIsDrained(View(state), done, token, unread, base, out, p);
      }
    }

    /**
     What a settled decoder has delivered depends on the stream alone, not on how it was cut
     into sinks and polls, and is the batch decoding exactly unless the stream hides a token.
     */
    lemma DeliveredExactly()
      requires Settled() && Fed()
      ensures var reached := Reach(BitsOf(sunk), [], p);
              out == reached.out && (out == DecodeStream(sunk, p) <==> !HidesToken(reached.rest, p))
    {
      hide ByteBits, BitsOf, Decode, InSync, WindowOk, Reach, Begun;
      if state.Empty? {
        LeftOver(currentByte, left, buffers[inputIndex..inputSize]);
      }
      DeliveredReach(View(state), done, token, unread, base, out, p);
      ReachExactly(BitsOf(sunk), [], p);
    }

    /** heatshrink_decoder_alloc within its limits, and heatshrink_decoder_reset. */
    constructor (inputBufferSize: nat, p: Params)
      requires p.Ok() && 0 < inputBufferSize < 0x1_0000
      ensures Valid() && Fed() && fresh(buffers) && state == Empty && sunk == [] && out == []
      ensures this.p == p && this.inputBufferSize == inputBufferSize
    {
      this.p, this.inputBufferSize := p, inputBufferSize;
      buffers := new Byte[inputBufferSize + WindowSize(p.window)](_ => 0);
      state, inputSize, inputIndex, bitIndex, currentByte := Empty, 0, 0, 0, 0;
      outputCount, outputIndex, headIndex, bitAccumulator := 0, 0, 0, 0;
      sunk, out, left, unread, done, token, base := [], [], 0, [], [], [], [];
    }

    /** The part of get_bits that pulls the next input byte. */
    method PullByte()
      requires StreamOk() && bitIndex == 0 && unread != []
      modifies this`inputSize, this`inputIndex, this`currentByte, this`bitIndex, this`left
      ensures StreamOk() && left == 8
    {
      hide ByteBits, BitsOf, Mask, Pow2, WindowSize, Params.Ok;
      ghost var rest := buffers[inputIndex..inputSize];
      PullBits(currentByte, left, rest, unread);
      currentByte := buffers[inputIndex];
      inputIndex := inputIndex + 1;
      if inputIndex == inputSize {
        inputIndex, inputSize := 0, 0;
      }
      assert buffers[inputIndex..inputSize] == rest[1..];
      bitIndex, left := 0x80, 8;
      MaskOfByte();
    }

    /** The part of get_bits that moves one bit of the current byte into the accumulator. */
    method ShiftBit()
      requires StreamOk() && 1 <= left && bitAccumulator < 0x8000
      modifies this`bitAccumulator, this`bitIndex, this`left, this`unread
      ensures StreamOk() && left == old(left) - 1 && unread == old(unread)[1..]
      ensures bitAccumulator == 2 * old(bitAccumulator) + Bit(old(unread)[0])
    {
      hide ByteBits, BitsOf, Mask, Pow2, WindowSize, Params.Ok;
      NextBit(currentByte, left, BitsOf(buffers[inputIndex..inputSize]));
      bitAccumulator := U16(bitAccumulator * 2);
      if (currentByte / bitIndex) % 2 == 1 {
        bitAccumulator := bitAccumulator + 1;
      }
      bitIndex := bitIndex / 2;
      left, unread := left - 1, unread[1..];
    }

    /**
     get_bits, for the counts the decoder asks for: all of them or none.  Since a pulled byte
     brings eight bits, the suspension inside the loop is never reached and no bit is lost.
     */
    method GetBits(count: nat) returns (bits: nat)
      requires ReaderOk() && 1 <= count <= 8
      modifies this`inputSize, this`inputIndex, this`bitAccumulator, this`currentByte, this`bitIndex
      modifies this`left, this`unread, this`token
      ensures ReaderOk()
      ensures old(|unread|) < count ==>
                bits == NO_BITS && inputSize == old(inputSize) == 0 && unread == old(unread) && token == old(token)
      ensures old(|unread|) >= count ==>
                && bits == Number(old(unread)[..count]) < 256 && unread == old(unread)[count..]
                && token == old(token) + old(unread)[..count]
    {
      hide ByteBits, BitsOf, Mask, Pow2, Number, WindowSize, Params.Ok;
      MaskOrder(left, count);
      NumberOfNone();
      if inputSize == 0 {
        if bitIndex < Mask(count) {
          return NO_BITS;
        }
      }
      ghost var all := unread;
      assert all[..0] == [];
      for i := 0 to count
        invariant StreamOk() && left <= 7 && count <= |all| && unread == all[i..]
        invariant bitAccumulator == Number(all[..i]) && token == old(token)
      {
        NumberShift(all, i);
        MaskZero(left);
        if bitIndex == 0 {
          if inputSize == 0 {
            assert false;
          }
          PullByte();
        }
        ShiftBit();
        assert all[i..][1..] == all[i + 1..];
      }
      NumberShift(all, count - 1);
      Regroup(done, token, all, count);
      token := token + all[..count];
      bits := bitAccumulator;
      bitAccumulator := 0;
    }

    // ---------- The states ----------

    /** st_input_available: the tag bit. */
    method StInputAvailable() returns (next: HsdState)
      requires Consistent(InputAvailable)
      modifies this`inputSize, this`inputIndex, this`bitAccumulator, this`currentByte, this`bitIndex, this`left
      modifies this`unread, this`token
      modifies this`outputIndex
      ensures old(unread) != [] ==> ValidAs(next) && Busy(next) && next != InputAvailable && |unread| < old(|unread|)
      ensures old(unread) == [] ==> next == YieldLiteral && ReaderOk() && WriterOk() && unread == [] && inputSize == 0
    {
      hide ByteBits, BitsOf, Mask, WindowSize, WindowOk, InSync, Mid, Number, History, Decode, U16;
      hide Decoder.StreamOk, Decoder.WriterOk;
      SizesFit();
      ghost var before, prior, f := unread, token, View(InputAvailable);
      ReadingFacts(f, done, token, base, out, p);
      var bits := GetBits(1);
      if before != [] {
        ReadTag(f, done, base, out, p, before[..1]);
        assert token == before[..1];
      }
      if bits != 0 {
        next := YieldLiteral;
      } else if p.window > 8 {
        next := BackrefIndexMsb;
      } else {
        outputIndex := 0;
        next := BackrefIndexLsb;
      }
    }

    /** st_backref_index_msb. */
    method StBackrefIndexMsb() returns (next: HsdState)
      requires ValidAs(BackrefIndexMsb)
      modifies this`inputSize, this`inputIndex, this`bitAccumulator, this`currentByte, this`bitIndex, this`left
      modifies this`unread, this`token
      modifies this`outputIndex
      ensures ValidAs(next) && Busy(next) && (next == BackrefIndexMsb || |unread| < old(|unread|))
      ensures next == BackrefIndexMsb ==> |unread| < Wanted(View(next), p) && inputSize == 0
    {
      hide ByteBits, BitsOf, Mask, WindowSize, WindowOk, InSync, Mid, Number, History, Decode, U16;
      hide Decoder.StreamOk, Decoder.WriterOk;
      SizesFit();
      ghost var before, prior, f := unread, token, View(BackrefIndexMsb);
      ReadingFacts(f, done, token, base, out, p);
      var count := p.window - 8;
      var bits := GetBits(count);
      if bits == NO_BITS {
        return BackrefIndexMsb;
      }
      ghost var field := before[..count];
      ReadIndexMsb(f, done, prior, base, out, p, field);
      Narrow(bits * 256);
      outputIndex := U16(bits * 256);
      next := BackrefIndexLsb;
    }

    /** st_backref_index_lsb; the two halves of the index have no bits in common. */
    method StBackrefIndexLsb() returns (next: HsdState)
      requires ValidAs(BackrefIndexLsb)
      modifies this`inputSize, this`inputIndex, this`bitAccumulator, this`currentByte, this`bitIndex, this`left
      modifies this`unread, this`token
      modifies this`outputIndex, this`outputCount
      ensures ValidAs(next) && Busy(next) && (next == BackrefIndexLsb || |unread| < old(|unread|))
      ensures next == BackrefIndexLsb ==> |unread| < Wanted(View(next), p) && inputSize == 0
    {
      hide ByteBits, BitsOf, Mask, WindowSize, WindowOk, InSync, Mid, Number, History, Decode, U16;
      hide Decoder.StreamOk, Decoder.WriterOk;
      SizesFit();
      ghost var before, prior, f := unread, token, View(BackrefIndexLsb);
      ReadingFacts(f, done, token, base, out, p);
      var count := if p.window < 8 then p.window else 8;
      var bits := GetBits(count);
      if bits == NO_BITS {
        return BackrefIndexLsb;
      }
      ghost var field := before[..count];
      ReadIndexLsb(f, done, prior, base, out, p, field);
      Narrow(outputIndex + bits);
      Narrow(outputIndex + bits + 1);
      outputIndex := U16(outputIndex + bits);
      outputIndex := U16(outputIndex + 1);
      outputCount := 0;
      next := if p.lookahead > 8 then BackrefCountMsb else BackrefCountLsb;
    }

    /** st_backref_count_msb. */
    method StBackrefCountMsb() returns (next: HsdState)
      requires ValidAs(BackrefCountMsb)
      modifies this`inputSize, this`inputIndex, this`bitAccumulator, this`currentByte, this`bitIndex, this`left
      modifies this`unread, this`token
      modifies this`outputCount
      ensures ValidAs(next) && Busy(next) && (next == BackrefCountMsb || |unread| < old(|unread|))
      ensures next == BackrefCountMsb ==> |unread| < Wanted(View(next), p) && inputSize == 0
    {
      hide ByteBits, BitsOf, Mask, WindowSize, WindowOk, InSync, Mid, Number, History, Decode, U16;
      hide Decoder.StreamOk, Decoder.WriterOk;
      SizesFit();
      ghost var before, prior, f := unread, token, View(BackrefCountMsb);
      ReadingFacts(f, done, token, base, out, p);
      var count := p.lookahead - 8;
      var bits := GetBits(count);
      if bits == NO_BITS {
        return BackrefCountMsb;
      }
      ghost var field := before[..count];
      ReadCountMsb(f, done, prior, base, out, p, field);
      Narrow(bits * 256);
      outputCount := U16(bits * 256);
      next := BackrefCountLsb;
    }

    /** st_backref_count_lsb. */
    method StBackrefCountLsb() returns (next: HsdState)
      requires ValidAs(BackrefCountLsb)
      modifies this`inputSize, this`inputIndex, this`bitAccumulator, this`currentByte, this`bitIndex, this`left
      modifies this`unread, this`token
      modifies this`outputCount
      ensures ValidAs(next) && Busy(next) && (next == BackrefCountLsb || |unread| < old(|unread|))
      ensures next == BackrefCountLsb ==> |unread| < Wanted(View(next), p) && inputSize == 0
    {
      hide ByteBits, BitsOf, Mask, WindowSize, WindowOk, InSync, Mid, Number, History, Decode, U16;
      hide Decoder.StreamOk, Decoder.WriterOk;
      SizesFit();
      ghost var before, prior, f := unread, token, View(BackrefCountLsb);
      ReadingFacts(f, done, token, base, out, p);
      var count := if p.lookahead < 8 then p.lookahead else 8;
      var bits := GetBits(count);
      if bits == NO_BITS {
        return BackrefCountLsb;
      }
      ghost var field := before[..count];
      ReadCountLsb(f, done, prior, base, out, p, field);
      Narrow(outputCount + bits);
      Narrow(outputCount + bits + 1);
      outputCount := U16(outputCount + bits);
      outputCount := U16(outputCount + 1);
      next := YieldBackref;
    }

    /** Writing a byte into the window at the head; the head index wraps at 16 bits. */
    method Remember(c: Byte)
      requires StreamOk() && WriterOk()
      modifies this`headIndex, this`out, buffers
      ensures StreamOk() && WriterOk() && out == old(out) + [c]
    {
      hide WindowOk, WindowSize, History, U16, ByteBits, BitsOf, Mask;
      HeadSlot(|out|, 0, p.window);
      HeadStep(|out|);
      PushWindow(buffers[inputBufferSize..], out, p.window, c);
      ghost var window, input := buffers[inputBufferSize..], buffers[inputIndex..inputSize];
      var slot := headIndex % WindowSize(p.window);
      buffers[inputBufferSize + slot] := c;
      assert buffers[inputBufferSize..] == window[slot := c];
      assert buffers[inputIndex..inputSize] == input;
      headIndex := U16(headIndex + 1);
      out := out + [c];
    }

    /** The byte of st_yield_literal, pushed at outBuf[size] if there is room and there are eight bits. */
    method EmitLiteral(outBuf: array<Byte>, limit: nat, size: nat) returns (got: bool)
      requires ReaderOk() && WriterOk() && size <= limit <= outBuf.Length && outBuf != buffers
      modifies this`inputSize, this`inputIndex, this`bitAccumulator, this`currentByte, this`bitIndex
      modifies this`left, this`unread, this`token, this`headIndex, this`out, buffers, outBuf
      ensures ReaderOk() && WriterOk() && outBuf[..size] == old(outBuf[..size])
      ensures got <==> size < limit && 8 <= old(|unread|)
      ensures !got ==> unread == old(unread) && token == old(token) && out == old(out) && inputSize == old(inputSize)
      ensures !got && size < limit ==> inputSize == 0
      ensures got ==> unread == old(unread)[8..] && token == old(token) + old(unread)[..8]
      ensures got ==> outBuf[size] == Number(old(unread)[..8]) && out == old(out) + [outBuf[size]]
    {
      hide ByteBits, BitsOf, Mask, WindowSize, WindowOk, Number, History, U16, Params.Ok;
      hide Decoder.StreamOk, Decoder.WriterOk;
      if size == limit {
        return false;
      }
      var bits := GetBits(8);
      if bits == NO_BITS {
        return false;
      }
      Remember(bits);
      outBuf[size] := bits;
      got := true;
    }

    /** st_yield_literal. */
    method StYieldLiteral(outBuf: array<Byte>, limit: nat, size: nat) returns (next: HsdState, size': nat)
      requires ValidAs(YieldLiteral) && size <= limit <= outBuf.Length && outBuf != buffers
      modifies this`inputSize, this`inputIndex, this`bitAccumulator, this`currentByte, this`bitIndex
      modifies this`left, this`unread, this`token, this`headIndex, this`out, this`done, this`base, buffers, outBuf
      ensures ValidAs(next) && size <= size' <= limit && (old(FedAs(YieldLiteral)) ==> FedAs(next))
      ensures next == YieldLiteral || (next == CheckForMoreInput && |unread| < old(|unread|))
      ensures next == YieldLiteral ==> size' == limit || (|unread| < Wanted(View(next), p) && inputSize == 0)
      ensures outBuf[..size] == old(outBuf[..size]) && out == old(out) + outBuf[size..size']
    {
      hide ByteBits, BitsOf, Mask, WindowSize, WindowOk, InSync, Mid, Number, History, Decode, U16, Params.Ok, Began;
      hide Decoder.StreamOk, Decoder.WriterOk;
      SizesFit();
      ghost var before, prior, f := unread, token, View(YieldLiteral);
      var got := EmitLiteral(outBuf, limit, size);
      if !got {
        return YieldLiteral, size;
      }
      ReadLiteral(f, done, prior, base, old(out), p, before[..8]);
      EndToken(done, token, unread);
      if old(FedAs(YieldLiteral)) {
        TokenBegan(YieldLiteral, done, token, |unread|, p);
      }
      done, token, base := done + token, [], out;
      next, size' := CheckForMoreInput, size + 1;
    }

    /** The copying loop of st_yield_backref, `copied` bytes of the back-reference being out already. */
    method EmitBackref(outBuf: array<Byte>, size: nat, count: nat, ghost copied: nat)
      requires ReaderOk() && WriterOk() && 1 <= outputIndex <= WindowSize(p.window)
      requires size + count <= outBuf.Length && outBuf != buffers && out == CopyBack(base, outputIndex, copied)
      modifies this`headIndex, this`out, buffers, outBuf
      ensures ReaderOk() && WriterOk() && out == CopyBack(base, outputIndex, copied + count)
      ensures outBuf[..size] == old(outBuf[..size]) && out == old(out) + outBuf[size..size + count]
    {
      hide WindowSize, WindowOk, History, CopyBack, Decoder.StreamOk, Decoder.WriterOk;
      for i := 0 to count
        invariant ReaderOk() && WriterOk() && out == CopyBack(base, outputIndex, copied + i)
        invariant outBuf[..size] == old(outBuf[..size]) && out == old(out) + outBuf[size..size + i]
      {
        var c := LookBack(outputIndex);
        CopyOne(base, outputIndex, copied + i);
        outBuf[size + i] := c;
        Remember(c);
      }
    }

    /** The whole back-reference is out, and joins the tokens done. */
    ghost method EndBackref(f: Fields, before: seq<Byte>)
      requires ReaderOk() && f.state.YieldBackref? && f.outputIndex == outputIndex && outputCount == 0
      requires InSync(f, done, token, base, before, p) && out == CopyBack(base, outputIndex, BackrefTotal(token, p))
      modifies this`done, this`token, this`base
      ensures ReaderOk() && InSync(View(CheckForMoreInput), done, token, base, out, p)
      ensures old(FedAs(YieldBackref)) ==> FedAs(CheckForMoreInput)
    {
      hide ByteBits, BitsOf, Mask, WindowSize, InSync, CopyBack, BackrefTotal, Began;
      YieldDone(f, done, token, base, before, p, out);
      EndToken(done, token, unread);
      if FedAs(YieldBackref) {
        TokenBegan(YieldBackref, done, token, |unread|, p);
      }
      done, token, base := done + token, [], out;
    }

    /** st_yield_backref, pushing from outBuf[size] on. */
    method StYieldBackref(outBuf: array<Byte>, limit: nat, size: nat) returns (next: HsdState, size': nat)
      requires ValidAs(YieldBackref) && size <= limit <= outBuf.Length && outBuf != buffers
      modifies this`outputCount, this`headIndex, this`out, this`done, this`base, this`token, buffers, outBuf
      ensures ValidAs(next) && size <= size' <= limit && (old(FedAs(YieldBackref)) ==> FedAs(next))
      ensures if next == YieldBackref then size' == limit else next == CheckForMoreInput && size < size'
      ensures outBuf[..size] == old(outBuf[..size]) && out == old(out) + outBuf[size..size']
    {
      hide ByteBits, BitsOf, Mask, WindowSize, WindowOk, InSync, Mid, Number, History, CopyBack, BackrefTotal;
      hide Decode, U16, Params.Ok, Began;
      hide Decoder.ReaderOk, Decoder.WriterOk;
      size' := size;
      var count := limit - size;
      if count > 0 {
        SizesFit();
        ghost var before, f, total: nat := out, View(YieldBackref), BackrefTotal(token, p);
        YieldingFacts(f, done, token, base, out, p);
        if outputCount < count {
          count := outputCount;
        }
        EmitBackref(outBuf, size, count, total - outputCount);
        size', outputCount := size + count, outputCount - count;
        if outputCount == 0 {
          EndBackref(f, before);
          return CheckForMoreInput, size';
        }
        YieldMore(f, done, token, base, before, p, outputCount, out);
      }
      next := YieldBackref;
    }

    /** The byte `back` places before the head. */
    method LookBack(back: nat) returns (c: Byte)
      requires WriterOk() && 1 <= back <= WindowSize(p.window)
      ensures c == History(out, |out| - back)
    {
      hide History;
      HeadSlot(|out|, back, p.window);
      c := buffers[inputBufferSize + (headIndex - back) % WindowSize(p.window)];
      assert c == buffers[inputBufferSize..][(|out| - back) % WindowSize(p.window)];
    }

    /** st_check_for_input. */
    method StCheckForInput() returns (next: HsdState)
      requires ValidAs(CheckForMoreInput)
      ensures ValidAs(next) && (if inputSize == 0 then next == Empty else next == InputAvailable)
      ensures FedAs(CheckForMoreInput) ==> FedAs(next)
    {
      hide InSync, WindowOk, ByteBits, Begun;
      NothingRead(View(CheckForMoreInput), done, token, base, out, p);
      next := if inputSize == 0 then Empty else InputAvailable;
    }

    // ---------- The interface ----------

    /** The copying in heatshrink_decoder_sink. */
    method Append(input: seq<Byte>)
      requires ReaderOk() && WriterOk() && inputSize + |input| <= inputBufferSize
      modifies this`inputSize, this`unread, this`sunk, buffers
      ensures ReaderOk() && WriterOk() && inputSize == old(inputSize) + |input|
      ensures unread == old(unread) + BitsOf(input) && sunk == old(sunk) + input
    {
      hide ByteBits, BitsOf, Mask, WindowSize, WindowOk, History, U16, Params.Ok;
      ghost var window, pending := buffers[inputBufferSize..], buffers[inputIndex..inputSize];
      StreamGrows(sunk, input, done, token, unread);
      forall i | 0 <= i < |input| {
        buffers[inputSize + i] := input[i];
      }
      assert buffers[inputBufferSize..] == window;
      assert buffers[inputIndex..inputSize + |input|] == pending + input;
      BitsOfConcat(pending, input);
      AppendBits(ByteBits(currentByte)[8 - left..], BitsOf(pending), BitsOf(input));
      inputSize := inputSize + |input|;
      unread, sunk := unread + BitsOf(input), sunk + input;
    }

    /** The end of heatshrink_decoder_sink: a decoder at rest begins to read. */
    method StartReading()
      requires ReaderOk() && (state.Empty? ==> inputIndex == 0)
      modifies this`state, this`inputIndex
      ensures ReaderOk() && inputIndex == old(inputIndex)
      ensures state == if old(state).Empty? then InputAvailable else old(state)
    {
      hide ByteBits, BitsOf, Mask, WindowSize;
      if state == Empty {
        state, inputIndex := InputAvailable, 0;
      }
    }

    lemma InputBounds()
      requires ReaderOk()
      ensures inputSize <= inputBufferSize && 0 < inputBufferSize && (inputSize == 0 ==> inputIndex == 0)
    {
    }

    lemma InputFits()
      requires Valid()
      ensures inputSize <= inputBufferSize && 0 < inputBufferSize && (state.Empty? ==> inputIndex == inputSize == 0)
    {
    }

    /** heatshrink_decoder_sink, whatever the state of the decoder. */
    method Accept(input: seq<Byte>) returns (r: SinkResult, n: nat)
      requires ReaderOk() && WriterOk() && (state.Empty? ==> inputSize == 0)
      modifies this`inputSize, this`inputIndex, this`state, this`sunk, this`unread, buffers
      ensures ReaderOk() && WriterOk()
      ensures r.SinkFull? <==> old(inputSize) == inputBufferSize
      ensures n == if |input| < inputBufferSize - old(inputSize) then |input| else inputBufferSize - old(inputSize)
      ensures sunk == old(sunk) + input[..n] && inputSize == old(inputSize) + n
      ensures unread == old(unread) + BitsOf(input[..n])
      ensures state == if r.SinkOk? && old(state).Empty? then InputAvailable else old(state)
    {
      hide Decoder.ReaderOk, Decoder.WriterOk, BitsOf;
      InputBounds();
      var rem := inputBufferSize - inputSize;
      if rem == 0 {
        assert input[..0] == [];
        return SinkFull, 0;
      }
      n := if rem < |input| then rem else |input|;
      Append(input[..n]);
      StartReading();
      r := SinkOk;
    }

    /**
     heatshrink_decoder_sink.  An empty sink into a decoder at rest with no bits left starts a
     token that is not there, which is the reason for its callers' guard: see EmptySinkMisreads.
     */
    method Sink(input: seq<Byte>) returns (r: SinkResult, n: nat)
      requires Valid()
      modifies this`inputSize, this`inputIndex, this`state, this`sunk, this`unread, buffers
      ensures r.SinkFull? <==> old(inputSize) == inputBufferSize
      ensures n == if |input| < inputBufferSize - old(inputSize) then |input| else inputBufferSize - old(inputSize)
      ensures sunk == old(sunk) + input[..n] && inputSize == old(inputSize) + n
      ensures unread == old(unread) + BitsOf(input[..n])
      ensures state == if r.SinkOk? && old(state).Empty? then InputAvailable else old(state)
      ensures Consistent(state)
      ensures Valid() <==> r.SinkFull? || input != [] || old(state) != Empty || old(unread) != []
      ensures old(Fed()) && (r.SinkFull? || input != [] || old(state) != Empty) ==> Fed()
    {
      hide ByteBits, BitsOf, Mask, WindowSize, WindowOk, InSync, History, U16, Params.Ok, Begun;
      hide Decoder.StreamOk, Decoder.WriterOk;
      NothingRead(View(state), done, token, base, out, p);
      InputFits();
      ghost var before := |sunk|;
      r, n := Accept(input);
      if old(Fed()) {
        BegunMore(done, 8 * before - |done|, 8 * |sunk| - |done|, p);
      }
    }

    /** An empty sink into a decoder at rest, and the next poll: NO_BITS is taken for the tag of a literal. */
    method SinkNothing(outBuf: array<Byte>)
      requires Valid() && state.Empty? && unread == [] && outBuf.Length > 0 && outBuf != buffers
      modifies this, buffers, outBuf
      ensures ReaderOk() && WriterOk() && state == YieldLiteral && inputSize == 0 && unread == []
      ensures sunk == old(sunk) && out == old(out)
    {
      hide ByteBits, BitsOf, Mask, WindowSize, WindowOk, InSync, History, U16, Number, Decode, Began;
      hide Decoder.StreamOk, Decoder.WriterOk;
      InputFits();
      var input: seq<Byte> := [];
      var _, n := Sink(input);
      assert n == 0 && input[..n] == [];
      state := StInputAvailable();
      var got := EmitLiteral(outBuf, 1, 0);
    }

    /**
     What goes wrong: after an empty sink into a decoder at rest the next byte sunk comes out
     as it is, although the stream of all bytes sunk holds no further token.
     */
    method EmptySinkMisreads(b: Byte, outBuf: array<Byte>)
      requires Valid() && state.Empty? && unread == [] && 0x80 <= b && outBuf.Length > 0 && outBuf != buffers
      modifies this, buffers, outBuf
      ensures sunk == old(sunk) + [b] && out == old(out) + [b] && outBuf[0] == b
      ensures DecodeStream(sunk, p) == old(out)
    {
      hide ByteBits, BitsOf, Mask, WindowSize, WindowOk, InSync, History, U16, Number, Decode, Began;
      hide Decoder.StreamOk, Decoder.WriterOk, DecodeStream;
      InputFits();
      LateByte(b);
      SinkNothing(outBuf);
      var input := [b];
      var _, n := Accept(input);
      assert n == 1 && input[..n] == input;
      assert unread == ByteBits(b) && unread[..8] == ByteBits(b);
      var got := EmitLiteral(outBuf, 1, 0);
    }

    lemma LateByte(b: Byte)
      requires Valid() && state.Empty? && unread == [] && 0x80 <= b
      ensures DecodeStream(sunk + [b], p) == out && BitsOf([b]) == ByteBits(b) && Number(ByteBits(b)) == b
    {
      hide ByteBits, BitsOf, WindowOk, InSync, Number, Decode;
      LateTag(View(state), done, token, base, out, p, b);
      BitsOfConcat(sunk, [b]);
      assert BitsOf(sunk) == done;
    }

    /** Progress of the machine that needs neither input nor output space. */
    static function Rank(st: HsdState): nat {
      if st == CheckForMoreInput then 1 else 0
    }

    /** One turn of the loop in heatshrink_decoder_poll, up to the assignment of the state. */
    method Step(outBuf: array<Byte>, limit: nat, size: nat) returns (next: HsdState, size': nat)
      requires Valid() && !state.Empty? && size <= limit <= outBuf.Length && outBuf != buffers
      modifies this, buffers, outBuf
      ensures ValidAs(next) && state == old(state) && sunk == old(sunk) && size <= size' <= limit
      ensures old(Fed()) ==> FedAs(next)
      ensures outBuf[..size] == old(outBuf[..size]) && out == old(out) + outBuf[size..size']
      ensures next == state ==>
                || (size' == limit && (next.YieldLiteral? || next.YieldBackref?))
                || (!next.InputAvailable? && |unread| < Wanted(View(next), p) && inputSize == 0)
      ensures next != state ==>
                || |unread| < old(|unread|)
                || (|unread| == old(|unread|) && (size < size' || (size == size' && Rank(next) < Rank(state))))
    {
      hide Decoder.Consistent, Wanted, Begun;
      size' := size;
      match state {
        case InputAvailable =>
          next := StInputAvailable();
        case YieldLiteral =>
          next, size' := StYieldLiteral(outBuf, limit, size);
        case BackrefIndexMsb =>
          next := StBackrefIndexMsb();
        case BackrefIndexLsb =>
          next := StBackrefIndexLsb();
        case BackrefCountMsb =>
          next := StBackrefCountMsb();
        case BackrefCountLsb =>
          next := StBackrefCountLsb();
        case YieldBackref =>
          next, size' := StYieldBackref(outBuf, limit, size);
        case CheckForMoreInput =>
          next := StCheckForInput();
      }
    }

    /** heatshrink_decoder_poll, into `size` bytes of the buffer from `start` on. */
    method Poll(outBuf: array<Byte>, start: nat, size: nat) returns (r: PollResult, n: nat)
      requires Valid() && outBuf != buffers && start + size <= outBuf.Length
      modifies this, buffers, outBuf
      ensures Valid() && sunk == old(sunk) && n <= size && (old(Fed()) ==> Fed())
      ensures outBuf[..start] == old(outBuf[..start]) && out == old(out) + outBuf[start..start + n]
      ensures r.PollMore? ==> n == size && (Settled() || state.YieldLiteral? || state.YieldBackref?)
      ensures r.PollEmpty? ==> Settled() && inputSize == 0
    {
      hide Decoder.ValidAs, Wanted, Began;
      n := 0;
      while state != Empty
        invariant Valid() && sunk == old(sunk) && n <= size && (old(Fed()) ==> Fed())
        invariant outBuf[..start] == old(outBuf[..start]) && out == old(out) + outBuf[start..start + n]
        decreases |unread|, size - n, Rank(state)
      {
        ghost var was, before := outBuf[..], out;
        var next, end := Step(outBuf, start + size, start + n);
        OutputGrows(old(out), before, out, was, outBuf[..], start, start + n, end);
        n := end - start;
        if next == state {
          return if n == size then PollMore else PollEmpty, n;
        }
        state := next;
      }
      RestHasNoInput();
      r := PollEmpty;
    }

    lemma RestHasNoInput()
      requires Valid() && state.Empty?
      ensures inputSize == 0 && inputIndex == 0
    {
    }

    /** heatshrink_decoder_finish; after a poll, it reports the end exactly when nothing more can come out. */
    method Finish() returns (r: FinishResult)
      requires Valid()
      ensures Settled() ==> r.FinishDone?
      ensures r.FinishDone? && (state.Empty? || state.YieldLiteral? || state.YieldBackref?) ==> Settled()
    {
      hide ByteBits, BitsOf, Decode, InSync, WindowOk;
      match state {
        case Empty =>
          r := FinishDone;
        case BackrefIndexLsb | BackrefIndexMsb | BackrefCountLsb | BackrefCountMsb | YieldLiteral =>
          if inputSize == 0 {
            LeftOver(currentByte, left, buffers[inputIndex..inputSize]);
          }
          r := if inputSize == 0 then FinishDone else FinishMore;
        case _ =>
          r := FinishMore;
      }
    }
  }

  /** The byte behind the input of a machine at rest, tagged as a literal, completes no token. */
  lemma LateTag(f: Fields, done: Bits, token: Bits, base: seq<Byte>, out: seq<Byte>, p: Params, b: Byte)
    requires p.Ok() && f.state.Empty? && InSync(f, done, token, base, out, p) && 0x80 <= b
    ensures token == [] && Decode(done + ByteBits(b), [], p).out == out
    ensures BitsOf([b]) == ByteBits(b) && Number(ByteBits(b)) == b
  {
    hide Decode, Number;
    assert BitsOf([]) == [];
    ByteValue(b, 8);
    assert ByteBits(b)[..8] == ByteBits(b);
    assert ByteBits(b)[0] by {
      assert Pow2(7) == 128;
    }
    DecodeConcat(done, ByteBits(b), [], p);
    assert Decode(ByteBits(b), out, p) == Decoded(ByteBits(b), out) by {
      TooShort(ByteBits(b), out, p);
    }
  }

  lemma TooShort(bits: Bits, out: seq<Byte>, p: Params)
    requires bits != [] && |bits| < TokenLength(bits, p)
    ensures Decode(bits, out, p) == Decoded(bits, out)
  {
  }

  /** The bits of a byte, read from the top, make up the byte. */
  lemma {:induction false} ByteValue(b: Byte, i: nat)
    requires i <= 8
    ensures Number(ByteBits(b)[..i]) == b / Pow2(8 - i)
  {
    hide Number, Pow2;
    SmallPowers();
    if i == 0 {
      NumberOfNone();
      assert ByteBits(b)[..0] == [];
    } else {
      ByteValue(b, i - 1);
      NumberShift(ByteBits(b), i - 1);
      HalfQuotient(b, 8 - i);
    }
  }

  lemma SmallPowers()
    ensures Pow2(0) == 1 && Pow2(1) == 2 && Pow2(2) == 4 && Pow2(3) == 8 && Pow2(4) == 16
    ensures Pow2(5) == 32 && Pow2(6) == 64 && Pow2(7) == 128 && Pow2(8) == 256
  {
  }

  lemma HalfQuotient(b: Byte, n: nat)
    requires n < 8
    ensures b / Pow2(n) == 2 * (b / Pow2(n + 1)) + b / Pow2(n) % 2
  {
    SmallPowers();
    hide Pow2;
    match n
    case 0 => case 1 => case 2 => case 3 => case 4 => case 5 => case 6 => case _ =>
  }

  /**
   A run with the smallest sizes: the whole stream is sunk and polled with room to spare and
   the decoder reports the end, but a token of the stream has not come out.
   */
  method HiddenTokenRun() returns (output: seq<Byte>, r: FinishResult)
    ensures output == [0] && r.FinishDone? && DecodeStream([0x80, 0x00], Params(4, 2)) == [0, 0]
  {
    hide Decode, Reach, BitsOf, Began, InSync, WindowOk, ByteBits;
    SmallTokenHides();
    var p, stream, outBuf := Params(4, 2), [0x80, 0x00], new Byte[8];
    var d := new Decoder(16, p);
    var _, k := d.Sink(stream);
    assert k == 2 && stream[..k] == stream && d.sunk == stream;
    var _, n := d.Poll(outBuf, 0, 8);
    d.OutputOk();
    assert d.Settled();
    d.DeliveredExactly();
    r := d.Finish();
    output := outBuf[..n];
  }

  /** One turn of the poll loop writes on where the last one stopped. */
  lemma OutputGrows(prior: seq<Byte>, before: seq<Byte>, out: seq<Byte>, was: seq<Byte>, buf: seq<Byte>,
                    start: nat, end: nat, end': nat)
    requires start <= end <= end' <= |was| == |buf| && was[..end] == buf[..end]
    requires before == prior + was[start..end] && out == before + buf[end..end']
    ensures out == prior + buf[start..end'] && buf[..start] == was[..start]
  {
    assert was[..start] == was[..end][..start] && was[start..end] == was[..end][start..];
    assert buf[start..end'] == buf[start..end] + buf[end..end'];
  }

  lemma LeftOver(current: Byte, left: nat, rest: seq<Byte>)
    requires left <= 8 && rest == []
    ensures |ByteBits(current)[8 - left..] + BitsOf(rest)| == left
  {
  }

  lemma StreamGrows(sunk: seq<Byte>, input: seq<Byte>, done: Bits, token: Bits, unread: Bits)
    requires BitsOf(sunk) == done + token + unread
    ensures BitsOf(sunk + input) == done + token + (unread + BitsOf(input))
  {
    hide BitsOf;
    BitsOfConcat(sunk, input);
    AppendBits(done + token, unread, BitsOf(input));
  }

  lemma AppendBits(a: Bits, b: Bits, c: Bits)
    ensures (a + b) + c == a + (b + c)
  {
  }

  /** The three states between tokens stand at the same place. */
  lemma NothingRead(f: Fields, done: Bits, token: Bits, base: seq<Byte>, out: seq<Byte>, p: Params)
    requires InSync(f, done, token, base, out, p)
    ensures f.state.CheckForMoreInput? || f.state.Empty? ==>
              forall st :: st in {Empty, InputAvailable} ==> InSync(f.(state := st), done, token, base, out, p)
  {
    hide Decode;
  }

  lemma CopyOne(out: seq<Byte>, offset: nat, count: nat)
    ensures var before := CopyBack(out, offset, count);
            CopyBack(out, offset, count + 1) == before + [History(before, |before| - offset)]
  {
  }

  /** Bits read move from the unread bits to the token. */
  lemma Regroup(done: Bits, token: Bits, unread: Bits, count: nat)
    requires count <= |unread|
    ensures done + token + unread == done + (token + unread[..count]) + unread[count..]
  {
    assert unread == unread[..count] + unread[count..];
  }

  lemma EndToken(done: Bits, token: Bits, unread: Bits)
    ensures done + token + unread == (done + token) + [] + unread
  {
  }

  lemma NumberOfNone()
    ensures Number([]) == 0
  {
  }

  lemma MaskZero(left: nat)
    ensures Mask(left) == 0 <==> left == 0
  {
  }
}
