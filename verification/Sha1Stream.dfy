/**
 The streaming SHA-1 of sha1.c, on a little-endian machine: one byte at a time into a
 circular buffer of sixteen words, which also serves as the message schedule.
 */
module Sha1Stream {
  import opened Sha1

  // ---------- Words ----------

  function Rol32(number: Word, bits: Shift): Word
    requires bits <= 32
  {
    (number << bits) | (number >> (32 - bits))
  }

  lemma RolIsRotl(x: Word)
    ensures Rol32(x, 1) == Rotl1(x) && Rol32(x, 5) == Rotl5(x) && Rol32(x, 30) == Rotl30(x)
  {
  }

  /** What sha1_hashBlock writes for the choice is the standard's function. */
  lemma ChooseForm(b: Word, c: Word, d: Word)
    ensures d ^ (b & (c ^ d)) == Ch(b, c, d)
  {
  }

  /** And likewise for the majority. */
  lemma MajorityForm(b: Word, c: Word, d: Word)
    ensures (b & c) | (d & (b | c)) == Maj(b, c, d)
  {
  }

  lemma XorForm(w3: Word, w8: Word, w14: Word, w16: Word)
    ensures Rol32(w3 ^ w8 ^ w14 ^ w16, 1) == Mix(w3, w8, w14, w16)
  {
    RolIsRotl(w3 ^ w8 ^ w14 ^ w16);
  }

  // ---------- Words in memory ----------

  /** The bytes of a word from the most significant down. */
  lemma WordRoundTrip(w: Word)
    ensures var s := WordBytes(w); WordOf(s[0], s[1], s[2], s[3]) == w
  {
  }

  /** The word with its bytes swapped, as sha1_result does. */
  function Swapped(w: Word): Word {
    ((w << (24 as Shift)) & 0xff000000) | ((w << (8 as Shift)) & 0x00ff0000) | ((w >> (8 as Shift)) & 0x0000ff00)
        | ((w >> (24 as Shift)) & 0x000000ff)
  }

  /** The bytes of a word in the memory of a little-endian machine. */
  function MemoryBytes(w: Word): (s: seq<Byte>)
    ensures |s| == 4
  {
    [(w & 0xFF) as Byte, ((w >> (8 as Shift)) & 0xFF) as Byte, ((w >> (16 as Shift)) & 0xFF) as Byte,
        (w >> (24 as Shift)) as Byte]
  }

  lemma SwappedBytes(w: Word)
    ensures MemoryBytes(Swapped(w)) == WordBytes(w)
  {
  }

  lemma SwappedDigest(h: Chain)
    ensures MemoryBytes(Swapped(h.a)) + MemoryBytes(Swapped(h.b)) + MemoryBytes(Swapped(h.c))
            + MemoryBytes(Swapped(h.d))
            + MemoryBytes(Swapped(h.e)) == DigestBytes(h)
  {
    hide MemoryBytes, Swapped, WordBytes;
    SwappedBytes(h.a);
    SwappedBytes(h.b);
    SwappedBytes(h.c);
    SwappedBytes(h.d);
    SwappedBytes(h.e);
  }

  /** offset ^ 3. */
  function Flip(offset: nat): nat {
    offset / 4 * 4 + (3 - offset % 4)
  }

  /** Word i of the buffer, its bytes lying in memory with the least significant first. */
  function WordAt(buffer: seq<Byte>, i: nat): Word
    requires |buffer| == 64 && i < 16
  {
    WordOf(buffer[4 * i + 3], buffer[4 * i + 2], buffer[4 * i + 1], buffer[4 * i])
  }

  /** The buffer with word i overwritten. */
  function SetWord(buffer: seq<Byte>, i: nat, w: Word): (buffer': seq<Byte>)
    requires |buffer| == 64 && i < 16
    ensures |buffer'| == 64
  {
    var s := WordBytes(w);
    buffer[4 * i + 3 := s[0]][4 * i + 2 := s[1]][4 * i + 1 := s[2]][4 * i := s[3]]
  }

  lemma SetWordAt(buffer: seq<Byte>, i: nat, w: Word, k: nat)
    requires |buffer| == 64 && i < 16 && k < 16
    ensures WordAt(SetWord(buffer, i, w), k) == if k == i then w else WordAt(buffer, k)
  {
    hide WordOf, WordBytes;
    WordRoundTrip(w);
  }

  /** The buffer holds `pending` in its first bytes. */
  ghost predicate Holds(buffer: seq<Byte>, pending: seq<Byte>) {
    |buffer| == 64 && |pending| <= 64 && forall k :: 0 <= k < |pending| ==> buffer[Flip(k)] == pending[k]
  }

  lemma HoldsNext(buffer: seq<Byte>, pending: seq<Byte>, b: Byte)
    requires Holds(buffer, pending) && |pending| < 64
    ensures Holds(buffer[Flip(|pending|) := b], pending + [b])
  {
  }

  // ---------- The schedule in sixteen words ----------

  /** Before round t the circular buffer holds the sixteen schedule words up to where it has got. */
  ghost predicate Window(buffer: seq<Byte>, block: seq<Word>, t: nat)
    requires |block| == 16
  {
    |buffer| == 64 && var from := if t < 16 then 0 else t - 16;
    forall k :: from <= k < from + 16 ==> WordAt(buffer, k % 16) == Schedule(block, k)
  }

  lemma BlockWord(buffer: seq<Byte>, bytes: seq<Byte>, i: nat)
    requires |bytes| == 64 && Holds(buffer, bytes) && i < 16
    ensures WordAt(buffer, i) == BlockWords(bytes)[i]
  {
    hide WordOf;
    assert Flip(4 * i) == 4 * i + 3 && Flip(4 * i + 1) == 4 * i + 2 && Flip(4 * i + 2) == 4 * i + 1
        && Flip(4 * i + 3) == 4 * i;
    assert buffer[Flip(4 * i)] == bytes[4 * i] && buffer[Flip(4 * i + 1)] == bytes[4 * i + 1];
    assert buffer[Flip(4 * i + 2)] == bytes[4 * i + 2] && buffer[Flip(4 * i + 3)] == bytes[4 * i + 3];
  }

  lemma WindowStart(buffer: seq<Byte>, bytes: seq<Byte>)
    requires |bytes| == 64 && Holds(buffer, bytes)
    ensures Window(buffer, BlockWords(bytes), 0)
  {
    hide WordAt, BlockWords;
    forall k | 0 <= k < 16 ensures WordAt(buffer, k % 16) == Schedule(BlockWords(bytes), k) {
      BlockWord(buffer, bytes, k);
    }
  }

  lemma WindowHas(buffer: seq<Byte>, block: seq<Word>, t: nat, k: nat)
    requires |block| == 16 && Window(buffer, block, t) && (if t < 16 then k < 16 else t - 16 <= k < t)
    ensures WordAt(buffer, k % 16) == Schedule(block, k)
  {
    hide WordAt, Schedule;
  }

  /** The first sixteen rounds use the block as it is. */
  lemma WindowKept(buffer: seq<Byte>, block: seq<Word>, t: nat)
    requires |block| == 16 && Window(buffer, block, t) && t < 16
    ensures Window(buffer, block, t + 1) && WordAt(buffer, t % 16) == Schedule(block, t)
  {
    hide WordAt, Schedule;
  }

  /** Section 6.1.3: from then on the next word of the schedule replaces the one sixteen rounds back. */
  lemma WindowNext(buffer: seq<Byte>, block: seq<Word>, t: nat)
    requires |block| == 16 && Window(buffer, block, t) && t >= 16
    ensures Mix(WordAt(buffer, (t + 13) % 16), WordAt(buffer, (t + 8) % 16), WordAt(buffer, (t + 2) % 16),
            WordAt(buffer, t % 16))
         == Schedule(block, t)
    ensures Window(SetWord(buffer, t % 16, Schedule(block, t)), block, t + 1)
  {
    hide Mix, WordAt, SetWord, Window, Schedule;
    ScheduleStep(block, t);
    SameSlots(t);
    WindowHas(buffer, block, t, t - 3);
    WindowHas(buffer, block, t, t - 8);
    WindowHas(buffer, block, t, t - 14);
    WindowHas(buffer, block, t, t - 16);
    WindowMoves(buffer, block, t);
  }

  lemma ScheduleStep(block: seq<Word>, t: nat)
    requires |block| == 16 && t >= 16
    ensures Schedule(block, t)
         == Mix(Schedule(block, t - 3), Schedule(block, t - 8), Schedule(block, t - 14), Schedule(block, t - 16))
  {
    hide Mix;
  }

  lemma SameSlots(t: nat)
    requires t >= 16
    ensures (t + 13) % 16 == (t - 3) % 16 && (t + 8) % 16 == (t - 8) % 16
    ensures (t + 2) % 16 == (t - 14) % 16 && t % 16 == (t - 16) % 16
  {
    SlotAgain(t - 3);
    SlotAgain(t - 8);
    SlotAgain(t - 14);
    SlotAgain(t - 16);
  }

  /** Sixteen further on lies the same slot. */
  lemma SlotAgain(k: nat)
    ensures (k + 16) % 16 == k % 16
  {
    var q, r := k / 16, k % 16;
    assert k + 16 == (q + 1) * 16 + r;
  }

  lemma WindowMoves(buffer: seq<Byte>, block: seq<Word>, t: nat)
    requires |block| == 16 && Window(buffer, block, t) && t >= 16
    ensures Window(SetWord(buffer, t % 16, Schedule(block, t)), block, t + 1)
  {
    hide WordAt, SetWord, Schedule;
    var w := Schedule(block, t);
    forall k | t - 15 <= k < t + 1 ensures WordAt(SetWord(buffer, t % 16, w), k % 16) == Schedule(block, k) {
      SetWordAt(buffer, t % 16, w, k % 16);
      if k < t {
        WindowHas(buffer, block, t, k);
        DifferentSlots(k, t);
      }
    }
  }

  lemma DifferentSlots(k: nat, t: nat)
    requires k < t < k + 16
    ensures k % 16 != t % 16
  {
  }

  // ---------- The context ----------

  class Sha1nfo {
    const buffer: array<Byte>
    const keyBuffer: array<Byte>
    var state: Chain
    var byteCount: nat
    var bufferOffset: nat
    var innerHash: seq<Byte>

    ghost var written: seq<Byte>  // the bytes added since the context was last set up

    ghost predicate Sized() {
      buffer.Length == 64 && keyBuffer.Length == 64 && buffer != keyBuffer
    }

    ghost function Whole(): nat
      reads this`written
    {
      |written| / 64 * 64
    }

    /** The state covers the whole blocks written, and the buffer holds the rest. */
    ghost predicate Valid()
      reads this`state, this`bufferOffset, this`written, buffer
    {
      && Sized() && bufferOffset == |written| % 64
      && Holds(buffer[..], written[Whole()..])
      && state == HashBlocks(INITIAL, written[..Whole()])
    }

    /** byteCount is a uint32_t. */
    ghost predicate Counted()
      reads this`byteCount, this`written
    {
      byteCount == |written| % 0x1_0000_0000
    }

    constructor ()
      ensures Valid() && Counted() && written == [] && fresh(buffer) && fresh(keyBuffer)
    {
      buffer, keyBuffer := new Byte[64](_ => 0), new Byte[64](_ => 0);
      state, byteCount, bufferOffset, innerHash, written := INITIAL, 0, 0, [], [];
    }

    /** sha1_init. */
    method Init()
      requires Sized()
      modifies this`state, this`byteCount, this`bufferOffset, this`written
      ensures Valid() && Counted() && written == []
    {
      state, byteCount, bufferOffset, written := INITIAL, 0, 0, [];
    }

    method StoreWord(i: nat, w: Word)
      requires Sized() && i < 16
      modifies buffer
      ensures buffer[..] == SetWord(old(buffer[..]), i, w)
    {
      hide WordBytes;
      var s := WordBytes(w);
      buffer[4 * i + 3] := s[0];
      buffer[4 * i + 2] := s[1];
      buffer[4 * i + 1] := s[2];
      buffer[4 * i] := s[3];
    }

    /** The choice as the code writes it. */
    static method Choose(b: Word, c: Word, d: Word) returns (f: Word)
      ensures f == Ch(b, c, d)
    {
      f := d ^ (b & (c ^ d));
      ChooseForm(b, c, d);
    }

    /** The majority as the code writes it. */
    static method Majority(b: Word, c: Word, d: Word) returns (f: Word)
      ensures f == Maj(b, c, d)
    {
      f := (b & c) | (d & (b | c));
      MajorityForm(b, c, d);
    }

    /** The function and the constant of a round. */
    static method RoundFunction(i: nat, b: Word, c: Word, d: Word) returns (f: Word, k: Word)
      ensures f == F(i, b, c, d) && k == K(i)
    {
      hide Ch, Maj;
      if i < 20 {
        f := Choose(b, c, d);
        k := 0x5a827999;
      } else if i < 40 {
        f, k := b ^ c ^ d, 0x6ed9eba1;
      } else if i < 60 {
        f := Majority(b, c, d);
        k := 0x8f1bbcdc;
      } else {
        f, k := b ^ c ^ d, 0xca62c1d6;
      }
    }

    /** The schedule word of round i, made in place from the sixteenth round on. */
    method ScheduleWord(i: nat, ghost block: seq<Word>) returns (w: Word)
      requires Sized() && |block| == 16 && Window(buffer[..], block, i)
      modifies buffer
      ensures Window(buffer[..], block, i + 1) && w == Schedule(block, i)
    {
      hide WordAt, SetWord, Window, Schedule, Mix, Rol32;
      if i >= 16 {
        WindowNext(buffer[..], block, i);
        var w3, w8, w14, w16 := WordAt(buffer[..], (i + 13) % 16), WordAt(buffer[..], (i + 8) % 16),
            WordAt(buffer[..], (i + 2) % 16), WordAt(buffer[..], i % 16);
        XorForm(w3, w8, w14, w16);
        SetWordAt(buffer[..], i % 16, Schedule(block, i), i % 16);
        StoreWord(i % 16, Rol32(w3 ^ w8 ^ w14 ^ w16, 1));
      } else {
        WindowKept(buffer[..], block, i);
      }
      w := WordAt(buffer[..], i % 16);
    }

    /** sha1_hashBlock. */
    method HashBlock(ghost bytes: seq<Byte>)
      requires Sized() && |bytes| == 64 && Holds(buffer[..], bytes)
      modifies this`state, buffer
      ensures state == Compress(old(state), BlockWords(bytes))
    {
      hide Holds, BlockWords, Window, F, K, Rotl5, Rotl30, Rol32, Schedule, Add, AddUp;
      ghost var block := BlockWords(bytes);
      WindowStart(buffer[..], bytes);
      var a, b, c, d, e := state.a, state.b, state.c, state.d, state.e;
      for i := 0 to 80
        invariant Window(buffer[..], block, i) && Chain(a, b, c, d, e) == Rounds(block, old(state), i)
                  && state == old(state)
      {
        var w := ScheduleWord(i, block);
        var f, k := RoundFunction(i, b, c, d);
        RolIsRotl(a);
        RolIsRotl(b);
        var t := AddUp(f, k, Rol32(a, 5), e, w);
        a, b, c, d, e := t, a, Rol32(b, 30), c, d;
      }
      state := Chain(Add(state.a, a), Add(state.b, b), Add(state.c, c), Add(state.d, d), Add(state.e, e));
    }

    /** sha1_addUncounted. */
    method AddUncounted(data: Byte)
      requires Valid()
      modifies this`state, this`bufferOffset, this`written, buffer
      ensures Valid() && written == old(written) + [data]
    {
      hide Holds, HashBlocks, Compress, BlockWords;
      ghost var pending := written[Whole()..];
      AppendByte(written, data);
      HoldsNext(buffer[..], pending, data);
      FlipFits(bufferOffset);
      buffer[Flip(bufferOffset)] := data;
      assert buffer[..] == old(buffer[..])[Flip(bufferOffset) := data];
      bufferOffset := bufferOffset + 1;
      written := written + [data];
      if bufferOffset == 64 {
        HashBlock(pending + [data]);
        HashNext(written);
        assert Whole() == |written| && written[..Whole()] == written && written[Whole()..] == [];
        bufferOffset := 0;
        HoldsNothing(buffer[..], written[Whole()..]);
      }
    }

    /** sha1_writebyte. */
    method WriteByte(data: Byte)
      requires Valid() && Counted()
      modifies this`state, this`bufferOffset, this`written, this`byteCount, buffer
      ensures Valid() && Counted() && written == old(written) + [data]
    {
      hide Sha1nfo.Valid;
      CountNext(|written|);
      byteCount := (byteCount + 1) % 0x1_0000_0000;
      AddUncounted(data);
    }

    /** sha1_write: the result does not depend on how a message is cut into writes. */
    method Write(data: seq<Byte>)
      requires Valid() && Counted()
      modifies this`state, this`bufferOffset, this`written, this`byteCount, buffer
      ensures Valid() && Counted() && written == old(written) + data
    {
      hide Sha1nfo.Valid;
      for i := 0 to |data|
        invariant Valid() && Counted() && written == old(written) + data[..i]
      {
        WriteByte(data[i]);
      }
    }

    method AddAll(data: seq<Byte>)
      requires Valid()
      modifies this`state, this`bufferOffset, this`written, buffer
      ensures Valid() && written == old(written) + data
    {
      hide Sha1nfo.Valid;
      for i := 0 to |data|
        invariant Valid() && written == old(written) + data[..i]
      {
        AddUncounted(data[i]);
      }
    }

    /** The length bytes of sha1_pad: 32 bits of byteCount, shifted to count bits. */
    method AddLength()
      requires Valid() && byteCount < 0x1_0000_0000
      modifies this`state, this`bufferOffset, this`written, buffer
      ensures Valid() && written == old(written) + LengthBytes(byteCount)
    {
      hide Sha1nfo.Valid, LengthBytes;
      LengthForms(byteCount);
      AddAll([0, 0, 0, (byteCount / 0x2000_0000 % 256) as Byte, (byteCount / 0x20_0000 % 256) as Byte,
              (byteCount / 0x2000 % 256) as Byte, (byteCount / 0x20 % 256) as Byte, (byteCount * 8 % 256) as Byte]);
    }

    /** sha1_pad, which ends on a block boundary. */
    method Pad()
      requires Valid() && byteCount == |written| < 0x1_0000_0000
      modifies this`state, this`bufferOffset, this`written, buffer
      ensures Valid() && written == old(written) + Padding(|old(written)|) && bufferOffset == 0
    {
      hide Sha1nfo.Valid, ZeroCount, LengthBytes;
      ghost var message, z := written, 0;
      AddUncounted(0x80);
      OffsetOk();
      while bufferOffset != 56
        invariant Valid() && bufferOffset == |written| % 64 && z <= ZeroCount(|message|)
        invariant written == message + ([0x80] + Zeros(z)) && byteCount == |message|
        decreases ZeroCount(|message|) - z
      {
        AddUncounted(0);
        OffsetOk();
        z := z + 1;
      }
      ZeroCountLeast(|message|, z);
      AddLength();
      OffsetOk();
      PaddedLength(|message|);
    }

    lemma OffsetOk()
      requires Valid()
      ensures bufferOffset == |written| % 64 && Sized()
    {
    }

    /** sha1_result: the digest of everything written.  The context is used up. */
    method Result() returns (digest: seq<Byte>)
      requires Valid() && Counted() && |written| < 0x1_0000_0000
      modifies this`state, this`bufferOffset, this`written, buffer
      ensures digest == Hash(old(written))
    {
      hide Sha1nfo.Valid, Hash, MemoryBytes, Swapped, DigestBytes;
      ghost var message := written;
      OffsetOk();
      Pad();
      PaddedState(message);
      SwappedDigest(state);
      state := Chain(Swapped(state.a), Swapped(state.b), Swapped(state.c), Swapped(state.d), Swapped(state.e));
      digest := MemoryBytes(state.a) + MemoryBytes(state.b) + MemoryBytes(state.c) + MemoryBytes(state.d)
          + MemoryBytes(state.e);
    }

    lemma PaddedState(message: seq<Byte>)
      requires Valid() && written == message + Padding(|message|)
      ensures DigestBytes(state) == Hash(message)
    {
      hide Padding, HashBlocks, DigestBytes, Holds;
      PaddedLength(|message|);
      assert written[..Whole()] == written;
    }

    /** Writing the key block with a pad mixed in. */
    method WriteKey(pad: Byte)
      requires Valid() && Counted() && Sized()
      modifies this`state, this`bufferOffset, this`written, this`byteCount, buffer
      ensures Valid() && Counted() && written == old(written) + XorAll(keyBuffer[..], pad)
    {
      hide Sha1nfo.Valid;
      for i := 0 to 64
        invariant Valid() && Counted() && written == old(written) + XorAll(keyBuffer[..], pad)[..i]
      {
        WriteByte(keyBuffer[i] ^ pad);
      }
    }

    /** sha1_initHmac. */
    method InitHmac(key: seq<Byte>)
      requires Sized() && |key| < 0x8000_0000
      modifies this`state, this`bufferOffset, this`written, this`byteCount, buffer, keyBuffer
      ensures Valid() && Counted() && keyBuffer[..] == KeyBlock(key) && written == XorAll(KeyBlock(key), 0x36)
    {
      hide Sha1nfo.Valid, Hash, XorAll;
      var k := key;
      if |key| > 64 {
        Init();
        Write(key);
        assert [] + key == key;
        k := Result();
      }
      forall i | 0 <= i < 64 {
        keyBuffer[i] := if i < |k| then k[i] else 0;
      }
      assert keyBuffer[..] == KeyBlock(key);
      Init();
      WriteKey(0x36);
    }

    /** sha1_resultHmac, after `text` was written. */
    method ResultHmac(ghost key: seq<Byte>, ghost text: seq<Byte>) returns (digest: seq<Byte>)
      requires Valid() && Counted() && keyBuffer[..] == KeyBlock(key)
      requires written == XorAll(KeyBlock(key), 0x36) + text && |written| < 0x1_0000_0000
      modifies this`state, this`bufferOffset, this`written, this`byteCount, this`innerHash, buffer
      ensures digest == Hmac(key, text)
    {
      hide Sha1nfo.Valid, Hash, XorAll, KeyBlock;
      OffsetOk();
      innerHash := Result();
      Init();
      WriteKey(0x5c);
      ghost var outer := XorAll(KeyBlock(key), 0x5c);
      assert written == outer;
      Write(innerHash);
      digest := Result();
    }
  }

  lemma CountNext(len: nat)
    ensures (len % 0x1_0000_0000 + 1) % 0x1_0000_0000 == (len + 1) % 0x1_0000_0000
  {
  }

  lemma LengthForms(len: nat)
    requires len < 0x1_0000_0000
    ensures LengthBytes(len) == [0, 0, 0, (len / 0x2000_0000 % 256) as Byte, (len / 0x20_0000 % 256) as Byte,
                                 (len / 0x2000 % 256) as Byte, (len / 0x20 % 256) as Byte, (len * 8 % 256) as Byte]
  {
    LengthQuotients(len);
  }

  lemma LengthQuotients(len: nat)
    requires len < 0x1_0000_0000
    ensures var l := 8 * len;
            && l / 0x100_0000_0000_0000 == 0 && l / 0x1_0000_0000_0000 == 0 && l / 0x100_0000_0000 == 0
            && l / 0x1_0000_0000 == len / 0x2000_0000 && l / 0x100_0000 == len / 0x20_0000
            && l / 0x1_0000 == len / 0x2000 && l / 0x100 == len / 0x20
  {
  }

  lemma FlipFits(offset: nat)
    requires offset < 64
    ensures Flip(offset) < 64
  {
  }

  lemma HoldsNothing(buffer: seq<Byte>, pending: seq<Byte>)
    requires |buffer| == 64 && pending == []
    ensures Holds(buffer, pending)
  {
  }

  /** One byte more in the block at hand. */
  lemma AppendByte(written: seq<Byte>, data: Byte)
    ensures var whole, more := |written| / 64 * 64, written + [data];
            && |written[whole..]| == |written| % 64
            && more[whole..] == written[whole..] + [data] && more[..whole] == written[..whole]
            && (|written| % 64 == 63 ==> |more| / 64 * 64 == |more| == whole + 64)
            && (|written| % 64 < 63 ==> |more| / 64 * 64 == whole && |more| % 64 == |written| % 64 + 1)
  {
  }

  /** A block completed is compressed into the state. */
  lemma HashNext(bytes: seq<Byte>)
    requires |bytes| % 64 == 0 && bytes != []
    ensures HashBlocks(INITIAL, bytes) == Compress(HashBlocks(INITIAL, bytes[..|bytes| - 64]),
            BlockWords(bytes[|bytes| - 64..]))
  {
    hide Compress, BlockWords;
  }
}
