/** SHA-1 as FIPS 180-4 defines it on bytes, and HMAC as RFC 2104 does. */
module Sha1 {

  type Byte = bv8
  type Word = bv32
  type Shift = bv6

  /** The five words a to e. */
  datatype Chain = Chain(a: Word, b: Word, c: Word, d: Word, e: Word)

  // ---------- Words (sections 3.2 and 4.1.1) ----------

  /** ROTL, for the three amounts SHA-1 uses. */
  function Rotl1(x: Word): Word { (x << (1 as Shift)) | (x >> (31 as Shift)) }
  function Rotl5(x: Word): Word { (x << (5 as Shift)) | (x >> (27 as Shift)) }
  function Rotl30(x: Word): Word { (x << (30 as Shift)) | (x >> (2 as Shift)) }

  /** Addition modulo 2^32. */
  function Add(x: Word, y: Word): Word { x + y }

  /** The five summands of a round, in the order in which sha1.c adds them; the standard's order makes no difference. */
  function AddUp(f: Word, k: Word, r: Word, e: Word, w: Word): (t: Word)
    ensures t == r + f + e + k + w
  {
    (f + k) + ((r + e) + w)
  }

  function Ch(x: Word, y: Word, z: Word): Word { (x & y) ^ (!x & z) }
  function Parity(x: Word, y: Word, z: Word): Word { x ^ y ^ z }
  function Maj(x: Word, y: Word, z: Word): Word { (x & y) ^ (x & z) ^ (y & z) }

  function F(t: nat, x: Word, y: Word, z: Word): Word {
    if t < 20 then Ch(x, y, z) else if t < 40 then Parity(x, y, z) else if t < 60 then Maj(x, y, z) else Parity(x, y, z)
  }

  function K(t: nat): Word {
    if t < 20 then 0x5a827999 else if t < 40 then 0x6ed9eba1 else if t < 60 then 0x8f1bbcdc else 0xca62c1d6
  }

  // ---------- One block (section 6.1.2) ----------

  function Mix(w3: Word, w8: Word, w14: Word, w16: Word): Word {
    Rotl1(w3 ^ w8 ^ w14 ^ w16)
  }

  /** The schedule of eighty words. */
  function Schedule(block: seq<Word>, t: nat): Word
    requires |block| == 16
  {
    if t < 16 then block[t]
    else Mix(Schedule(block, t - 3), Schedule(block, t - 8), Schedule(block, t - 14), Schedule(block, t - 16))
  }

  function Temp(t: nat, h: Chain, w: Word): Word {
    AddUp(F(t, h.b, h.c, h.d), K(t), Rotl5(h.a), h.e, w)
  }

  function Round(t: nat, h: Chain, w: Word): Chain {
    Chain(Temp(t, h, w), h.a, Rotl30(h.b), h.c, h.d)
  }

  /** The working variables after the first t rounds. */
  function Rounds(block: seq<Word>, h: Chain, t: nat): Chain
    requires |block| == 16
  {
    if t == 0 then h else Round(t - 1, Rounds(block, h, t - 1), Schedule(block, t - 1))
  }

  function Sum(g: Chain, h: Chain): Chain {
    Chain(Add(g.a, h.a), Add(g.b, h.b), Add(g.c, h.c), Add(g.d, h.d), Add(g.e, h.e))
  }

  function Compress(h: Chain, block: seq<Word>): Chain
    requires |block| == 16
  {
    Sum(h, Rounds(block, h, 80))
  }

  // ---------- Bytes, blocks and padding (sections 3.1, 5.1.1, 5.2.1 and 5.3.1) ----------

  /** Four bytes as a word, the first the most significant. */
  function WordOf(b0: Byte, b1: Byte, b2: Byte, b3: Byte): Word {
    ((b0 as Word) << (24 as Shift)) | ((b1 as Word) << (16 as Shift)) | ((b2 as Word) << (8 as Shift)) | (b3 as Word)
  }

  function BlockWords(bytes: seq<Byte>): (words: seq<Word>)
    requires |bytes| == 64
    ensures |words| == 16
  {
    seq(16, i requires 0 <= i < 16 => WordOf(bytes[4 * i], bytes[4 * i + 1], bytes[4 * i + 2], bytes[4 * i + 3]))
  }

  const INITIAL := Chain(0x67452301, 0xefcdab89, 0x98badcfe, 0x10325476, 0xc3d2e1f0)

  function HashBlocks(h: Chain, bytes: seq<Byte>): Chain
    requires |bytes| % 64 == 0
  {
    if bytes == [] then h else Compress(HashBlocks(h, bytes[..|bytes| - 64]), BlockWords(bytes[|bytes| - 64..]))
  }

  /** The number of zero bytes: the least that leaves eight bytes of the last block. */
  function ZeroCount(len: nat): (z: nat)
    ensures z < 64 && (len + 1 + z) % 64 == 56
  {
    (55 - len) % 64
  }

  lemma ZeroCountLeast(len: nat, z: nat)
    requires (len + 1 + z) % 64 == 56
    ensures ZeroCount(len) <= z
  {
  }

  function LowByte(n: nat): Byte {
    (n % 256) as Byte
  }

  /** The length in bits as eight bytes. */
  function LengthBytes(len: nat): (s: seq<Byte>)
    ensures |s| == 8
  {
    var l := 8 * len;
    [LowByte(l / 0x100_0000_0000_0000), LowByte(l / 0x1_0000_0000_0000), LowByte(l / 0x100_0000_0000),
     LowByte(l / 0x1_0000_0000), LowByte(l / 0x100_0000), LowByte(l / 0x1_0000), LowByte(l / 0x100), LowByte(l)]
  }

  function Zeros(n: nat): (s: seq<Byte>)
    ensures |s| == n
  {
    seq(n, _ => 0)
  }

  function Padding(len: nat): (s: seq<Byte>)
    ensures |s| == 9 + ZeroCount(len)
  {
    [0x80] + Zeros(ZeroCount(len)) + LengthBytes(len)
  }

  /** Padding ends on a block boundary. */
  lemma PaddedLength(len: nat)
    ensures (len + |Padding(len)|) % 64 == 0
  {
    hide Padding, ZeroCount;
  }

  function WordBytes(w: Word): (s: seq<Byte>)
    ensures |s| == 4
  {
    [(w >> (24 as Shift)) as Byte, ((w >> (16 as Shift)) & 0xFF) as Byte, ((w >> (8 as Shift)) & 0xFF) as Byte,
        (w & 0xFF) as Byte]
  }

  function DigestBytes(h: Chain): (s: seq<Byte>)
    ensures |s| == 20
  {
    WordBytes(h.a) + WordBytes(h.b) + WordBytes(h.c) + WordBytes(h.d) + WordBytes(h.e)
  }

  function Hash(message: seq<Byte>): (digest: seq<Byte>)
    ensures |digest| == 20
  {
    PaddedLength(|message|);
    DigestBytes(HashBlocks(INITIAL, message + Padding(|message|)))
  }

  // ---------- HMAC (section 2 of RFC 2104) ----------

  const BLOCK_LENGTH := 64

  function KeyBlock(key: seq<Byte>): (block: seq<Byte>)
    ensures |block| == BLOCK_LENGTH
  {
    var k := if |key| > BLOCK_LENGTH then Hash(key) else key;
    k + Zeros(BLOCK_LENGTH - |k|)
  }

  function XorAll(block: seq<Byte>, pad: Byte): (s: seq<Byte>)
    ensures |s| == |block|
  {
    seq(|block|, i requires 0 <= i < |block| => block[i] ^ pad)
  }

  function Hmac(key: seq<Byte>, text: seq<Byte>): seq<Byte> {
    var block := KeyBlock(key);
    Hash(XorAll(block, 0x5c) + Hash(XorAll(block, 0x36) + text))
  }

  /** Byte i of the key block: the key, or its hash if it is longer than a block, filled up with zeros. */
  function KeyByte(key: seq<Byte>, i: nat): Byte {
    if |key| <= BLOCK_LENGTH then (if i < |key| then key[i] else 0)
    else if i < 20 then Hash(key)[i] else 0
  }

  /** The two hashes of section 2 of RFC 2104, over any inner and outer blocks that are made as it says. */
  lemma HmacBlocks(key: seq<Byte>, text: seq<Byte>, inner: seq<Byte>, outer: seq<Byte>)
    requires |inner| == |outer| == 64
    requires forall i :: 0 <= i < 64 ==> inner[i] == KeyByte(key, i) ^ 0x36 && outer[i] == KeyByte(key, i) ^ 0x5c
    ensures Hmac(key, text) == Hash(outer + Hash(inner + text))
  {
    hide Hash;
    var block := KeyBlock(key);
    assert forall i :: 0 <= i < 64 ==> block[i] == KeyByte(key, i);
    assert XorAll(block, 0x36) == inner && XorAll(block, 0x5c) == outer;
  }

  /** The number that digits to base 256 stand for, the most significant first. */
  function BigEndian(digits: seq<nat>): nat {
    if digits == [] then 0 else BigEndian(digits[..|digits| - 1]) * 256 + digits[|digits| - 1]
  }

  lemma SplitByte(n: nat, q: nat, r: nat)
    requires n == q * 256 + r && r < 256
    ensures n / 256 == q && n % 256 == r
  {
  }

  lemma FrontValue(digits: seq<nat>, k: nat)
    requires k < |digits| && forall d :: d in digits ==> d < 256
    ensures BigEndian(digits[..k + 1]) / 256 == BigEndian(digits[..k])
    ensures BigEndian(digits[..k + 1]) % 256 == digits[k]
  {
    var front := digits[..k + 1];
    assert front[..|front| - 1] == digits[..k] && digits[k] in digits;
    SplitByte(BigEndian(front), BigEndian(digits[..k]), digits[k]);
  }

  lemma DigitsOf(l: nat, digits: seq<nat>)
    requires |digits| == 8 && (forall d :: d in digits ==> d < 256) && BigEndian(digits) == l
    ensures digits[7] == l % 256 && digits[6] == l / 0x100 % 256 && digits[5] == l / 0x1_0000 % 256
    ensures digits[4] == l / 0x100_0000 % 256 && digits[3] == l / 0x1_0000_0000 % 256
    ensures digits[2] == l / 0x100_0000_0000 % 256 && digits[1] == l / 0x1_0000_0000_0000 % 256
    ensures digits[0] == l / 0x100_0000_0000_0000 % 256
  {
    hide BigEndian;
    assert digits[..8] == digits;
    FrontValue(digits, 7);
    FrontValue(digits, 6);
    FrontValue(digits, 5);
    FrontValue(digits, 4);
    FrontValue(digits, 3);
    FrontValue(digits, 2);
    FrontValue(digits, 1);
    FrontValue(digits, 0);
    Quotients(l);
  }

  lemma LowByteOfDigit(n: nat)
    ensures LowByte(n % 256) == LowByte(n)
  {
  }

  /** The eight length bytes are the digits of the length in bits, the most significant first. */
  lemma LengthIsBigEndian(len: nat, digits: seq<nat>)
    requires |digits| == 8 && (forall d :: d in digits ==> d < 256) && BigEndian(digits) == 8 * len
    ensures LengthBytes(len) == seq(8, i requires 0 <= i < 8 => LowByte(digits[i]))
  {
    hide BigEndian, LowByte;
    var l := 8 * len;
    DigitsOf(l, digits);
    LowByteOfDigit(l);
    LowByteOfDigit(l / 0x100);
    LowByteOfDigit(l / 0x1_0000);
    LowByteOfDigit(l / 0x100_0000);
    LowByteOfDigit(l / 0x1_0000_0000);
    LowByteOfDigit(l / 0x100_0000_0000);
    LowByteOfDigit(l / 0x1_0000_0000_0000);
    LowByteOfDigit(l / 0x100_0000_0000_0000);
  }

  lemma Quotients(l: nat)
    ensures l / 0x100 / 0x100 == l / 0x1_0000 && l / 0x1_0000 / 0x100 == l / 0x100_0000
    ensures l / 0x100_0000 / 0x100 == l / 0x1_0000_0000 && l / 0x1_0000_0000 / 0x100 == l / 0x100_0000_0000
    ensures l / 0x100_0000_0000 / 0x100 == l / 0x1_0000_0000_0000
    ensures l / 0x1_0000_0000_0000 / 0x100 == l / 0x100_0000_0000_0000
  {
  }
}
