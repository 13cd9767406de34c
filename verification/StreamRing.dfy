/** The byte ring of a stream buffer (stream_buffer.c): slots between tail and head, and message frames. */
module StreamRing {
  import opened Rings

  type Byte = b: int | 0 <= b < 256

  // ---------- Slots ----------

  /** The bytes between tail and head; one slot always stays free. */
  function Used(head: nat, tail: nat, n: nat): (u: nat)
    requires head < n && tail < n
    ensures u < n
  {
    if head >= tail then head - tail else n + head - tail
  }

  function Spaces(head: nat, tail: nat, n: nat): nat
    requires head < n && tail < n
  {
    n - 1 - Used(head, tail, n)
  }

  /** `k` bytes of the ring from slot `p` on. */
  ghost function Bytes(buffer: seq<Byte>, p: nat, k: nat): (s: seq<Byte>)
    requires p < |buffer| && k <= |buffer|
    ensures |s| == k && forall i :: 0 <= i < k ==> s[i] == buffer[Slot(p, i, |buffer|)]
  {
    seq(k, i requires 0 <= i < k => buffer[Slot(p, i, |buffer|)])
  }

  lemma HeadIsSlot(head: nat, tail: nat, n: nat)
    requires head < n && tail < n
    ensures head == Slot(tail, Used(head, tail, n), n)
  {
  }

  /** A write into the free space behind the head leaves the bytes before it alone. */
  lemma WriteKeeps(buffer: seq<Byte>, p: nat, k: nat, i: nat, b: Byte)
    requires p < |buffer| && k <= i < |buffer|
    ensures Bytes(buffer[Slot(p, i, |buffer|) := b], p, k) == Bytes(buffer, p, k)
  {
  }

  lemma WriteAppends(buffer: seq<Byte>, p: nat, k: nat, b: Byte)
    requires p < |buffer| && k < |buffer|
    ensures Bytes(buffer[Slot(p, k, |buffer|) := b], p, k + 1) == Bytes(buffer, p, k) + [b]
  {
    WriteKeeps(buffer, p, k, k, b);
  }

  lemma BytesSplit(buffer: seq<Byte>, p: nat, i: nat, j: nat)
    requires p < |buffer| && i + j <= |buffer| && i < |buffer|
    ensures Bytes(buffer, p, i + j) == Bytes(buffer, p, i) + Bytes(buffer, Slot(p, i, |buffer|), j)
  {
    var n := |buffer|;
    forall k | 0 <= k < j ensures Bytes(buffer, p, i + j)[i + k] == Bytes(buffer, Slot(p, i, n), j)[k] {
      SlotSum(p, i, k, n);
    }
  }

  /** Publishing the head moves it `k` slots on. */
  lemma AdvanceHead(head: nat, tail: nat, n: nat, k: nat)
    requires head < n && tail < n && k <= Spaces(head, tail, n)
    ensures Used(Slot(head, k, n), tail, n) == Used(head, tail, n) + k
  {
  }

  lemma AdvanceTail(head: nat, tail: nat, n: nat, k: nat)
    requires head < n && tail < n && k <= Used(head, tail, n)
    ensures Used(head, Slot(tail, k, n), n) == Used(head, tail, n) - k
  {
  }

  /** Only the `k` slots from `p` on differ between the two storages. */
  ghost predicate SameBeyond(old': seq<Byte>, new': seq<Byte>, p: nat, k: nat)
    requires p < |new'|
  {
    |old'| == |new'| && forall i :: k <= i < |new'| ==> new'[Slot(p, i, |new'|)] == old'[Slot(p, i, |new'|)]
  }

  /** Writing up to all of the free space behind the head does not touch what is between tail and head. */
  lemma WriteBeyondHead(old': seq<Byte>, new': seq<Byte>, head: nat, tail: nat, k: nat)
    requires head < |new'| && tail < |new'| && SameBeyond(old', new', head, k) && k <= Spaces(head, tail, |new'|)
    ensures Bytes(new', tail, Used(head, tail, |new'|)) == Bytes(old', tail, Used(head, tail, |new'|))
  {
    var n := |new'|;
    var used := Used(head, tail, n);
    forall i | 0 <= i < used ensures Bytes(new', tail, used)[i] == Bytes(old', tail, used)[i] {
      assert Slot(tail, i, n) == Slot(head, n - used + i, n);
    }
  }

  /** A second block written behind a first one. */
  lemma SecondBlock(old': seq<Byte>, new': seq<Byte>, p: nat, first: nat, second: nat)
    requires p < |new'| && first + second < |new'| && SameBeyond(old', new', Slot(p, first, |new'|), second)
    ensures Bytes(new', p, first + second) == Bytes(old', p, first) + Bytes(new', Slot(p, first, |new'|), second)
  {
    var n := |new'|;
    BytesSplit(new', p, first, second);
    forall i | 0 <= i < first ensures Bytes(new', p, first)[i] == Bytes(old', p, first)[i] {
      assert Slot(p, i, n) == Slot(Slot(p, first, n), n - first + i, n);
    }
  }

  lemma SameBeyondBoth(a: seq<Byte>, b: seq<Byte>, c: seq<Byte>, p: nat, first: nat, second: nat)
    requires p < |c| == |b| && first + second < |c| && SameBeyond(a, b, p, first)
             && SameBeyond(b, c, Slot(p, first, |c|), second)
    ensures SameBeyond(a, c, p, first + second)
  {
    var n := |c|;
    forall i | first + second <= i < n ensures c[Slot(p, i, n)] == a[Slot(p, i, n)] {
      SlotSum(p, first, i - first, n);
    }
  }

  // ---------- Message frames ----------

  /** sizeof(configMESSAGE_BUFFER_LENGTH_TYPE): size_t on a 32-bit target. */
  const LENGTH_BYTES := 4

  /** The length as it lies in memory, lowest byte first. */
  function LengthBytes(len: nat): (s: seq<Byte>)
    requires len < 0x1_0000_0000
    ensures |s| == LENGTH_BYTES
  {
    [len % 256, len / 256 % 256, len / 256 / 256 % 256, len / 256 / 256 / 256]
  }

  function LengthOf(s: seq<Byte>): nat
    requires |s| == LENGTH_BYTES
  {
    var a: nat, b: nat, c: nat, d: nat := s[0], s[1], s[2], s[3];
    a + 256 * (b + 256 * (c + 256 * d))
  }

  lemma LengthRoundTrip(len: nat)
    requires len < 0x1_0000_0000
    ensures LengthOf(LengthBytes(len)) == len
  {
    var a, b := len / 256, len / 256 / 256;
    assert len == 256 * a + len % 256 && a == 256 * b + a % 256 && b == 256 * (b / 256) + b % 256;
  }

  /** Messages a message buffer can hold: not empty, and with a length that fits its field. */
  predicate IsMessage(m: seq<Byte>) {
    0 < |m| < 0x1_0000_0000
  }

  function Frame(m: seq<Byte>): seq<Byte>
    requires IsMessage(m)
  {
    LengthBytes(|m|) + m
  }

  predicate AreMessages(ms: seq<seq<Byte>>) {
    forall m :: m in ms ==> IsMessage(m)
  }

  function Frames(ms: seq<seq<Byte>>): seq<Byte>
    requires AreMessages(ms)
  {
    if ms == [] then [] else Frame(ms[0]) + Frames(ms[1..])
  }

  lemma {:induction false} FramesConcat(a: seq<seq<Byte>>, b: seq<seq<Byte>>)
    requires AreMessages(a) && AreMessages(b)
    ensures AreMessages(a + b) && Frames(a + b) == Frames(a) + Frames(b)
  {
    if a == [] {
      assert a + b == b;
    } else {
      FramesConcat(a[1..], b);
      assert (a + b)[1..] == a[1..] + b;
    }
  }

  /** A run of whole frames that is not empty begins with the whole of the first. */
  lemma FirstFrame(ms: seq<seq<Byte>>)
    requires AreMessages(ms) && ms != []
    ensures Frame(ms[0]) <= Frames(ms) && LENGTH_BYTES < |Frame(ms[0])|
    ensures LengthOf(Frames(ms)[..LENGTH_BYTES]) == |ms[0]|
    ensures Frames(ms) == Frame(ms[0]) + Frames(ms[1..])
  {
    var m := ms[0];
    assert m in ms;
    LengthRoundTrip(|m|);
    assert Frames(ms)[..LENGTH_BYTES] == LengthBytes(|ms[0]|);
  }
}
