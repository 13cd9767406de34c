/**
 The transmit descriptor ring of the Ethernet driver (ethernetif_tm4c1294.c): packets are
 chains of buffers, each buffer takes a descriptor that is handed to the hardware, and the
 transmit interrupt gives packets back once the hardware is done.
 */
module TxRing {
  import opened Rings

  type Pbuf = nat

  /** One buffer of a chain; `safe` says that the DMA can reach its payload. */
  datatype Segment = Segment(payload: nat, len: nat, safe: bool)

  /** The pbuf pointer of a descriptor; its lowest bit marks the descriptors before the last of a packet. */
  datatype Tag = NoPbuf | Intermediate(p: Pbuf) | Final(p: Pbuf)

  datatype Descriptor = Descriptor(own: bool, first: bool, last: bool, payload: nat, count: nat, tag: Tag)

  /** A descriptor's worth of an accepted packet. */
  datatype Entry = Entry(p: Pbuf, segment: Segment, first: bool, last: bool)

  /** What a chain of buffers takes up in the ring. */
  function Entries(p: Pbuf, chain: seq<Segment>): (es: seq<Entry>)
    ensures |es| == |chain|
  {
    seq(|chain|, i requires 0 <= i < |chain| => Entry(p, chain[i], i == 0, i == |chain| - 1))
  }

  /** The buffers that a stretch of the ring transmits, in order. */
  function Segments(es: seq<Entry>): (segments: seq<Segment>)
    ensures |segments| == |es|
  {
    seq(|es|, i requires 0 <= i < |es| => es[i].segment)
  }

  /** A chain goes into the ring from its head, the first and the last of its buffers marked. */
  lemma ChainInOrder(p: Pbuf, chain: seq<Segment>)
    ensures Segments(Entries(p, chain)) == chain
    ensures forall i :: 0 <= i < |chain| ==>
              Entries(p, chain)[i].first == (i == 0) && Entries(p, chain)[i].last == (i == |chain| - 1)
  {
  }

  lemma SegmentsConcat(a: seq<Entry>, b: seq<Entry>)
    ensures Segments(a + b) == Segments(a) + Segments(b)
  {
  }

  /** The packets whose last descriptor is in the ring: each of them holds a reference. */
  function Held(es: seq<Entry>): seq<Pbuf> {
    if es == [] then [] else (if es[0].last then [es[0].p] else []) + Held(es[1..])
  }

  lemma {:induction false} HeldConcat(a: seq<Entry>, b: seq<Entry>)
    ensures Held(a + b) == Held(a) + Held(b)
  {
    if a == [] {
      assert a + b == b && Held(a) + Held(b) == Held(b);
    } else {
      HeldConcat(a[1..], b);
      assert (a + b)[1..] == a[1..] + b && (a + b)[0] == a[0];
      Ledger(if a[0].last then [a[0].p] else [], Held(a[1..]), Held(b));
    }
  }

  lemma {:induction false} HeldNone(es: seq<Entry>)
    requires forall k :: 0 <= k < |es| ==> !es[k].last
    ensures Held(es) == []
  {
    if es != [] {
      HeldNone(es[1..]);
    }
  }

  /** A packet is held once, by its last descriptor. */
  lemma HeldPacket(p: Pbuf, chain: seq<Segment>)
    requires chain != []
    ensures Held(Entries(p, chain)) == [p]
  {
    var es := Entries(p, chain);
    var n := |es| - 1;
    HeldNone(es[..n]);
    HeldConcat(es[..n], es[n..]);
    assert es == es[..n] + es[n..] && es[n..] == [es[n]];
    assert Held([es[n]]) == [p] by { assert [es[n]][1..] == []; }
  }

  /** Every descriptor is followed by the rest of its packet. */
  ghost predicate Chained(es: seq<Entry>) {
    forall k :: 0 <= k < |es| && !es[k].last ==> k + 1 < |es| && es[k + 1].p == es[k].p
  }

  lemma ChainedConcat(a: seq<Entry>, b: seq<Entry>)
    requires Chained(a) && Chained(b)
    ensures Chained(a + b)
  {
    var es := a + b;
    forall k | 0 <= k < |es| && !es[k].last ensures k + 1 < |es| && es[k + 1].p == es[k].p {
      if k < |a| {
        assert es[k] == a[k] && es[k + 1] == a[k + 1];
      } else {
        assert es[k] == b[k - |a|] && es[k + 1] == b[k + 1 - |a|];
      }
    }
  }

  lemma ChainedRest(es: seq<Entry>, k: nat)
    requires Chained(es) && k <= |es|
    ensures Chained(es[k..])
  {
  }

  /** The packet of any descriptor in the ring is still held. */
  lemma {:induction false} PacketHeld(es: seq<Entry>, k: nat)
    requires Chained(es) && k < |es|
    ensures es[k].p in Held(es)
    decreases |es|
  {
    if k > 0 {
      ChainedRest(es, 1);
      PacketHeld(es[1..], k - 1);
    } else if !es[0].last {
      ChainedRest(es, 1);
      PacketHeld(es[1..], 0);
    }
  }

  ghost predicate Matches(d: Descriptor, e: Entry) {
    && d.payload == e.segment.payload && d.count == e.segment.len && d.first == e.first && d.last == e.last
    && d.tag == if e.last then Final(e.p) else Intermediate(e.p)
  }

  ghost predicate Free(d: Descriptor) {
    d.tag.NoPbuf? && !d.own
  }

  // ---------- The ring as a line ----------

  /** The descriptors from the read index on, once round the ring. */
  ghost function Line(d: seq<Descriptor>, read: nat): (line: seq<Descriptor>)
    requires read < |d|
    ensures |line| == |d|
  {
    seq(|d|, k requires 0 <= k < |d| => d[Slot(read, k, |d|)])
  }

  /** The queue lies at the start of the line, and what follows is free. */
  ghost predicate LineOk(line: seq<Descriptor>, queued: seq<Entry>) {
    && |queued| <= |line|
    && (forall k :: 0 <= k < |queued| ==> Matches(line[k], queued[k]))
    && (forall k :: |queued| <= k < |line| ==> Free(line[k]))
  }

  lemma LinePut(d: seq<Descriptor>, read: nat, k: nat, x: Descriptor)
    requires read < |d| && k < |d|
    ensures Line(d[Slot(read, k, |d|) := x], read) == Line(d, read)[k := x]
  {
  }

  /** Moving the read index takes the first of the line to its end. */
  lemma LineMove(d: seq<Descriptor>, read: nat)
    requires read < |d|
    ensures Line(d, Slot(read, 1, |d|)) == Line(d, read)[1..] + [d[read]]
  {
    var n := |d|;
    forall k | 0 <= k < n
      ensures Line(d, Slot(read, 1, n))[k] == (Line(d, read)[1..] + [d[read]])[k]
    {
      if n > 1 {
        SlotSum(read, 1, k, n);
      }
    }
  }

  /** The second line is the first with the hardware done with some of its descriptors. */
  ghost predicate Worked(before: seq<Descriptor>, after: seq<Descriptor>) {
    && |before| == |after|
    && forall k :: 0 <= k < |after| ==> after[k] == before[k] || after[k] == before[k].(own := false)
  }

  lemma LineOkTake(line: seq<Descriptor>, queued: seq<Entry>, x: Descriptor)
    requires LineOk(line, queued) && queued != [] && Free(x)
    ensures LineOk(line[1..] + [x], queued[1..])
  {
  }

  lemma LineOkPut(line: seq<Descriptor>, queued: seq<Entry>, x: Descriptor, e: Entry)
    requires LineOk(line, queued) && |queued| < |line| && Matches(x, e)
    ensures LineOk(line[|queued| := x], queued + [e])
  {
  }

  /** What an allocation of a pbuf for a copy comes to. */
  datatype Allocation = NoMemory | Allocated(p: Pbuf, chain: seq<Segment>, copied: bool)

  datatype Err = ErrOk | ErrMem

  /** The buffer to transmit, or none. */
  datatype Checked = NoBuffer | Buffer(p: Pbuf, chain: seq<Segment>)

  predicate AllSafe(chain: seq<Segment>) {
    forall s :: s in chain ==> s.safe
  }

  /** tivaif_check_pbuf's answer: the packet itself, or a copy the DMA can reach. */
  function Check(p: Pbuf, chain: seq<Segment>, allocation: Allocation): Checked {
    if AllSafe(chain) then Buffer(p, chain)
    else if allocation.Allocated? && allocation.copied then Buffer(allocation.p, allocation.chain)
    else NoBuffer
  }

  /** The packet itself goes out if the DMA can reach all of it, and otherwise its copy if there is one. */
  lemma CheckedBuffer(p: Pbuf, chain: seq<Segment>, allocation: Allocation)
    ensures AllSafe(chain) ==> Check(p, chain, allocation) == Buffer(p, chain)
    ensures !AllSafe(chain) && allocation.Allocated? && allocation.copied ==>
              Check(p, chain, allocation) == Buffer(allocation.p, allocation.chain)
    ensures !AllSafe(chain) && !(allocation.Allocated? && allocation.copied) ==>
              Check(p, chain, allocation) == NoBuffer
  {
  }

  class TxRing {
    const desc: array<Descriptor>
    var read: nat
    var write: nat
    var refs: multiset<Pbuf>       // reference counts of all pbufs

    ghost var queued: seq<Entry>   // the ring from read to write
    ghost var accepted: seq<Pbuf>  // the packets accepted so far
    ghost var released: seq<Pbuf>  // the packets given back so far
    ghost var offered: seq<Segment>  // the buffers of the packets accepted so far
    ghost var handed: seq<Segment>   // the buffers whose descriptors the hardware is done with

    /** From read to write the descriptors hold the queue; the others are free. */
    ghost predicate RingOk()
      reads this`read, this`write, this`queued, desc
    {
      && read < desc.Length && |queued| <= desc.Length && write == Slot(read, |queued|, desc.Length)
      && LineOk(Line(desc[..], read), queued)
    }

    ghost predicate Valid()
      reads this, desc
    {
      && RingOk() && Chained(queued) && multiset(Held(queued)) <= refs
      && accepted == released + Held(queued) && offered == handed + Segments(queued)
    }

    /** The transmit half of tivaif_initDMADescriptors. */
    constructor (size: nat)
      requires size > 0
      ensures Valid() && fresh(desc) && desc.Length == size && queued == [] && refs == multiset{}
    {
      desc := new Descriptor[size](_ => Descriptor(false, false, false, 0, 0, NoPbuf));
      read, write, refs, queued, accepted, released := 0, 0, multiset{}, [], [], [];
      offered, handed := [], [];
    }

    /** A descriptor owned by the hardware belongs to a packet that has not been given back. */
    lemma OwnedIsHeld(i: nat)
      requires Valid() && i < desc.Length && desc[i].own
      ensures !desc[i].tag.NoPbuf? && desc[i].tag.p in Held(queued) && desc[i].tag.p in refs
    {
      var k := if i >= read then i - read else i + desc.Length - read;
      assert Line(desc[..], read)[k] == desc[i];
      PacketHeld(queued, k);
      assert desc[i].tag.p in multiset(Held(queued));
    }

    /** What the descriptors say that the hardware works through, from the read index on. */
    lemma QueuedDescriptor(k: nat)
      requires Valid() && k < |queued|
      ensures read < desc.Length && |queued| <= desc.Length
      ensures var d, e := desc[Slot(read, k, desc.Length)], queued[k];
              && d.payload == e.segment.payload && d.count == e.segment.len
              && d.first == e.first && d.last == e.last
              && (if e.last then d.tag == Final(e.p) else d.tag == Intermediate(e.p))
    {
      assert Line(desc[..], read)[k] == desc[Slot(read, k, desc.Length)];
    }

    /** The hardware is done with a descriptor, at any time and in any order. */
    method HardwareDone(i: nat)
      requires RingOk() && i < desc.Length && desc[i].own
      modifies desc
      ensures RingOk() && desc[..] == old(desc[..])[i := old(desc[i]).(own := false)]
      ensures Worked(old(Line(desc[..], read)), Line(desc[..], read))
    {
      ghost var k := if i >= read then i - read else i + desc.Length - read;
      assert Line(desc[..], read)[k] == desc[i];
      LinePut(desc[..], read, k, desc[i].(own := false));
      desc[i] := desc[i].(own := false);
      assert desc[..] == old(desc[..])[i := old(desc[i]).(own := false)];
    }

    /** The hardware works on by itself, and is done with any of its descriptors, or none. */
    method Hardware()
      requires RingOk()
      modifies desc
      ensures RingOk() && Worked(old(Line(desc[..], read)), Line(desc[..], read))
    {
      hide TxRing.RingOk, Line;
      RingSize();
      for i := 0 to desc.Length
        invariant RingOk() && read < desc.Length && Worked(old(Line(desc[..], read)), Line(desc[..], read))
      {
        if * {
          if desc[i].own {
            HardwareDone(i);
          }
        }
      }
    }

    /** pbuf_free. */
    method PbufFree(p: Pbuf)
      requires p in refs
      modifies this`refs
      ensures refs == old(refs) - multiset{p}
    {
      refs := refs - multiset{p};
    }

    /** The first descriptor of a ring in use. */
    lemma FirstOfLine()
      requires RingOk()
      ensures Line(desc[..], read)[0] == desc[read]
      ensures if queued == [] then Free(desc[read]) else Matches(desc[read], queued[0])
    {
      assert Line(desc[..], read)[0] == desc[read];
    }

    /** The descriptor at the read index is free again. */
    method ClearSlot()
      requires RingOk() && queued != [] && !desc[read].own
      modifies this`read, this`queued, desc
      ensures RingOk() && queued == old(queued)[1..]
      ensures Line(desc[..], read)[..desc.Length - 1] == old(Line(desc[..], read))[1..]
    {
      hide LineOk, Line, Matches, Free;
      ghost var line := Line(desc[..], read);
      FirstOfLine();
      TagOf(desc[read], queued[0]);
      var x := desc[read].(tag := NoPbuf);
      LinePut(desc[..], read, 0, x);
      desc[read] := x;
      assert desc[..] == old(desc[..])[Slot(read, 0, desc.Length) := x];
      LineMove(desc[..], read);
      TakeFirst(line, x);
      LineOkTake(line, queued, x);
      read := read + 1;
      if read == desc.Length {
        read := 0;
      }
      queued := queued[1..];
    }

    /** The reference goes with the last descriptor of a packet. */
    method FreeLast()
      requires RingOk() && queued != [] && multiset(Held(queued)) <= refs
      modifies this`refs
      ensures refs == old(refs) - multiset(Held(queued[..1])) && multiset(Held(queued[1..])) <= refs
    {
      hide Held, TxRing.RingOk;
      HeldFirst(queued);
      StillHeld(refs, multiset(Held(queued[..1])), multiset(Held(queued[1..])));
      FirstTag();
      match desc[read].tag {
        case Final(p) =>
          PbufFree(p);
        case Intermediate(_) =>
      }
    }

    /**
     One turn of the loop in tivaif_process_transmit, at a descriptor that is in use and no longer
     owned by the hardware.
     */
    method ReleaseOne()
      requires Valid() && queued != [] && !desc[read].own
      modifies this`read, this`refs, this`queued, this`released, this`handed, desc
      ensures Valid() && queued == old(queued)[1..] && handed == old(handed) + Segments(old(queued)[..1])
      ensures released == old(released) + Held(old(queued)[..1]) && refs == old(refs) - multiset(Held(old(queued)[..1]))
      ensures Line(desc[..], read)[..desc.Length - 1] == old(Line(desc[..], read))[1..]
    {
      hide Held, Chained, LineOk, Line, Matches, Free, Segments, TxRing.RingOk;
      ChainedRest(queued, 1);
      FirstInLedgers(queued, released, handed);
      FreeLast();
      released := released + Held(queued[..1]);
      handed := handed + Segments(queued[..1]);
      ClearSlot();
    }

    lemma FirstTag()
      requires RingOk() && queued != []
      ensures read < desc.Length
      ensures desc[read].tag == if queued[0].last then Final(queued[0].p) else Intermediate(queued[0].p)
    {
      FirstOfLine();
    }

    /**
     tivaif_process_transmit, with the hardware at work meanwhile: everything up to the first
     descriptor it is found to own is given back.  `seen` is what the loop finds, turn by turn.
     */
    method ProcessTransmit() returns (ghost done: nat, ghost seen: seq<Descriptor>)
      requires Valid()
      modifies this`read, this`refs, this`queued, this`released, this`handed, desc
      ensures Valid() && done <= |old(queued)| && queued == old(queued)[done..]
      ensures handed == old(handed) + Segments(old(queued)[..done])
      ensures |seen| == (if queued == [] then done else done + 1) && Worked(old(Line(desc[..], read))[..|seen|], seen)
      ensures forall k :: 0 <= k < done ==> !seen[k].own
      ensures queued != [] ==> seen[done].own && old(Line(desc[..], read))[done].own
      ensures released == old(released) + Held(old(queued)[..done])
      ensures refs == old(refs) - multiset(Held(old(queued)[..done]))
    {
      hide Held, Chained, LineOk, Line, Matches, Free, Segments, Worked, TxRing.RingOk;
      LineLength();
      WorkedNothing(Line(desc[..], read));
      ghost var line, all := Line(desc[..], read), queued;
      done, seen := 0, [];
      HeldNothing(queued[..0]);
      SegmentsOfNothing(queued[..0]);
      for n := 0 to desc.Length
        invariant Valid() && done == n <= |all| <= desc.Length && queued == all[n..] && read < desc.Length
        invariant Worked(line[n..], Line(desc[..], read)[..desc.Length - n])
        invariant |seen| == n && Worked(line[..n], seen) && forall k :: 0 <= k < n ==> !seen[k].own
        invariant released == old(released) + Held(all[..n]) && refs == old(refs) - multiset(Held(all[..n]))
        invariant handed == old(handed) + Segments(all[..n])
      {
        ghost var earlier := Line(desc[..], read);
        Hardware();
        WorkedOn(line, earlier, Line(desc[..], read), n);
        LineLength();
        FirstInLine(line, n);
        if desc[read].own {
          InUse();
          SeenOne(line, seen, desc[read]);
          seen := seen + [desc[read]];
          return;
        }
        if desc[read].tag.NoPbuf? {
          return;
        }
        ghost var before := Line(desc[..], read);
        StepHeld(all, n, old(released), old(refs));
        StepHanded(all, n, old(handed));
        SeenOne(line, seen, desc[read]);
        seen := seen + [desc[read]];
        ReleaseOne();
        LineLength();
        NextInLine(before, Line(desc[..], read), line, n);
        done := done + 1;
      }
    }

    /** The descriptor at the write index gets the next buffer of a chain, and goes to the hardware. */
    method PutDescriptor(p: Pbuf, segment: Segment, first: bool, last: bool)
      requires RingOk() && |queued| < desc.Length
      modifies this`write, this`queued, desc
      ensures RingOk() && queued == old(queued) + [Entry(p, segment, first, last)]
      ensures Line(desc[..], read) == old(Line(desc[..], read))[|old(queued)| := desc[old(write)]]
              && desc[old(write)].own
    {
      hide LineOk, Line;
      var d := Descriptor(true, first, last, segment.payload, segment.len, if last then Final(p) else Intermediate(p));
      LinePut(desc[..], read, |queued|, d);
      LineOkPut(Line(desc[..], read), queued, d, Entry(p, segment, first, last));
      desc[write] := d;
      assert desc[..] == old(desc[..])[Slot(read, |queued|, desc.Length) := d];
      write := write + 1;
      if write == desc.Length {
        write := 0;
      }
      queued := queued + [Entry(p, segment, first, last)];
    }

    /**
     The filling loop of low_level_output, for a chain that fits; the hardware may be done with the
     first before the last is filled.
     */
    method PutPacket(p: Pbuf, chain: seq<Segment>)
      requires RingOk() && 0 < |chain| <= desc.Length - |queued|
      modifies this`write, this`queued, desc
      ensures RingOk() && queued == old(queued) + Entries(p, chain)
    {
      hide TxRing.RingOk, Line;
      RingSize();
      ghost var entries := Entries(p, chain);
      var numChained, i, first := |chain|, 0, true;
      Hardware();
      while numChained > 0
        invariant RingOk() && 0 <= i && 0 <= numChained && i + numChained == |chain| && first == (i == 0)
        invariant queued == old(queued) + entries[..i] && |old(queued)| + |chain| <= desc.Length
      {
        numChained := numChained - 1;
        assert entries[..i + 1] == entries[..i] + [entries[i]];
        PutDescriptor(p, chain[i], first, numChained == 0);
        Hardware();
        first, i := false, i + 1;
      }
    }

    lemma RingSize()
      requires RingOk()
      ensures |queued| <= desc.Length && read < desc.Length && write < desc.Length
    {
    }

    /** tivaif_check_pbuf, the reference count of the packet having been raised before. */
    method CheckPbuf(p: Pbuf, chain: seq<Segment>, allocation: Allocation) returns (checked: Checked)
      requires p in refs && (allocation.Allocated? ==> allocation.p !in refs)
      modifies this`refs
      ensures checked == Check(p, chain, allocation)
      ensures refs == match checked
                      case NoBuffer => old(refs) - multiset{p}
                      case Buffer(q, _) => if AllSafe(chain) then old(refs) else old(refs) - multiset{p} + multiset{q}
    {
      for i := 0 to |chain|
        invariant refs == old(refs) && forall k :: 0 <= k < i ==> chain[k].safe
      {
        if !chain[i].safe {
          checked := NoBuffer;
          if allocation.Allocated? {
            refs := refs + multiset{allocation.p};
            if allocation.copied {
              checked := Buffer(allocation.p, allocation.chain);
            } else {
              PbufFree(allocation.p);
            }
          }
          assert chain[i] in chain;
          PbufFree(p);
          return;
        }
      }
      checked := Buffer(p, chain);
    }

    /** The reference low_level_output takes before it knows whether the packet can be sent. */
    method TakeReference(p: Pbuf, chain: seq<Segment>, allocation: Allocation) returns (checked: Checked)
      requires p in refs && (allocation.Allocated? ==> allocation.p !in refs)
      modifies this`refs
      ensures checked == Check(p, chain, allocation)
      ensures refs == if checked.Buffer? then old(refs) + multiset{checked.p} else old(refs)
    {
      hide AllSafe;
      refs := refs + multiset{p};
      checked := CheckPbuf(p, chain, allocation);
    }

    /** The two tests of low_level_output: the descriptor at the write index is free, and enough of them are. */
    method HasRoom(count: nat) returns (room: bool)
      requires RingOk() && 0 < count
      ensures room <==> count <= desc.Length - |queued|
    {
      hide TxRing.RingOk;
      RingSize();
      if !desc[write].tag.NoPbuf? {
        FullRing();
        return false;
      }
      FreeCount();
      var numDescs := if read > write then read - write else desc.Length - write + read;
      room := numDescs >= count;
    }

    /**
     low_level_output.  A packet is accepted exactly when it, or a copy the DMA can reach, has
     enough free descriptors; then the ring holds one reference to what it transmits.
     Otherwise nothing has changed, reference counts included.
     */
    method LowLevelOutput(p: Pbuf, chain: seq<Segment>, allocation: Allocation) returns (err: Err)
      requires Valid() && p in refs - multiset(Held(queued)) && chain != []
      requires allocation.Allocated? ==> allocation.p !in refs && allocation.chain != []
      modifies this`write, this`refs, this`queued, this`accepted, this`offered, desc
      ensures Valid()
      ensures var checked := Check(p, chain, allocation);
              err.ErrOk? <==> checked.Buffer? && |checked.chain| <= desc.Length - |old(queued)|
      ensures AllSafe(chain) ==> (err.ErrOk? <==> |chain| <= desc.Length - |old(queued)|)
      ensures AllSafe(chain) && err.ErrOk? ==> offered == old(offered) + chain && accepted == old(accepted) + [p]
      ensures !AllSafe(chain) ==>
                (err.ErrOk? <==> allocation.Allocated? && allocation.copied
                                 && |allocation.chain| <= desc.Length - |old(queued)|)
      ensures !AllSafe(chain) && err.ErrOk? ==>
                offered == old(offered) + allocation.chain && accepted == old(accepted) + [allocation.p]
      ensures err.ErrOk? ==>
                var checked := Check(p, chain, allocation);
                && queued == old(queued) + Entries(checked.p, checked.chain)
                && accepted == old(accepted) + [checked.p] && refs == old(refs) + multiset{checked.p}
      ensures err.ErrMem? ==> queued == old(queued) && accepted == old(accepted) && refs == old(refs)
      ensures err.ErrMem? ==> offered == old(offered)
    {
      hide Held, Chained, Entries, TxRing.RingOk, AllSafe, Segments, Check;
      CheckedBuffer(p, chain, allocation);
      RingSize();
      var checked := TakeReference(p, chain, allocation);
      if checked.NoBuffer? {
        return ErrMem;
      }
      var q, buffers := checked.p, checked.chain;
      var room := HasRoom(|buffers|);
      if !room {
        PbufFree(q);
        return ErrMem;
      }
      Accept(q, buffers);
      err := ErrOk;
    }

    /** The packet joins the ring, which takes over the reference. */
    method Accept(q: Pbuf, buffers: seq<Segment>)
      requires RingOk() && Chained(queued) && accepted == released + Held(queued)
      requires offered == handed + Segments(queued)
      requires multiset(Held(queued)) + multiset{q} <= refs && 0 < |buffers| <= desc.Length - |queued|
      modifies this`write, this`queued, this`accepted, this`offered, desc
      ensures Valid() && queued == old(queued) + Entries(q, buffers) && accepted == old(accepted) + [q]
      ensures offered == old(offered) + buffers
    {
      hide Held, Chained, Entries, TxRing.RingOk, Segments;
      ChainInOrder(q, buffers);
      SegmentsConcat(queued, Entries(q, buffers));
      Ledger(handed, Segments(queued), buffers);
      HeldPacket(q, buffers);
      HeldConcat(queued, Entries(q, buffers));
      ChainedPacket(q, buffers);
      ChainedConcat(queued, Entries(q, buffers));
      Ledger(released, Held(queued), [q]);
      assert multiset(Held(queued) + [q]) == multiset(Held(queued)) + multiset{q};
      accepted, offered := accepted + [q], offered + buffers;
      PutPacket(q, buffers);
    }

    /** A descriptor in use at the write index means that all are. */
    lemma FullRing()
      requires RingOk() && write < desc.Length && !desc[write].tag.NoPbuf?
      ensures |queued| == desc.Length
    {
      assert |queued| < desc.Length ==> Line(desc[..], read)[|queued|] == desc[write];
    }

    /** The free descriptors, as low_level_output counts them when the one at the write index is free. */
    lemma FreeCount()
      requires RingOk() && write < desc.Length && desc[write].tag.NoPbuf?
      ensures |queued| < desc.Length
      ensures (if read > write then read - write else desc.Length - write + read) == desc.Length - |queued|
    {
      if |queued| == desc.Length {
        FirstOfLine();
      }
    }

    lemma LineLength()
      requires RingOk()
      ensures read < desc.Length && |queued| <= desc.Length
      ensures desc[read].tag.NoPbuf? <==> queued == []
    {
      FirstOfLine();
    }

    /** The hardware owns no free descriptor. */
    lemma InUse()
      requires RingOk() && read < desc.Length && desc[read].own
      ensures queued != []
    {
      FirstOfLine();
    }

    lemma FirstInLine(line: seq<Descriptor>, n: nat)
      requires RingOk() && read < desc.Length && n < desc.Length == |line|
      requires Worked(line[n..], Line(desc[..], read)[..desc.Length - n])
      ensures desc[read] == line[n] || desc[read] == line[n].(own := false)
    {
      var now := Line(desc[..], read)[..desc.Length - n];
      assert now[0] == line[n..][0] || now[0] == line[n..][0].(own := false);
    }
  }

  lemma ChainedPacket(p: Pbuf, chain: seq<Segment>)
    ensures Chained(Entries(p, chain))
  {
  }

  lemma SegmentsOfNothing(es: seq<Entry>)
    requires es == []
    ensures Segments(es) == []
  {
  }

  lemma StepHanded(all: seq<Entry>, n: nat, handed: seq<Segment>)
    requires n < |all|
    ensures (handed + Segments(all[..n])) + Segments(all[n..][..1]) == handed + Segments(all[..n + 1])
  {
    hide Segments;
    var a, b := all[..n], all[n..][..1];
    assert all[..n + 1] == a + b;
    SegmentsConcat(a, b);
    Ledger(handed, Segments(a), Segments(b));
  }

  lemma HeldNothing(es: seq<Entry>)
    requires es == []
    ensures Held(es) == []
  {
  }

  lemma NextInLine(before: seq<Descriptor>, after: seq<Descriptor>, line: seq<Descriptor>, n: nat)
    requires |before| == |after| == |line| && n < |line| && after[..|line| - 1] == before[1..]
    requires Worked(line[n..], before[..|line| - n])
    ensures Worked(line[n + 1..], after[..|line| - (n + 1)])
  {
    forall k | 0 <= k < |line| - (n + 1)
      ensures after[k] == line[n + 1 + k] || after[k] == line[n + 1 + k].(own := false)
    {
      assert after[k] == after[..|line| - 1][k] == before[1..][k] == before[..|line| - n][k + 1];
      assert line[n + 1 + k] == line[n..][k + 1];
    }
  }

  lemma WorkedOn(line: seq<Descriptor>, before: seq<Descriptor>, after: seq<Descriptor>, n: nat)
    requires |before| == |after| == |line| && n <= |line|
    requires Worked(line[n..], before[..|line| - n]) && Worked(before, after)
    ensures Worked(line[n..], after[..|line| - n])
  {
  }

  lemma WorkedNothing(line: seq<Descriptor>)
    ensures Worked(line, line) && Worked(line[0..], line[..|line| - 0]) && Worked(line[..0], [])
  {
  }

  lemma SeenOne(line: seq<Descriptor>, seen: seq<Descriptor>, d: Descriptor)
    requires |seen| < |line| && Worked(line[..|seen|], seen) && (d == line[|seen|] || d == line[|seen|].(own := false))
    ensures Worked(line[..|seen| + 1], seen + [d])
  {
    forall k | 0 <= k <= |seen|
      ensures (seen + [d])[k] == line[k] || (seen + [d])[k] == line[k].(own := false)
    {
      if k < |seen| {
        assert line[..|seen|][k] == line[k];
      }
    }
  }

  /** One more entry given back, seen from the whole queue. */
  lemma StepHeld(all: seq<Entry>, n: nat, released: seq<Pbuf>, refs: multiset<Pbuf>)
    requires n < |all|
    ensures (released + Held(all[..n])) + Held(all[n..][..1]) == released + Held(all[..n + 1])
    ensures (refs - multiset(Held(all[..n]))) - multiset(Held(all[n..][..1])) == refs - multiset(Held(all[..n + 1]))
    ensures all[n..][1..] == all[n + 1..]
  {
    hide Held;
    var a, b := all[..n], all[n..][..1];
    assert all[..n + 1] == a + b;
    HeldConcat(a, b);
    Ledger(released, Held(a), Held(b));
    assert multiset(Held(a + b)) == multiset(Held(a)) + multiset(Held(b));
  }

  lemma StillHeld(refs: multiset<Pbuf>, a: multiset<Pbuf>, b: multiset<Pbuf>)
    requires a + b <= refs
    ensures b <= refs - a && refs - multiset{} == refs
  {
  }

  lemma Ledger<T>(a: seq<T>, b: seq<T>, c: seq<T>)
    ensures a + (b + c) == (a + b) + c
  {
  }

  lemma TakeFirst(line: seq<Descriptor>, x: Descriptor)
    requires line != []
    ensures line[0 := x][1..] == line[1..] && (line[1..] + [x])[..|line| - 1] == line[1..]
  {
  }

  lemma TagOf(d: Descriptor, e: Entry)
    requires Matches(d, e)
    ensures d.tag == if e.last then Final(e.p) else Intermediate(e.p)
    ensures !d.own ==> Free(d.(tag := NoPbuf))
  {
  }

  lemma HeldFirst(es: seq<Entry>)
    requires es != []
    ensures Held(es[..1]) == (if es[0].last then [es[0].p] else [])
    ensures Held(es) == Held(es[..1]) + Held(es[1..])
    ensures multiset(Held(es)) == multiset(Held(es[..1])) + multiset(Held(es[1..]))
    ensures es[0].last ==> es[0].p in multiset(Held(es)) && multiset(Held(es[..1])) == multiset{es[0].p}
    ensures !es[0].last ==> multiset(Held(es[..1])) == multiset{}
  {
    hide Held;
    assert es == es[..1] + es[1..] && es[..1] == [es[0]];
    HeldConcat(es[..1], es[1..]);
    HeldOne(es[0]);
  }

  /** The first entry moves from one side of each ledger to the other. */
  lemma FirstInLedgers(es: seq<Entry>, released: seq<Pbuf>, handed: seq<Segment>)
    requires es != []
    ensures released + Held(es) == (released + Held(es[..1])) + Held(es[1..])
    ensures handed + Segments(es) == (handed + Segments(es[..1])) + Segments(es[1..])
  {
    hide Held, Segments;
    HeldFirst(es);
    assert es == es[..1] + es[1..];
    SegmentsConcat(es[..1], es[1..]);
    Ledger(released, Held(es[..1]), Held(es[1..]));
    Ledger(handed, Segments(es[..1]), Segments(es[1..]));
  }

  lemma HeldOne(e: Entry)
    ensures Held([e]) == if e.last then [e.p] else []
  {
    assert [e][1..] == [];
  }
}
