/**
 One writer and one reader share a stream or message buffer (stream_buffer.c) without a
 lock: each copies byte by byte and then publishes its own index in one store.  The two are
 interleaved between any two of these steps.
 */
module StreamSharing {
  import opened Rings
  import opened StreamRing

  /** Where the writer stands: it has looked up the space, or is copying a payload in. */
  datatype Writer =
    | WriterIdle
    | SpaceKnown(space: nat)
    | CopyingIn(payload: seq<Byte>, at: nat, body: seq<Byte>)

  /**
   Where the reader stands.  `frames` counts the messages that the available bytes were
   made of when the reader looked.
   */
  datatype Reader =
    | ReaderIdle
    | BytesKnown(available: nat, frames: nat)
    | ReadingLength(available: nat, frames: nat, room: nat, got: seq<Byte>)
    | CopyingOut(count: nat, got: seq<Byte>)

  /** `sent`, `received`, `pending` and `delivered` record what was published by either side. */
  datatype State = State(
    messages: bool,
    buffer: seq<Byte>,
    head: nat,
    tail: nat,
    writer: Writer,
    reader: Reader,
    sent: seq<Byte>,
    received: seq<Byte>,
    accepted: seq<seq<Byte>>,
    pending: seq<seq<Byte>>,
    delivered: seq<seq<Byte>>)
  {
    ghost predicate Shaped() {
      head < |buffer| && tail < |buffer|
    }

    function Used(): nat
      requires Shaped()
    {
      StreamRing.Used(head, tail, |buffer|)
    }

    function Spaces(): nat
      requires Shaped()
    {
      StreamRing.Spaces(head, tail, |buffer|)
    }
  }

  datatype Step =
    | LookAtSpace
    | StartWrite(data: seq<Byte>)
    | CopyByteIn
    | PublishHead
    | LookAtBytes
    | StartRead(room: nat)
    | CopyByteOut
    | ReadLengthDone
    | PublishTail

  /**
   What a write with `space` bytes known to be free copies: of a stream as much as fits, of a
   message all or nothing.
   */
  function Payload(messages: bool, data: seq<Byte>, space: nat): (p: seq<Byte>)
    requires messages ==> |data| < 0x1_0000_0000
    ensures |p| <= space
  {
    if messages then
      if space >= |data| + LENGTH_BYTES then LengthBytes(|data|) + data else []
    else if |data| <= space then data else data[..space]
  }

  predicate Enabled(s: State, step: Step)
    requires s.Shaped()
  {
    match step
    case LookAtSpace => s.writer.WriterIdle? || s.writer.SpaceKnown?
    case StartWrite(data) => s.writer.SpaceKnown? && (s.messages ==> |data| < 0x1_0000_0000)
    case CopyByteIn => s.writer.CopyingIn? && s.writer.at < |s.writer.payload|
    case PublishHead => s.writer.CopyingIn? && s.writer.at == |s.writer.payload|
    case LookAtBytes => s.reader.ReaderIdle? || s.reader.BytesKnown?
    case StartRead(_) => s.reader.BytesKnown? && s.reader.available > (if s.messages then LENGTH_BYTES else 0)
    case CopyByteOut =>
      || (s.reader.ReadingLength? && |s.reader.got| < LENGTH_BYTES)
      || (s.reader.CopyingOut? && |s.reader.got| < s.reader.count)
    case ReadLengthDone => s.reader.ReadingLength? && |s.reader.got| == LENGTH_BYTES
    case PublishTail => s.reader.CopyingOut? && |s.reader.got| == s.reader.count
  }

  // ---------- The invariant ----------

  /** Everything published and not yet consumed lies in the ring, in order. */
  ghost predicate RingOk(s: State) {
    && s.Shaped() && 2 <= |s.buffer|
    && s.sent == s.received + Bytes(s.buffer, s.tail, s.Used())
  }

  /** The space the writer knows of is still free, and what it copied lies behind the head. */
  ghost predicate WriterOk(s: State)
    requires s.Shaped()
  {
    match s.writer
    case WriterIdle => true
    case SpaceKnown(space) => space <= s.Spaces()
    case CopyingIn(payload, at, body) =>
      && at <= |payload| <= s.Spaces() && Bytes(s.buffer, s.head, at) == payload[..at]
      && (if s.messages then |body| < 0x1_0000_0000 && payload == LengthBytes(|body|) + body else payload != [])
  }

  /** The bytes the reader knows of are still there, and what it copied is their beginning. */
  ghost predicate ReaderOk(s: State)
    requires s.Shaped()
  {
    match s.reader
    case ReaderIdle => true
    case BytesKnown(available, _) => available <= s.Used()
    case ReadingLength(available, _, _, got) =>
      s.messages && LENGTH_BYTES < available <= s.Used() && |got| <= LENGTH_BYTES
          && got == Bytes(s.buffer, s.tail, |got|)
    case CopyingOut(count, got) =>
      0 < count <= s.Used() && |got| <= count && got == Bytes(s.buffer, s.tail, |got|)
  }

  /** A message buffer holds whole frames, and the reader saw whole frames. */
  ghost predicate MessagesOk(s: State)
    requires s.Shaped()
  {
    && AreMessages(s.accepted) && AreMessages(s.delivered) && AreMessages(s.pending)
    && s.accepted == s.delivered + s.pending && s.received == Frames(s.delivered)
    && Bytes(s.buffer, s.tail, s.Used()) == Frames(s.pending)
    && match s.reader
       case ReaderIdle => true
       case BytesKnown(available, frames) => frames <= |s.pending| && available == |Frames(s.pending[..frames])|
       case ReadingLength(available, frames, _, _) => frames <= |s.pending|
           && available == |Frames(s.pending[..frames])|
       case CopyingOut(count, _) => s.pending != [] && count == |Frame(s.pending[0])|
  }

  ghost predicate Inv(s: State) {
    RingOk(s) && WriterOk(s) && ReaderOk(s) && (s.messages ==> MessagesOk(s))
  }

  /** prvInitialiseNewStreamBuffer, on storage of any contents that is one byte longer than asked for. */
  ghost function Initial(messages: bool, storage: seq<Byte>): (s: State)
    requires 2 <= |storage|
    ensures Inv(s)
  {
    State(messages, storage, 0, 0, WriterIdle, ReaderIdle, [], [], [], [], [])
  }

  // ---------- The steps ----------

  function Min(a: nat, b: nat): nat {
    if a <= b then a else b
  }

  /** The next byte of the ring for a reader that has `got` some. */
  function ByteOut(s: State, got: seq<Byte>): Byte
    requires s.Shaped() && |got| < |s.buffer|
  {
    s.buffer[Slot(s.tail, |got|, |s.buffer|)]
  }

  function Next(s: State, step: Step): State
    requires Inv(s) && Enabled(s, step)
  {
    match step
    case LookAtSpace => s.(writer := SpaceKnown(s.Spaces()))
    case StartWrite(data) =>
      var payload := Payload(s.messages, data, s.writer.space);
      s.(writer := if payload == [] then WriterIdle else CopyingIn(payload, 0, data))
    case CopyByteIn =>
      var w := s.writer;
      s.(buffer := s.buffer[Slot(s.head, w.at, |s.buffer|) := w.payload[w.at]], writer := w.(at := w.at + 1))
    case PublishHead =>
      var w := s.writer;
      if s.messages && w.body == [] then s.(writer := WriterIdle)
      else
        s.(head := Slot(s.head, |w.payload|, |s.buffer|), writer := WriterIdle, sent := s.sent + w.payload,
           accepted := if s.messages then s.accepted + [w.body] else [],
           pending := if s.messages then s.pending + [w.body] else [])
    case LookAtBytes => s.(reader := BytesKnown(s.Used(), |s.pending|))
    case StartRead(room) =>
      var r := s.reader;
      if s.messages then s.(reader := ReadingLength(r.available, r.frames, room, []))
      else if room == 0 then s.(reader := ReaderIdle)
      else s.(reader := CopyingOut(Min(room, r.available), []))
    case CopyByteOut =>
      var got := s.reader.got + [ByteOut(s, s.reader.got)];
      s.(reader := s.reader.(got := got))
    case ReadLengthDone =>
      var r := s.reader;
      var next := LengthOf(r.got);
      var count := Min(if next > r.room then 0 else next, r.available - LENGTH_BYTES);
      s.(reader := if count == 0 then ReaderIdle else CopyingOut(LENGTH_BYTES + count, r.got))
    case PublishTail =>
      var r := s.reader;
      s.(tail := Slot(s.tail, r.count, |s.buffer|), reader := ReaderIdle, received := s.received + r.got,
         delivered := if s.messages then s.delivered + [r.got[LENGTH_BYTES..]] else [],
         pending := if s.messages then s.pending[1..] else [])
  }

  // ---------- Every step keeps the invariant ----------

  lemma KeepStartWrite(s: State, data: seq<Byte>)
    requires Inv(s) && Enabled(s, StartWrite(data))
    ensures Inv(Next(s, StartWrite(data)))
  {
    hide LengthBytes, Frames, Bytes;
    assert Bytes(s.buffer, s.head, 0) == Payload(s.messages, data, s.writer.space)[..0];
  }

  /** A byte copied in changes neither what is published nor what the reader has copied. */
  lemma KeepCopyByteIn(s: State)
    requires Inv(s) && Enabled(s, CopyByteIn)
    ensures Inv(Next(s, CopyByteIn))
  {
    hide Frames, LengthBytes, Bytes;
    var n, w, used := |s.buffer|, s.writer, s.Used();
    var b := w.payload[w.at];
    assert w.payload[..w.at + 1] == w.payload[..w.at] + [b];
    HeadIsSlot(s.head, s.tail, n);
    SlotSum(s.tail, used, w.at, n);
    WriteKeeps(s.buffer, s.tail, used, used + w.at, b);
    WriteAppends(s.buffer, s.head, w.at, b);
    if s.reader.ReadingLength? || s.reader.CopyingOut? {
      WriteKeeps(s.buffer, s.tail, |s.reader.got|, used + w.at, b);
    }
  }

  /** Publishing the head adds the payload to what lies in the ring. */
  lemma PublishedBytes(s: State)
    requires Inv(s) && s.writer.CopyingIn? && s.writer.at == |s.writer.payload|
    ensures var k, head' := |s.writer.payload|, Slot(s.head, |s.writer.payload|, |s.buffer|);
            var used' := Used(head', s.tail, |s.buffer|);
            used' == s.Used() + k && Bytes(s.buffer, s.tail, used')
                == Bytes(s.buffer, s.tail, s.Used()) + s.writer.payload
  {
    hide Frames, LengthBytes, Bytes, MessagesOk;
    var w, n := s.writer, |s.buffer|;
    HeadIsSlot(s.head, s.tail, n);
    AdvanceHead(s.head, s.tail, n, |w.payload|);
    BytesSplit(s.buffer, s.tail, s.Used(), |w.payload|);
    assert w.payload[..|w.payload|] == w.payload;
  }

  lemma MessagePublished(pending: seq<seq<Byte>>, body: seq<Byte>)
    requires AreMessages(pending) && IsMessage(body)
    ensures AreMessages(pending + [body]) && Frames(pending + [body]) == Frames(pending) + (LengthBytes(|body|) + body)
  {
    hide LengthBytes;
    FramesConcat(pending, [body]);
    OneFrame(body);
  }

  /** What the reader saw stays the beginning of what is pending. */
  lemma StillSeen(pending: seq<seq<Byte>>, more: seq<seq<Byte>>, frames: nat)
    requires frames <= |pending|
    ensures (pending + more)[..frames] == pending[..frames]
  {
  }

  lemma Associative<T>(a: seq<T>, b: seq<T>, c: seq<T>)
    ensures (a + b) + c == a + (b + c)
  {
  }

  /** The head moves over the whole payload at once, so a message's length and body appear together. */
  lemma KeepPublishHead(s: State)
    requires Inv(s) && Enabled(s, PublishHead)
    ensures Inv(Next(s, PublishHead))
  {
    hide LengthBytes, Frames, Bytes, Frame;
    var w := s.writer;
    PublishedBytes(s);
    Associative(s.received, Bytes(s.buffer, s.tail, s.Used()), w.payload);
    if s.messages && w.body != [] {
      MessagePublished(s.pending, w.body);
      Associative(s.delivered, s.pending, [w.body]);
      if s.reader.BytesKnown? || s.reader.ReadingLength? {
        StillSeen(s.pending, [w.body], s.reader.frames);
      }
    }
  }

  lemma OneFrame(m: seq<Byte>)
    requires IsMessage(m)
    ensures Frames([m]) == Frame(m)
  {
    assert [m][1..] == [] && Frames([]) == [];
  }

  lemma KeepStartRead(s: State, room: nat)
    requires Inv(s) && Enabled(s, StartRead(room))
    ensures Inv(Next(s, StartRead(room)))
  {
    hide Frames;
  }

  lemma KeepLookAtBytes(s: State)
    requires Inv(s) && Enabled(s, LookAtBytes)
    ensures Inv(Next(s, LookAtBytes))
  {
    hide Frames;
    assert s.pending[..|s.pending|] == s.pending;
  }

  lemma KeepCopyByteOut(s: State)
    requires Inv(s) && Enabled(s, CopyByteOut)
    ensures Inv(Next(s, CopyByteOut))
  {
    hide Frames, Frame;
  }

  /** What the reader decodes is the length of the first pending message, all of whose bytes it knows of. */
  lemma LengthRead(s: State)
    requires Inv(s) && Enabled(s, ReadLengthDone)
    ensures s.pending != [] && LengthOf(s.reader.got) == |s.pending[0]| && |Frame(s.pending[0])| <= s.reader.available
  {
    hide Frame, LengthOf;
    var r := s.reader;
    var seen := s.pending[..r.frames];
    NoFrames(seen);
    FirstFrame(seen);
    FirstFrame(s.pending);
    assert r.got == Frames(s.pending)[..LENGTH_BYTES];
  }

  lemma NoFrames(ms: seq<seq<Byte>>)
    requires AreMessages(ms)
    ensures ms == [] ==> Frames(ms) == []
  {
  }

  lemma KeepReadLengthDone(s: State)
    requires Inv(s) && Enabled(s, ReadLengthDone)
    ensures Inv(Next(s, ReadLengthDone))
  {
    hide Frames, LengthOf;
    LengthRead(s);
  }

  /** The bytes a reader has copied once it is done with a message are its frame. */
  lemma FrameRead(s: State)
    requires Inv(s) && Enabled(s, PublishTail) && s.messages
    ensures s.reader.got == Frame(s.pending[0]) && s.reader.got[LENGTH_BYTES..] == s.pending[0]
  {
    FirstFrame(s.pending);
    assert s.reader.got == Frames(s.pending)[..s.reader.count];
  }

  /** Publishing the tail takes what the reader copied out of the ring. */
  lemma ConsumedBytes(s: State)
    requires Inv(s) && s.reader.CopyingOut? && |s.reader.got| == s.reader.count
    ensures var k, tail' := s.reader.count, Slot(s.tail, s.reader.count, |s.buffer|);
            var used' := Used(s.head, tail', |s.buffer|);
            used' == s.Used() - k && Bytes(s.buffer, s.tail, s.Used()) == s.reader.got + Bytes(s.buffer, tail', used')
  {
    hide Frames, LengthBytes, Bytes, MessagesOk;
    AdvanceTail(s.head, s.tail, |s.buffer|, s.reader.count);
    BytesSplit(s.buffer, s.tail, s.reader.count, s.Used() - s.reader.count);
  }

  lemma MessageDelivered(delivered: seq<seq<Byte>>, m: seq<Byte>)
    requires AreMessages(delivered) && IsMessage(m)
    ensures AreMessages(delivered + [m]) && Frames(delivered + [m]) == Frames(delivered) + Frame(m)
  {
    FramesConcat(delivered, [m]);
    OneFrame(m);
  }

  lemma MessageConsumed(delivered: seq<seq<Byte>>, pending: seq<seq<Byte>>, rest: seq<Byte>)
    requires AreMessages(delivered) && AreMessages(pending) && pending != []
             && Frames(pending) == Frame(pending[0]) + rest
    ensures AreMessages(delivered + [pending[0]]) && AreMessages(pending[1..]) && Frames(pending[1..]) == rest
    ensures delivered + pending == (delivered + [pending[0]]) + pending[1..]
  {
    hide Frame;
    assert pending[0] in pending;
    assert Frames(pending)[|Frame(pending[0])|..] == rest == Frames(pending[1..]);
  }

  lemma KeepPublishTail(s: State)
    requires Inv(s) && Enabled(s, PublishTail)
    ensures Inv(Next(s, PublishTail))
  {
    hide LengthBytes, Frames, Bytes, Frame;
    var tail' := Slot(s.tail, s.reader.count, |s.buffer|);
    var rest := Bytes(s.buffer, tail', Used(s.head, tail', |s.buffer|));
    ConsumedBytes(s);
    Associative(s.received, s.reader.got, rest);
    if s.messages {
      FrameRead(s);
      assert s.pending[0] in s.pending;
      MessageDelivered(s.delivered, s.pending[0]);
      MessageConsumed(s.delivered, s.pending, rest);
    }
  }

  lemma StepKeepsInv(s: State, step: Step)
    requires Inv(s) && Enabled(s, step)
    ensures Inv(Next(s, step))
  {
    hide Inv, Next;
    match step {
      case LookAtSpace => KeepLookAtSpace(s);
      case StartWrite(data) => KeepStartWrite(s, data);
      case CopyByteIn => KeepCopyByteIn(s);
      case PublishHead => KeepPublishHead(s);
      case LookAtBytes => KeepLookAtBytes(s);
      case StartRead(room) => KeepStartRead(s, room);
      case CopyByteOut => KeepCopyByteOut(s);
      case ReadLengthDone => KeepReadLengthDone(s);
      case PublishTail => KeepPublishTail(s);
    }
  }

  lemma KeepLookAtSpace(s: State)
    requires Inv(s) && Enabled(s, LookAtSpace)
    ensures Inv(Next(s, LookAtSpace))
  {
  }

  // ---------- Runs ----------

  /** Each step can be taken where the ones before it lead. */
  ghost predicate Runs(s: State, steps: seq<Step>)
    requires Inv(s)
    decreases |steps|
  {
    steps == [] || (Enabled(s, steps[0]) && (StepKeepsInv(s, steps[0]); Runs(Next(s, steps[0]), steps[1..])))
  }

  ghost function After(s: State, steps: seq<Step>): (t: State)
    requires Inv(s) && Runs(s, steps)
    ensures Inv(t) && |t.buffer| == |s.buffer| && t.messages == s.messages
    decreases |steps|
  {
    if steps == [] then s
    else
      StepKeepsInv(s, steps[0]);
      After(Next(s, steps[0]), steps[1..])
  }

  /**
   However the two sides interleave, what was received is the beginning of what was sent, and the
   ring holds the rest.
   */
  lemma ReceivedIsPrefix(storage: seq<Byte>, messages: bool, steps: seq<Step>)
    requires 2 <= |storage| && Runs(Initial(messages, storage), steps)
    ensures var t := After(Initial(messages, storage), steps);
            && t.Shaped() && t.received <= t.sent
            && t.sent[|t.received|..] == Bytes(t.buffer, t.tail, t.Used())
            && t.Used() + t.Spaces() == |storage| - 1
  {
  }

  /** In message mode only whole messages arrive, in the order in which they were accepted, and none is lost. */
  lemma MessagesInOrder(storage: seq<Byte>, steps: seq<Step>)
    requires 2 <= |storage| && Runs(Initial(true, storage), steps)
    ensures var t := After(Initial(true, storage), steps);
            && t.Shaped() && AreMessages(t.accepted) && AreMessages(t.delivered) && AreMessages(t.pending)
            && t.delivered + t.pending == t.accepted
            && t.sent == Frames(t.accepted) && t.received == Frames(t.delivered)
            && Bytes(t.buffer, t.tail, t.Used()) == Frames(t.pending)
  {
    hide Frames;
    var t := After(Initial(true, storage), steps);
    FramesConcat(t.delivered, t.pending);
  }

  /**
   A reader that has decoded a length takes the whole message if it has the room, and otherwise
   leaves everything as it is.
   */
  lemma WholeOrNothing(s: State)
    requires Inv(s) && Enabled(s, ReadLengthDone)
    ensures s.pending != [] && IsMessage(s.pending[0])
    ensures Next(s, ReadLengthDone) == s.(reader :=
              if |s.pending[0]| <= s.reader.room then CopyingOut(|Frame(s.pending[0])|, s.reader.got) else ReaderIdle)
  {
    hide Frames, LengthOf;
    LengthRead(s);
    assert s.pending[0] in s.pending;
  }

  // ---------- Empty messages ----------

  /** The messages that the writer has copied in completely during a run, empty ones included. */
  ghost function Written(s: State, steps: seq<Step>): seq<seq<Byte>>
    requires Inv(s) && Runs(s, steps)
    decreases |steps|
  {
    if steps == [] then []
    else
      StepKeepsInv(s, steps[0]);
      (if steps[0].PublishHead? then [s.writer.body] else []) + Written(Next(s, steps[0]), steps[1..])
  }

  function NonEmpty(ms: seq<seq<Byte>>): seq<seq<Byte>> {
    if ms == [] then [] else (if ms[0] == [] then [] else [ms[0]]) + NonEmpty(ms[1..])
  }

  lemma AcceptedStep(s: State, step: Step)
    requires Inv(s) && Enabled(s, step) && s.messages
    ensures Next(s, step).messages
    ensures Next(s, step).accepted == s.accepted + NonEmpty(if step.PublishHead? then [s.writer.body] else [])
  {
    hide Inv;
    MessagesPublish(s);
    assert NonEmpty([]) == [] && s.accepted + [] == s.accepted;
    if step.PublishHead? {
      OneMessage(s.writer.body);
    } else {
      assert Next(s, step).accepted == s.accepted;
    }
  }

  lemma OneMessage(m: seq<Byte>)
    ensures NonEmpty([m]) == if m == [] then [] else [m]
  {
    assert [m][1..] == [];
  }

  lemma MessagesPublish(s: State)
    requires Inv(s)
    ensures s.Shaped()
  {
  }

  lemma {:induction false} NonEmptyConcat(a: seq<seq<Byte>>, b: seq<seq<Byte>>)
    ensures NonEmpty(a + b) == NonEmpty(a) + NonEmpty(b)
  {
    if a == [] {
      assert a + b == b && NonEmpty(a) + NonEmpty(b) == NonEmpty(b);
    } else {
      NonEmptyConcat(a[1..], b);
      assert (a + b)[1..] == a[1..] + b && (a + b)[0] == a[0];
      Associative(if a[0] == [] then [] else [a[0]], NonEmpty(a[1..]), NonEmpty(b));
    }
  }

  lemma {:induction false} AcceptedInRun(s: State, steps: seq<Step>)
    requires Inv(s) && Runs(s, steps) && s.messages
    ensures After(s, steps).accepted == s.accepted + NonEmpty(Written(s, steps))
    decreases |steps|
  {
    hide Inv, Next;
    if steps == [] {
      assert s.accepted + NonEmpty([]) == s.accepted;
    } else {
      var step := steps[0];
      var here := if step.PublishHead? then [s.writer.body] else [];
      StepKeepsInv(s, step);
      AcceptedStep(s, step);
      AcceptedInRun(Next(s, step), steps[1..]);
      var later := Written(Next(s, step), steps[1..]);
      NonEmptyConcat(here, later);
      Associative(s.accepted, NonEmpty(here), NonEmpty(later));
    }
  }

  /**
   Over a whole run an empty message, though its length is copied in, leaves no trace: what
   has arrived and what is still to come are the other messages written, in order.
   */
  lemma EmptyMessagesUnseen(storage: seq<Byte>, steps: seq<Step>)
    requires 2 <= |storage| && Runs(Initial(true, storage), steps)
    ensures var s := Initial(true, storage);
            After(s, steps).delivered + After(s, steps).pending == NonEmpty(Written(s, steps))
  {
    hide NonEmpty, Written;
    AcceptedInRun(Initial(true, storage), steps);
  }
}
