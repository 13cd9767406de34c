/**
 Stream and message buffers (stream_buffer.c) as one side runs: block copies that may wrap
 round the end of the storage, and the one store that publishes an index.
 */
module StreamBuffer {
  import opened Rings
  import opened StreamRing
  import StreamSharing

  class Buffer {
    const messages: bool
    const xLength: nat
    const pucBuffer: array<Byte>
    var xHead: nat
    var xTail: nat

    ghost predicate Valid()
      reads this, pucBuffer
    {
      2 <= xLength == pucBuffer.Length && xHead < xLength && xTail < xLength
    }

    /** The bytes published and not consumed. */
    ghost function Contents(): seq<Byte>
      requires Valid()
      reads this, pucBuffer
    {
      Bytes(pucBuffer[..], xTail, Used(xHead, xTail, xLength))
    }

    /** xStreamBufferGenericCreate and prvInitialiseNewStreamBuffer. */
    constructor (size: nat, messages: bool)
      requires size > if messages then LENGTH_BYTES else 0
      ensures Valid() && fresh(pucBuffer) && xLength == size + 1 && this.messages == messages && Contents() == []
    {
      this.messages, xLength := messages, size + 1;
      pucBuffer := new Byte[size + 1](_ => 0);
      xHead, xTail := 0, 0;
    }

    /** prvBytesInBuffer. */
    method BytesInBuffer() returns (count: nat)
      requires Valid()
      ensures count == |Contents()|
    {
      count := xLength + xHead - xTail;
      if count >= xLength {
        count := count - xLength;
      }
    }

    /** xStreamBufferSpacesAvailable. */
    method SpacesAvailable() returns (space: nat)
      requires Valid()
      ensures space == xLength - 1 - |Contents()|
    {
      space := xLength + xTail - xHead - 1;
      if space >= xLength {
        space := space - xLength;
      }
    }

    /** prvWriteBytesToBuffer: two block copies when the data wraps round. */
    method WriteBytes(data: seq<Byte>, head: nat) returns (next: nat)
      requires Valid() && head < xLength && 0 < |data| < xLength
      modifies pucBuffer
      ensures next == Slot(head, |data|, xLength) && Bytes(pucBuffer[..], head, |data|) == data
      ensures SameBeyond(old(pucBuffer[..]), pucBuffer[..], head, |data|)
    {
      var firstLength := if xLength - head < |data| then xLength - head else |data|;
      forall i | 0 <= i < firstLength {
        pucBuffer[head + i] := data[i];
      }
      if |data| > firstLength {
        forall i | 0 <= i < |data| - firstLength {
          pucBuffer[i] := data[firstLength + i];
        }
      }
      next := head + |data|;
      if next >= xLength {
        next := next - xLength;
      }
      assert forall k :: 0 <= k < |data| ==> pucBuffer[Slot(head, k, xLength)] == data[k];
    }

    /** prvReadBytesFromBuffer. */
    method ReadBytes(count: nat, tail: nat) returns (data: seq<Byte>, next: nat)
      requires Valid() && tail < xLength && 0 < count < xLength
      ensures data == Bytes(pucBuffer[..], tail, count) && next == Slot(tail, count, xLength)
    {
      var firstLength := if xLength - tail < count then xLength - tail else count;
      data := pucBuffer[tail..tail + firstLength];
      if count > firstLength {
        data := data + pucBuffer[..count - firstLength];
      }
      next := tail + count;
      if next >= xLength {
        next := next - xLength;
      }
    }

    /** What publishing a head adds to the contents. */
    lemma Published(before: seq<Byte>, k: nat)
      requires Valid() && |before| == xLength && k <= Spaces(xHead, xTail, xLength)
               && SameBeyond(before, pucBuffer[..], xHead, k)
      ensures var head' := Slot(xHead, k, xLength);
              && Bytes(pucBuffer[..], xTail, Used(xHead, xTail, xLength))
                  == Bytes(before, xTail, Used(xHead, xTail, xLength))
              && Bytes(pucBuffer[..], xTail, Used(head', xTail, xLength))
                 == Bytes(before, xTail, Used(xHead, xTail, xLength)) + Bytes(pucBuffer[..], xHead, k)
    {
      hide Bytes, SameBeyond;
      WriteBeyondHead(before, pucBuffer[..], xHead, xTail, k);
      HeadIsSlot(xHead, xTail, xLength);
      AdvanceHead(xHead, xTail, xLength, k);
      BytesSplit(pucBuffer[..], xTail, Used(xHead, xTail, xLength), k);
    }

    /** prvWriteMessageToBuffer; `space` may be out of date, as long as that much is free. */
    method WriteMessage(data: seq<Byte>, space: nat) returns (sent: nat)
      requires Valid() && space <= xLength - 1 - |Contents()| && (messages ==> |data| < 0x1_0000_0000)
      modifies this`xHead, pucBuffer
      ensures Valid()
      ensures var payload := StreamSharing.Payload(messages, data, space);
              && sent == (if messages && |payload| > 0 then |data| else |payload|)
              && Contents() == old(Contents()) + (if sent > 0 then payload else [])
    {
      hide LengthBytes, Bytes, SameBeyond, Slot, Used;
      ghost var before, contents := pucBuffer[..], Contents();
      var nextHead := xHead;
      sent := |data|;
      if messages {
        if space >= |data| + LENGTH_BYTES {
          nextHead := WriteBytes(LengthBytes(|data|), nextHead);
        } else {
          sent := 0;
        }
      } else {
        sent := if space < |data| then space else |data|;
      }
      ghost var between := pucBuffer[..];
      if sent != 0 {
        nextHead := WriteBytes(data[..sent], nextHead);
        if messages {
          assert Bytes(pucBuffer[..], xTail, Used(nextHead, xTail, xLength))
              == contents + (LengthBytes(sent) + data) by {
            SecondBlock(between, pucBuffer[..], xHead, LENGTH_BYTES, sent);
            SameBeyondBoth(before, between, pucBuffer[..], xHead, LENGTH_BYTES, sent);
            Published(before, LENGTH_BYTES + sent);
            SlotSum(xHead, LENGTH_BYTES, sent, xLength);
            assert data[..sent] == data;
          }
        } else {
          assert Bytes(pucBuffer[..], xTail, Used(nextHead, xTail, xLength)) == contents + data[..sent] by {
            Published(before, sent);
          }
        }
        xHead := nextHead;
      } else if messages && space >= |data| + LENGTH_BYTES {
        Published(before, LENGTH_BYTES);
      }
    }

    /** xStreamBufferSend and xStreamBufferSendFromISR once they no longer wait. */
    method Send(data: seq<Byte>) returns (sent: nat)
      requires Valid() && (messages ==> |data| < 0x1_0000_0000)
      modifies this`xHead, pucBuffer
      ensures Valid()
      ensures messages && data != [] && |data| + LENGTH_BYTES <= xLength - 1 - |old(Contents())| ==>
                sent == |data| && Contents() == old(Contents()) + Frame(data)
      ensures messages && !(data != [] && |data| + LENGTH_BYTES <= xLength - 1 - |old(Contents())|) ==>
                sent == 0 && Contents() == old(Contents())
      ensures !messages ==>
                && sent == (if |data| <= xLength - 1 - |old(Contents())| then |data|
                    else xLength - 1 - |old(Contents())|)
                && Contents() == old(Contents()) + data[..sent]
    {
      hide LengthBytes, Bytes;
      var space := SpacesAvailable();
      sent := WriteMessage(data, space);
    }

    /** Publishing a tail takes the beginning off the contents. */
    lemma Consumed(k: nat)
      requires Valid() && k <= |Contents()|
      ensures Bytes(pucBuffer[..], xTail, k) == Contents()[..k]
      ensures Bytes(pucBuffer[..], Slot(xTail, k, xLength), Used(xHead, Slot(xTail, k, xLength), xLength))
              == Contents()[k..]
    {
      AdvanceTail(xHead, xTail, xLength, k);
      BytesSplit(pucBuffer[..], xTail, k, |Contents()| - k);
    }

    /** prvReadMessageFromBuffer on a stream buffer. */
    method ReadStream(room: nat, available: nat) returns (data: seq<Byte>)
      requires Valid() && !messages && available <= |Contents()|
      modifies this`xTail
      ensures Valid() && data == old(Contents())[..if room < available then room else available]
      ensures Contents() == old(Contents())[|data|..]
    {
      hide Bytes;
      var count := if room < available then room else available;
      data := [];
      if count != 0 {
        Consumed(count);
        var next;
        data, next := ReadBytes(count, xTail);
        xTail := next;
      }
    }

    /**
     prvReadMessageFromBuffer on a message buffer that holds the frames of `pending`, the first of
     them among the available bytes.
     */
    method ReadMessage(room: nat, available: nat, ghost pending: seq<seq<Byte>>) returns (data: seq<Byte>)
      requires Valid() && messages && AreMessages(pending) && pending != [] && Contents() == Frames(pending)
      requires |Frame(pending[0])| <= available <= |Contents()|
      modifies this`xTail
      ensures Valid()
      ensures |pending[0]| <= room ==> data == pending[0] && Contents() == Frames(pending[1..])
      ensures |pending[0]| > room ==> data == [] && Contents() == old(Contents())
    {
      hide Bytes, Frames, LengthOf;
      FirstFrame(pending);
      Consumed(LENGTH_BYTES);
      var length, nextTail := ReadBytes(LENGTH_BYTES, xTail);
      var next := LengthOf(length);
      if next > room {
        next := 0;
      }
      var rest := available - LENGTH_BYTES;
      var count := if next < rest then next else rest;
      data := [];
      if count != 0 {
        ghost var middle := nextTail;
        data, nextTail := ReadBytes(count, nextTail);
        MessageTaken(pending, data, middle, nextTail);
        xTail := nextTail;
      }
    }

    /** What lies behind the length of the first message is the message, and behind that the others. */
    lemma MessageTaken(pending: seq<seq<Byte>>, data: seq<Byte>, middle: nat, next: nat)
      requires Valid() && AreMessages(pending) && pending != [] && Contents() == Frames(pending)
      requires |data| == |pending[0]| < xLength && middle == Slot(xTail, LENGTH_BYTES, xLength)
      requires data == Bytes(pucBuffer[..], middle, |data|) && next == Slot(middle, |data|, xLength)
      ensures data == pending[0] && Bytes(pucBuffer[..], next, Used(xHead, next, xLength)) == Frames(pending[1..])
    {
      hide Bytes, Frames, LengthBytes, Slot, Used;
      FirstFrame(pending);
      Consumed(LENGTH_BYTES);
      Consumed(LENGTH_BYTES + |data|);
      SlotSum(xTail, LENGTH_BYTES, |data|, xLength);
      BytesSplit(pucBuffer[..], xTail, LENGTH_BYTES, |data|);
      MessageBytes(Contents(), pending, data);
    }

    lemma MessageBytes(contents: seq<Byte>, pending: seq<seq<Byte>>, data: seq<Byte>)
      requires AreMessages(pending) && pending != [] && contents == Frames(pending)
      requires |contents| >= LENGTH_BYTES + |data| && |data| == |pending[0]|
      requires contents[..LENGTH_BYTES + |data|] == contents[..LENGTH_BYTES] + data
      ensures data == pending[0] && contents[LENGTH_BYTES + |data|..] == Frames(pending[1..])
    {
      FirstFrame(pending);
      var frame := Frame(pending[0]);
      assert frame[LENGTH_BYTES..] == pending[0];
      assert contents[..|frame|] == frame;
      assert (contents[..LENGTH_BYTES] + data)[LENGTH_BYTES..] == data;
    }

    /**
     xStreamBufferReceive and xStreamBufferReceiveFromISR once they no longer wait; `pending` are
     the messages a message buffer holds.
     */
    method Receive(room: nat, ghost pending: seq<seq<Byte>>) returns (data: seq<Byte>)
      requires Valid() && (messages ==> AreMessages(pending) && Contents() == Frames(pending))
      modifies this`xTail
      ensures Valid()
      ensures !messages ==> |data| == if room < |old(Contents())| then room else |old(Contents())|
      ensures !messages ==> data == old(Contents())[..|data|] && Contents() == old(Contents())[|data|..]
      ensures messages && pending != [] && |pending[0]| <= room ==>
                data == pending[0] && Contents() == Frames(pending[1..])
      ensures messages && (pending == [] || |pending[0]| > room) ==> data == [] && Contents() == old(Contents())
    {
      hide Bytes, Frame, LengthOf;
      var available := BytesInBuffer();
      var overhead := if messages then LENGTH_BYTES else 0;
      data := [];
      if messages && pending != [] {
        FirstFrame(pending);
      }
      if available > overhead {
        if messages {
          data := ReadMessage(room, available, pending);
        } else {
          data := ReadStream(room, available);
        }
      }
    }
  }
}
