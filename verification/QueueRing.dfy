/**
 The storage of the queue (queue.c): a byte ring read and written from both ends through
 two pointers, pcReadFrom (the last slot read) and pcWriteTo (the next slot to write).
 Offsets are counted from pcHead; pcTail is the end of the storage.
 */
module QueueRing {

  type Byte = bv8

  datatype Position = Back | Front | Overwrite

  // ---------- Specification: a bounded double-ended sequence of items ----------

  /** A send or a receive that does not wait. */
  datatype Call = Send(item: seq<Byte>, position: Position) | Receive

  /** A send finds room, or overwrites. */
  predicate HasRoom(items: seq<seq<Byte>>, length: nat, position: Position) {
    |items| < length || position.Overwrite?
  }

  function Next(items: seq<seq<Byte>>, length: nat, call: Call): seq<seq<Byte>> {
    match call
    case Send(item, position) =>
      if !HasRoom(items, length, position) then items
      else
        (match position
         case Back => items + [item]
         case Front => [item] + items
         case Overwrite => [item])
    case Receive => if items == [] then [] else items[1..]
  }

  function After(items: seq<seq<Byte>>, length: nat, calls: seq<Call>): seq<seq<Byte>>
    decreases |calls|
  {
    if calls == [] then items else After(Next(items, length, calls[0]), length, calls[1..])
  }

  /** What the receives of a run return, in order. */
  function Received(items: seq<seq<Byte>>, length: nat, calls: seq<Call>): seq<seq<Byte>>
    decreases |calls|
  {
    if calls == [] then []
    else
      (if calls[0].Receive? && items != [] then [items[0]] else [])
      + Received(Next(items, length, calls[0]), length, calls[1..])
  }

  /** The items that the sends of a run have put into the queue, in order. */
  function Accepted(items: seq<seq<Byte>>, length: nat, calls: seq<Call>): seq<seq<Byte>>
    decreases |calls|
  {
    if calls == [] then []
    else
      (if calls[0].Send? && HasRoom(items, length, calls[0].position) then [calls[0].item] else [])
      + Accepted(Next(items, length, calls[0]), length, calls[1..])
  }

  predicate ToTheBack(calls: seq<Call>) {
    forall c :: c in calls ==> c.Send? ==> c.position.Back?
  }

  lemma Joined<T>(a: seq<T>, b: seq<T>, c: seq<T>)
    ensures a + (b + c) == (a + b) + c
  {
  }

  /**
   First in, first out: over any run of sends to the back and receives, what was received and
   what is still queued is what was queued at the start and what was sent, in order.
   */
  lemma {:induction false} FirstInFirstOut(items: seq<seq<Byte>>, length: nat, calls: seq<Call>)
    requires ToTheBack(calls)
    ensures Received(items, length, calls) + After(items, length, calls) == items + Accepted(items, length, calls)
    decreases |calls|
  {
    if calls == [] {
      assert [] + items == items + [];
    } else {
      var call, rest := calls[0], calls[1..];
      var items' := Next(items, length, call);
      assert ToTheBack(rest) && call in calls;
      FirstInFirstOut(items', length, rest);
      var later, left := Received(items', length, rest), After(items', length, rest);
      var sent := Accepted(items', length, rest);
      if call.Receive? && items != [] {
        assert items == [items[0]] + items';
        Joined([items[0]], later, left);
        Joined([items[0]], items', sent);
      } else if call.Send? && HasRoom(items, length, call.position) {
        assert items' == items + [call.item];
        Joined(items, [call.item], sent);
      }
      assert [] + later == later && [] + sent == sent;
    }
  }

  lemma RunStep(items: seq<seq<Byte>>, length: nat, calls: seq<Call>, i: nat)
    requires i < |calls|
    ensures var rest, items' := calls[i + 1..], Next(items, length, calls[i]);
            var got := if calls[i].Receive? && items != [] then [items[0]] else [];
            && After(items, length, calls[i..]) == After(items', length, rest)
            && Received(items, length, calls[i..]) == got + Received(items', length, rest)
  {
    hide Next;
    assert calls[i..][0] == calls[i] && calls[i..][1..] == calls[i + 1..];
  }

  lemma RunEnd(items: seq<seq<Byte>>, length: nat, calls: seq<Call>)
    requires calls == []
    ensures After(items, length, calls) == items && Received(items, length, calls) == []
  {
  }

  /** An item sent to the front is the next one received, and the others stay as they were. */
  lemma FrontIsNext(items: seq<seq<Byte>>, length: nat, item: seq<Byte>)
    requires |items| < length
    ensures var call := Send(item, Front);
            && Received(Next(items, length, call), length, [Receive]) == [item]
            && Next(Next(items, length, call), length, Receive) == items
  {
    var after := Next(items, length, Send(item, Front));
    assert after[0] == item && after[1..] == items && [Receive][1..] == [];
  }

  /** After an overwrite the new item is the only one, and one receive empties the queue. */
  lemma OverwriteIsOnly(items: seq<seq<Byte>>, length: nat, item: seq<Byte>)
    ensures var call := Send(item, Overwrite);
            && Received(Next(items, length, call), length, [Receive, Receive]) == [item]
            && After(Next(items, length, call), length, [Receive]) == []
  {
    var after := Next(items, length, Send(item, Overwrite));
    assert [Receive, Receive][1..] == [Receive] && [Receive][1..] == [] && after[1..] == [];
    assert Received(after[1..], length, [Receive]) == [];
  }

  // ---------- Slots of the byte storage ----------

  /** One step round a ring of `n` slots, for a position less than one lap ahead. */
  function Wrap(i: nat, n: nat): nat {
    if i >= n then i - n else i
  }

  /** Offset of a slot, by repeated addition as the pointers move. */
  function Offset(slot: nat, size: nat): nat {
    if slot == 0 then 0 else Offset(slot - 1, size) + size
  }

  lemma {:induction false} OffsetMonotone(a: nat, b: nat, size: nat)
    requires a < b
    ensures Offset(a, size) + size <= Offset(b, size)
  {
    if a + 1 < b {
      OffsetMonotone(a, b - 1, size);
    }
  }

  /** The bytes of one slot. */
  function Slot(bytes: seq<Byte>, slot: nat, size: nat): seq<Byte>
    requires Offset(slot, size) + size <= |bytes|
  {
    bytes[Offset(slot, size)..Offset(slot, size) + size]
  }

  function Overlay(bytes: seq<Byte>, at: nat, item: seq<Byte>): (after: seq<Byte>)
    requires at + |item| <= |bytes|
    ensures |after| == |bytes|
  {
    bytes[..at] + item + bytes[at + |item|..]
  }

  lemma OverlaySlice(bytes: seq<Byte>, at: nat, item: seq<Byte>, from: nat)
    requires at + |item| <= |bytes| && from + |item| <= |bytes|
    requires from == at || from + |item| <= at || at + |item| <= from
    ensures Overlay(bytes, at, item)[from..from + |item|] == if from == at then item else bytes[from..from + |item|]
  {
    var after := Overlay(bytes, at, item);
    forall i | 0 <= i < |item|
      ensures after[from + i] == if from == at then item[i] else bytes[from + i]
    {
    }
  }

  /** Writing one slot changes that slot only. */
  lemma WriteSlot(bytes: seq<Byte>, slot: nat, other: nat, item: seq<Byte>)
    requires 0 < |item| && Offset(slot, |item|) + |item| <= |bytes| && Offset(other, |item|) + |item| <= |bytes|
    ensures Slot(Overlay(bytes, Offset(slot, |item|), item), other, |item|)
            == if other == slot then item else Slot(bytes, other, |item|)
  {
    hide Offset, Overlay;
    var size := |item|;
    var at, from := Offset(slot, size), Offset(other, size);
    if other < slot {
      OffsetMonotone(other, slot, size);
      assert from + size <= at;
    } else if slot < other {
      OffsetMonotone(slot, other, size);
      assert at + size <= from;
    }
    OverlaySlice(bytes, at, item, from);
  }

  lemma SlotInside(slot: nat, length: nat, size: nat)
    requires slot < length
    ensures Offset(slot, size) + size <= Offset(length, size)
    ensures slot + 1 < length ==> Offset(slot, size) + size < Offset(length, size) || size == 0
    ensures Offset(slot + 1, size) == Offset(slot, size) + size && Offset(0, size) == 0
  {
    OffsetMonotone(slot, length, size);
    if slot + 1 < length {
      OffsetMonotone(slot + 1, length, size);
    }
  }

  /** The items from slot `first` on, round the ring. */
  function ItemsFrom(bytes: seq<Byte>, first: nat, count: nat, length: nat, size: nat): (items: seq<seq<Byte>>)
    requires first < length && count <= length && |bytes| == Offset(length, size)
    ensures |items| == count
  {
    seq(count, k requires 0 <= k < count =>
      SlotInside(Wrap(first + k, length), length, size);
      Slot(bytes, Wrap(first + k, length), size))
  }

  lemma DropFirst(bytes: seq<Byte>, first: nat, count: nat, length: nat, size: nat)
    requires first < length && 0 < count <= length && |bytes| == Offset(length, size)
    ensures Offset(first, size) + size <= |bytes|
    ensures ItemsFrom(bytes, first, count, length, size)
            == [Slot(bytes, first, size)] + ItemsFrom(bytes, Wrap(first + 1, length), count - 1, length, size)
  {
    hide Offset, Slot;
    SlotInside(first, length, size);
    var got := ItemsFrom(bytes, first, count, length, size);
    var rest := ItemsFrom(bytes, Wrap(first + 1, length), count - 1, length, size);
    var head := 0;
    assert got[head] == Slot(bytes, Wrap(first + head, length), size);
    forall k | 0 <= k < count - 1 ensures got[k + 1] == rest[k] {
      assert Wrap(first + (k + 1), length) == Wrap(Wrap(first + 1, length) + k, length);
    }
  }

  /** Writing the free slot behind the last item appends it. */
  lemma WriteBack(bytes: seq<Byte>, first: nat, count: nat, length: nat, item: seq<Byte>)
    requires first < length && count < length && 0 < |item| && |bytes| == Offset(length, |item|)
    ensures var at := Wrap(first + count, length);
            && Offset(at, |item|) + |item| <= |bytes|
            && ItemsFrom(Overlay(bytes, Offset(at, |item|), item), first, count + 1, length, |item|)
               == ItemsFrom(bytes, first, count, length, |item|) + [item]
  {
    hide Offset, Slot, Overlay;
    var at, size := Wrap(first + count, length), |item|;
    SlotInside(at, length, size);
    var after := Overlay(bytes, Offset(at, size), item);
    var got, want := ItemsFrom(after, first, count + 1, length, size),
        ItemsFrom(bytes, first, count, length, size) + [item];
    forall k | 0 <= k < count + 1 ensures got[k] == want[k] {
      SlotInside(Wrap(first + k, length), length, size);
      WriteSlot(bytes, at, Wrap(first + k, length), item);
    }
  }

  /** Writing the slot in front of the first item prepends it. */
  lemma WriteFront(bytes: seq<Byte>, at: nat, count: nat, length: nat, item: seq<Byte>)
    requires at < length && count < length && 0 < |item| && |bytes| == Offset(length, |item|)
    ensures Offset(at, |item|) + |item| <= |bytes|
    ensures ItemsFrom(Overlay(bytes, Offset(at, |item|), item), at, count + 1, length, |item|)
            == [item] + ItemsFrom(bytes, Wrap(at + 1, length), count, length, |item|)
  {
    hide Offset, Slot, Overlay;
    var first, size := Wrap(at + 1, length), |item|;
    SlotInside(at, length, size);
    var after := Overlay(bytes, Offset(at, size), item);
    WriteSlot(bytes, at, at, item);
    DropFirst(after, at, count + 1, length, size);
    var got, want := ItemsFrom(after, first, count, length, size), ItemsFrom(bytes, first, count, length, size);
    forall k | 0 <= k < count ensures got[k] == want[k] {
      SlotInside(Wrap(first + k, length), length, size);
      WriteSlot(bytes, at, Wrap(first + k, length), item);
    }
  }

  // ---------- The queue in memory ----------

  class Queue {
    const storage: array<Byte>
    const length: nat
    const itemSize: nat
    var writeTo: nat
    var readFrom: int
    var messages: nat
    ghost var lastRead: nat   // slot of readFrom
    ghost var nextWrite: nat  // slot of writeTo

    /** Both pointers stand on slot boundaries inside the storage, `count` slots apart. */
    ghost predicate Apart(count: nat)
      reads this`lastRead, this`nextWrite, this`readFrom, this`writeTo
    {
      && 0 < length && 0 < itemSize && storage.Length == Offset(length, itemSize)
      && count <= length
      && lastRead < length && readFrom == Offset(lastRead, itemSize)
      && nextWrite == Wrap(Wrap(lastRead + 1, length) + count, length) && writeTo == Offset(nextWrite, itemSize)
    }

    ghost predicate Valid()
      reads this
    {
      Apart(messages)
    }

    /** The `count` items behind the last slot read, oldest first. */
    ghost function Between(count: nat): seq<seq<Byte>>
      requires Apart(count)
      reads this`lastRead, this`nextWrite, this`readFrom, this`writeTo, storage
    {
      ItemsFrom(storage[..], Wrap(lastRead + 1, length), count, length, itemSize)
    }

    /** The queued items, oldest first. */
    ghost function Items(): seq<seq<Byte>>
      requires Valid()
      reads this, storage
    {
      Between(messages)
    }

    /** A new queue, as xQueueGenericReset leaves it. */
    constructor (length: nat, itemSize: nat, storage: array<Byte>)
      requires 0 < length && 0 < itemSize && storage.Length == length * itemSize
      ensures Valid() && Items() == [] && this.length == length && this.itemSize == itemSize && this.storage == storage
    {
      this.length, this.itemSize, this.storage := length, itemSize, storage;
      writeTo := 0;
      readFrom := (length - 1) * itemSize;
      messages, lastRead, nextWrite := 0, length - 1, 0;
      OffsetIsProduct(length, itemSize);
      OffsetIsProduct(length - 1, itemSize);
    }

    /** memcpy into the storage. */
    method Store(at: nat, item: seq<Byte>)
      requires at + |item| <= storage.Length
      modifies storage
      ensures storage[..] == Overlay(old(storage[..]), at, item)
    {
      forall i | 0 <= i < |item| {
        storage[at + i] := item[i];
      }
    }

    /** The part of prvCopyDataToQueue that writes behind the last item. */
    method PutBack(item: seq<Byte>)
      requires Valid() && |item| == itemSize && messages < length
      modifies this`writeTo, this`nextWrite, storage
      ensures Apart(messages + 1) && Between(messages + 1) == old(Items()) + [item]
    {
      hide Offset, Slot, Overlay, ItemsFrom;
      SlotInside(nextWrite, length, itemSize);
      WriteBack(storage[..], Wrap(lastRead + 1, length), messages, length, item);
      Store(writeTo, item);
      writeTo := writeTo + itemSize;
      if writeTo >= storage.Length {
        writeTo := 0;
      }
      nextWrite := Wrap(nextWrite + 1, length);
    }

    /** The part that writes over the last slot read, in front of `count` items. */
    method PutFront(item: seq<Byte>, ghost count: nat)
      requires Apart(count) && |item| == itemSize && count < length
      modifies this`readFrom, this`lastRead, storage
      ensures Apart(count + 1) && Between(count + 1) == [item] + old(Between(count))
    {
      hide Offset, Slot, Overlay, ItemsFrom;
      ghost var before := if lastRead == 0 then length - 1 else lastRead - 1;
      SlotInside(lastRead, length, itemSize);
      SlotInside(before, length, itemSize);
      WriteFront(storage[..], lastRead, count, length, item);
      Store(readFrom, item);
      readFrom := readFrom - itemSize;
      if readFrom < 0 {
        readFrom := storage.Length - itemSize;
      }
      lastRead := before;
    }

    /** prvCopyDataToQueue: one more item at the back or the front, or the only one replaced. */
    method CopyDataToQueue(item: seq<Byte>, position: Position)
      requires Valid() && |item| == itemSize
      requires position.Overwrite? ==> length == 1
      requires messages < length || position.Overwrite?
      modifies this`writeTo, this`readFrom, this`messages, this`lastRead, this`nextWrite, storage
      ensures Valid()
      ensures position.Back? ==> Items() == old(Items()) + [item]
      ensures position.Front? ==> Items() == [item] + old(Items())
      ensures position.Overwrite? ==> Items() == [item]
    {
      hide Offset, ItemsFrom;
      var waiting := messages;
      if position.Back? {
        PutBack(item);
      } else {
        PutFront(item, if position.Overwrite? then 0 else messages);
        if position.Overwrite? && waiting > 0 {
          waiting := waiting - 1;
        }
      }
      messages := waiting + 1;
    }

    /** prvCopyDataFromQueue: moves to the oldest item and copies it out. */
    method CopyDataFromQueue() returns (item: seq<Byte>)
      requires Valid() && messages > 0
      modifies this`readFrom, this`lastRead
      ensures item == old(Items())[0]
      ensures lastRead == Wrap(old(lastRead) + 1, length) && readFrom == Offset(lastRead, itemSize)
    {
      hide Offset, ItemsFrom;
      DropFirst(storage[..], Wrap(lastRead + 1, length), messages, length, itemSize);
      SlotInside(lastRead, length, itemSize);
      readFrom := readFrom + itemSize;
      if readFrom >= storage.Length {
        readFrom := 0;
      }
      lastRead := Wrap(lastRead + 1, length);
      SlotInside(lastRead, length, itemSize);
      item := storage[readFrom..readFrom + itemSize];
    }

    /** xQueueReceive with a message waiting. */
    method Receive() returns (item: seq<Byte>)
      requires Valid() && messages > 0
      modifies this`readFrom, this`lastRead, this`messages
      ensures Valid() && old(Items()) == [item] + Items()
    {
      hide Offset, ItemsFrom, Slot;
      DropFirst(storage[..], Wrap(lastRead + 1, length), messages, length, itemSize);
      var waiting := messages;
      item := CopyDataFromQueue();
      messages := waiting - 1;
    }

    /** xQueuePeek with a message waiting: the read pointer is put back. */
    method Peek() returns (item: seq<Byte>)
      requires Valid() && messages > 0
      modifies this`readFrom, this`lastRead
      ensures Valid() && Items() == old(Items()) && item == Items()[0]
    {
      var original := readFrom;
      ghost var slot := lastRead;
      item := CopyDataFromQueue();
      readFrom := original;
      lastRead := slot;
    }

    /** A send or a receive that does not wait, and what it returns. */
    method Perform(call: Call) returns (got: seq<seq<Byte>>)
      requires Valid()
      requires call.Send? ==> |call.item| == itemSize && (call.position.Overwrite? ==> length == 1)
      modifies this`writeTo, this`readFrom, this`messages, this`lastRead, this`nextWrite, storage
      ensures Valid() && Items() == Next(old(Items()), length, call)
      ensures got == if call.Receive? && old(Items()) != [] then [old(Items())[0]] else []
    {
      hide Queue.Apart, ItemsFrom;
      Counted();
      got := [];
      match call {
        case Send(item, position) =>
          if messages < length || position.Overwrite? {
            CopyDataToQueue(item, position);
          }
        case Receive =>
          if messages > 0 {
            ghost var items := Items();
            var item := Receive();
            assert items[0] == item && items[1..] == Items();
            got := [item];
          }
      }
    }

    /** Any sends and receives that do not wait, one after the other, on the bytes in memory. */
    method Run(calls: seq<Call>) returns (received: seq<seq<Byte>>)
      requires Valid()
      requires forall c :: c in calls && c.Send? ==> |c.item| == itemSize && (c.position.Overwrite? ==> length == 1)
      modifies this`writeTo, this`readFrom, this`messages, this`lastRead, this`nextWrite, storage
      ensures Valid() && Items() == After(old(Items()), length, calls)
      ensures received == Received(old(Items()), length, calls)
    {
      hide Queue.Apart, Queue.Between, Next, After, Received;
      received := [];
      assert calls[0..] == calls;
      for i := 0 to |calls|
        invariant Valid() && After(Items(), length, calls[i..]) == After(old(Items()), length, calls)
        invariant received + Received(Items(), length, calls[i..]) == Received(old(Items()), length, calls)
      {
        RunStep(Items(), length, calls, i);
        var got := Perform(calls[i]);
        Joined(received, got, Received(Items(), length, calls[i + 1..]));
        received := received + got;
      }
      RunEnd(Items(), length, calls[|calls|..]);
    }

    lemma Counted()
      requires Valid()
      ensures |Items()| == messages
    {
    }
  }

  lemma OffsetIsProduct(slot: nat, size: nat)
    ensures Offset(slot, size) == slot * size
  {
    if slot > 0 {
      OffsetIsProduct(slot - 1, size);
      assert slot * size == (slot - 1) * size + size;
    }
  }
}