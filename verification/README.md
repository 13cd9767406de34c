# Models of the NeonRTOS kernel and its codecs

Dafny models of the parts of the repository that implement a simple idea with wrap-around
arithmetic, rings, suspended state or interleaved steps, and proofs that the idea is what they
implement.  Code that changes state in place is a class whose methods follow the branches of the
C function they name; protocols are state machines whose steps are the critical sections or the
single copies and stores of the code.

## What is proved

- **Lists** (`KernelList`): the circular doubly linked list with its end marker and index pointer, on
  real objects.  Insertion is sorted and stable, its scan ends, and all operations keep the order
  in which the index walks the list.
- **Timer daemon** (`TickTime`, `Timers`): the two lists that swap at a tick wrap stand for one set of
  expiry times in unbounded time.  No callback runs before its ideal expiry; whenever the daemon
  blocks, every auto-reload timer has had as many callbacks as whole periods have passed since
  its start, and the wait passes neither the earliest expiry nor a wrap.  Assumed: a command is less than
  2^32 ticks old when it is processed, and samples are less than 2^32 ticks apart while a timer is listed.
  The second holds for the daemon's own waits, which end by the next wrap.
- **Queue** (`QueueSync`, `QueueDeferral`, `QueueRing`): tasks and interrupts interleave at critical sections;
  no wake-up is lost while the queue is locked, unlocking leaves it as if it had never been locked, and the cap
  on the lock counts does no harm.  The bytes in memory behave as a double-ended sequence of items, first in
  first out for items sent to the back.
- **Heatshrink decoder** (`Lzss`, `LzssAnswer`, `Heatshrink`, `FlashFile`): for any cut of the input into sinks and of the
  output into polls, what comes out is a prefix of the batch decoding, and all of it once the decoder has
  nothing left, except in one case that is characterised exactly and shown by a run.  A file read through the
  decoder delivers the decoding of the file.
- **cJSON** (`CJson` and the five modules named after it): printing then parsing is the identity for both printers; minifying
  the formatted print gives the unformatted one; computed buffer sizes suffice; the minifier works in place; texts
  that are refused are refused at the right place.
- **Stream and message buffers** (`Rings`, `StreamRing`, `StreamSharing`, `StreamBuffer`): one writer and one reader
  without a lock, interleaved at every byte copied and every index published.
- **Event groups** (`EventBits`, `EventWords`, `EventGroup`, `EventRuns`, `Rendezvous`): nobody waits for bits
  that are there, list order is irrelevant, and the rendezvous is a reusable barrier.  Sets of bits stand for the
  32-bit words of the code, whose operations are shown to agree.
- **Co-routines** (`CoRoutines`): with events arriving at any point, delays end at exactly their tick across
  wraps unless an event ends them earlier, and the highest priority runs.
- **SHA-1** (`Sha1`, `Sha1Answer`, `Sha1Stream`): the streaming hash and HMAC against FIPS 180-4 and RFC 2104, with a
  known answer.
- **Ethernet transmit ring** (`TxRing`): descriptors and packet references are conserved, and buffers keep their order.

## Reading the model

Ticks are integers modulo 2^32; 16-bit fields of the decoder and the 32-bit byte count of the hash wrap
explicitly.  Ghost fields hold the ideal picture (unbounded time, all bytes sent, the batch output) and
influence nothing.  Clock readings, allocation results, block times and the choice of the next step are
parameters.  What `tasks.c` does (task lists by priority, suspending the scheduler, timeouts) appears as
abstract steps; `tasks.c` is not part of this model.

Where the code and its comments disagree, the model follows the code: the comment on `get_bits` speaks of saving
incremental progress, but it takes either all the bits asked for or none
(`src/NeonRTOS/HTTPd/heatshrink_decoder.c:302-313`).

The property "all output once drained" fails for window 4 with lookahead 2: `Lzss.SmallTokenHides` gives a stream,
`Heatshrink.HiddenTokenRun` the run, and `Heatshrink.Decoder.DeliveredExactly` says for which streams.  A sink of
length zero into a decoder at rest starts a token that is not there: `Heatshrink.Decoder.Sink` says exactly when,
and `Heatshrink.Decoder.EmptySinkMisreads` shows the wrong byte that follows; callers guard against it
(`src/NeonRTOS/HTTPd/NeonRtFs.c:236-241`).

## Model

| member | source | states |
|---|---|---|
| KernelList.InsertPosSortedStable | src/NeonRTOS/kernel/list.c:139-211 | inserting where the scan stops keeps a list sorted, and puts the new value behind every equal one and before every greater one |
| KernelList.InsertPosUnique | src/NeonRTOS/kernel/list.c:139-211 | that place is the only one with nothing greater before it and nothing smaller or equal behind it |
| KernelList.WalkAfterRemove | src/NeonRTOS/kernel/list.c:215-245 | removing an item leaves the walk from an index elsewhere as it was, minus the item, which is what List.Remove promises of it |
| KernelList.WalkAfterRemovingIndex | src/NeonRTOS/kernel/list.c:215-245 | the walk from an index that stood on the item starts one step back and goes on behind the gap, likewise |
| KernelList.RotateSplice | src/NeonRTOS/kernel/list.c:105-136 | inserting just before the index makes the item the last that a walk from the index reaches |
| KernelList.List.constructor | src/NeonRTOS/kernel/list.c:49-86 | an empty list is a ring of the end marker alone, with the greatest value, and the index on it |
| KernelList.List.InsertEnd | src/NeonRTOS/kernel/list.c:105-136 | the pointer writes keep the ring well formed (links mutually inverse, container fields and count exact) and append to the walk from the index |
| KernelList.List.Scan | src/NeonRTOS/kernel/list.c:139-211 | the scan loop ends, at the latest on the end marker, at the stable sorted place |
| KernelList.List.Insert | src/NeonRTOS/kernel/list.c:139-211 | the ring stays well formed and sorted, with the item at the stable place and the others in order |
| KernelList.List.Remove | src/NeonRTOS/kernel/list.c:215-245 | the ring without the item is well formed, the item belongs to no list, the count returned is exact, and the walk from the index goes through the others in the same order, from one step back if the index stood on the item |
| TickTime.AddTicksIsIdeal | src/NeonRTOS/kernel/timers.c:699-715 | wrapping addition of ticks shows the ideal sum |
| TickTime.SubTicksIsIdeal | src/NeonRTOS/kernel/timers.c:894-935 | the wrapping difference of two ticks less than a wrap apart is the real difference |
| Timers.PlaceIsIdeal | src/NeonRTOS/kernel/timers.c:894-935 | for a command less than a wrap old: elapsed exactly when a period has passed since it, current list exactly when the expiry lies ahead in this epoch, overflow list exactly when in the next |
| Timers.PlaceNeedsFreshCommands | src/NeonRTOS/kernel/timers.c:894-935 | a command one wrap old misleads the same tests: the bound on its age is needed |
| Timers.InExactlyOneList | src/NeonRTOS/kernel/timers.c:894-935 | a timer of the ideal set is in exactly one of the two lists, and the epoch of its expiry says in which |
| Timers.ActiveIffListed | src/NeonRTOS/kernel/timers.c:938-1083 | between commands a timer is marked active exactly when it is in exactly one list |
| Timers.HeadIsEarliest | src/NeonRTOS/kernel/timers.c:844-868 | the head of the current list is the earliest ideal expiry; with that list empty all expiries lie in the next epoch |
| Timers.InsertRefines | src/NeonRTOS/kernel/timers.c:894-935 | listing a timer by the epoch of its expiry keeps the two sorted lists in agreement with the ideal set |
| Timers.RemoveRefines | src/NeonRTOS/kernel/timers.c:718-745 | so does taking any item out of either list |
| Timers.SwapRefines | src/NeonRTOS/kernel/timers.c:1086-1108 | with the current list drained, the swapped lists are right for the next epoch |
| Timers.CaughtUpCount | src/NeonRTOS/kernel/timers.c:699-715 | with all expiries up to now served, the callbacks since the start number exactly the whole periods elapsed |
| Timers.OneShotServed | src/NeonRTOS/kernel/timers.c:718-745 | serving a one-shot timer runs one callback for its expiry, takes it out of the ideal set and touches no other timer |
| Timers.ReloadServed | src/NeonRTOS/kernel/timers.c:699-745 | serving an auto-reload timer with any backlog runs one callback for each expiry passed, in order, and moves it to the next |
| Timers.WaitIsIdeal | src/NeonRTOS/kernel/timers.c:782-841 | the tick difference to the head, or to tick zero, is the ideal time until then |
| Timers.BlockIsSafe | src/NeonRTOS/kernel/timers.c:782-868 | if the head lies ahead, the daemon has caught up with every timer, and the wait ends by the earliest expiry and by the next wrap |
| Timers.Daemon.InsertTimerInActiveList | src/NeonRTOS/kernel/timers.c:894-935 | true exactly when a whole period has passed since the command; otherwise the timer is listed at its ideal expiry |
| Timers.Daemon.ReloadTimer | src/NeonRTOS/kernel/timers.c:699-715 | the backlog loop ends, with one callback for each further expiry that has passed and the timer listed at the first that has not |
| Timers.Daemon.ServeExpiry | src/NeonRTOS/kernel/timers.c:718-745 | either kind of timer is served without an early, missing or repeated callback |
| Timers.Daemon.ProcessExpiredTimer | src/NeonRTOS/kernel/timers.c:718-745 | the head of the current list is served, and afterwards lies ahead or is gone |
| Timers.Daemon.SwitchTimerLists | src/NeonRTOS/kernel/timers.c:1086-1108 | what is left of the ended epoch is served before the lists swap, and the lists fit the new epoch |
| Timers.Daemon.SampleTimeNow | src/NeonRTOS/kernel/timers.c:871-891 | a wrap is noticed exactly when there was one, given samples less than a wrap apart while a timer is listed |
| Timers.Daemon.ProcessTimerOrBlock | src/NeonRTOS/kernel/timers.c:782-841 | the daemon blocks only when it has caught up, never past the earliest ideal expiry or a wrap, and for ever exactly when no timer is listed |
| Timers.Daemon.ProcessStart | src/NeonRTOS/kernel/timers.c:938-1083 | a start or reset begins a run at the ideal time of the command, and serves at once what has passed since |
| Timers.Daemon.ProcessChangePeriod | src/NeonRTOS/kernel/timers.c:938-1083 | a new run from now with the new period |
| Timers.Daemon.ProcessStop | src/NeonRTOS/kernel/timers.c:938-1083 | stopping and deleting leave the timer unlisted and inactive, or gone |
| Timers.Daemon.ReceiveCommand | src/NeonRTOS/kernel/timers.c:938-1083 | a start or reset begins a run at its time, a stop clears the active bit and keeps the timer, a delete frees exactly a dynamic timer, a new period counts from now, none of these three runs a callback; serving expiries is all that happens to the other timers |
| Timers.Daemon.SetReloadMode | src/NeonRTOS/kernel/timers.c:571-594 | changing the reload mode of a running timer keeps its next expiry and all that is proved of the daemon; a timer made one-shot counts from its last expiry on |
| QueueSync.NoLostWakeUp | src/NeonRTOS/kernel/queue.c:939-1154 | in every state of every run: while receivers wait, messages are matched by woken receivers and counted posts (or the count reached the number of tasks); with the queue unlocked and nobody woken, receivers wait only on an empty queue, and senders only on a full one |
| QueueSync.RunKeepsInv | src/NeonRTOS/kernel/queue.c:939-1320 | any interleaving of task sections and interrupts keeps the balance, the lists and the locks in order |
| QueueSync.StepKeepsInv | src/NeonRTOS/kernel/queue.c:939-1649 | every single section of send, receive, peek and their interrupt forms does |
| QueueSync.SideAfterUnlock | src/NeonRTOS/kernel/queue.c:2494-2611 | unlocking wakes as many waiters as posts were counted, or all of them |
| QueueSync.WakeReceiversSpec | src/NeonRTOS/kernel/queue.c:2494-2611 | the unlock loop takes the first waiters off the list, none twice |
| QueueSync.KeepTrySend | src/NeonRTOS/kernel/queue.c:939-1154 | a successful send keeps the balance of messages and wake-ups |
| QueueSync.KeepTryReceive | src/NeonRTOS/kernel/queue.c:1503-1649 | so do a successful receive and a peek, which passes its wake-up on |
| QueueSync.KeepPutOnList | src/NeonRTOS/kernel/queue.c:939-1154 | a task that goes onto an event list does so with nothing there for it that is not counted |
| QueueSync.KeepUnlockTxSection | src/NeonRTOS/kernel/queue.c:2494-2611 | the first critical section of the unlock pays what is owed to receivers |
| QueueSync.KeepUnlockRxSection | src/NeonRTOS/kernel/queue.c:2494-2611 | the second pays what is owed to senders |
| QueueSync.KeepInterruptSend | src/NeonRTOS/kernel/queue.c:1157-1320 | an interrupt that posts wakes a receiver or, with the queue locked, owes one |
| QueueSync.KeepInterruptReceive | src/NeonRTOS/kernel/queue.c:2035-2132 | an interrupt that receives wakes a sender or owes one |
| QueueSync.KeepTimeout | src/NeonRTOS/kernel/queue.c:939-1154 | a waiter that gives up leaves the others covered |
| QueueSync.MessagesConserved | src/NeonRTOS/kernel/queue.c:939-1649 | in every run there are as many messages as were posted and not received |
| QueueSync.HowCallsEnd | src/NeonRTOS/kernel/queue.c:1503-1649 | a receive or peek ends in a state without a message or in the section that found one; a send in the section that found room or after its time has run out |
| QueueDeferral.DeferredIsDirect | src/NeonRTOS/kernel/queue.c:175-183 | whatever interrupts post and receive while the queue is locked, unlocking leaves it as if each had found it unlocked and woken a task at once; the cap on the counts makes no difference |
| QueueDeferral.DeferredInRuns | src/NeonRTOS/kernel/queue.c:258-300 | so it is at every point of every run at which a task may lock the queue |
| QueueDeferral.WhileLocked | src/NeonRTOS/kernel/queue.c:1157-1320 | while the queue is locked no interrupt touches an event list; posts and receipts that found something to do are counted up to the number of tasks |
| QueueSync.QueueControl.UnlockTransmit | src/NeonRTOS/kernel/queue.c:2494-2611 | the loop over counted posts does what the protocol step says |
| QueueSync.QueueControl.UnlockReceive | src/NeonRTOS/kernel/queue.c:2494-2611 | likewise for receipts |
| QueueSync.QueueControl.SendFromISR | src/NeonRTOS/kernel/queue.c:1157-1320 | posts exactly when there is room or it overwrites, and wakes or counts |
| QueueSync.QueueControl.ReceiveFromISR | src/NeonRTOS/kernel/queue.c:2035-2132 | receives exactly when there is a message, and wakes or counts |
| QueueSync.QueueControl.Attempt | src/NeonRTOS/kernel/queue.c:939-1154 | the first critical section of send, receive and peek, with their wake-ups |
| QueueRing.WriteBack | src/NeonRTOS/kernel/queue.c:2390-2470 | writing the slot behind the last item appends to the items round the ring |
| QueueRing.WriteFront | src/NeonRTOS/kernel/queue.c:2390-2470 | writing the slot before the first prepends |
| QueueRing.DropFirst | src/NeonRTOS/kernel/queue.c:2473-2491 | moving the read slot on takes the oldest item off |
| QueueRing.Queue.constructor | src/NeonRTOS/kernel/queue.c:303-371 | a new queue is empty, with both pointers on slot boundaries |
| QueueRing.Queue.CopyDataToQueue | src/NeonRTOS/kernel/queue.c:2390-2470 | an item sent to the back comes last, one sent to the front first, an overwrite leaves it alone; pointers stay item-aligned inside the storage |
| QueueRing.FirstInFirstOut | src/NeonRTOS/kernel/queue.c:939-1154 | over any sends to the back and receives, the items received followed by those left are the items first there followed by those accepted, in order |
| QueueRing.FrontIsNext | src/NeonRTOS/kernel/queue.c:2390-2470 | an item sent to the front is the next one received, and the others stay as they were |
| QueueRing.OverwriteIsOnly | src/NeonRTOS/kernel/queue.c:2390-2470 | after an overwrite the new item is the only one |
| QueueRing.Queue.Run | src/NeonRTOS/kernel/queue.c:2390-2491 | any sends and receives that do not wait give, on the bytes in memory, the answers that these laws are about |
| QueueRing.Queue.CopyDataFromQueue | src/NeonRTOS/kernel/queue.c:2473-2491 | the oldest item is copied out |
| QueueRing.Queue.Receive | src/NeonRTOS/kernel/queue.c:1503-1649 | the oldest item leaves the sequence |
| QueueRing.Queue.Peek | src/NeonRTOS/kernel/queue.c:1877-2032 | the oldest item is returned and the sequence stays |
| Lzss.DecodeConcat | src/NeonRTOS/HTTPd/heatshrink_decoder.c:143-197 | a bit stream cut where a token ends may be decoded in two goes |
| Lzss.DecodeMonotone | src/NeonRTOS/HTTPd/heatshrink_decoder.c:143-197 | more input adds to the decoded output and changes none of it |
| Lzss.BitsOfConcat | src/NeonRTOS/HTTPd/heatshrink_decoder.c:98-121 | the bits of a stream do not depend on how it is cut into pieces |
| Lzss.SmallTokenHides | src/NeonRTOS/HTTPd/heatshrink_decoder.c:298-300 | with window 4 and lookahead 2 the stream 80 00 decodes to two bytes, the second of which a decoder that starts tokens only with a byte in its buffer does not reach |
| Lzss.ReachExactly | src/NeonRTOS/HTTPd/heatshrink_decoder.c:298-300 | starting tokens only while eight bits are left reaches the whole batch decoding exactly unless the seven bits left over are a back-reference, for window 4 and lookahead 2 |
| Lzss.MaskOrder | src/NeonRTOS/HTTPd/heatshrink_decoder.c:304-350 | comparing bit masks is comparing bit counts: the test that suspends get_bits in time |
| Lzss.StartsWithZeros | src/NeonRTOS/HTTPd/heatshrink_decoder.c:82-95 | a back-reference at the start of any stream decodes to zeros |
| LzssAnswer.KnownAnswer | src/NeonRTOS/HTTPd/heatshrink_decoder.c:143-197 | the stream b0 d8 ac 60 24 with window 8 and lookahead 4 decodes to abcabcab, which pins the order of bits, numbers and repeated bytes |
| Heatshrink.PushWindow | src/NeonRTOS/HTTPd/heatshrink_decoder.c:211-229 | the circular window with one byte more is the window of the longer output |
| Heatshrink.HeadSlot | src/NeonRTOS/HTTPd/heatshrink_decoder.c:273-296 | the 16-bit head index finds the same window slot as the unbounded output position |
| Heatshrink.OutputIsPrefix | src/NeonRTOS/HTTPd/heatshrink_decoder.c:143-197 | what has come out is a prefix of the batch decoding, whatever the unread bits are |
| Heatshrink.StarvedIsDrained | src/NeonRTOS/HTTPd/heatshrink_decoder.c:143-197 | a machine that lacks bits inside a token has delivered everything the input holds |
| Heatshrink.RestIsDrained | src/NeonRTOS/HTTPd/heatshrink_decoder.c:298-300 | a machine at rest with at most seven bits has, exactly unless those are a hidden back-reference |
| Heatshrink.ReadIndexLsb | src/NeonRTOS/HTTPd/heatshrink_decoder.c:241-251 | the two reads of a back-reference index give its number plus one, within the window |
| Heatshrink.ReadCountLsb | src/NeonRTOS/HTTPd/heatshrink_decoder.c:263-271 | and those of a count its number plus one |
| Heatshrink.ReadLiteral | src/NeonRTOS/HTTPd/heatshrink_decoder.c:211-229 | tag and eight bits are one whole token whose effect is the byte |
| Heatshrink.YieldDone | src/NeonRTOS/HTTPd/heatshrink_decoder.c:273-296 | after its last byte a back-reference has had the effect of its token |
| Heatshrink.Decoder.constructor | src/NeonRTOS/HTTPd/heatshrink_decoder.c:82-95 | a reset decoder stands before the first token with a zero-filled history |
| Heatshrink.Decoder.GetBits | src/NeonRTOS/HTTPd/heatshrink_decoder.c:304-350 | all-or-nothing for every count asked for: the next bits most significant first, or no bit moved |
| Heatshrink.Decoder.StInputAvailable | src/NeonRTOS/HTTPd/heatshrink_decoder.c:199-209 | the tag chooses the next state, in step with the batch token |
| Heatshrink.Decoder.StYieldLiteral | src/NeonRTOS/HTTPd/heatshrink_decoder.c:211-229 | delivers the literal or waits for room or bits, in step with the batch token |
| Heatshrink.Decoder.StBackrefIndexMsb | src/NeonRTOS/HTTPd/heatshrink_decoder.c:231-239 | reads the high index bits or waits |
| Heatshrink.Decoder.StBackrefIndexLsb | src/NeonRTOS/HTTPd/heatshrink_decoder.c:241-251 | completes the index or waits |
| Heatshrink.Decoder.StBackrefCountMsb | src/NeonRTOS/HTTPd/heatshrink_decoder.c:253-261 | reads the high count bits or waits |
| Heatshrink.Decoder.StBackrefCountLsb | src/NeonRTOS/HTTPd/heatshrink_decoder.c:263-271 | completes the count or waits |
| Heatshrink.Decoder.StYieldBackref | src/NeonRTOS/HTTPd/heatshrink_decoder.c:273-296 | delivers as much of the repetition as there is room for, byte after byte so that it may overlap itself |
| Heatshrink.Decoder.EmitBackref | src/NeonRTOS/HTTPd/heatshrink_decoder.c:273-296 | the copying loop yields the next bytes of the batch repetition |
| Heatshrink.Decoder.StCheckForInput | src/NeonRTOS/HTTPd/heatshrink_decoder.c:298-300 | goes on or rests, at a token boundary |
| Heatshrink.Decoder.Sink | src/NeonRTOS/HTTPd/heatshrink_decoder.c:98-121 | takes as much as fits, reports a full buffer exactly when it is; the decoder stays valid exactly unless an empty sink meets a decoder at rest with no bits |
| Heatshrink.Decoder.EmptySinkMisreads | src/NeonRTOS/HTTPd/heatshrink_decoder.c:98-121 | what the guard of the callers prevents: after an empty sink at rest the next byte comes out as a literal that the batch decoding does not hold |
| Heatshrink.Decoder.Step | src/NeonRTOS/HTTPd/heatshrink_decoder.c:143-197 | every turn of the poll loop uses up bits or space or comes to rest |
| Heatshrink.Decoder.Poll | src/NeonRTOS/HTTPd/heatshrink_decoder.c:143-197 | ends; delivers a continuation of the output; full buffer or nothing more to deliver |
| Heatshrink.Decoder.Finish | src/NeonRTOS/HTTPd/heatshrink_decoder.c:352-376 | after a poll, done exactly when nothing more can come out |
| Heatshrink.Decoder.OutputOk | src/NeonRTOS/HTTPd/heatshrink_decoder.c:143-197 | after any sinks and polls the output is a prefix of the batch decoding of all input |
| Heatshrink.Decoder.DrainedExactly | src/NeonRTOS/HTTPd/heatshrink_decoder.c:298-300 | a settled decoder has delivered all of it exactly unless a seven-bit back-reference is left, which only window 4 with lookahead 2 allows |
| Heatshrink.Decoder.DeliveredExactly | src/NeonRTOS/HTTPd/heatshrink_decoder.c:98-121 | given no empty sink at rest, the output of a settled decoder depends on the bytes sunk alone, however they were cut, and equals the batch decoding exactly unless the stream leaves a hidden token |
| Heatshrink.HiddenTokenRun | src/NeonRTOS/HTTPd/heatshrink_decoder.c:143-197 | a run in which it does: two bytes sunk, polled to the end, reported as finished, and one of the two bytes of the decoding missing |
| FlashFile.File.Read | src/NeonRTOS/HTTPd/NeonRtFs.c:188-263 | any sequence of reads delivers the batch decoding of the file, each read short only at its end or empty where the header says it ends |
| CJsonRoundTrip.PrintParse | src/Drivers/W-Link/cJSON/cJSON.c:279-299 | parsing the formatted or unformatted print of any tree of null, booleans, 32-bit integers, NUL-free strings, arrays and objects gives the tree back, to the end of the text |
| CJsonRoundTrip.PrintInjective | src/Drivers/W-Link/cJSON/cJSON.c:298-299 | different trees have different prints, whichever way each is printed |
| CJsonRoundTrip.ValueRoundTrip | src/Drivers/W-Link/cJSON/cJSON.c:419-449 | the same inside any text that does not carry on a number |
| CJsonRoundTrip.ItemsRoundTrip | src/Drivers/W-Link/cJSON/cJSON.c:452-535 | the entries of an array come back in order, with the rest of the text |
| CJsonRoundTrip.MembersRoundTrip | src/Drivers/W-Link/cJSON/cJSON.c:538-639 | so do names and values of an object, at any depth of indentation |
| CJsonRoundTrip.StringRoundTrip | src/Drivers/W-Link/cJSON/cJSON.c:170-263 | every NUL-free string survives escaping and unescaping |
| CJsonRoundTrip.CharRoundTrip | src/Drivers/W-Link/cJSON/cJSON.c:230-263 | each escape is read back as its one character |
| CJsonRoundTrip.NumberRoundTrip | src/Drivers/W-Link/cJSON/cJSON.c:97-153 | each integer survives printing and parsing |
| CJsonRoundTrip.Utf8Correct | src/Drivers/W-Link/cJSON/cJSON.c:207-216 | the bytes written for a code point are its UTF-8 encoding of section 3 of RFC 3629: shortest, with lead and continuation bytes in their ranges, and decoding to it |
| CJsonRoundTrip.EncodesUnique | src/Drivers/W-Link/cJSON/cJSON.c:207-216 | and there is no other encoding of it |
| CJsonRoundTrip.PlainEscape | src/Drivers/W-Link/cJSON/cJSON.c:194-216 | the four-digit escape of any code point that is no surrogate, in any mixture of upper and lower case, is read completely and gives the UTF-8 encoding of that code point |
| CJsonRoundTrip.SurrogatePair | src/Drivers/W-Link/cJSON/cJSON.c:194-216 | the pair of escapes that stands for a code point from 10000 on gives the UTF-8 encoding of that code point |
| CJsonRoundTrip.DroppedEscapes | src/Drivers/W-Link/cJSON/cJSON.c:194-216 | zero, a low surrogate alone and a high one without its other half stand for nothing |
| CJsonRoundTrip.HexRoundTrip | src/Drivers/W-Link/cJSON/cJSON.c:155-166 | the four digits of a number from the most significant down, in upper or lower case, are read as that number |
| CJsonRoundTrip.HexTextIsAll | src/Drivers/W-Link/cJSON/cJSON.c:155-166 | every text of four hexadecimal digits is such a text of its value |
| CJsonRoundTrip.EscapeTexts | src/Drivers/W-Link/cJSON/cJSON.c:230-263 | the two-character escapes printed, and that other characters above the control characters stay as they are |
| CJsonRoundTrip.ControlTexts | src/Drivers/W-Link/cJSON/cJSON.c:230-263 | other control characters are printed as a four-digit escape of their code |
| CJsonRoundTrip.EscapeLetters | src/Drivers/W-Link/cJSON/cJSON.c:170-227 | the letters after a backslash, and that any other character stands for itself |
| CJsonRoundTrip.NumberTexts | src/Drivers/W-Link/cJSON/cJSON.c:119-153 | decimal digits are printed most significant first, behind a minus sign for a negative number |
| CJsonRoundTrip.ArrayText | src/Drivers/W-Link/cJSON/cJSON.c:480-535 | where the commas and blanks of a printed array stand |
| CJsonRoundTrip.ObjectText | src/Drivers/W-Link/cJSON/cJSON.c:574-639 | where the colons, commas, tabs and line ends of a printed object stand, at any depth |
| CJsonErrors.NoValue | src/Drivers/W-Link/cJSON/cJSON.c:419-431 | a text that begins no value is an error where it begins |
| CJsonErrors.NoFirstItem | src/Drivers/W-Link/cJSON/cJSON.c:452-477 | an array that opens with neither its bracket nor a value is an error there, behind any blanks |
| CJsonErrors.NoSeparator | src/Drivers/W-Link/cJSON/cJSON.c:452-477 | anything but a comma or the bracket after an entry of an array is an error there |
| CJsonErrors.NoNextItem | src/Drivers/W-Link/cJSON/cJSON.c:452-477 | after a comma another entry must come: a comma before the bracket is an error |
| CJsonErrors.NoName | src/Drivers/W-Link/cJSON/cJSON.c:538-571 | an object that opens with neither its brace nor a quote is an error there |
| CJsonErrors.NoColon | src/Drivers/W-Link/cJSON/cJSON.c:538-571 | anything but a colon after a name is an error there |
| CJsonErrors.NoNextMember | src/Drivers/W-Link/cJSON/cJSON.c:538-571 | anything but a comma or the brace after a value of an object is an error there |
| CJsonPrint.PrintStringPtr | src/Drivers/W-Link/cJSON/cJSON.c:230-263 | two passes: the size counted in the first is exact, and the text is the quoted string |
| CJsonPrint.PrintNumber | src/Drivers/W-Link/cJSON/cJSON.c:119-153 | 21 characters are enough for any 32-bit integer |
| CJsonPrint.PrintValue | src/Drivers/W-Link/cJSON/cJSON.c:434-449 | every node prints as specified and fits, with its NUL, into the size allocated for it |
| CJsonPrint.PrintArray | src/Drivers/W-Link/cJSON/cJSON.c:480-535 | so do arrays, from the lengths of their printed entries |
| CJsonPrint.PrintObject | src/Drivers/W-Link/cJSON/cJSON.c:574-639 | and objects |
| CJsonPrint.ComposeObject | src/Drivers/W-Link/cJSON/cJSON.c:612-639 | the composing loops stay inside the buffer and write the specified text |
| CJsonPrint.EmptyObject | src/Drivers/W-Link/cJSON/cJSON.c:583-590 | the empty object at any depth, indented one level less |
| CJsonPrint.ItemsFit | src/Drivers/W-Link/cJSON/cJSON.c:480-535 | the length summed up for an array covers its text |
| CJsonPrint.MembersFit | src/Drivers/W-Link/cJSON/cJSON.c:574-639 | and that for an object |
| CJsonParse.EscapeRoom | src/Drivers/W-Link/cJSON/cJSON.c:175-177 | the first pass over a string counts at least as much as any escape stands for |
| CJsonParse.ParseStringAt | src/Drivers/W-Link/cJSON/cJSON.c:170-227 | the measured buffer has room for the decoded string, and the pointer ends behind the literal |
| CJsonParse.WriteUtf8 | src/Drivers/W-Link/cJSON/cJSON.c:207-216 | the falling switch writes the UTF-8 bytes from their end |
| CJsonParse.ReadUnicode | src/Drivers/W-Link/cJSON/cJSON.c:194-216 | the case of a unicode escape, surrogates and invalid ones included |
| CJsonParse.ParseNumberAt | src/Drivers/W-Link/cJSON/cJSON.c:97-116 | the digit loop computes the 32-bit integer the text denotes, and tells a text that denotes none |
| CJsonParse.ParseItemsAt | src/Drivers/W-Link/cJSON/cJSON.c:452-477 | the loop over entries reads what the recursive definition says, or fails at the same place |
| CJsonParse.ParseMembersAt | src/Drivers/W-Link/cJSON/cJSON.c:538-571 | likewise the loop over an object |
| CJsonParse.ParseValueAt | src/Drivers/W-Link/cJSON/cJSON.c:419-431 | the parser as it runs agrees with its definition on every text, errors included, and ends |
| CJsonParse.ParseWithOpts | src/Drivers/W-Link/cJSON/cJSON.c:279-293 | with the option set, anything but blanks after the value is an error there |
| CJsonMinify.Minify | src/Drivers/W-Link/cJSON/cJSON.c:713-728 | in place, with writing never ahead of reading, the buffer becomes the minified text with its NUL, and nothing behind the old NUL changes |
| CJsonMinify.MinifyPrint | src/Drivers/W-Link/cJSON/cJSON.c:713-728 | minifying either print of any tree is legal and gives its unformatted print |
| CJsonMinify.MinifyParse | src/Drivers/W-Link/cJSON/cJSON.c:713-728 | and parsing that gives the tree |
| CJsonMinify.MinifiesPrint | src/Drivers/W-Link/cJSON/cJSON.c:434-449 | the same for a node at any depth inside any text |
| CJsonMinify.LineCommentGone | src/Drivers/W-Link/cJSON/cJSON.c:713-728 | a comment to the end of its line goes with its line end |
| CJsonMinify.CommentGone | src/Drivers/W-Link/cJSON/cJSON.c:713-728 | a comment between its marks goes |
| CJsonMinify.MinifiesQuoted | src/Drivers/W-Link/cJSON/cJSON.c:230-263 | a quoted string passes through unchanged, whatever it contains |
| CJsonMinify.EscapedBody | src/Drivers/W-Link/cJSON/cJSON.c:230-263 | escaping leaves no bare quote that would end a literal early |
| StreamSharing.ReceivedIsPrefix | src/NeonRTOS/kernel/stream_buffer.c:1000-1050 | however writer and reader interleave at single byte copies and publications: bytes received are a prefix of bytes sent, the ring holds the difference, and bytes plus spaces are the length minus one |
| StreamSharing.MessagesInOrder | src/NeonRTOS/kernel/stream_buffer.c:1276-1328 | in message mode only whole messages arrive, in order, and none is lost |
| StreamSharing.StepKeepsInv | src/NeonRTOS/kernel/stream_buffer.c:1476-1563 | every copy or publication of either side keeps ring, writer, reader and frames in order |
| StreamSharing.KeepCopyByteIn | src/NeonRTOS/kernel/stream_buffer.c:1476-1519 | a byte copied in touches neither what is published nor what the reader has copied |
| StreamSharing.KeepPublishHead | src/NeonRTOS/kernel/stream_buffer.c:1000-1050 | length and body of a message become visible in one store |
| StreamSharing.KeepPublishTail | src/NeonRTOS/kernel/stream_buffer.c:1276-1328 | one store consumes exactly what was copied out |
| StreamSharing.LengthRead | src/NeonRTOS/kernel/stream_buffer.c:1276-1328 | the length the reader decodes is that of the first pending message, all of which was available when it looked |
| StreamSharing.WholeOrNothing | src/NeonRTOS/kernel/stream_buffer.c:1276-1328 | a message is taken whole if the caller has room, and otherwise left in place with nothing changed |
| StreamSharing.EmptyMessagesUnseen | src/NeonRTOS/kernel/stream_buffer.c:1000-1050 | over whole runs, the messages delivered and pending are exactly the non-empty ones that were copied in, in order |
| StreamRing.LengthRoundTrip | src/NeonRTOS/kernel/stream_buffer.c:1000-1050 | the stored length bytes give the length back |
| StreamRing.FramesConcat | src/NeonRTOS/kernel/stream_buffer.c:1000-1050 | frames of messages concatenate |
| StreamBuffer.Buffer.BytesInBuffer | src/NeonRTOS/kernel/stream_buffer.c:1566-1584 | the wrapping subtraction counts the contents |
| StreamBuffer.Buffer.SpacesAvailable | src/NeonRTOS/kernel/stream_buffer.c:754-788 | and the free space, one slot always staying empty |
| StreamBuffer.Buffer.WriteBytes | src/NeonRTOS/kernel/stream_buffer.c:1476-1519 | the two block copies write the data round the ring and nothing else |
| StreamBuffer.Buffer.ReadBytes | src/NeonRTOS/kernel/stream_buffer.c:1522-1563 | the two block copies read it |
| StreamBuffer.Buffer.WriteMessage | src/NeonRTOS/kernel/stream_buffer.c:1000-1050 | a message goes in whole or not at all, a stream as far as there is space, even with an out-of-date space |
| StreamBuffer.Buffer.ReadMessage | src/NeonRTOS/kernel/stream_buffer.c:1276-1328 | the first message if there is room for it, else nothing consumed |
| StreamBuffer.Buffer.Send | src/NeonRTOS/kernel/stream_buffer.c:943-997 | what fits is appended to the contents at once: the whole message or nothing, as much of a stream as there is space for |
| StreamBuffer.Buffer.Receive | src/NeonRTOS/kernel/stream_buffer.c:1213-1273 | the first message, or as much of a stream as there is room for, is taken off the contents |
| EventRuns.NobodyWaitsInVain | src/NeonRTOS/kernel/event_groups.c:312-501 | in no reachable state does a listed task wait for bits that are there |
| EventRuns.ReturnedMeansMet | src/NeonRTOS/kernel/event_groups.c:312-469 | a call that does not time out returns bits that satisfy its condition |
| EventRuns.StepKeepsInv | src/NeonRTOS/kernel/event_groups.c:185-644 | every call, release, timeout and continuation keeps each task in one place and nobody waiting in vain |
| EventBits.SetBitsLeavesNone | src/NeonRTOS/kernel/event_groups.c:547-644 | testing all waiters before clearing leaves nobody listed who could go on |
| EventBits.OrderIrrelevant | src/NeonRTOS/kernel/event_groups.c:547-644 | released tasks, their values, remaining waiters and final bits do not depend on the list order |
| EventBits.MetMonotone | src/NeonRTOS/kernel/event_groups.c:775-809 | clearing bits cannot make a condition hold |
| EventBits.SyncKeepsNone | src/NeonRTOS/kernel/event_groups.c:185-309 | a task that the rendezvous call lists could not have gone on |
| EventBits.ToClearMembers | src/NeonRTOS/kernel/event_groups.c:547-644 | a bit is cleared exactly when some released task asked for it |
| EventBits.ReleasedMembers | src/NeonRTOS/kernel/event_groups.c:547-644 | exactly the tasks whose condition holds are released, each with the bits before clearing |
| EventBits.MetMeaning | src/NeonRTOS/kernel/event_groups.c:775-809 | a wait for all bits is met when each is set, a wait for any when one is |
| EventBits.BitsAfterSet | src/NeonRTOS/kernel/event_groups.c:547-644 | after setting, a bit is set exactly if it was or was given, and no released task asked for it to be cleared |
| EventBits.BitsAfterWait | src/NeonRTOS/kernel/event_groups.c:312-469 | a wait clears exactly its bits, exactly when its condition holds and it asked for that |
| EventBits.BitsAfterExpired | src/NeonRTOS/kernel/event_groups.c:312-469 | so does the last look at the bits after a timeout |
| EventBits.BitsAfterSync | src/NeonRTOS/kernel/event_groups.c:185-309 | a rendezvous that is complete clears exactly its bits; else the bits are as after setting |
| EventGroup.EventGroup.TestWaitCondition | src/NeonRTOS/kernel/event_groups.c:775-809 | any or all of the bits, as asked |
| EventGroup.EventGroup.SetBits | src/NeonRTOS/kernel/event_groups.c:547-644 | the walk that unlinks as it goes does what setting bits means |
| EventGroup.EventGroup.ClearBits | src/NeonRTOS/kernel/event_groups.c:472-501 | the bits go, and the old value is returned |
| EventGroup.EventGroup.WaitBits | src/NeonRTOS/kernel/event_groups.c:312-469 | return, time out or join the list |
| EventGroup.EventGroup.Sync | src/NeonRTOS/kernel/event_groups.c:185-309 | set, then return with all bits cleared, or join the list |
| EventGroup.EventGroup.ResumeExpired | src/NeonRTOS/kernel/event_groups.c:312-469 | after a timeout the bits are looked at once more |
| EventWords.StoredWaiter | src/NeonRTOS/kernel/event_groups.c:547-644 | the item value stored for a waiting task comes apart into the waiter of the model, and is no release |
| EventWords.StoredRelease | src/NeonRTOS/kernel/event_groups.c:547-644 | a value stored at a release is told apart and gives the bits back |
| EventWords.WordCondition | src/NeonRTOS/kernel/event_groups.c:775-809 | the tests as written on 32-bit words are the conditions on sets of bits |
| EventWords.WordUnion | src/NeonRTOS/kernel/event_groups.c:547-644 | or-ing words is adding bits |
| EventWords.WordDifference | src/NeonRTOS/kernel/event_groups.c:472-501 | masking with a complement is taking bits away |
| Rendezvous.NobodyLeavesEarly | src/NeonRTOS/kernel/event_groups.c:185-309 | over any number of rounds no task leaves a round before every task has arrived at it, whatever other tasks do with other bits of the group: setting, clearing, waiting, timing out, or meeting at a barrier of their own |
| Rendezvous.AllBitsReturned | src/NeonRTOS/kernel/event_groups.c:185-309 | whoever leaves a round is given all bits of the barrier |
| Rendezvous.BitsOfTheRound | src/NeonRTOS/kernel/event_groups.c:185-309 | the barrier bits set are those of the tasks waiting in the current round, so all are clear after it |
| Rendezvous.SomebodyCanGoOn | src/NeonRTOS/kernel/event_groups.c:185-309 | some task of the barrier is always running or released |
| Rendezvous.KeepArriveLast | src/NeonRTOS/kernel/event_groups.c:185-309 | the last arrival releases everybody and clears the bits |
| Rendezvous.KeepArriveEarly | src/NeonRTOS/kernel/event_groups.c:185-309 | an earlier one joins the list and disturbs nobody |
| Rendezvous.StepKeepsInv | src/NeonRTOS/kernel/event_groups.c:185-644 | every step of partners and other users keeps the barrier in step |
| CoRoutines.WakeIsIdeal | src/NeonRTOS/kernel/croutine.c:172-212 | the overflow list is chosen exactly when the wake time lies in the next epoch |
| CoRoutines.WrapFindsEmptyList | src/NeonRTOS/kernel/croutine.c:238-294 | the list swapped out at a wrap is empty |
| CoRoutines.HeadWakes | src/NeonRTOS/kernel/croutine.c:238-294 | the head tells whether anybody wakes at a tick, and who wakes does so exactly then |
| CoRoutines.WakeReady | src/NeonRTOS/kernel/croutine.c:70-77 | a woken co-routine is in its ready list and no other, below the raised top priority |
| CoRoutines.Scheduler.Create | src/NeonRTOS/kernel/croutine.c:105-169 | a new co-routine is ready, its priority clamped; the first is the current one |
| CoRoutines.Scheduler.AddToDelayedList | src/NeonRTOS/kernel/croutine.c:172-212 | the running co-routine moves from its ready list to the delay list of its ideal wake time |
| CoRoutines.Scheduler.RemoveFromEventList | src/NeonRTOS/kernel/croutine.c:356-382 | at any point of a scheduling pass an event moves a co-routine to the end of the pending list, and its priority is compared with that of the current one |
| CoRoutines.Scheduler.CheckPendingReadyList | src/NeonRTOS/kernel/croutine.c:215-235 | the co-routines pending, and those that interrupts add meanwhile, leave the delay lists, and nobody else |
| CoRoutines.Scheduler.WakeHead | src/NeonRTOS/kernel/croutine.c:238-294 | a co-routine whose delay runs out leaves its event list, or the pending list if an interrupt has just moved it there; no other event item is lost |
| CoRoutines.Scheduler.Tick | src/NeonRTOS/kernel/croutine.c:238-294 | at each tick exactly those due are made ready, each once, whatever events come meanwhile |
| CoRoutines.Scheduler.CheckDelayedList | src/NeonRTOS/kernel/croutine.c:238-294 | however many ticks and wraps have passed, and with events between and during the ticks, each delayed co-routine is made ready once and at exactly its tick, and no event is lost |
| CoRoutines.Scheduler.Schedule | src/NeonRTOS/kernel/croutine.c:297-333 | with interrupts at any point: those whose event was pending are readied early, all others at exactly their tick, no event is lost; the one that runs has the highest priority of those ready, and none runs only if none is ready |
| Sha1Stream.WindowNext | src/Drivers/W-Link/Misc/sha1.c:34-69 | the circular sixteen-word schedule yields word t of the eighty-word one |
| Sha1Stream.ChooseForm | src/Drivers/W-Link/Misc/sha1.c:34-69 | the choice as written is the function Ch of section 4.1.1 of FIPS 180-4 |
| Sha1Stream.MajorityForm | src/Drivers/W-Link/Misc/sha1.c:34-69 | the majority as written is Maj |
| Sha1Stream.RolIsRotl | src/Drivers/W-Link/Misc/sha1.c:30-32 | the rotation is ROTL for the amounts used |
| Sha1Stream.HoldsNext | src/Drivers/W-Link/Misc/sha1.c:71-83 | bytes stored at flipped offsets make up big-endian words |
| Sha1Stream.WordRoundTrip | src/Drivers/W-Link/Misc/sha1.c:71-83 | the bytes of a word make up the word |
| Sha1Stream.SwappedBytes | src/Drivers/W-Link/Misc/sha1.c:112-130 | swapping puts a word into memory most significant byte first |
| Sha1.PaddedLength | src/Drivers/W-Link/Misc/sha1.c:94-110 | padding ends on a block boundary |
| Sha1.ZeroCountLeast | src/Drivers/W-Link/Misc/sha1.c:94-110 | with the least number of zero bytes |
| Sha1.AddUp | src/Drivers/W-Link/Misc/sha1.c:34-69 | the order in which the five summands are added makes no difference |
| Sha1Answer.KnownAnswer | src/Drivers/W-Link/Misc/sha1.c:20-69 | the hash of abc is a9993e36 4706816a ba3e2571 7850c26c 9cd0d89d, which pins initial values, constants, round functions, rotations and padding |
| Sha1.LengthIsBigEndian | src/Drivers/W-Link/Misc/sha1.c:94-110 | the padding ends with the number of bits as eight bytes, most significant first |
| Sha1.HmacBlocks | src/Drivers/W-Link/Misc/sha1.c:135-163 | the HMAC is the hash of outer pad and inner hash, with key bytes, zeros or the bytes of the hash of a long key in the pads |
| Sha1Stream.Sha1nfo.HashBlock | src/Drivers/W-Link/Misc/sha1.c:34-69 | one block, in place and with the round functions as the code writes them, is the compression of section 6.1.2 |
| Sha1Stream.Sha1nfo.AddUncounted | src/Drivers/W-Link/Misc/sha1.c:71-83 | state and buffer together stand for all bytes so far |
| Sha1Stream.Sha1nfo.Write | src/Drivers/W-Link/Misc/sha1.c:90-92 | the message does not depend on how it is cut into writes |
| Sha1Stream.Sha1nfo.Pad | src/Drivers/W-Link/Misc/sha1.c:94-110 | the padding of section 5.1.1, for messages below 2^32 bytes |
| Sha1Stream.Sha1nfo.Result | src/Drivers/W-Link/Misc/sha1.c:112-130 | the digest of everything written, for messages below 2^32 bytes, with the hash whose answer for abc Sha1Answer.KnownAnswer gives |
| Sha1Stream.Sha1nfo.InitHmac | src/Drivers/W-Link/Misc/sha1.c:135-152 | key block and inner pad of section 2 of RFC 2104, for every key length |
| Sha1Stream.Sha1nfo.ResultHmac | src/Drivers/W-Link/Misc/sha1.c:154-163 | the HMAC of the text written, which Sha1.HmacBlocks spells out |
| TxRing.TxRing.constructor | src/Drivers/W-Link/ethernetif/ethernetif_tm4c1294.c:321-342 | all descriptors free |
| TxRing.TxRing.LowLevelOutput | src/Drivers/W-Link/ethernetif/ethernetif_tm4c1294.c:1143-1298 | accepted exactly when the packet or its copy fits; then its buffers, from the head of the chain on, are queued behind the others with one reference held; a rejected call leaves ring and reference counts as they were |
| TxRing.TxRing.CheckPbuf | src/Drivers/W-Link/ethernetif/ethernetif_tm4c1294.c:603-670 | the packet itself, or a copy with the reference handed over, or nothing with it given back |
| TxRing.TxRing.PutPacket | src/Drivers/W-Link/ethernetif/ethernetif_tm4c1294.c:1230-1283 | the filling loop writes the chain behind the queue and overwrites no descriptor in use, with the hardware at work on the first descriptors before the last is filled |
| TxRing.ChainInOrder | src/Drivers/W-Link/ethernetif/ethernetif_tm4c1294.c:1230-1256 | the entries of a packet are its buffers in the order of the chain, the first and the last of them marked |
| TxRing.TxRing.QueuedDescriptor | src/Drivers/W-Link/ethernetif/ethernetif_tm4c1294.c:1230-1256 | each descriptor from the read index on shows the hardware the payload, length, marks and packet of its entry |
| TxRing.TxRing.FreeCount | src/Drivers/W-Link/ethernetif/ethernetif_tm4c1294.c:1207-1211 | the count from read and write index is the number of free descriptors |
| TxRing.TxRing.FullRing | src/Drivers/W-Link/ethernetif/ethernetif_tm4c1294.c:1188-1202 | a descriptor in use at the write index means a full ring |
| TxRing.TxRing.ProcessTransmit | src/Drivers/W-Link/ethernetif/ethernetif_tm4c1294.c:681-726 | with the hardware at work meanwhile, everything before the first descriptor it is found to own is given back, in order, one reference per packet, and nothing that it was found to own; buffers handed back and still queued are those accepted, in order |
| TxRing.TxRing.ReleaseOne | src/Drivers/W-Link/ethernetif/ethernetif_tm4c1294.c:681-726 | a packet is given back with its last descriptor only |
| TxRing.TxRing.OwnedIsHeld | src/Drivers/W-Link/ethernetif/ethernetif_tm4c1294.c:681-726 | a descriptor owned by the hardware belongs to a packet that is still referenced |
| TxRing.TxRing.HardwareDone | src/Drivers/W-Link/ethernetif/ethernetif_tm4c1294.c:681-726 | the hardware may finish descriptors at any time and in any order: the ring stays in order |
| TxRing.PacketHeld | src/Drivers/W-Link/ethernetif/ethernetif_tm4c1294.c:1230-1283 | every queued descriptor is followed by the last one of its packet |
| TxRing.HeldPacket | src/Drivers/W-Link/ethernetif/ethernetif_tm4c1294.c:1230-1283 | a packet of any length holds exactly one reference |

## Left out

- TickTime.SubTicksIsIdeal: says nothing about ticks a wrap or more apart, which 32 bits cannot tell from nearer ones.
- Timers.Daemon.ReceiveCommand: requires the time of a start or reset to be less than 2^32 ticks old; `Timers.PlaceNeedsFreshCommands` shows why.
- Timers.Daemon.ProcessTimerOrBlock: covers one pass; the task loop around it, the command queue's own blocking and pended function calls beyond their removal from the queue are not modelled.
- CJsonParse.ParseValueAt: numbers with fractions or exponents or beyond a 32-bit integer, escapes cut short, or unicode escapes without four hexadecimal digits have the outcome `Outside`; what the code does with them is not modelled.
- CJsonRoundTrip.PrintParse: numbers are integers of 32 bits; floating-point printing and parsing is left out.
- CJsonPrint.PrintValue: a printed entry is the value of its C string; freeing and failing allocations are left out, and so is the empty result for a missing name.
- CJsonMinify.Minify: requires string literals and comments to be closed, as the code does to stay inside the text.
- QueueRing.Queue.CopyDataToQueue: items have at least one byte; semaphores and mutexes, which are queues of empty items with priority inheritance, are left out.
- Rendezvous.NobodyLeavesEarly: for calls of the partners without a time limit, as a partner that times out leaves alone; other users of the group keep to other bits.
- Timers.Daemon.SetReloadMode: comes between two passes of the daemon; a change between its reading of the mode and its use within one pass is not modelled.
- StreamBuffer.Buffer.Send: waiting for space and waking a reader are left out; `StreamSharing` has the stale space that waiting leaves.
- StreamBuffer.Buffer.Receive: waiting for bytes and waking a writer are left out.
- EventGroup.EventGroup.SetBits: works on sets of bits and records of waiters; `EventWords` shows that the words of the code hold and test the same.
- CoRoutines.Scheduler.Schedule: takes any co-routine of the top priority; the round robin among equals is the list's (`KernelList`).
- CoRoutines.Scheduler.AddToDelayedList: delays are at least one tick, which the calling macros see to.
- Sha1Stream.Sha1nfo.Result: messages of 2^32 bytes or more, whose length the 32-bit count loses, are excluded; a big-endian host is left out.
- TxRing.TxRing.LowLevelOutput: a copied packet is taken to have the contents of the original; checksum flags and statistics are left out.
- Children of a cJSON node are a sequence in its value, not nodes linked through next and prev pointers: sharing, references and editing of trees are left out.
- The daemon's lists, the event lists and the delay lists are sequences of entries; that a sequence is what the linked list implements is shown once, in `KernelList`.
- Queue sets, resetting a queue in use (`src/NeonRTOS/kernel/queue.c:327-349` wakes a single sender), co-routine queue calls, registries, static allocation, trace and number getters.
- Batching mode, completion callbacks and the notification handshake of stream buffers; their waiting is a later look at the space or the bytes.
- Deferred setting and clearing of event bits from interrupts, and deleting groups, queues and buffers.
- Malformed JSON beyond where an error is reported, `cJSON_Print_To_Buffer`, duplicate and edit functions.
- Base64 and the WebSocket header codec, which are easier relatives of the codecs here.
- Receive descriptors, PHY and MAC registers, lwIP, HTTP handlers, file lookup in the flash image, board support and the web pages.
- Wrapper functions of `NeonRTOS.c`.
