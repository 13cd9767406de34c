/**
 The co-routine scheduler (croutine.c): ready lists by priority, and two sorted delay lists
 that swap when its 32-bit tick count wraps.  As in the timer daemon the delay lists stand
 for wake times in unbounded time.
 */
module CoRoutines {
  import opened TickTime
  import opened Timers

  type CoId = nat

  /** A co-routine whose delay ran out: when it was to wake, and the tick at which it was made ready. */
  datatype Wake = Wake(id: CoId, due: nat, at: nat)

  // ---------- Delays in ideal time ----------

  /** The test for the overflow list finds out whether the wake time lies in the next epoch. */
  lemma WakeIsIdeal(now: nat, delay: Tick)
    ensures AddTicks(ToTick(now), delay) == ToTick(now + delay)
    ensures Epoch(now) <= Epoch(now + delay) <= Epoch(now) + 1
    ensures AddTicks(ToTick(now), delay) < ToTick(now) <==> Epoch(now + delay) == Epoch(now) + 1
  {
    AddTicksIsIdeal(now, delay);
    var e := now + delay;
    assert e == Epoch(e) * WRAP + ToTick(e) && now == Epoch(now) * WRAP + ToTick(now);
  }

  /** Everybody on the delay lists wakes later than `now`. */
  ghost predicate AllLater(wake: map<CoId, nat>, now: nat) {
    forall id :: id in wake ==> now < wake[id]
  }

  lemma HeadInWake(delayed: seq<Item>, overflow: seq<Item>, wake: map<CoId, nat>, epoch: int)
    requires Refines(delayed, overflow, epoch, wake)
    ensures delayed != [] ==> delayed[0].owner in wake && wake[delayed[0].owner] == epoch * WRAP + delayed[0].value
  {
  }

  /** When the tick count wraps, the list that is swapped out is empty. */
  lemma WrapFindsEmptyList(delayed: seq<Item>, overflow: seq<Item>, wake: map<CoId, nat>, now: nat)
    requires Refines(delayed, overflow, Epoch(now), wake) && AllLater(wake, now) && ToTick(now + 1) == 0
    ensures delayed == [] && Epoch(now + 1) == Epoch(now) + 1
  {
    assert now == Epoch(now) * WRAP + ToTick(now);
    HeadInWake(delayed, overflow, wake, Epoch(now));
  }

  lemma SameEpoch(now: nat)
    requires ToTick(now + 1) != 0
    ensures Epoch(now + 1) == Epoch(now) && ToTick(now + 1) == ToTick(now) + 1
  {
  }

  /** The head of the current list tells whether anybody wakes at a tick, and who wakes does so exactly then. */
  lemma HeadWakes(delayed: seq<Item>, overflow: seq<Item>, wake: map<CoId, nat>, was: nat)
    requires Refines(delayed, overflow, Epoch(was + 1), wake) && AllLater(wake, was)
    ensures delayed == [] || ToTick(was + 1) < delayed[0].value ==> AllLater(wake, was + 1)
    ensures delayed != [] && ToTick(was + 1) >= delayed[0].value ==>
              delayed[0].owner in wake && wake[delayed[0].owner] == was + 1
  {
    hide Refines;
    var now := was + 1;
    assert now == Epoch(now) * WRAP + ToTick(now);
    forall id | id in wake && (delayed == [] || ToTick(now) < delayed[0].value) ensures now < wake[id] {
      HeadIsEarliest(delayed, overflow, Epoch(now), wake, id);
    }
    HeadInWake(delayed, overflow, wake, Epoch(now));
  }

  // ---------- The ready lists ----------

  ghost predicate NoRepeats(ids: seq<CoId>) {
    forall i, j :: 0 <= i < j < |ids| ==> ids[i] != ids[j]
  }

  /** A ready list holds co-routines of its priority that are not delayed. */
  ghost predicate ListReady(ids: seq<CoId>, p: nat, priority: map<CoId, nat>, wake: map<CoId, nat>) {
    NoRepeats(ids) && forall id :: id in ids ==> id in priority && priority[id] == p && id !in wake
  }

  /** Every co-routine's generic item is in exactly one list, and no list above `top` holds any. */
  ghost predicate ReadyOk(ready: seq<seq<CoId>>, priority: map<CoId, nat>, wake: map<CoId, nat>, top: nat) {
    && top < |ready|
    && (forall p :: 0 <= p < |ready| ==> ListReady(ready[p], p, priority, wake))
    && (forall p :: top < p < |ready| ==> ready[p] == [])
    && (forall id :: id in priority ==> priority[id] < |ready| && (id in wake || id in ready[priority[id]]))
    && wake.Keys <= priority.Keys
  }

  /** prvAddCoRoutineToReadyQueue raises the top priority if need be. */
  function Raised(top: nat, p: nat): nat {
    if p > top then p else top
  }

  lemma WakeReady(ready: seq<seq<CoId>>, priority: map<CoId, nat>, wake: map<CoId, nat>, top: nat, id: CoId)
    requires ReadyOk(ready, priority, wake, top) && id in wake
    ensures var p := priority[id];
            ReadyOk(ready[p := ready[p] + [id]], priority, wake - {id}, Raised(top, p))
  {
    var p := priority[id];
    var ready' := ready[p := ready[p] + [id]];
    forall q | 0 <= q < |ready'| ensures ListReady(ready'[q], q, priority, wake - {id}) {
      assert ListReady(ready[q], q, priority, wake);
      if q == p && id in ready[p] {
        assert false;
      }
    }
  }

  lemma DelayReady(ready: seq<seq<CoId>>, priority: map<CoId, nat>, wake: map<CoId, nat>, top: nat, p: nat, k: nat,
      due: nat)
    requires ReadyOk(ready, priority, wake, top) && p < |ready| && k < |ready[p]|
    ensures var id := ready[p][k];
            && id in priority && priority[id] == p && id !in wake
            && ReadyOk(ready[p := ready[p][..k] + ready[p][k + 1..]], priority, wake[id := due], top)
  {
    var id, ids := ready[p][k], ready[p];
    var ids' := ids[..k] + ids[k + 1..];
    var ready' := ready[p := ids'];
    assert ListReady(ids, p, priority, wake) && id in ids;
    assert forall j :: 0 <= j < |ids'| ==> ids'[j] == ids[if j < k then j else j + 1];
    forall q | 0 <= q < |ready'| ensures ListReady(ready'[q], q, priority, wake[id := due]) {
      assert ListReady(ready[q], q, priority, wake);
    }
    forall i | i in priority ensures priority[i] < |ready'| && (i in wake[id := due] || i in ready'[priority[i]]) {
      if i != id && i !in wake && priority[i] == p {
        var j :| 0 <= j < |ids| && ids[j] == i;
        assert ids'[if j < k then j else j - 1] == i;
      }
    }
  }

  lemma CreateReady(ready: seq<seq<CoId>>, priority: map<CoId, nat>, wake: map<CoId, nat>, top: nat, id: CoId, p: nat)
    requires ReadyOk(ready, priority, wake, top) && id !in priority && p < |ready|
    ensures ReadyOk(ready[p := ready[p] + [id]], priority[id := p], wake, Raised(top, p))
  {
    var ready' := ready[p := ready[p] + [id]];
    forall q | 0 <= q < |ready'| ensures ListReady(ready'[q], q, priority[id := p], wake) {
      assert ListReady(ready[q], q, priority, wake);
    }
  }

  // ---------- Events ----------

  /** Event items are on an event list or on the pending list, and only those of delayed co-routines. */
  ghost predicate EventsOk(pending: seq<CoId>, onEvent: set<CoId>, wake: map<CoId, nat>) {
    NoRepeats(pending) && onEvent <= wake.Keys && forall id :: id in pending ==> id in wake && id !in onEvent
  }

  /** Interrupts put event items at the end of the pending list, from the event lists and from nowhere else. */
  ghost predicate Posted(pending: seq<CoId>, onEvent: set<CoId>, pending': seq<CoId>, onEvent': set<CoId>) {
    && pending <= pending' && onEvent' <= onEvent
    && (forall id :: id in onEvent ==> id in onEvent' || id in pending')
    && (forall id :: id in pending' ==> id in pending || id in onEvent - onEvent')
  }

  /** No event gets lost: whoever is still asleep keeps its event item, on the event list or on the pending list. */
  ghost predicate EventsKept(pending: seq<CoId>, onEvent: set<CoId>, pending': seq<CoId>, onEvent': set<CoId>,
                             wake': map<CoId, nat>)
  {
    && onEvent' <= onEvent
    && (forall id :: id in pending && id in wake' ==> id in pending')
    && (forall id :: id in onEvent && id in wake' ==> id in onEvent' || id in pending')
    && (forall id :: id in pending' ==> id in pending || id in onEvent)
  }

  // ---------- The scheduler ----------

  class Scheduler {
    var ready: seq<seq<CoId>>
    var delayed: seq<Item>
    var overflow: seq<Item>
    var pending: seq<CoId>
    var onEvent: set<CoId>          // the co-routines whose event item is on some event list
    var priority: map<CoId, nat>
    var current: CoId
    var top: nat
    var tickCount: Tick
    var lastTickCount: Tick

    ghost var now: nat              // the ideal time that tickCount shows
    ghost var wake: map<CoId, nat>  // the ideal wake times
    ghost var log: seq<Wake>        // the delays that have run out

    ghost predicate DelaysOk()
      reads this`delayed, this`overflow, this`tickCount, this`now, this`wake
    {
      tickCount == ToTick(now) && Refines(delayed, overflow, Epoch(now), wake) && AllLater(wake, now)
    }

    ghost predicate Valid()
      reads this
    {
      && DelaysOk() && lastTickCount == tickCount
      && ReadyOk(ready, priority, wake, top) && InterruptOk()
    }

    /** What an interrupt relies on, and finds at any point of a scheduling pass. */
    ghost predicate InterruptOk()
      reads this`pending, this`onEvent, this`wake, this`priority, this`current
    {
      && EventsOk(pending, onEvent, wake) && wake.Keys <= priority.Keys
      && (priority != map[] ==> current in priority)
    }

    /** prvInitialiseCoRoutineLists. */
    constructor (priorities: nat)
      requires priorities > 0
      ensures Valid() && |ready| == priorities && wake == map[] && priority == map[] && log == [] && now == 0
    {
      ready := seq(priorities, _ => []);
      delayed, overflow, pending, onEvent, priority := [], [], [], {}, map[];
      current, top, tickCount, lastTickCount := 0, 0, 0, 0;
      now, wake, log := 0, map[], [];
    }

    /** xCoRoutineCreate; the first co-routine created is the current one. */
    method Create(id: CoId, p: nat)
      requires Valid() && id !in priority
      modifies this`ready, this`priority, this`top, this`current
      ensures Valid() && id in priority && wake == old(wake)
      ensures priority == old(priority)[id := if p < |ready| then p else |ready| - 1]
    {
      hide ReadyOk, Refines, AllLater, EventsOk;
      ReadyBounds(ready, priority, wake, top);
      var q := if p >= |ready| then |ready| - 1 else p;
      CreateReady(ready, priority, wake, top, id, q);
      if priority == map[] {
        current := id;
      }
      ready := ready[q := ready[q] + [id]];
      priority, top := priority[id := q], Raised(top, q);
    }

    /** vCoRoutineAddToDelayedList, called by the co-routine that is running. */
    method AddToDelayedList(ticksToDelay: Tick, k: nat, event: bool)
      requires Valid() && 0 < ticksToDelay && current in priority && priority[current] < |ready|
      requires k < |ready[priority[current]]| && ready[priority[current]][k] == current
      modifies this`ready, this`delayed, this`overflow, this`onEvent, this`wake
      ensures Valid() && wake == old(wake)[current := now + ticksToDelay]
      ensures onEvent == if event then old(onEvent) + {current} else old(onEvent)
    {
      hide ReadyOk, Refines, AllLater, EventsOk;
      var timeToWake := AddTicks(tickCount, ticksToDelay);
      WakeIsIdeal(now, ticksToDelay);
      ghost var due := now + ticksToDelay;
      var p := priority[current];
      DelayReady(ready, priority, wake, top, p, k, due);
      InsertRefines(delayed, overflow, Epoch(now), wake, current, due);
      DelayEvents(pending, onEvent, wake, current, due, event);
      LaterWith(wake, now, current, due);
      ready := ready[p := ready[p][..k] + ready[p][k + 1..]];
      if timeToWake < tickCount {
        overflow := InsertItem(overflow, Item(timeToWake, current));
      } else {
        delayed := InsertItem(delayed, Item(timeToWake, current));
      }
      wake := wake[current := due];
      if event {
        onEvent := onEvent + {current};
      }
    }

    /**
     xCoRoutineRemoveFromEventList, called by an interrupt: the co-routine at the head of an
     event list is to be readied.  It may come at any point of a scheduling pass.
     */
    method RemoveFromEventList(id: CoId) returns (higher: bool)
      requires InterruptOk() && id in onEvent
      modifies this`pending, this`onEvent
      ensures InterruptOk() && pending == old(pending) + [id] && onEvent == old(onEvent) - {id}
      ensures id in priority && current in priority && (higher <==> priority[id] >= priority[current])
    {
      pending, onEvent := pending + [id], onEvent - {id};
      higher := priority[id] >= priority[current];
    }

    /**
     Any number of interrupts, each with an event for some co-routine.  A scheduling pass lets
     them in between its critical sections; what it does outside of those touches neither the
     pending list nor the event lists.
     */
    method Interrupts()
      requires InterruptOk()
      modifies this`pending, this`onEvent
      ensures InterruptOk() && Posted(old(pending), old(onEvent), pending, onEvent)
    {
      hide EventsOk;
      while *
        invariant InterruptOk() && Posted(old(pending), old(onEvent), pending, onEvent)
        decreases |onEvent|
      {
        if onEvent == {} {
          break;
        }
        var id :| id in onEvent;
        var _ := RemoveFromEventList(id);
      }
    }

    /** prvAddCoRoutineToReadyQueue, for a co-routine whose generic item has left its delay list. */
    method AddToReadyQueue(id: CoId)
      requires ReadyOk(ready, priority, wake, top) && id in wake
      modifies this`ready, this`top, this`wake
      ensures ReadyOk(ready, priority, wake, top) && wake == old(wake) - {id} && |ready| == old(|ready|)
      ensures id in priority && priority[id] < |ready| && id in ready[priority[id]]
    {
      hide ReadyOk;
      ReadyBounds(ready, priority, wake, top);
      WakeReady(ready, priority, wake, top, id);
      var p := priority[id];
      top, ready := Raised(top, p), ready[p := ready[p] + [id]];
      wake := wake - {id};
    }

    /** uxListRemove of a generic item, from whichever delay list holds it. */
    method RemoveGenericItem(id: CoId, ghost epoch: int)
      requires Refines(delayed, overflow, epoch, wake) && id in wake
      modifies this`delayed, this`overflow
      ensures Refines(delayed, overflow, epoch, wake - {id})
    {
      hide Refines;
      InExactlyOneList(delayed, overflow, epoch, wake, id);
      if k :| 0 <= k < |delayed| && delayed[k].owner == id {
        RemoveRefines(delayed, overflow, epoch, wake, k);
        delayed := RemoveAt(delayed, k);
      } else if k :| 0 <= k < |overflow| && overflow[k].owner == id {
        RemoveRefines(delayed, overflow, epoch, wake, k);
        overflow := RemoveAt(overflow, k);
      } else {
        assert false;
      }
    }

    /**
     prvCheckPendingReadyList: whoever an event has readied leaves the delay lists, and nobody
     else.  Interrupts may add to the pending list meanwhile; `early` is who was moved.
     */
    method CheckPendingReadyList() returns (ghost early: set<CoId>)
      requires Valid()
      modifies this`ready, this`top, this`delayed, this`overflow, this`pending, this`onEvent, this`wake
      ensures Valid() && pending == [] && |ready| == old(|ready|) && wake == old(wake) - early
      ensures EarlyOk(early, old(pending), old(onEvent), onEvent)
    {
      hide ReadyOk, Refines, AllLater, EventsOk;
      early := {};
      while pending != []
        invariant Valid() && |ready| == old(|ready|) && wake == old(wake) - early
        invariant Moving(early, pending, onEvent, old(pending), old(onEvent))
        decreases wake.Keys
      {
        var id := pending[0];
        PendingTaken(pending, onEvent, wake);
        MovedOne(early, pending, onEvent, old(pending), old(onEvent));
        pending := pending[1..];
        RemoveGenericItem(id, Epoch(now));
        LaterWithout(wake, now, id);
        AddToReadyQueue(id);
        early := early + {id};
        label moved:
        Interrupts();
        MovingPosted(early, old@moved(pending), old@moved(onEvent), pending, onEvent, old(pending), old(onEvent));
      }
    }

    /**
     A delay runs out: the co-routine at the head of the current list leaves it, and leaves the
     event list or pending list that its event item is in; an interrupt may just have moved that.
     */
    method WakeHead(ghost due: nat)
      requires delayed != [] && Refines(delayed, overflow, Epoch(due), wake)
      requires ReadyOk(ready, priority, wake, top) && InterruptOk()
      modifies this`ready, this`top, this`delayed, this`pending, this`onEvent, this`wake, this`log
      ensures var id := old(delayed)[0].owner;
              && id in old(wake) && wake == old(wake) - {id}
              && log == old(log) + [Wake(id, old(wake)[id], due)]
      ensures Refines(delayed, overflow, Epoch(due), wake) && |ready| == old(|ready|) && delayed == old(delayed)[1..]
      ensures ReadyOk(ready, priority, wake, top) && InterruptOk()
      ensures EventsKept(old(pending), old(onEvent), pending, onEvent, wake)
    {
      hide ReadyOk, Refines, EventsOk, EventsKept, Posted;
      var id := delayed[0].owner;
      HeadInWake(delayed, overflow, wake, Epoch(due));
      RemoveRefines(delayed, overflow, Epoch(due), wake, 0);
      Interrupts();
      label interrupted:
      log := log + [Wake(id, wake[id], due)];
      delayed := RemoveAt(delayed, 0);
      EventLeft(pending, onEvent, wake, id);
      if id in onEvent {
        onEvent := onEvent - {id};
      } else if k :| 0 <= k < |pending| && pending[k] == id {
        pending := pending[..k] + pending[k + 1..];
      }
      AddToReadyQueue(id);
      KeptLeft(old(pending), old(onEvent), old@interrupted(pending), old@interrupted(onEvent),
               pending, onEvent, wake, id);
    }

    /** The tick count goes up by one, and the lists swap if it wraps. */
    method Count()
      requires DelaysOk()
      modifies this`delayed, this`overflow, this`tickCount, this`now
      ensures now == old(now) + 1 && tickCount == ToTick(now)
      ensures Refines(delayed, overflow, Epoch(now), wake) && AllLater(wake, old(now))
    {
      hide Refines, AllLater;
      AddTicksIsIdeal(now, 1);
      tickCount := AddTicks(tickCount, 1);
      if tickCount == 0 {
        WrapFindsEmptyList(delayed, overflow, wake, now);
        SwapRefines(overflow, Epoch(now), wake);
        delayed, overflow := overflow, delayed;
      } else {
        SameEpoch(now);
      }
      now := now + 1;
    }

    /** One turn of the loop in prvCheckDelayedList: the next tick, with the lists swapped if the count wraps. */
    method Tick()
      requires DelaysOk() && ReadyOk(ready, priority, wake, top) && InterruptOk()
      modifies this`ready, this`top, this`delayed, this`overflow, this`pending, this`onEvent
      modifies this`tickCount, this`now, this`wake, this`log
      ensures DelaysOk() && ReadyOk(ready, priority, wake, top) && InterruptOk() && |ready| == old(|ready|)
      ensures now == old(now) + 1 && StillAsleep(old(wake), wake, now) && wake.Keys <= old(wake.Keys)
      ensures LogGrows(old(log), log, old(wake), wake, now)
      ensures EventsKept(old(pending), old(onEvent), pending, onEvent, wake)
    {
      hide ReadyOk, Refines, EventsOk, AllLater, StillAsleep, LogGrows, EventsKept, Posted, WakingUp;
      ghost var was := now;
      Count();
      TickStarts(wake, was, log);
      AllKept(pending, onEvent, wake);
      while delayed != []
        invariant tickCount == ToTick(now) && now == was + 1 && |ready| == old(|ready|)
        invariant Refines(delayed, overflow, Epoch(now), wake) && AllLater(wake, was) && wake.Keys <= old(wake.Keys)
        invariant ReadyOk(ready, priority, wake, top) && InterruptOk()
        invariant WakingUp(old(wake), wake, was) && LogGrows(old(log), log, old(wake), wake, now)
        invariant EventsKept(old(pending), old(onEvent), pending, onEvent, wake)
        decreases |delayed|
      {
        HeadWakes(delayed, overflow, wake, was);
        if tickCount < delayed[0].value {
          break;
        }
        ghost var id := delayed[0].owner;
        WokenUp(old(wake), wake, was, id);
        LogOne(old(log), log, old(wake), wake, now, id);
        LaterWithout(wake, was, id);
        label looked:
        WakeHead(now);
        KeptTwice(old(pending), old(onEvent), old@looked(pending), old@looked(onEvent), old@looked(wake),
                  pending, onEvent, wake);
      }
      HeadWakes(delayed, overflow, wake, was);
      TickEnds(old(wake), wake, was);
    }

    /**
     prvCheckDelayedList, at ideal time `time`: every delayed co-routine is made ready at
     exactly its tick, however many ticks and wraps have gone by since the last call, and
     whatever events interrupts bring between and during the ticks.
     */
    method CheckDelayedList(tickNow: Tick, ghost time: nat)
      requires Valid() && tickNow == ToTick(time) && now <= time < now + WRAP
      modifies this`ready, this`top, this`delayed, this`overflow, this`pending, this`onEvent
      modifies this`tickCount, this`lastTickCount, this`now, this`wake, this`log
      ensures Valid() && now == time && |ready| == old(|ready|)
      ensures StillAsleep(old(wake), wake, time) && LogGrows(old(log), log, old(wake), wake, time)
      ensures EventsKept(old(pending), old(onEvent), pending, onEvent, wake)
    {
      hide ReadyOk, EventsOk, Refines, StillAsleep, LogGrows, EventsKept, Posted;
      SubTicksIsIdeal(time, now);
      var passed: int := SubTicks(tickNow, lastTickCount);
      NobodyWoken(wake, now, log);
      AllKept(pending, onEvent, wake);
      while passed > 0
        invariant DelaysOk() && ReadyOk(ready, priority, wake, top) && InterruptOk() && |ready| == old(|ready|)
        invariant 0 <= passed && now + passed == time
        invariant StillAsleep(old(wake), wake, now) && LogGrows(old(log), log, old(wake), wake, now)
        invariant EventsKept(old(pending), old(onEvent), pending, onEvent, wake)
      {
        label before:
        Tick();
        AsleepTwice(old(wake), old@before(wake), wake, now, old(log), old@before(log), log);
        KeptTwice(old(pending), old(onEvent), old@before(pending), old@before(onEvent), old@before(wake),
                  pending, onEvent, wake);
        passed := passed - 1;
        label ticked:
        Interrupts();
        KeptPosted(old(pending), old(onEvent), old@ticked(pending), old@ticked(onEvent), pending, onEvent, wake);
      }
      lastTickCount := tickCount;
    }

    /**
     vCoRoutineSchedule, with interrupts at any point: `early` is who an event readies, and
     everybody else wakes at exactly its tick.  Of the co-routines that are ready, one of the
     highest priority runs.
     */
    method Schedule(tickNow: Tick, ghost time: nat) returns (ran: bool, ghost early: set<CoId>)
      requires Valid() && tickNow == ToTick(time) && now <= time < now + WRAP
      modifies this`ready, this`top, this`delayed, this`overflow, this`pending, this`onEvent
      modifies this`tickCount, this`lastTickCount, this`now, this`wake, this`log, this`current
      ensures Valid() && now == time
      ensures Members(old(pending)) <= early <= Members(old(pending)) + old(onEvent)
      ensures StillAsleep(old(wake) - early, wake, time) && LogGrows(old(log), log, old(wake) - early, wake, time)
      ensures EventsKept(old(pending), old(onEvent), pending, onEvent, wake)
      ensures ran ==> current in priority && current !in wake
      ensures ran ==> forall id :: id in priority && id !in wake ==> priority[id] <= priority[current]
      ensures !ran ==> priority.Keys <= wake.Keys
    {
      hide Refines, StillAsleep, AllLater, LogGrows, EventsOk, EventsKept, ReadyOk, Posted, EarlyOk;
      early := CheckPendingReadyList();
      label pended:
      Interrupts();
      label interrupted:
      CheckDelayedList(tickNow, time);
      KeptInPass(early, old(pending), old(onEvent), old@pended(onEvent),
                 old@interrupted(pending), old@interrupted(onEvent), pending, onEvent, wake, old(wake) - early, time);
      ran := FindTop(time);
      if ran {
        assert ready[top][0] in ready[top];
        var next :| next in ready[top];
        ReadyMember(ready, priority, wake, top, next);
        current := next;
      }
    }

    /** The search for the highest priority with a ready co-routine. */
    method FindTop(ghost time: nat) returns (found: bool)
      requires Valid() && now == time
      modifies this`top
      ensures Valid()
      ensures found ==> top < |ready| && ready[top] != []
      ensures !found ==> priority.Keys <= wake.Keys
    {
      hide Refines, AllLater, EventsOk, ListReady;
      while ready[top] == []
        invariant Valid()
        decreases top
      {
        if top == 0 {
          return false;
        }
        top := top - 1;
      }
      found := true;
    }
  }

  lemma ReadyMember(ready: seq<seq<CoId>>, priority: map<CoId, nat>, wake: map<CoId, nat>, top: nat, id: CoId)
    requires ReadyOk(ready, priority, wake, top) && id in ready[top]
    ensures id in priority && id !in wake && priority[id] == top
    ensures forall other :: other in priority && other !in wake ==> priority[other] <= top
  {
    assert ListReady(ready[top], top, priority, wake);
    forall other | other in priority && other !in wake ensures priority[other] <= top {
      assert ready[priority[other]] != [];
    }
  }

  lemma NobodyWoken(wake: map<CoId, nat>, now: nat, log: seq<Wake>)
    requires AllLater(wake, now)
    ensures StillAsleep(wake, wake, now) && LogGrows(log, log, wake, wake, now)
  {
  }

  lemma AsleepTwice(before: map<CoId, nat>, middle: map<CoId, nat>, after: map<CoId, nat>, now: nat,
                    log: seq<Wake>, log': seq<Wake>, log'': seq<Wake>)
    requires now > 0 && StillAsleep(before, middle, now - 1) && StillAsleep(middle, after, now)
    requires LogGrows(log, log', before, middle, now - 1) && LogGrows(log', log'', middle, after, now)
    ensures StillAsleep(before, after, now) && LogGrows(log, log'', before, after, now)
  {
    forall k | |log| <= k < |log''| ensures Punctual(log''[k], before, now) {
      if k < |log'| {
        assert log''[k] == log'[k] && Punctual(log'[k], before, now - 1);
      } else {
        assert Punctual(log''[k], middle, now);
      }
    }
    forall id | id in before && id !in after ensures exists k :: |log| <= k < |log''| && log''[k].id == id {
      if id in middle {
        var k :| |log'| <= k < |log''| && log''[k].id == id;
      } else {
        var k :| |log| <= k < |log'| && log'[k].id == id;
        assert log''[k].id == id;
      }
    }
  }

  /** After tick t exactly those are asleep that were to wake later. */
  ghost predicate StillAsleep(before: map<CoId, nat>, after: map<CoId, nat>, t: nat) {
    && (forall id :: id in after <==> id in before && before[id] > t)
    && (forall id :: id in after ==> after[id] == before[id])
  }

  /** During tick was + 1 only co-routines that wake at it have left. */
  ghost predicate WakingUp(before: map<CoId, nat>, after: map<CoId, nat>, was: nat) {
    && (forall id :: id in after ==> id in before && after[id] == before[id])
    && (forall id :: id in before && before[id] != was + 1 ==> id in after)
  }

  /** Whoever was made ready meanwhile was so once, and at exactly the tick at which it was to wake. */
  ghost predicate LogGrows(before: seq<Wake>, after: seq<Wake>, wake: map<CoId, nat>, wake': map<CoId, nat>, now: nat) {
    && before <= after && wake'.Keys <= wake.Keys && |after| + |wake'.Keys| == |before| + |wake.Keys|
    && (forall k :: |before| <= k < |after| ==> Punctual(after[k], wake, now))
    && (forall id :: id in wake && id !in wake' ==> exists k :: |before| <= k < |after| && after[k].id == id)
  }

  ghost predicate Punctual(w: Wake, wake: map<CoId, nat>, now: nat) {
    w.id in wake && wake[w.id] == w.due == w.at <= now
  }

  lemma TickStarts(wake: map<CoId, nat>, was: nat, log: seq<Wake>)
    ensures WakingUp(wake, wake, was) && LogGrows(log, log, wake, wake, was + 1)
  {
  }

  lemma WokenUp(before: map<CoId, nat>, wake: map<CoId, nat>, was: nat, id: CoId)
    requires WakingUp(before, wake, was) && id in wake && wake[id] == was + 1
    ensures WakingUp(before, wake - {id}, was) && id in before && before[id] == wake[id]
  {
  }

  lemma LogOne(before: seq<Wake>, log: seq<Wake>, wake: map<CoId, nat>, wake': map<CoId, nat>, now: nat, id: CoId)
    requires LogGrows(before, log, wake, wake', now) && id in wake' && id in wake && wake[id] == now
    ensures LogGrows(before, log + [Wake(id, now, now)], wake, wake' - {id}, now)
  {
    var log' := log + [Wake(id, now, now)];
    assert (wake' - {id}).Keys == wake'.Keys - {id};
    forall other | other in wake && other !in wake' - {id}
      ensures exists k :: |before| <= k < |log'| && log'[k].id == other
    {
      if other == id {
        assert log'[|log|].id == other;
      } else {
        var k :| |before| <= k < |log| && log[k].id == other;
        assert log'[k].id == other;
      }
    }
  }

  lemma TickEnds(before: map<CoId, nat>, after: map<CoId, nat>, was: nat)
    requires AllLater(before, was) && AllLater(after, was + 1) && WakingUp(before, after, was)
    ensures StillAsleep(before, after, was + 1)
  {
  }

  lemma LaterWithout(wake: map<CoId, nat>, now: nat, id: CoId)
    requires AllLater(wake, now)
    ensures AllLater(wake - {id}, now)
  {
  }

  lemma PendingTaken(pending: seq<CoId>, onEvent: set<CoId>, wake: map<CoId, nat>)
    requires EventsOk(pending, onEvent, wake) && pending != []
    ensures pending[0] in wake && EventsOk(pending[1..], onEvent, wake - {pending[0]})
            && EventsOk(pending[1..], onEvent, wake)
  {
  }

  // ---------- Events during a scheduling pass ----------

  function Members(ids: seq<CoId>): set<CoId> {
    set id | id in ids
  }

  /** Those an event has readied: all that were pending, and some more that interrupts have added. */
  ghost predicate EarlyOk(early: set<CoId>, pending: seq<CoId>, onEvent: set<CoId>, onEvent': set<CoId>) {
    && onEvent' <= onEvent
    && (forall id :: id in pending ==> id in early)
    && (forall id :: id in onEvent ==> id in early || id in onEvent')
    && (forall id :: id in early ==> id in pending || id in onEvent - onEvent')
  }

  /** As `EarlyOk`, with some of them still to be moved. */
  ghost predicate Moving(early: set<CoId>, pending': seq<CoId>, onEvent': set<CoId>, pending: seq<CoId>,
      onEvent: set<CoId>) {
    EarlyOk(early + Members(pending'), pending, onEvent, onEvent')
  }

  lemma MovedOne(early: set<CoId>, pending': seq<CoId>, onEvent': set<CoId>, pending: seq<CoId>, onEvent: set<CoId>)
    requires pending' != [] && Moving(early, pending', onEvent', pending, onEvent)
    ensures Moving(early + {pending'[0]}, pending'[1..], onEvent', pending, onEvent)
  {
    assert early + Members(pending') == early + {pending'[0]} + Members(pending'[1..]);
  }

  lemma MovingPosted(early: set<CoId>, pending': seq<CoId>, onEvent': set<CoId>,
                     pending'': seq<CoId>, onEvent'': set<CoId>, pending: seq<CoId>, onEvent: set<CoId>)
    requires Moving(early, pending', onEvent', pending, onEvent) && Posted(pending', onEvent', pending'', onEvent'')
    ensures Moving(early, pending'', onEvent'', pending, onEvent)
  {
    assert Members(pending') <= Members(pending'');
    assert forall id :: id in Members(pending'') <==> id in pending'';
  }

  lemma AllKept(pending: seq<CoId>, onEvent: set<CoId>, wake: map<CoId, nat>)
    ensures EventsKept(pending, onEvent, pending, onEvent, wake)
  {
  }

  lemma KeptPosted(pending: seq<CoId>, onEvent: set<CoId>, pending': seq<CoId>, onEvent': set<CoId>,
                   pending'': seq<CoId>, onEvent'': set<CoId>, wake: map<CoId, nat>)
    requires EventsKept(pending, onEvent, pending', onEvent', wake) && Posted(pending', onEvent', pending'', onEvent'')
    ensures EventsKept(pending, onEvent, pending'', onEvent'', wake)
  {
    assert forall id :: id in pending' ==> id in pending'';
  }

  lemma KeptTwice(pending: seq<CoId>, onEvent: set<CoId>,
                  pending': seq<CoId>, onEvent': set<CoId>, wake': map<CoId, nat>,
                  pending'': seq<CoId>, onEvent'': set<CoId>, wake'': map<CoId, nat>)
    requires EventsKept(pending, onEvent, pending', onEvent', wake')
    requires EventsKept(pending', onEvent', pending'', onEvent'', wake'')
    requires wake''.Keys <= wake'.Keys
    ensures EventsKept(pending, onEvent, pending'', onEvent'', wake'')
  {
  }

  lemma KeptLeft(pending: seq<CoId>, onEvent: set<CoId>, pending': seq<CoId>, onEvent': set<CoId>,
                 pending'': seq<CoId>, onEvent'': set<CoId>, wake'': map<CoId, nat>, id: CoId)
    requires Posted(pending, onEvent, pending', onEvent') && id !in wake''
    requires onEvent'' == onEvent' - {id} && (pending'' == pending' || Without(pending', id, pending''))
    ensures EventsKept(pending, onEvent, pending'', onEvent'', wake'')
  {
    assert forall other :: other in pending ==> other in pending';
  }

  ghost predicate Without(ids: seq<CoId>, id: CoId, rest: seq<CoId>) {
    (forall other :: other in rest ==> other in ids) && forall other :: other in ids && other != id ==> other in rest
  }

  /** Over a whole pass: who was readied early is asleep no longer, and all other event items are kept. */
  lemma KeptInPass(early: set<CoId>, pending: seq<CoId>, onEvent: set<CoId>, onEvent': set<CoId>,
                   pending'': seq<CoId>, onEvent'': set<CoId>, pending3: seq<CoId>, onEvent3: set<CoId>,
                   wake3: map<CoId, nat>, rest: map<CoId, nat>, time: nat)
    requires EarlyOk(early, pending, onEvent, onEvent') && Posted([], onEvent', pending'', onEvent'')
    requires EventsKept(pending'', onEvent'', pending3, onEvent3, wake3)
    requires StillAsleep(rest, wake3, time) && forall id :: id in early ==> id !in rest
    ensures EventsKept(pending, onEvent, pending3, onEvent3, wake3)
    ensures Members(pending) <= early <= Members(pending) + onEvent
  {
  }

  /** The event item of a co-routine that wakes is taken from the event list or from the pending list. */
  lemma EventLeft(pending: seq<CoId>, onEvent: set<CoId>, wake: map<CoId, nat>, id: CoId)
    requires EventsOk(pending, onEvent, wake)
    ensures id in onEvent ==> EventsOk(pending, onEvent - {id}, wake - {id})
    ensures forall k :: 0 <= k < |pending| && pending[k] == id ==>
              && id !in onEvent && EventsOk(pending[..k] + pending[k + 1..], onEvent, wake - {id})
              && Without(pending, id, pending[..k] + pending[k + 1..])
    ensures id !in onEvent && id !in pending ==> EventsOk(pending, onEvent, wake - {id})
  {
    forall k | 0 <= k < |pending| && pending[k] == id
      ensures id !in onEvent && EventsOk(pending[..k] + pending[k + 1..], onEvent, wake - {id})
      ensures Without(pending, id, pending[..k] + pending[k + 1..])
    {
      PendingLeft(pending, onEvent, wake, k);
    }
  }

  lemma PendingLeft(pending: seq<CoId>, onEvent: set<CoId>, wake: map<CoId, nat>, k: nat)
    requires EventsOk(pending, onEvent, wake) && k < |pending|
    ensures var id, rest := pending[k], pending[..k] + pending[k + 1..];
            id !in onEvent && EventsOk(rest, onEvent, wake - {id}) && Without(pending, id, rest)
  {
    var rest := pending[..k] + pending[k + 1..];
    assert forall j :: 0 <= j < |rest| ==> rest[j] == pending[if j < k then j else j + 1];
    assert forall j :: 0 <= j < |pending| && j != k ==> pending[j] == rest[if j < k then j else j - 1];
  }

  lemma ReadyBounds(ready: seq<seq<CoId>>, priority: map<CoId, nat>, wake: map<CoId, nat>, top: nat)
    requires ReadyOk(ready, priority, wake, top)
    ensures top < |ready| && wake.Keys <= priority.Keys
    ensures forall id :: id in priority ==> priority[id] < |ready|
  {
  }

  lemma DelayEvents(pending: seq<CoId>, onEvent: set<CoId>, wake: map<CoId, nat>, id: CoId, due: nat, event: bool)
    requires EventsOk(pending, onEvent, wake) && id !in wake
    ensures EventsOk(pending, if event then onEvent + {id} else onEvent, wake[id := due])
  {
  }

  lemma LaterWith(wake: map<CoId, nat>, now: nat, id: CoId, due: nat)
    requires AllLater(wake, now) && now < due
    ensures AllLater(wake[id := due], now)
  {
  }
}
