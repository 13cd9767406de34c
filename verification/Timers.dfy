/**
 The software timer daemon (timers.c).  Two sorted lists that swap when the 32-bit
 tick wraps stand for one set of expiry times in unbounded time.  Ghost state holds
 the ideal picture; every step of the daemon keeps the two in agreement.
 */
module Timers {
  import opened TickTime
  import KernelList

  type TimerId = nat

  /** An entry of an active list: the tick it expires at, and the timer that owns it. */
  datatype Item = Item(value: Tick, owner: TimerId)

  /** What the daemon keeps in a timer's control block. */
  datatype Timer = Timer(period: Tick, autoReload: bool, active: bool, dynamic: bool)

  /** Commands a task or an ISR may queue; value is a command time or a new period. */
  datatype Command = Start | Reset | Stop | ChangePeriod | Delete | PendedCall
  datatype Message = Message(command: Command, timer: TimerId, value: Tick)

  // ---------- Ideal time ----------

  /** A started timer: since ideal time `start`, `fires` expiries have been served. */
  datatype Run = Run(start: nat, fires: nat, base: nat)

  /** One callback: which timer, the ideal time it was due, and the ideal time it ran. */
  datatype Fire = Fire(timer: TimerId, due: nat, at: nat)

  /** The ideal expiries that the callbacks of timer `t` have accounted for, oldest first. */
  function Dues(log: seq<Fire>, t: TimerId): seq<nat> {
    if log == [] then []
    else
      var f := log[|log| - 1];
      Dues(log[..|log| - 1], t) + if f.timer == t then [f.due] else []
  }

  lemma DuesAppend(log: seq<Fire>, f: Fire, t: TimerId)
    ensures Dues(log + [f], t) == Dues(log, t) + if f.timer == t then [f.due] else []
  {
    assert (log + [f])[..|log|] == log;
  }

  // ---------- Where prvInsertTimerInActiveList puts a timer ----------

  datatype Placement = Elapsed | InCurrent | InOverflow

  /** The decision of prvInsertTimerInActiveList, from ticks alone. */
  function Place(next: Tick, now: Tick, command: Tick, period: Tick): Placement {
    if next <= now then
      if SubTicks(now, command) >= period then Elapsed else InOverflow
    else
      if now < command && next >= command then Elapsed else InCurrent
  }

  /**
   Whatever the wraps between command and processing, the decision is the ideal one:
   elapsed exactly when a whole period has passed since the command, the current list
   exactly when the expiry lies ahead in this epoch, the overflow list exactly when it
   lies in the next.
   */
  lemma PlaceIsIdeal(command: nat, now: nat, period: Tick)
    requires command <= now < command + WRAP && 0 < period
    ensures var p := Place(ToTick(command + period), ToTick(now), ToTick(command), period);
            && (p.Elapsed? <==> command + period <= now)
            && (p.InCurrent? <==> now < command + period && Epoch(command + period) == Epoch(now))
            && (p.InOverflow? <==> now < command + period && Epoch(command + period) == Epoch(now) + 1)
  {
    SubTicksIsIdeal(now, command);
    var e := command + period;
    assert e == Epoch(e) * WRAP + ToTick(e) && now == Epoch(now) * WRAP + ToTick(now)
           && command == Epoch(command) * WRAP + ToTick(command);
    assert Epoch(command) <= Epoch(now) <= Epoch(command) + 1;
    assert Epoch(command) <= Epoch(e) <= Epoch(command) + 1;
  }

  /** The bound on the command's age is needed: one wrap later the same ticks mislead. */
  lemma PlaceNeedsFreshCommands()
    ensures var command, now, period := 5, 5 + WRAP, 10;
            command + period <= now
            && Place(ToTick(command + period), ToTick(now), ToTick(command), period) == InCurrent
  {
  }

  // ---------- The two lists against the ideal expiry times ----------

  function Values(items: seq<Item>): (vs: seq<Tick>)
    ensures |vs| == |items|
    ensures forall i :: 0 <= i < |vs| ==> vs[i] == items[i].value
  {
    seq(|items|, i requires 0 <= i < |items| => items[i].value)
  }

  /** Every item of the list expires in the given epoch, at the ideal time its tick says. */
  ghost predicate Holds(items: seq<Item>, epoch: int, expiry: map<TimerId, nat>) {
    forall i :: 0 <= i < |items| ==>
      items[i].owner in expiry && expiry[items[i].owner] == epoch * WRAP + items[i].value
  }

  ghost predicate Listed(items: seq<Item>, t: TimerId) {
    exists i :: 0 <= i < |items| && items[i].owner == t
  }

  ghost predicate OneEach(items: seq<Item>) {
    forall i, j :: 0 <= i < j < |items| ==> items[i].owner != items[j].owner
  }

  ghost predicate ListOk(items: seq<Item>, epoch: int, expiry: map<TimerId, nat>) {
    Holds(items, epoch, expiry) && OneEach(items) && KernelList.Sorted(Values(items))
  }

  /** The lists hold exactly the timers of `expiry`: this epoch's and the next one's. */
  ghost predicate Refines(current: seq<Item>, overflow: seq<Item>, epoch: int, expiry: map<TimerId, nat>) {
    && ListOk(current, epoch, expiry)
    && ListOk(overflow, epoch + 1, expiry)
    && forall t :: t in expiry ==> Listed(current, t) || Listed(overflow, t)
  }

  /** A timer of the ideal set is in exactly one list, and its epoch says which. */
  lemma InExactlyOneList(current: seq<Item>, overflow: seq<Item>, epoch: int, expiry: map<TimerId, nat>, t: TimerId)
    requires Refines(current, overflow, epoch, expiry)
    ensures t in expiry <==> Listed(current, t) || Listed(overflow, t)
    ensures !(Listed(current, t) && Listed(overflow, t))
    ensures t in expiry ==> (Listed(current, t) <==> Epoch(expiry[t]) == epoch)
  {
  }

  /** Between commands a timer is marked active exactly when it is in exactly one of the lists. */
  lemma ActiveIffListed(current: seq<Item>, overflow: seq<Item>, timers: map<TimerId, Timer>, ideal: Ideal, now: nat,
      t: TimerId)
    requires Refines(current, overflow, Epoch(now), ideal.expiry) && IdealOk(timers, ideal, now)
    requires ideal.inHand == {} && t in timers
    ensures timers[t].active <==> Listed(current, t) != Listed(overflow, t)
  {
    hide Served, RunOk;
    InExactlyOneList(current, overflow, Epoch(now), ideal.expiry, t);
    assert TimerOk(t, timers[t], ideal, now);
  }

  /** The head of the current list is the earliest ideal expiry. */
  lemma HeadIsEarliest(current: seq<Item>, overflow: seq<Item>, epoch: int, expiry: map<TimerId, nat>, t: TimerId)
    requires Refines(current, overflow, epoch, expiry) && t in expiry
    ensures current != [] ==> epoch * WRAP + current[0].value <= expiry[t]
    ensures current == [] ==> (epoch + 1) * WRAP <= expiry[t] && overflow != []
  {
    if Listed(current, t) {
      var i :| 0 <= i < |current| && current[i].owner == t;
      assert Values(current)[0] <= Values(current)[i];
    }
  }

  /** With the current list drained, the overflow list becomes the current list of the next epoch. */
  lemma SwapRefines(overflow: seq<Item>, epoch: int, expiry: map<TimerId, nat>)
    requires Refines([], overflow, epoch, expiry)
    ensures Refines(overflow, [], epoch + 1, expiry)
  {
  }

  lemma HeadIsDue(current: seq<Item>, overflow: seq<Item>, expiry: map<TimerId, nat>, time: nat)
    requires Refines(current, overflow, Epoch(time), expiry) && current != []
    requires current[0].value <= ToTick(time)
    ensures var t := current[0].owner;
            t in expiry && ToTick(expiry[t]) == current[0].value && expiry[t] <= time < expiry[t] + WRAP
  {
    assert time == Epoch(time) * WRAP + ToTick(time);
  }

  /** The last moment of an epoch. */
  ghost function EpochEnd(now: nat): (end: nat)
    ensures Epoch(end) == Epoch(now) && ToTick(end) == MAX_DELAY && now <= end
    ensures forall later: nat :: Epoch(now) < Epoch(later) ==> end < later
  {
    now - ToTick(now) + WRAP - 1
  }

  lemma PastEpochEnd(time: nat, later: nat)
    requires time < later
    ensures ToTick(time) == MAX_DELAY ==> Epoch(later) != Epoch(time)
  {
    assert time == Epoch(time) * WRAP + ToTick(time) && later == Epoch(later) * WRAP + ToTick(later);
  }

  // ---------- List surgery keeps the agreement ----------

  /** vListInsert on item values. */
  function InsertItem(items: seq<Item>, item: Item): seq<Item> {
    var p := KernelList.InsertPos(Values(items), item.value);
    items[..p] + [item] + items[p..]
  }

  lemma InsertItemListed(items: seq<Item>, item: Item, t: TimerId)
    ensures Listed(InsertItem(items, item), t) <==> Listed(items, t) || t == item.owner
  {
    var p := KernelList.InsertPos(Values(items), item.value);
    var after := InsertItem(items, item);
    assert after[p] == item;
    if Listed(items, t) {
      var i :| 0 <= i < |items| && items[i].owner == t;
      assert after[if i < p then i else i + 1] == items[i];
    }
  }

  lemma InsertItemSorted(items: seq<Item>, item: Item)
    requires KernelList.Sorted(Values(items))
    ensures KernelList.Sorted(Values(InsertItem(items, item)))
  {
    var vs := Values(items);
    var p := KernelList.InsertPos(vs, item.value);
    KernelList.InsertPosSortedStable(vs, item.value);
    assert Values(InsertItem(items, item)) == vs[..p] + [item.value] + vs[p..];
  }

  lemma InsertItemOk(items: seq<Item>, item: Item, epoch: int, expiry: map<TimerId, nat>)
    requires ListOk(items, epoch, expiry) && item.owner !in expiry
    requires 0 <= epoch * WRAP + item.value
    ensures ListOk(InsertItem(items, item), epoch, expiry[item.owner := epoch * WRAP + item.value])
  {
    var due := epoch * WRAP + item.value;
    var p := KernelList.InsertPos(Values(items), item.value);
    var before, behind := items[..p], items[p..];
    assert Holds(before, epoch, expiry) && Holds(behind, epoch, expiry);
    HoldsConcat(before, item, behind, epoch, expiry, due);
    InsertItemSorted(items, item);
  }

  lemma HoldsConcat(before: seq<Item>, item: Item, behind: seq<Item>, epoch: int, expiry: map<TimerId, nat>, due: nat)
    requires Holds(before, epoch, expiry) && Holds(behind, epoch, expiry) && OneEach(before + behind)
    requires item.owner !in expiry && due == epoch * WRAP + item.value
    ensures Holds(before + [item] + behind, epoch, expiry[item.owner := due])
    ensures OneEach(before + [item] + behind)
  {
    var after, k := before + [item] + behind, |before|;
    forall i | 0 <= i < |after|
      ensures i == k || (after[i].owner in expiry && expiry[after[i].owner] == epoch * WRAP + after[i].value)
      ensures i < k ==> after[i] == (before + behind)[i]
      ensures i > k ==> after[i] == (before + behind)[i - 1]
    {
      assert after[i] == if i < k then before[i] else if i == k then item else behind[i - k - 1];
    }
    forall i, j | 0 <= i < j < |after| ensures after[i].owner != after[j].owner {
      var both := before + behind;
      if i != k && j != k {
        assert both[if i < k then i else i - 1].owner != both[if j < k then j else j - 1].owner;
      }
    }
  }

  lemma ListOkExtends(items: seq<Item>, epoch: int, expiry: map<TimerId, nat>, t: TimerId, due: nat)
    requires ListOk(items, epoch, expiry) && t !in expiry
    ensures ListOk(items, epoch, expiry[t := due])
  {
  }

  lemma ListOkShrinks(items: seq<Item>, epoch: int, expiry: map<TimerId, nat>, t: TimerId)
    requires ListOk(items, epoch, expiry) && !Listed(items, t)
    ensures ListOk(items, epoch, expiry - {t})
  {
  }

  /** Adding a timer to a list it belongs in, unmentioned before, keeps the agreement. */
  lemma InsertRefines(current: seq<Item>, overflow: seq<Item>, epoch: int, expiry: map<TimerId, nat>, t: TimerId,
      due: nat)
    requires Refines(current, overflow, epoch, expiry) && t !in expiry
    requires epoch <= Epoch(due) <= epoch + 1
    ensures Epoch(due) == epoch ==>
              Refines(InsertItem(current, Item(ToTick(due), t)), overflow, epoch, expiry[t := due])
    ensures Epoch(due) == epoch + 1 ==>
              Refines(current, InsertItem(overflow, Item(ToTick(due), t)), epoch, expiry[t := due])
  {
    hide ListOk, Listed, InsertItem;
    var item := Item(ToTick(due), t);
    assert due == Epoch(due) * WRAP + ToTick(due);
    var expiry' := expiry[t := due];
    if Epoch(due) == epoch {
      InsertItemOk(current, item, epoch, expiry);
      ListOkExtends(overflow, epoch + 1, expiry, t, due);
      forall u | u in expiry' ensures Listed(InsertItem(current, item), u) || Listed(overflow, u) {
        InsertItemListed(current, item, u);
      }
    } else {
      InsertItemOk(overflow, item, epoch + 1, expiry);
      ListOkExtends(current, epoch, expiry, t, due);
      forall u | u in expiry' ensures Listed(current, u) || Listed(InsertItem(overflow, item), u) {
        InsertItemListed(overflow, item, u);
      }
    }
  }

  /** uxListRemove on an item's position. */
  function RemoveAt(items: seq<Item>, k: nat): seq<Item>
    requires k < |items|
  {
    items[..k] + items[k + 1..]
  }

  lemma RemoveAtOk(items: seq<Item>, k: nat, epoch: int, expiry: map<TimerId, nat>)
    requires ListOk(items, epoch, expiry) && k < |items|
    ensures ListOk(RemoveAt(items, k), epoch, expiry - {items[k].owner})
    ensures forall t :: Listed(RemoveAt(items, k), t) <==> Listed(items, t) && t != items[k].owner
  {
    var after := RemoveAt(items, k);
    forall t | Listed(items, t) && t != items[k].owner ensures Listed(after, t) {
      var i :| 0 <= i < |items| && items[i].owner == t;
      assert after[if i < k then i else i - 1] == items[i];
    }
  }

  lemma RemoveRefines(current: seq<Item>, overflow: seq<Item>, epoch: int, expiry: map<TimerId, nat>, k: nat)
    requires Refines(current, overflow, epoch, expiry)
    ensures k < |current| ==> Refines(RemoveAt(current, k), overflow, epoch, expiry - {current[k].owner})
    ensures k < |overflow| ==> Refines(current, RemoveAt(overflow, k), epoch, expiry - {overflow[k].owner})
  {
    if k < |current| {
      RemoveAtOk(current, k, epoch, expiry);
      InExactlyOneList(current, overflow, epoch, expiry, current[k].owner);
      ListOkShrinks(overflow, epoch + 1, expiry, current[k].owner);
    }
    if k < |overflow| {
      RemoveAtOk(overflow, k, epoch + 1, expiry);
      InExactlyOneList(current, overflow, epoch, expiry, overflow[k].owner);
      ListOkShrinks(current, epoch, expiry, overflow[k].owner);
    }
  }

  // ---------- The ideal picture of a started timer ----------

  /** The ideal time of expiry number n of a timer started at `start`. */
  function DueTime(start: nat, n: nat, period: nat): nat {
    if n == 0 then start else DueTime(start, n - 1, period) + period
  }

  lemma {:induction false} DueTimeIsMultiple(start: nat, n: nat, period: nat)
    ensures DueTime(start, n, period) == start + n * period
  {
    if n > 0 {
      DueTimeIsMultiple(start, n - 1, period);
      assert n * period == (n - 1) * period + period;
    }
  }

  /** Expiries are a whole number of periods after the start, and none was served early. */
  ghost predicate RunOk(timer: Timer, run: Run, expiry: nat, now: nat) {
    && 0 < timer.period
    && expiry == DueTime(run.start, run.fires + 1, timer.period)
    && DueTime(run.start, run.fires, timer.period) <= now
    && (!timer.autoReload ==> run.fires == 0)
  }

  /** All expiries up to `now` served: the count is the number of whole periods elapsed. */
  lemma CaughtUpCount(timer: Timer, run: Run, expiry: nat, now: nat)
    requires RunOk(timer, run, expiry, now) && now < expiry
    ensures run.fires == (now - run.start) / timer.period
  {
    var p := timer.period as nat;
    DueTimeIsMultiple(run.start, run.fires, p);
    DueTimeIsMultiple(run.start, run.fires + 1, p);
    QuotientUnique(now - run.start, run.fires, p);
  }

  lemma QuotientUnique(a: nat, q: nat, p: nat)
    requires 0 < p && q * p <= a < (q + 1) * p
    ensures q == a / p
  {
    var q', r' := a / p, a % p;
    assert a == q' * p + r' && (q' + 1) * p == q' * p + p;
    if q < q' {
      MulMonotone(q + 1, q', p);
    } else if q' < q {
      MulMonotone(q' + 1, q, p);
    }
  }

  lemma MulMonotone(a: nat, b: nat, p: nat)
    requires a <= b
    ensures a * p <= b * p
  {
  }

  ghost predicate LogOk(log: seq<Fire>) {
    forall i :: 0 <= i < |log| ==> log[i].due <= log[i].at
  }

  /** Expiries number first, first + 1, ... of a timer. */
  function DueTimes(start: nat, first: nat, count: nat, period: nat): seq<nat> {
    seq<nat>(count, i requires 0 <= i => DueTime(start, first + i, period))
  }

  /** The log has further entries, all of timer `t`, accounting for the expiries `dues`. */
  ghost predicate LogGrew(before: seq<Fire>, after: seq<Fire>, t: TimerId, dues: seq<nat>) {
    && before <= after
    && Dues(after, t) == Dues(before, t) + dues
    && forall u :: u != t ==> Dues(after, u) == Dues(before, u)
  }

  lemma LogGrewStep(log0: seq<Fire>, log1: seq<Fire>, log2: seq<Fire>, t: TimerId,
                    start: nat, first: nat, count: nat, period: nat)
    requires LogGrew(log0, log1, t, DueTimes(start, first, count, period))
    requires LogGrew(log1, log2, t, [DueTime(start, first + count, period)])
    ensures LogGrew(log0, log2, t, DueTimes(start, first, count + 1, period))
  {
    assert DueTimes(start, first, count + 1, period)
        == DueTimes(start, first, count, period) + [DueTime(start, first + count, period)];
  }

  /** Since it was started, the timer's callbacks account for its first `fires` expiries, in order. */
  ghost predicate Served(log: seq<Fire>, t: TimerId, run: Run, period: nat) {
    && |Dues(log, t)| == run.base + run.fires
    && Dues(log, t)[run.base..] == DueTimes(run.start, 1, run.fires, period)
  }

  lemma ServedMore(log: seq<Fire>, log': seq<Fire>, t: TimerId, run: Run, period: nat, count: nat)
    requires Served(log, t, run, period)
    requires LogGrew(log, log', t, DueTimes(run.start, run.fires + 1, count, period))
    ensures Served(log', t, run.(fires := run.fires + count), period)
  {
    assert DueTimes(run.start, 1, run.fires + count, period)
        == DueTimes(run.start, 1, run.fires, period) + DueTimes(run.start, run.fires + 1, count, period);
  }

  /**
   The ideal set (expiry times and runs, same timers), the callback log, and the timers a
   command has taken off the lists and not yet dealt with.
   */
  datatype Ideal = Ideal(expiry: map<TimerId, nat>, runs: map<TimerId, Run>, log: seq<Fire>, inHand: set<TimerId>)

  ghost predicate TimerOk(t: TimerId, timer: Timer, ideal: Ideal, now: nat)
    requires t in ideal.expiry ==> t in ideal.runs
  {
    && 0 < timer.period
    && (t !in ideal.inHand ==> (timer.active <==> t in ideal.expiry))
    && (t in ideal.expiry ==>
          && RunOk(timer, ideal.runs[t], ideal.expiry[t], now)
          && Served(ideal.log, t, ideal.runs[t], timer.period))
  }

  /** What holds between the steps of the daemon. */
  ghost predicate IdealOk(timers: map<TimerId, Timer>, ideal: Ideal, now: nat) {
    && ideal.runs.Keys == ideal.expiry.Keys <= timers.Keys
    && LogOk(ideal.log)
    && forall t :: t in timers ==> TimerOk(t, timers[t], ideal, now)
  }

  /**
   What serving expiries may do to a timer: settings, start time and an auto-reload
   timer's place in the set stay; a one-shot timer that leaves has run its callback once,
   for its expiry; a timer outside the set runs nothing.
   */
  ghost predicate TimerCarried(t: TimerId, before: Timer, after: Timer, ideal: Ideal, ideal': Ideal) {
    && after == before.(active := after.active)
    && (t in ideal'.runs ==>
          && t in ideal.runs && ideal.runs[t].fires <= ideal'.runs[t].fires
          && ideal'.runs[t] == ideal.runs[t].(fires := ideal'.runs[t].fires)
          && (!before.autoReload ==> Dues(ideal'.log, t) == Dues(ideal.log, t)))
    && (t in ideal.runs && t !in ideal'.runs ==>
          && !before.autoReload
          && Dues(ideal'.log, t) == Dues(ideal.log, t) + [DueTime(ideal.runs[t].start, 1, before.period)])
    && (t !in ideal.runs ==> Dues(ideal'.log, t) == Dues(ideal.log, t))
  }

  /** Serving expiries, and at most that, happened to every timer outside `except`. */
  ghost predicate Carried(timers: map<TimerId, Timer>, ideal: Ideal, timers': map<TimerId, Timer>, ideal': Ideal,
                          except: set<TimerId>)
  {
    && ideal.log <= ideal'.log
    && timers.Keys - except <= timers'.Keys <= timers.Keys
    && forall t :: t in timers && t !in except ==> TimerCarried(t, timers[t], timers'[t], ideal, ideal')
  }

  lemma CarriedReflexive(timers: map<TimerId, Timer>, ideal: Ideal)
    ensures Carried(timers, ideal, timers, ideal, {})
  {
  }

  lemma CarriedTransitive(timers: map<TimerId, Timer>, ideal: Ideal, timers1: map<TimerId, Timer>, ideal1: Ideal,
                          timers2: map<TimerId, Timer>, ideal2: Ideal, except: set<TimerId>)
    requires Carried(timers, ideal, timers1, ideal1, except) && Carried(timers1, ideal1, timers2, ideal2, except)
    ensures Carried(timers, ideal, timers2, ideal2, except)
  {
    hide Dues, DueTime;
    forall t | t in timers && t !in except ensures TimerCarried(t, timers[t], timers2[t], ideal, ideal2) {
      assert TimerCarried(t, timers[t], timers1[t], ideal, ideal1);
      assert TimerCarried(t, timers1[t], timers2[t], ideal1, ideal2);
    }
  }

  lemma CarriedWeaker(timers: map<TimerId, Timer>, ideal: Ideal, timers': map<TimerId, Timer>, ideal': Ideal,
      t: TimerId)
    requires Carried(timers, ideal, timers', ideal', {})
    ensures Carried(timers, ideal, timers', ideal', {t})
  {
  }

  lemma TimerFacts(timers: map<TimerId, Timer>, ideal: Ideal, now: nat, t: TimerId)
    requires IdealOk(timers, ideal, now) && t in ideal.expiry
    ensures t in timers && t in ideal.runs && ideal.runs.Keys == ideal.expiry.Keys && LogOk(ideal.log)
    ensures 0 < timers[t].period && RunOk(timers[t], ideal.runs[t], ideal.expiry[t], now)
    ensures ideal.expiry[t] == DueTime(ideal.runs[t].start, ideal.runs[t].fires + 1, timers[t].period)
    ensures Served(ideal.log, t, ideal.runs[t], timers[t].period)
  {
    assert TimerOk(t, timers[t], ideal, now);
  }

  lemma IdealLater(timers: map<TimerId, Timer>, ideal: Ideal, now: nat, later: nat)
    requires IdealOk(timers, ideal, now) && now <= later
    ensures IdealOk(timers, ideal, later)
  {
    forall t | t in timers ensures TimerOk(t, timers[t], ideal, later) {
      assert TimerOk(t, timers[t], ideal, now);
    }
  }

  /** A timer whose callbacks did not run and whose entries did not change is as good as before. */
  lemma Unaffected(t: TimerId, timer: Timer, ideal: Ideal, ideal': Ideal, now: nat)
    requires ideal.runs.Keys == ideal.expiry.Keys && ideal'.runs.Keys == ideal'.expiry.Keys
    requires TimerOk(t, timer, ideal, now) && Dues(ideal'.log, t) == Dues(ideal.log, t)
    requires t in ideal.expiry <==> t in ideal'.expiry
    requires t in ideal.inHand <==> t in ideal'.inHand
    requires t in ideal.expiry ==> ideal'.expiry[t] == ideal.expiry[t] && ideal'.runs[t] == ideal.runs[t]
    ensures TimerOk(t, timer, ideal', now) && TimerCarried(t, timer, timer, ideal, ideal')
  {
  }

  /** Serving a one-shot timer: it leaves the set. */
  lemma OneShotServed(timers: map<TimerId, Timer>, ideal: Ideal, now: nat, t: TimerId, log': seq<Fire>)
    requires IdealOk(timers, ideal, now) && t in ideal.expiry && !timers[t].autoReload
    requires LogGrew(ideal.log, log', t, [ideal.expiry[t]]) && LogOk(log')
    ensures var timers' := timers[t := timers[t].(active := false)];
            var ideal' := Ideal(ideal.expiry - {t}, ideal.runs - {t}, log', ideal.inHand);
            IdealOk(timers', ideal', now) && Carried(timers, ideal, timers', ideal', {})
  {
    var timers' := timers[t := timers[t].(active := false)];
    var ideal' := Ideal(ideal.expiry - {t}, ideal.runs - {t}, log', ideal.inHand);
    assert TimerOk(t, timers[t], ideal, now);
    forall u | u in timers
      ensures TimerOk(u, timers'[u], ideal', now) && TimerCarried(u, timers[u], timers'[u], ideal, ideal')
    {
      if u != t {
        Unaffected(u, timers[u], ideal, ideal', now);
      }
    }
  }

  /** The ideal set after an auto-reload timer has had `more` extra callbacks and its last one. */
  ghost function Reloaded(timer: Timer, ideal: Ideal, t: TimerId, more: nat, log': seq<Fire>): Ideal
    requires t in ideal.runs
  {
    var run := ideal.runs[t];
    var due := DueTime(run.start, run.fires + 2 + more, timer.period);
    Ideal(ideal.expiry[t := due], ideal.runs[t := run.(fires := run.fires + 1 + more)], log', ideal.inHand)
  }

  ghost predicate ReloadLogged(timer: Timer, ideal: Ideal, t: TimerId, more: nat, log1: seq<Fire>, log2: seq<Fire>)
    requires t in ideal.runs
  {
    var run := ideal.runs[t];
    && LogGrew(ideal.log, log1, t, DueTimes(run.start, run.fires + 1, more, timer.period))
    && LogGrew(log1, log2, t, [DueTime(run.start, run.fires + 1 + more, timer.period)])
  }

  lemma ReloadedSelf(t: TimerId, timer: Timer, ideal: Ideal, now: nat, more: nat, log1: seq<Fire>, log2: seq<Fire>)
    requires t in ideal.expiry && t in ideal.runs && TimerOk(t, timer, ideal, now) && timer.autoReload
    requires DueTime(ideal.runs[t].start, ideal.runs[t].fires + 1 + more, timer.period) <= now
    requires ReloadLogged(timer, ideal, t, more, log1, log2)
    ensures var ideal' := Reloaded(timer, ideal, t, more, log2);
            TimerOk(t, timer, ideal', now) && TimerCarried(t, timer, timer, ideal, ideal')
  {
    var run, period := ideal.runs[t], timer.period;
    hide DueTime, DueTimes, Dues, Served;
    LogGrewStep(ideal.log, log1, log2, t, run.start, run.fires + 1, more, period);
    ServedMore(ideal.log, log2, t, run, period, more + 1);
  }

  /** Serving an auto-reload timer: it moves to a later expiry. */
  lemma ReloadServed(timers: map<TimerId, Timer>, ideal: Ideal, now: nat, t: TimerId, more: nat,
                     log1: seq<Fire>, log2: seq<Fire>)
    requires IdealOk(timers, ideal, now) && t in ideal.expiry && timers[t].autoReload && LogOk(log2)
    requires DueTime(ideal.runs[t].start, ideal.runs[t].fires + 1 + more, timers[t].period) <= now
    requires ReloadLogged(timers[t], ideal, t, more, log1, log2)
    ensures var ideal' := Reloaded(timers[t], ideal, t, more, log2);
            IdealOk(timers, ideal', now) && Carried(timers, ideal, timers, ideal', {})
  {
    hide DueTime, DueTimes, Dues, Served, LogOk;
    var ideal' := Reloaded(timers[t], ideal, t, more, log2);
    forall u | u in timers
      ensures TimerOk(u, timers[u], ideal', now) && TimerCarried(u, timers[u], timers[u], ideal, ideal')
    {
      if u == t {
        ReloadedSelf(t, timers[t], ideal, now, more, log1, log2);
      } else {
        Unaffected(u, timers[u], ideal, ideal', now);
      }
    }
  }

  class Daemon {
    var current: seq<Item>
    var overflow: seq<Item>
    var lastTime: Tick
    var timers: map<TimerId, Timer>
    var queue: seq<Message>

    ghost var now: nat         // ideal time of the last sample
    ghost var ideal: Ideal
    ghost var issued: seq<nat> // ideal times at which the queued commands were issued

    ghost predicate Consistent(epoch: int, time: nat)
      reads this
    {
      && Refines(current, overflow, epoch, ideal.expiry)
      && IdealOk(timers, ideal, time)
    }

    ghost predicate QueueOk()
      reads this
    {
      && |issued| == |queue|
      && forall i :: 0 <= i < |queue| ==>
           && (queue[i].command.Start? || queue[i].command.Reset? ==> queue[i].value == ToTick(issued[i]))
           && (queue[i].command.ChangePeriod? ==> 0 < queue[i].value)
    }

    /** Between the steps of the daemon. */
    ghost predicate Valid()
      reads this
    {
      && Consistent(Epoch(now), now)
      && lastTime == ToTick(now) && ideal.inHand == {}
      && QueueOk()
    }

    constructor ()
      ensures Valid() && now == 0 && timers == map[] && queue == [] && ideal.log == []
    {
      current, overflow, lastTime, timers, queue := [], [], 0, map[], [];
      now, ideal, issued := 0, Ideal(map[], map[], [], {}), [];
    }

    /** Calling a timer's callback; the log entry accounts for the ideal expiry `due`. */
    method Callback(t: TimerId, ghost due: nat, ghost at: nat)
      requires LogOk(ideal.log) && due <= at
      modifies this`ideal
      ensures ideal == old(ideal).(log := old(ideal.log) + [Fire(t, due, at)]) && LogOk(ideal.log)
      ensures LogGrew(old(ideal.log), ideal.log, t, [due])
    {
      ghost var log := ideal.log;
      ideal := ideal.(log := log + [Fire(t, due, at)]);
      forall u ensures Dues(ideal.log, u) == Dues(log, u) + if u == t then [due] else [] {
        DuesAppend(log, Fire(t, due, at), u);
      }
    }

    /**
     prvInsertTimerInActiveList.  The answer is true exactly when a whole period has
     elapsed since the command; otherwise the timer is listed at its ideal expiry.
     */
    method InsertTimerInActiveList(t: TimerId, next: Tick, timeNow: Tick, command: Tick,
                                   ghost issue: nat, ghost time: nat) returns (processNow: bool)
      requires t in timers && 0 < timers[t].period && t !in ideal.expiry
      requires issue <= time < issue + WRAP
      requires next == ToTick(issue + timers[t].period) && timeNow == ToTick(time) && command == ToTick(issue)
      requires Refines(current, overflow, Epoch(time), ideal.expiry)
      modifies this`current, this`overflow, this`ideal
      ensures processNow <==> issue + timers[t].period <= time
      ensures processNow ==> current == old(current) && overflow == old(overflow) && ideal == old(ideal)
      ensures !processNow ==> ideal == old(ideal).(expiry := old(ideal).expiry[t := issue + timers[t].period])
      ensures !processNow && Epoch(issue + timers[t].period) != Epoch(time) ==> current == old(current)
      ensures Refines(current, overflow, Epoch(time), ideal.expiry)
    {
      hide Refines, InsertItem, ToTick, Epoch, SubTicks;
      var period := timers[t].period;
      processNow := false;
      ghost var due := issue + period;
      PlaceIsIdeal(issue, time, period);
      if time < due {
        InsertRefines(current, overflow, Epoch(time), ideal.expiry, t, due);
      }
      if next <= timeNow {
        if SubTicks(timeNow, command) >= period {
          processNow := true;
        } else {
          overflow := InsertItem(overflow, Item(next, t));
          ideal := ideal.(expiry := ideal.expiry[t := due]);
        }
      } else {
        if timeNow < command && next >= command {
          processNow := true;
        } else {
          current := InsertItem(current, Item(next, t));
          ideal := ideal.(expiry := ideal.expiry[t := due]);
        }
      }
    }

    /**
     prvReloadTimer: serves every further expiry that has passed by `time`, one callback
     each, and lists the timer at the first expiry after `time`.  The callback for the
     last expiry served is left to the caller.
     */
    method ReloadTimer(t: TimerId, expired: Tick, timeNow: Tick,
                       ghost start: nat, ghost first: nat, ghost time: nat, ghost at: nat)
      returns (ghost more: nat)
      requires t in timers && 0 < timers[t].period && t !in ideal.expiry
      requires LogOk(ideal.log) && time <= at
      requires var due := DueTime(start, first, timers[t].period);
               expired == ToTick(due) && due <= time < due + WRAP
      requires timeNow == ToTick(time)
      requires Refines(current, overflow, Epoch(time), ideal.expiry)
      modifies this`current, this`overflow, this`ideal
      ensures Refines(current, overflow, Epoch(time), ideal.expiry)
      ensures ideal == old(ideal).(log := ideal.log,
                                  expiry := old(ideal).expiry[t := DueTime(start, first + more + 1, timers[t].period)])
      ensures DueTime(start, first + more, timers[t].period) <= time < ideal.expiry[t]
      ensures LogOk(ideal.log)
      ensures LogGrew(old(ideal.log), ideal.log, t, DueTimes(start, first, more, timers[t].period))
      ensures Epoch(ideal.expiry[t]) != Epoch(time) ==> current == old(current)
    {
      hide Refines, ToTick, Epoch, AddTicks, LogOk, Dues;
      var period := timers[t].period;
      var expiredTime := expired;
      ghost var due := DueTime(start, first, period);
      more := 0;
      AddTicksIsIdeal(due, period);
      var next := AddTicks(expiredTime, period);
      var again := InsertTimerInActiveList(t, next, timeNow, expiredTime, due, time);
      while again
        invariant due == DueTime(start, first + more, period)
        invariant expiredTime == ToTick(due) && next == ToTick(due + period)
        invariant due <= time < due + WRAP
        invariant again <==> due + period <= time
        invariant ideal.runs == old(ideal.runs) && ideal.inHand == old(ideal.inHand)
        invariant again ==> ideal.expiry == old(ideal.expiry) && current == old(current) && overflow == old(overflow)
        invariant !again ==> ideal.expiry == old(ideal.expiry)[t := due + period]
        invariant !again && Epoch(due + period) != Epoch(time) ==> current == old(current)
        invariant Refines(current, overflow, Epoch(time), ideal.expiry)
        invariant LogOk(ideal.log)
        invariant LogGrew(old(ideal.log), ideal.log, t, DueTimes(start, first, more, period))
        decreases time - due
      {
        expiredTime := next;
        ghost var log := ideal.log;
        Callback(t, due, at);
        LogGrewStep(old(ideal.log), log, ideal.log, t, start, first, more, period);
        due, more := due + period, more + 1;
        AddTicksIsIdeal(due, period);
        next := AddTicks(expiredTime, period);
        again := InsertTimerInActiveList(t, next, timeNow, expiredTime, due, time);
      }
    }

    /**
     What prvProcessExpiredTimer and the start command both do with an unlisted timer whose
     expiry has passed: a one-shot timer leaves the set, an auto-reload timer is relisted
     at its first expiry after `time`.  Either way one callback runs for every expiry
     served, and no other timer is touched.  `was` is the ideal set with the timer in it.
     */
    method ServeExpiry(t: TimerId, expired: Tick, timeNow: Tick, ghost was: Ideal, ghost time: nat, ghost at: nat)
      requires IdealOk(timers, was, time) && t in was.expiry && ideal == was.(expiry := was.expiry - {t})
      requires Refines(current, overflow, Epoch(time), ideal.expiry)
      requires expired == ToTick(was.expiry[t]) && was.expiry[t] <= time < was.expiry[t] + WRAP
      requires timeNow == ToTick(time) && time <= at
      modifies this`current, this`overflow, this`timers, this`ideal
      ensures Consistent(Epoch(time), time)
      ensures Carried(old(timers), was, timers, ideal, {}) && ideal.inHand == was.inHand
      ensures t in ideal.expiry ==> time < ideal.expiry[t]
      ensures timeNow == MAX_DELAY ==> current == old(current)
    {
      hide Refines, IdealOk, TimerOk, RunOk, Served, Carried, LogGrew, LogOk, Dues, DueTime, DueTimes, ToTick, Epoch;
      TimerFacts(timers, was, time, t);
      var timer := timers[t];
      ghost var run := was.runs[t];
      if timer.autoReload {
        ghost var more := ReloadTimer(t, expired, timeNow, run.start, run.fires + 1, time, at);
        ghost var log1 := ideal.log;
        Callback(t, DueTime(run.start, run.fires + 1 + more, timer.period), at);
        ReloadServed(timers, was, time, t, more, log1, ideal.log);
        assert ideal.expiry == was.expiry[t := ideal.expiry[t]];
        ideal := ideal.(runs := ideal.runs[t := run.(fires := run.fires + 1 + more)]);
        PastEpochEnd(time, ideal.expiry[t]);
      } else {
        timers := timers[t := timer.(active := false)];
        Callback(t, was.expiry[t], at);
        OneShotServed(old(timers), was, time, t, ideal.log);
        ideal := ideal.(runs := ideal.runs - {t});
      }
    }

    /** prvProcessExpiredTimer, for the head of the current list. */
    method ProcessExpiredTimer(nextExpire: Tick, timeNow: Tick, ghost time: nat, ghost at: nat)
      requires Consistent(Epoch(time), time)
      requires current != [] && nextExpire == current[0].value
      requires timeNow == ToTick(time) && nextExpire <= timeNow && time <= at
      modifies this`current, this`overflow, this`timers, this`ideal
      ensures Consistent(Epoch(time), time)
      ensures Carried(old(timers), old(ideal), timers, ideal, {}) && ideal.inHand == old(ideal.inHand)
      ensures var t := old(current[0].owner); t in ideal.expiry ==> time < ideal.expiry[t]
      ensures timeNow == MAX_DELAY ==> current == old(current)[1..]
    {
      var t := current[0].owner;
      ghost var was := ideal;
      HeadIsDue(current, overflow, ideal.expiry, time);
      RemoveRefines(current, overflow, Epoch(time), ideal.expiry, 0);
      hide Refines, IdealOk, Carried, ToTick, Epoch;
      current := RemoveAt(current, 0);
      ideal := ideal.(expiry := ideal.expiry - {t});
      ServeExpiry(t, nextExpire, timeNow, was, time, at);
    }

    /**
     prvSwitchTimerLists: the tick has wrapped.  What is still in the current list expired
     in the epoch that ended; its expiries of that epoch are served before the lists swap.
     */
    method SwitchTimerLists(ghost time: nat)
      requires Consistent(Epoch(now), now) && now < time && Epoch(time) == Epoch(now) + 1
      modifies this`current, this`overflow, this`timers, this`ideal
      ensures Consistent(Epoch(time), time)
      ensures Carried(old(timers), old(ideal), timers, ideal, {}) && ideal.inHand == old(ideal.inHand)
    {
      hide Refines, IdealOk, Carried, ToTick, Epoch, EpochEnd;
      ghost var end := EpochEnd(now);
      IdealLater(timers, ideal, now, end);
      CarriedReflexive(timers, ideal);
      while current != []
        invariant Consistent(Epoch(end), end)
        invariant Carried(old(timers), old(ideal), timers, ideal, {}) && ideal.inHand == old(ideal.inHand)
        decreases |current|
      {
        ghost var timers1, ideal1 := timers, ideal;
        ProcessExpiredTimer(current[0].value, MAX_DELAY, end, time);
        CarriedTransitive(old(timers), old(ideal), timers1, ideal1, timers, ideal, {});
      }
      IdealLater(timers, ideal, end, time);
      SwapRefines(overflow, Epoch(end), ideal.expiry);
      current, overflow := overflow, current;
    }

    /**
     prvSampleTimeNow.  A tick below the last sampled one means the counter wrapped; that
     reading is right as long as samples are less than a wrap apart while a timer is listed.
     */
    method SampleTimeNow(tick: Tick, ghost clock: nat) returns (timeNow: Tick, switched: bool)
      requires Consistent(Epoch(now), now) && lastTime == ToTick(now)
      requires now <= clock && tick == ToTick(clock)
      requires ideal.expiry == map[] || clock < now + WRAP
      modifies this`current, this`overflow, this`timers, this`ideal, this`lastTime, this`now
      ensures Consistent(Epoch(clock), clock) && lastTime == tick && now == clock && timeNow == tick
      ensures Carried(old(timers), old(ideal), timers, ideal, {}) && ideal.inHand == old(ideal.inHand)
      ensures old(ideal.expiry) != map[] ==> (switched <==> Epoch(clock) != Epoch(old(now)))
      ensures !switched ==>
                current == old(current) && overflow == old(overflow) && ideal == old(ideal) && timers == old(timers)
    {
      hide Refines, IdealOk, Carried, EpochEnd;
      CarriedReflexive(timers, ideal);
      WrapSeen(now, clock);
      timeNow := tick;
      EmptyRefines(current, overflow, Epoch(now), ideal.expiry);
      if timeNow < lastTime {
        if ideal.expiry == map[] {
          ghost var justBefore := Epoch(clock) * WRAP - 1;
          IdealLater(timers, ideal, now, justBefore);
          now := justBefore;
        }
        SwitchTimerLists(clock);
        switched := true;
      } else {
        switched := false;
        IdealLater(timers, ideal, now, clock);
      }
      lastTime := timeNow;
      now := clock;
    }

    /** prvGetNextExpireTime. */
    method GetNextExpireTime() returns (next: Tick, listWasEmpty: bool)
      ensures listWasEmpty <==> current == []
      ensures next == if current == [] then 0 else current[0].value
    {
      listWasEmpty := current == [];
      next := if listWasEmpty then 0 else current[0].value;
    }

    /**
     prvProcessTimerOrBlockTask, with what prvGetNextExpireTime just answered.  When the
     daemon blocks, it has caught up: every timer's callbacks so far are as many as whole
     periods have passed since its start, and the wait ends no later than the earliest ideal
     expiry and the next wrap.  It waits for ever only if no timer is listed.
     */
    method ProcessTimerOrBlock(next: Tick, listWasEmpty: bool, tick: Tick, ghost clock: nat)
      returns (block: Block)
      requires Valid()
      requires (listWasEmpty <==> current == []) && next == if current == [] then 0 else current[0].value
      requires now <= clock && tick == ToTick(clock)
      requires ideal.expiry == map[] || clock < now + WRAP
      modifies this`current, this`overflow, this`timers, this`ideal, this`lastTime, this`now
      ensures Valid() && now == clock && queue == old(queue) && issued == old(issued)
      ensures Carried(old(timers), old(ideal), timers, ideal, {})
      ensures block.WaitFor? ==> CaughtUp(timers, ideal, clock) && ideal == old(ideal)
      ensures block.WaitFor? ==> (block.indefinitely <==> ideal.expiry == map[])
      ensures block.WaitFor? ==> clock + block.ticks <= EpochEnd(clock) + 1
      ensures block.WaitFor? ==> forall t :: t in ideal.expiry ==> clock + block.ticks <= ideal.expiry[t]
    {
      hide Refines, IdealOk, Carried, EpochEnd, CaughtUp;
      var timeNow, switched := SampleTimeNow(tick, clock);
      block := GoOn;
      if !switched {
        if !listWasEmpty && next <= timeNow {
          ghost var timers1, ideal1 := timers, ideal;
          ProcessExpiredTimer(next, timeNow, clock, clock);
          CarriedTransitive(old(timers), old(ideal), timers1, ideal1, timers, ideal, {});
        } else {
          var indefinitely := listWasEmpty && overflow == [];
          block := WaitFor(SubTicks(next, timeNow), indefinitely);
          BlockIsSafe(current, overflow, timers, ideal, clock);
        }
      }
    }

    /** prvInitialiseNewTimer: a new timer is dormant. */
    method CreateTimer(t: TimerId, period: Tick, autoReload: bool, dynamic: bool)
      requires Valid() && t !in timers && 0 < period
      modifies this`timers
      ensures Valid() && timers == old(timers)[t := Timer(period, autoReload, false, dynamic)]
    {
      timers := timers[t := Timer(period, autoReload, false, dynamic)];
      forall u | u in timers ensures TimerOk(u, timers[u], ideal, now) {
        if u != t {
          assert TimerOk(u, old(timers)[u], ideal, now);
        }
      }
    }

    /** A task or an ISR posts a command; a start or reset carries the tick it was issued at. */
    method Post(message: Message, ghost issue: nat)
      requires Valid()
      requires message.command.Start? || message.command.Reset? ==> message.value == ToTick(issue)
      requires message.command.ChangePeriod? ==> 0 < message.value
      modifies this`queue, this`issued
      ensures Valid() && queue == old(queue) + [message] && issued == old(issued) + [issue]
    {
      queue := queue + [message];
      issued := issued + [issue];
    }

    /** Taking a commanded timer off its list, if it is on one. */
    method Unlist(t: TimerId)
      requires Consistent(Epoch(now), now) && t in timers && ideal.inHand == {}
      modifies this`current, this`overflow, this`ideal
      ensures Consistent(Epoch(now), now)
      ensures ideal == TakenInHand(old(ideal), t)
      ensures Carried(timers, old(ideal), timers, ideal, {t})
    {
      hide Refines, IdealOk, Carried;
      InExactlyOneList(current, overflow, Epoch(now), ideal.expiry, t);
      TakeInHand(timers, ideal, now, t);
      if i :| 0 <= i < |current| && current[i].owner == t {
        RemoveRefines(current, overflow, Epoch(now), ideal.expiry, i);
        current := RemoveAt(current, i);
      } else if i :| 0 <= i < |overflow| && overflow[i].owner == t {
        RemoveRefines(current, overflow, Epoch(now), ideal.expiry, i);
        overflow := RemoveAt(overflow, i);
      } else {
        assert ideal.expiry - {t} == ideal.expiry;
      }
      ideal := TakenInHand(ideal, t);
    }

    /**
     The start and reset commands, for an unlisted timer.  Its run starts at the ideal time the
     command was issued; if a period has already passed, its expiries are served at once.
     */
    method ProcessStart(t: TimerId, command: Tick, timeNow: Tick, ghost issue: nat)
      requires Consistent(Epoch(now), now) && t in timers && t !in ideal.expiry && ideal.inHand == {t}
      requires issue <= now < issue + WRAP && command == ToTick(issue) && timeNow == ToTick(now)
      modifies this`current, this`overflow, this`timers, this`ideal
      ensures Consistent(Epoch(now), now) && ideal.inHand == {}
      ensures var timer := old(timers)[t].(active := true);
              t in timers && TimerCarried(t, timer, timers[t], Started(old(ideal), t, timer, issue), ideal)
      ensures t in ideal.expiry ==> now < ideal.expiry[t]
      ensures Carried(old(timers), old(ideal), timers, ideal, {t})
    {
      hide Refines, IdealOk, Carried, Started, DueTime, ToTick, Epoch;
      TimerInHandFacts(timers, ideal, now, t);
      var timer := timers[t].(active := true);
      ghost var timers1, was := timers[t := timer], Started(ideal, t, timer, issue);
      StartedFields(ideal, t, timer, issue);
      StartedOk(timers, ideal, now, t, timer, issue);
      timers := timers[t := timer];
      AddTicksIsIdeal(issue, timer.period);
      var next := AddTicks(command, timer.period);
      var processNow := InsertTimerInActiveList(t, next, timeNow, command, issue, now);
      if processNow {
        assert ideal.expiry == was.expiry - {t};
        ideal := was.(expiry := ideal.expiry);
        ServeExpiry(t, next, timeNow, was, now, now);
        CarriedOne(timers1, was, timers, ideal, t);
        CarriedWeaker(timers1, was, timers, ideal, t);
        CarriedTransitive(old(timers), old(ideal), timers1, was, timers, ideal, {t});
      } else {
        ideal := was;
      }
    }

    /** The change-period command, for an unlisted timer: a new run from now, with the new period. */
    method ProcessChangePeriod(t: TimerId, period: Tick, timeNow: Tick)
      requires Consistent(Epoch(now), now) && t in timers && t !in ideal.expiry && ideal.inHand == {t}
      requires 0 < period && timeNow == ToTick(now)
      modifies this`current, this`overflow, this`timers, this`ideal
      ensures Consistent(Epoch(now), now) && ideal.inHand == {}
      ensures timers == old(timers)[t := old(timers)[t].(active := true, period := period)]
      ensures ideal == Started(old(ideal), t, timers[t], now)
      ensures Carried(old(timers), old(ideal), timers, ideal, {t})
    {
      hide Refines, IdealOk, Carried, Started, DueTime, ToTick, Epoch;
      var timer := timers[t].(active := true, period := period);
      ghost var was := Started(ideal, t, timer, now);
      StartedFields(ideal, t, timer, now);
      StartedOk(timers, ideal, now, t, timer, now);
      timers := timers[t := timer];
      AddTicksIsIdeal(now, period);
      var processNow := InsertTimerInActiveList(t, AddTicks(timeNow, period), timeNow, timeNow, now, now);
      ideal := was;
    }

    /** The stop and delete commands, for an unlisted timer. */
    method ProcessStop(t: TimerId, delete: bool)
      requires Consistent(Epoch(now), now) && t in timers && t !in ideal.expiry && ideal.inHand == {t}
      modifies this`timers, this`ideal
      ensures Consistent(Epoch(now), now) && ideal == old(ideal).(inHand := {})
      ensures timers == if delete && old(timers)[t].dynamic then old(timers) - {t}
                        else old(timers)[t := old(timers)[t].(active := false)]
      ensures Carried(old(timers), old(ideal), timers, ideal, {t})
    {
      hide Refines;
      if delete && timers[t].dynamic {
        timers := timers - {t};
      } else {
        timers := timers[t := timers[t].(active := false)];
      }
      StoppedOk(old(timers), ideal, now, t, timers);
      ideal := ideal.(inHand := {});
    }

    /**
     One round of prvProcessReceivedCommands: the oldest command is taken off the queue and
     carried out.  `tick` is what xTaskGetTickCount answers, at ideal time `clock`.
     */
    method ReceiveCommand(tick: Tick, ghost clock: nat)
      requires Valid() && queue != []
      requires !queue[0].command.PendedCall? ==> queue[0].timer in timers
      requires queue[0].command.Start? || queue[0].command.Reset? ==> issued[0] <= clock < issued[0] + WRAP
      requires now <= clock && tick == ToTick(clock)
      requires ideal.expiry.Keys <= {queue[0].timer} || clock < now + WRAP
      modifies this
      ensures Valid() && queue == old(queue)[1..] && issued == old(issued)[1..]
      ensures Carried(old(timers), old(ideal), timers, ideal, {old(queue)[0].timer})
      ensures var m := old(queue)[0];
              && now == (if m.command.PendedCall? then old(now) else clock)
              && (m.command.PendedCall? ==> timers == old(timers) && ideal == old(ideal))
              && (m.command.Stop? || m.command.Delete? ==> m.timer !in ideal.runs)
              && (m.command.Stop? ==>
                    m.timer in timers && timers[m.timer] == old(timers)[m.timer].(active := false))
              && (m.command.Delete? ==>
                    && (m.timer in timers <==> !old(timers)[m.timer].dynamic)
                    && (m.timer in timers ==> timers[m.timer] == old(timers)[m.timer].(active := false)))
              && (m.command.ChangePeriod? ==>
                    && m.timer in timers
                    && timers[m.timer] == old(timers)[m.timer].(active := true, period := m.value)
                    && m.timer in ideal.runs && ideal.runs[m.timer].start == clock
                    && m.timer in ideal.expiry && ideal.expiry[m.timer] == clock + m.value)
              && (m.command.Stop? || m.command.Delete? || m.command.ChangePeriod? ==>
                    Dues(ideal.log, m.timer) == Dues(old(ideal).log, m.timer))
              && (m.command.Start? || m.command.Reset? ==>
                    && m.timer in timers
                    && timers[m.timer] == old(timers)[m.timer].(active := m.timer in ideal.runs)
                    && (m.timer in ideal.runs ==>
                          && ideal.runs[m.timer].start == old(issued)[0]
                          && ideal.runs[m.timer].base == |Dues(old(ideal).log, m.timer)|)
                    && (m.timer in ideal.expiry ==> now < ideal.expiry[m.timer])
                    && (m.timer !in ideal.runs ==>
                          && !timers[m.timer].autoReload
                          && Dues(ideal.log, m.timer) == Dues(old(ideal).log, m.timer)
                               + [DueTime(old(issued)[0], 1, timers[m.timer].period)]))
    {
      hide Refines, IdealOk, Carried, ToTick, Epoch;
      var m := queue[0];
      ghost var issue := issued[0];
      queue, issued := queue[1..], issued[1..];
      var t := m.timer;
      if m.command.PendedCall? {
        CarriedReflexive(timers, ideal);
        CarriedWeaker(timers, ideal, timers, ideal, t);
        return;
      }
      Unlist(t);
      ghost var timers1, ideal1 := timers, ideal;
      assert ideal.expiry == map[] || clock < now + WRAP;
      var timeNow, switched := SampleTimeNow(tick, clock);
      CarriedWeaker(timers1, ideal1, timers, ideal, t);
      CarriedTransitive(old(timers), old(ideal), timers1, ideal1, timers, ideal, {t});
      StillInHand(timers1, ideal1, timers, ideal, now, t);
      ghost var timers2, ideal2 := timers, ideal;
      CarryOut(m, timeNow, issue);
      CarriedTransitive(old(timers), old(ideal), timers2, ideal2, timers, ideal, {t});
    }

    /** The switch over the commands, for a timer taken off its list. */
    method CarryOut(m: Message, timeNow: Tick, ghost issue: nat)
      requires Consistent(Epoch(now), now) && m.timer in timers && m.timer !in ideal.expiry && ideal.inHand == {m.timer}
      requires !m.command.PendedCall? && timeNow == ToTick(now) && (m.command.ChangePeriod? ==> 0 < m.value)
      requires m.command.Start? || m.command.Reset? ==> issue <= now < issue + WRAP && m.value == ToTick(issue)
      modifies this`current, this`overflow, this`timers, this`ideal
      ensures Consistent(Epoch(now), now) && ideal.inHand == {}
      ensures Carried(old(timers), old(ideal), timers, ideal, {m.timer})
      ensures m.command.Stop? || m.command.Delete? ==> m.timer !in ideal.runs
      ensures m.command.Stop? ==>
                m.timer in timers && timers[m.timer] == old(timers)[m.timer].(active := false)
      ensures m.command.Delete? ==>
                && (m.timer in timers <==> !old(timers)[m.timer].dynamic)
                && (m.timer in timers ==> timers[m.timer] == old(timers)[m.timer].(active := false))
      ensures m.command.ChangePeriod? ==>
                && m.timer in timers
                && timers[m.timer] == old(timers)[m.timer].(active := true, period := m.value)
                && m.timer in ideal.runs && ideal.runs[m.timer].start == now
                && m.timer in ideal.expiry && ideal.expiry[m.timer] == now + m.value
      ensures m.command.Stop? || m.command.Delete? || m.command.ChangePeriod? ==>
                Dues(ideal.log, m.timer) == Dues(old(ideal).log, m.timer)
      ensures m.command.Start? || m.command.Reset? ==>
                && m.timer in timers
                && timers[m.timer] == old(timers)[m.timer].(active := m.timer in ideal.runs)
                && (m.timer in ideal.runs ==>
                      && ideal.runs[m.timer].start == issue
                      && ideal.runs[m.timer].base == |Dues(old(ideal).log, m.timer)|)
                && (m.timer in ideal.expiry ==> now < ideal.expiry[m.timer])
                && (m.timer !in ideal.runs ==>
                      && !timers[m.timer].autoReload
                      && Dues(ideal.log, m.timer) == Dues(old(ideal).log, m.timer)
                           + [DueTime(issue, 1, timers[m.timer].period)])
    {
      hide Refines, IdealOk, Carried, ToTick, Epoch;
      NotRunning(timers, ideal, now, m.timer);
      match m.command {
        case Start => ProcessStart(m.timer, m.value, timeNow, issue);
        case Reset => ProcessStart(m.timer, m.value, timeNow, issue);
        case ChangePeriod => ProcessChangePeriod(m.timer, m.value, timeNow);
        case Stop => ProcessStop(m.timer, false);
        case Delete => ProcessStop(m.timer, true);
      }
      ActiveIfRunning(timers, ideal, now, m.timer);
    }

    /**
     vTimerSetReloadMode, called by any task between two sections of the daemon.  Its next
     expiry stays; a timer that is to run only once more counts from its last expiry.
     */
    method SetReloadMode(t: TimerId, autoReload: bool)
      requires Valid() && t in timers
      modifies this`timers, this`ideal
      ensures Valid() && timers == old(timers)[t := old(timers)[t].(autoReload := autoReload)]
      ensures ideal.expiry == old(ideal).expiry && ideal.log == old(ideal).log
      ensures ideal.runs == if t in old(ideal).runs && !autoReload
                            then old(ideal).runs[t := Recounted(old(ideal).runs[t], timers[t].period)]
                            else old(ideal).runs
    {
      hide Refines;
      ModeOk(timers, ideal, now, t, autoReload);
      timers := timers[t := timers[t].(autoReload := autoReload)];
      if t in ideal.runs && !autoReload {
        ideal := ideal.(runs := ideal.runs[t := Recounted(ideal.runs[t], timers[t].period)]);
      }
    }
  }

  /** A run of timer `t`, with control block `timer`, started at ideal time `issue`. */
  ghost function Started(ideal: Ideal, t: TimerId, timer: Timer, issue: nat): Ideal {
    Ideal(ideal.expiry[t := issue + timer.period], ideal.runs[t := Run(issue, 0, |Dues(ideal.log, t)|)], ideal.log, {})
  }

  lemma StartedFields(ideal: Ideal, t: TimerId, timer: Timer, issue: nat)
    ensures var s := Started(ideal, t, timer, issue);
            && s.expiry == ideal.expiry[t := issue + timer.period]
            && s.runs == ideal.runs[t := Run(issue, 0, |Dues(ideal.log, t)|)]
            && s.log == ideal.log && s.inHand == {}
  {
  }

  lemma CarriedOne(timers: map<TimerId, Timer>, ideal: Ideal, timers': map<TimerId, Timer>, ideal': Ideal, t: TimerId)
    requires Carried(timers, ideal, timers', ideal', {}) && t in timers
    ensures t in timers' && TimerCarried(t, timers[t], timers'[t], ideal, ideal')
  {
  }

  /** Sampling the time serves other timers, and leaves the one in hand alone. */
  lemma StillInHand(timers: map<TimerId, Timer>, ideal: Ideal, timers': map<TimerId, Timer>, ideal': Ideal,
                    now: nat, t: TimerId)
    requires Carried(timers, ideal, timers', ideal', {}) && IdealOk(timers', ideal', now)
    requires t in timers && t !in ideal.runs
    ensures t in timers' && timers'[t] == timers[t].(active := timers'[t].active)
    ensures t !in ideal'.expiry && t !in ideal'.runs && Dues(ideal'.log, t) == Dues(ideal.log, t)
  {
    CarriedOne(timers, ideal, timers', ideal', t);
  }

  lemma TimerInHandFacts(timers: map<TimerId, Timer>, ideal: Ideal, now: nat, t: TimerId)
    requires IdealOk(timers, ideal, now) && t in timers
    ensures 0 < timers[t].period
  {
    assert TimerOk(t, timers[t], ideal, now);
  }

  lemma StartedSelf(ideal: Ideal, now: nat, t: TimerId, timer: Timer, issue: nat)
    requires timer.active && 0 < timer.period && issue <= now
    ensures TimerOk(t, timer, Started(ideal, t, timer, issue), now)
  {
    var dues := Dues(ideal.log, t);
    assert dues[|dues|..] == [] == DueTimes(issue, 1, 0, timer.period);
    assert DueTime(issue, 1, timer.period) == issue + timer.period;
  }

  lemma StartedOk(timers: map<TimerId, Timer>, ideal: Ideal, now: nat, t: TimerId, timer: Timer, issue: nat)
    requires IdealOk(timers, ideal, now) && t in timers && ideal.inHand == {t} && t !in ideal.expiry
    requires timer.active && 0 < timer.period && issue <= now
    ensures IdealOk(timers[t := timer], Started(ideal, t, timer, issue), now)
    ensures Carried(timers, ideal, timers[t := timer], Started(ideal, t, timer, issue), {t})
  {
    hide Dues, LogOk, TimerOk, TimerCarried, Started;
    StartedFields(ideal, t, timer, issue);
    var timers', ideal' := timers[t := timer], Started(ideal, t, timer, issue);
    forall u | u in timers
      ensures TimerOk(u, timers'[u], ideal', now)
      ensures u != t ==> TimerCarried(u, timers[u], timers'[u], ideal, ideal')
    {
      if u == t {
        StartedSelf(ideal, now, t, timer, issue);
      } else {
        assert TimerOk(u, timers[u], ideal, now);
        Unaffected(u, timers[u], ideal, ideal', now);
      }
    }
  }

  lemma ActiveIfRunning(timers: map<TimerId, Timer>, ideal: Ideal, now: nat, t: TimerId)
    requires IdealOk(timers, ideal, now) && ideal.inHand == {}
    ensures t in timers ==> (timers[t].active <==> t in ideal.runs)
  {
    if t in timers {
      assert TimerOk(t, timers[t], ideal, now);
    }
  }

  lemma NotRunning(timers: map<TimerId, Timer>, ideal: Ideal, now: nat, t: TimerId)
    requires IdealOk(timers, ideal, now) && t !in ideal.expiry
    ensures t !in ideal.runs
  {
  }

  /** The same run, counted from its last expiry on. */
  ghost function Recounted(run: Run, period: nat): Run {
    Run(DueTime(run.start, run.fires, period), 0, run.base + run.fires)
  }

  lemma RecountedOk(timer: Timer, run: Run, expiry: nat, now: nat, log: seq<Fire>, t: TimerId)
    requires RunOk(timer, run, expiry, now) && Served(log, t, run, timer.period)
    ensures RunOk(timer.(autoReload := false), Recounted(run, timer.period), expiry, now)
    ensures Served(log, t, Recounted(run, timer.period), timer.period)
  {
    var last := DueTime(run.start, run.fires, timer.period);
    assert DueTime(last, 1, timer.period) == last + timer.period by {
      assert DueTime(last, 0, timer.period) == last;
    }
    assert DueTimes(last, 1, 0, timer.period) == [];
    assert Dues(log, t)[run.base + run.fires..] == [];
  }

  lemma ModeOk(timers: map<TimerId, Timer>, ideal: Ideal, now: nat, t: TimerId, autoReload: bool)
    requires IdealOk(timers, ideal, now) && t in timers
    ensures var timer := timers[t].(autoReload := autoReload);
            var runs := if t in ideal.runs && !autoReload then ideal.runs[t := Recounted(ideal.runs[t], timer.period)]
                        else ideal.runs;
            IdealOk(timers[t := timer], ideal.(runs := runs), now)
  {
    hide Served, DueTime, Dues, LogOk, Recounted;
    var timers' := timers[t := timers[t].(autoReload := autoReload)];
    var runs := if t in ideal.runs && !autoReload then ideal.runs[t := Recounted(ideal.runs[t], timers[t].period)]
                else ideal.runs;
    assert TimerOk(t, timers[t], ideal, now);
    if t in ideal.runs && !autoReload {
      RecountedOk(timers[t], ideal.runs[t], ideal.expiry[t], now, ideal.log, t);
    }
    forall u | u in timers' ensures TimerOk(u, timers'[u], ideal.(runs := runs), now) {
      assert TimerOk(u, timers[u], ideal, now);
    }
  }

  lemma StoppedOk(timers: map<TimerId, Timer>, ideal: Ideal, now: nat, t: TimerId, timers': map<TimerId, Timer>)
    requires IdealOk(timers, ideal, now) && t in timers && ideal.inHand == {t} && t !in ideal.expiry
    requires timers' == timers - {t} || timers' == timers[t := timers[t].(active := false)]
    ensures IdealOk(timers', ideal.(inHand := {}), now)
    ensures Carried(timers, ideal, timers', ideal.(inHand := {}), {t})
  {
    hide Dues, LogOk, RunOk, Served;
    var ideal' := ideal.(inHand := {});
    forall u | u in timers'
      ensures TimerOk(u, timers'[u], ideal', now)
      ensures u != t ==> TimerCarried(u, timers[u], timers'[u], ideal, ideal')
    {
      assert TimerOk(u, timers[u], ideal, now);
      if u != t {
        Unaffected(u, timers[u], ideal, ideal', now);
      }
    }
  }

  ghost function TakenInHand(ideal: Ideal, t: TimerId): Ideal {
    Ideal(ideal.expiry - {t}, ideal.runs - {t}, ideal.log, {t})
  }

  lemma TakeInHand(timers: map<TimerId, Timer>, ideal: Ideal, now: nat, t: TimerId)
    requires IdealOk(timers, ideal, now) && t in timers && ideal.inHand == {}
    ensures IdealOk(timers, TakenInHand(ideal, t), now)
    ensures Carried(timers, ideal, timers, TakenInHand(ideal, t), {t})
  {
    hide RunOk, Served, Dues, LogOk;
    var ideal' := TakenInHand(ideal, t);
    forall u | u in timers
      ensures TimerOk(u, timers[u], ideal', now)
      ensures u != t ==> TimerCarried(u, timers[u], timers[u], ideal, ideal')
    {
      assert TimerOk(u, timers[u], ideal, now);
      if u != t {
        Unaffected(u, timers[u], ideal, ideal', now);
      }
    }
  }

  /** What vQueueWaitForMessageRestricted is asked for: how long to wait for a command, or not at all. */
  datatype Block = GoOn | WaitFor(ticks: Tick, indefinitely: bool)

  /** All expiries up to `now` have been served, each by one callback, and no more than that. */
  ghost predicate CaughtUp(timers: map<TimerId, Timer>, ideal: Ideal, now: nat) {
    && ideal.runs.Keys == ideal.expiry.Keys <= timers.Keys
    && forall t :: t in ideal.expiry ==>
         && now < ideal.expiry[t] && 0 < timers[t].period && ideal.runs[t].start <= now
         && |Dues(ideal.log, t)| == ideal.runs[t].base + ideal.runs[t].fires
         && ideal.runs[t].fires == (now - ideal.runs[t].start) / timers[t].period
  }

  /** The tick difference to a head that lies ahead, or to tick zero, in ideal time. */
  lemma WaitIsIdeal(next: Tick, now: nat)
    requires next == 0 || ToTick(now) < next
    ensures now + SubTicks(next, ToTick(now)) == if next != 0 then Epoch(now) * WRAP + next
                                                 else if ToTick(now) == 0 then now else (Epoch(now) + 1) * WRAP
  {
    assert now == Epoch(now) * WRAP + ToTick(now);
  }

  /** A wait computed from the head of the current list, when that head lies ahead. */
  lemma BlockIsSafe(current: seq<Item>, overflow: seq<Item>, timers: map<TimerId, Timer>, ideal: Ideal, now: nat)
    requires Refines(current, overflow, Epoch(now), ideal.expiry) && IdealOk(timers, ideal, now)
    requires current != [] ==> ToTick(now) < current[0].value
    ensures CaughtUp(timers, ideal, now)
    ensures (current == [] && overflow == []) <==> ideal.expiry == map[]
    ensures var wait := SubTicks(if current == [] then 0 else current[0].value, ToTick(now));
            && now + wait <= EpochEnd(now) + 1
            && forall t :: t in ideal.expiry ==> now + wait <= ideal.expiry[t]
  {
    hide Refines, RunOk, Served, Dues, SubTicks;
    WaitIsIdeal(if current == [] then 0 else current[0].value, now);
    assert now == Epoch(now) * WRAP + ToTick(now);
    forall t | t in ideal.expiry
      ensures now < ideal.expiry[t]
      ensures current == [] || Epoch(now) * WRAP + current[0].value <= ideal.expiry[t]
      ensures current != [] || (Epoch(now) + 1) * WRAP <= ideal.expiry[t]
      ensures |Dues(ideal.log, t)| == ideal.runs[t].base + ideal.runs[t].fires && 0 < timers[t].period
      ensures ideal.runs[t].fires == (now - ideal.runs[t].start) / timers[t].period
    {
      HeadIsEarliest(current, overflow, Epoch(now), ideal.expiry, t);
      CountIsIdeal(timers, ideal, now, t);
    }
    EmptyRefines(current, overflow, Epoch(now), ideal.expiry);
  }

  lemma {:induction false} StartedBefore(start: nat, n: nat, period: nat)
    ensures start <= DueTime(start, n, period)
  {
    if n > 0 {
      StartedBefore(start, n - 1, period);
    }
  }

  lemma CountIsIdeal(timers: map<TimerId, Timer>, ideal: Ideal, now: nat, t: TimerId)
    requires IdealOk(timers, ideal, now) && t in ideal.expiry
    ensures t in timers && t in ideal.runs && 0 < timers[t].period && ideal.runs[t].start <= now
    ensures |Dues(ideal.log, t)| == ideal.runs[t].base + ideal.runs[t].fires
    ensures now < ideal.expiry[t] ==> ideal.runs[t].fires == (now - ideal.runs[t].start) / timers[t].period
  {
    hide IdealOk, DueTime, Dues;
    TimerFacts(timers, ideal, now, t);
    StartedBefore(ideal.runs[t].start, ideal.runs[t].fires, timers[t].period);
    if now < ideal.expiry[t] {
      CaughtUpCount(timers[t], ideal.runs[t], ideal.expiry[t], now);
    }
  }

  /** Both lists are empty exactly when no timer is to be listed, and then any epoch fits. */
  lemma EmptyRefines(current: seq<Item>, overflow: seq<Item>, epoch: int, expiry: map<TimerId, nat>)
    requires Refines(current, overflow, epoch, expiry)
    ensures expiry == map[] <==> current == [] && overflow == []
    ensures expiry == map[] ==> forall e :: Refines(current, overflow, e, expiry)
  {
    assert current != [] ==> current[0].owner in expiry;
    assert overflow != [] ==> overflow[0].owner in expiry;
    if expiry != map[] {
      assert expiry.Keys != {};
      var t :| t in expiry;
      InExactlyOneList(current, overflow, epoch, expiry, t);
    }
  }

  lemma WrapSeen(now: nat, clock: nat)
    requires now <= clock
    ensures ToTick(clock) < ToTick(now) ==> Epoch(now) < Epoch(clock)
    ensures clock < now + WRAP ==>
              Epoch(clock) == if ToTick(clock) < ToTick(now) then Epoch(now) + 1 else Epoch(now)
  {
    assert now == Epoch(now) * WRAP + ToTick(now) && clock == Epoch(clock) * WRAP + ToTick(clock);
  }
}