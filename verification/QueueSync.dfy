/**
 The blocking protocol of the queue (queue.c): tasks that find the queue empty or full
 lock it, check again, and go onto an event list, while interrupts keep posting and
 receiving and may only count what they owe.  Each call is split into the critical
 sections it really runs, and any interleaving of them is allowed.
 */
module QueueSync {

  type Task = nat

  // ---------- What the critical sections work on ----------

  const UNLOCKED := -1
  const LOCKED_UNMODIFIED := 0

  /**
   `tasks` is the number of tasks in the system.  The event lists are in priority order;
   `wokenR` and `wokenS` are the tasks an event has taken off them that have not run since.
   */
  datatype Queue = Queue(messages: nat, length: nat, tasks: nat, txLock: int, rxLock: int,
                         waitR: seq<Task>, waitS: seq<Task>, wokenR: set<Task>, wokenS: set<Task>)

  /** xTaskRemoveFromEventList on the receivers' list, if there is anyone to wake. */
  function WakeReceiver(q: Queue): Queue {
    if q.waitR == [] then q else q.(waitR := q.waitR[1..], wokenR := q.wokenR + {q.waitR[0]})
  }

  function WakeSender(q: Queue): Queue {
    if q.waitS == [] then q else q.(waitS := q.waitS[1..], wokenS := q.wokenS + {q.waitS[0]})
  }

  /** prvIncrementQueueTxLock: capped at the number of tasks. */
  function CountPost(q: Queue): Queue {
    if q.txLock < q.tasks then q.(txLock := q.txLock + 1) else q
  }

  function CountReceipt(q: Queue): Queue {
    if q.rxLock < q.tasks then q.(rxLock := q.rxLock + 1) else q
  }

  predicate HasRoom(q: Queue, overwrite: bool) {
    q.messages < q.length || overwrite
  }

  /** The message count after prvCopyDataToQueue. */
  function Posted(q: Queue, overwrite: bool): Queue {
    q.(messages := if overwrite && q.messages > 0 then q.messages else q.messages + 1)
  }

  function Taken(q: Queue): Queue
    requires q.messages > 0
  {
    q.(messages := q.messages - 1)
  }

  /** The successful section of xQueueGenericSend, run by task t. */
  function TaskSend(q: Queue, t: Task, overwrite: bool): Queue {
    WakeReceiver(Posted(q.(wokenS := q.wokenS - {t}), overwrite))
  }

  function TaskReceive(q: Queue, t: Task): Queue
    requires q.messages > 0
  {
    WakeSender(Taken(q.(wokenR := q.wokenR - {t})))
  }

  /** xQueuePeek leaves the message and passes the wake-up on to the next receiver. */
  function TaskPeek(q: Queue, t: Task): Queue {
    WakeReceiver(q.(wokenR := q.wokenR - {t}))
  }

  /** xQueueGenericSendFromISR with room. */
  function IsrSend(q: Queue, overwrite: bool): Queue {
    if q.txLock == UNLOCKED then WakeReceiver(Posted(q, overwrite)) else CountPost(Posted(q, overwrite))
  }

  /** xQueueReceiveFromISR with a message. */
  function IsrReceive(q: Queue): Queue
    requires q.messages > 0
  {
    if q.rxLock == UNLOCKED then WakeSender(Taken(q)) else CountReceipt(Taken(q))
  }

  function Lock(q: Queue): Queue {
    q.(txLock := if q.txLock == UNLOCKED then LOCKED_UNMODIFIED else q.txLock,
       rxLock := if q.rxLock == UNLOCKED then LOCKED_UNMODIFIED else q.rxLock)
  }

  /** The loop of prvUnlockQueue: one receiver woken per counted post, while there is one to wake. */
  function WakeReceivers(q: Queue, count: int): Queue
    decreases count
  {
    if count <= 0 || q.waitR == [] then q else WakeReceivers(WakeReceiver(q), count - 1)
  }

  function WakeSenders(q: Queue, count: int): Queue
    decreases count
  {
    if count <= 0 || q.waitS == [] then q else WakeSenders(WakeSender(q), count - 1)
  }

  function UnlockTx(q: Queue): Queue {
    WakeReceivers(q, q.txLock).(txLock := UNLOCKED)
  }

  function UnlockRx(q: Queue): Queue {
    WakeSenders(q, q.rxLock).(rxLock := UNLOCKED)
  }

  // ---------- The calls, section by section ----------

  datatype Call = Receive | Peek | Send | Overwrite

  /** What a call does once it has unlocked the queue again. */
  datatype After = Retry | Block | TimedOut

  /**
   Where a task stands: before its first section (Enter), about to suspend the scheduler
   (Suspend), holding the queue locked (Locked), having found it still empty or full
   (Placing), unlocking in two sections, resuming the scheduler, off the processor
   (Asleep), or looking once more after a timeout (Recheck).
   */
  datatype PC = Outside | Enter(call: Call) | Suspend(call: Call) | Locked(call: Call) | Placing(call: Call)
              | UnlockingTx(call: Call, after: After) | UnlockingRx(call: Call, after: After)
              | Resuming(call: Call, after: After) | Asleep(call: Call) | Recheck(call: Call)

  datatype Option<T> = None | Some(value: T)

  /** `holder` is the task that has the scheduler suspended; only interrupts run beside it. */
  datatype State = State(q: Queue, pc: map<Task, PC>, holder: Option<Task>)

  /** `mayBlock`, `timedOut` and `place` are the environment's choices: block time, clock, priority. */
  datatype Step = StartCall(t: Task, call: Call) | TryNow(t: Task, mayBlock: bool) | LockQueue(t: Task)
                | Check(t: Task, timedOut: bool) | PutOnList(t: Task, place: nat)
                | UnlockTxSection(t: Task) | UnlockRxSection(t: Task) | ResumeAll(t: Task)
                | LookAgain(t: Task) | RunAgain(t: Task) | Timeout(t: Task)
                | InterruptSend(overwrite: bool) | InterruptReceive | NewTask(t: Task)

  predicate Sends(call: Call) {
    call.Send? || call.Overwrite?
  }

  predicate Blocking(pc: PC) {
    pc.Asleep? || ((pc.UnlockingTx? || pc.UnlockingRx? || pc.Resuming?) && pc.after.Block?)
  }

  predicate Holding(pc: PC) {
    pc.Locked? || pc.Placing? || pc.UnlockingTx? || pc.UnlockingRx? || pc.Resuming?
  }

  /** Is there nothing for this call to do: no message, or no room? */
  predicate Stuck(q: Queue, call: Call) {
    if Sends(call) then !HasRoom(q, call.Overwrite?) else q.messages == 0
  }

  function Done(q: Queue, t: Task, call: Call): Queue
    requires !Stuck(q, call)
  {
    match call
    case Receive => TaskReceive(q, t)
    case Peek => TaskPeek(q, t)
    case Send => TaskSend(q, t, false)
    case Overwrite => TaskSend(q, t, true)
  }

  function Remove(s: seq<Task>, t: Task): seq<Task> {
    if s == [] then [] else if s[0] == t then s[1..] else [s[0]] + Remove(s[1..], t)
  }

  function InsertAt(s: seq<Task>, place: nat, t: Task): seq<Task> {
    if place <= |s| then s[..place] + [t] + s[place..] else s + [t]
  }

  predicate Enabled(s: State, step: Step) {
    match step
    case StartCall(t, call) => t in s.pc && s.pc[t].Outside? && s.holder.None? && (call.Overwrite? ==> s.q.length == 1)
    case TryNow(t, _) => t in s.pc && s.pc[t].Enter? && s.holder.None?
    case LockQueue(t) => t in s.pc && s.pc[t].Suspend? && s.holder.None?
    case Check(t, _) => t in s.pc && s.pc[t].Locked?
    case PutOnList(t, _) => t in s.pc && s.pc[t].Placing?
    case UnlockTxSection(t) => t in s.pc && s.pc[t].UnlockingTx?
    case UnlockRxSection(t) => t in s.pc && s.pc[t].UnlockingRx?
    case ResumeAll(t) => t in s.pc && s.pc[t].Resuming?
    case LookAgain(t) => t in s.pc && s.pc[t].Recheck? && s.holder.None?
    case RunAgain(t) => t in s.pc && s.pc[t].Asleep? && s.holder.None? && t !in s.q.waitR && t !in s.q.waitS
    case Timeout(t) => t in s.pc && s.pc[t].Asleep? && (t in s.q.waitR || t in s.q.waitS)
    case InterruptSend(overwrite) => HasRoom(s.q, overwrite) && (overwrite ==> s.q.length == 1)
    case InterruptReceive => s.q.messages > 0
    case NewTask(t) => t !in s.pc && s.holder.None?
  }

  function Next(s: State, step: Step): State
    requires Enabled(s, step)
  {
    match step
    case StartCall(t, call) => s.(pc := s.pc[t := Enter(call)])
    case TryNow(t, mayBlock) =>
      var call := s.pc[t].call;
      if !Stuck(s.q, call) then State(Done(s.q, t, call), s.pc[t := Outside], s.holder)
      else State(s.q.(wokenR := s.q.wokenR - {t}, wokenS := s.q.wokenS - {t}),
                 s.pc[t := if mayBlock then Suspend(call) else Outside], s.holder)
    case LockQueue(t) => State(Lock(s.q), s.pc[t := Locked(s.pc[t].call)], Some(t))
    case Check(t, timedOut) =>
      var call := s.pc[t].call;
      s.(pc := s.pc[t := if timedOut then UnlockingTx(call, TimedOut)
                         else if Stuck(s.q, call) then Placing(call) else UnlockingTx(call, Retry)])
    case PutOnList(t, place) =>
      var call := s.pc[t].call;
      State(if Sends(call) then s.q.(waitS := InsertAt(s.q.waitS, place, t))
            else s.q.(waitR := InsertAt(s.q.waitR, place, t)),
            s.pc[t := UnlockingTx(call, Block)], s.holder)
    case UnlockTxSection(t) => State(UnlockTx(s.q), s.pc[t := UnlockingRx(s.pc[t].call, s.pc[t].after)], s.holder)
    case UnlockRxSection(t) => State(UnlockRx(s.q), s.pc[t := Resuming(s.pc[t].call, s.pc[t].after)], s.holder)
    case ResumeAll(t) =>
      var call := s.pc[t].call;
      State(s.q, s.pc[t := match s.pc[t].after
                           case Retry => Enter(call)
                           case Block => Asleep(call)
                           case TimedOut => if Sends(call) then Outside else Recheck(call)], None)
    case LookAgain(t) => s.(pc := s.pc[t := if s.q.messages == 0 then Outside else Enter(s.pc[t].call)])
    case RunAgain(t) => s.(pc := s.pc[t := Enter(s.pc[t].call)])
    case Timeout(t) => s.(q := s.q.(waitR := Remove(s.q.waitR, t), waitS := Remove(s.q.waitS, t)))
    case InterruptSend(overwrite) => s.(q := IsrSend(s.q, overwrite))
    case InterruptReceive => s.(q := IsrReceive(s.q))
    case NewTask(t) => State(s.q.(tasks := s.q.tasks + 1), s.pc[t := Outside], s.holder)
  }

  predicate Initial(s: State) {
    && s.q.messages == 0 && s.q.length >= 1 && s.q.txLock == s.q.rxLock == UNLOCKED
    && s.q.waitR == s.q.waitS == [] && s.q.wokenR == s.q.wokenS == {}
    && s.holder.None? && |s.pc| <= s.q.tasks && forall t :: t in s.pc ==> s.pc[t].Outside?
  }

  /** A run: any sequence of steps, each enabled where it is taken. */
  ghost predicate IsRun(run: seq<State>, steps: seq<Step>) {
    && |run| == |steps| + 1 && Initial(run[0])
    && forall i :: 0 <= i < |steps| ==> Enabled(run[i], steps[i]) && run[i + 1] == Next(run[i], steps[i])
  }

  // ---------- The invariant ----------

  ghost predicate NoDuplicates(s: seq<Task>) {
    forall i, j :: 0 <= i < j < |s| ==> s[i] != s[j]
  }

  /** Someone waits on the receiving side, or has just found the queue empty and is about to. */
  predicate ReceiverWaits(s: State) {
    s.q.waitR != [] || AboutToWait(s, false)
  }

  predicate SenderWaits(s: State) {
    s.q.waitS != [] || AboutToWait(s, true)
  }

  predicate AboutToWait(s: State, send: bool) {
    && s.holder.Some? && s.holder.value in s.pc
    && s.pc[s.holder.value].Placing? && Sends(s.pc[s.holder.value].call) == send
  }

  function Owed(lock: int): nat {
    if lock < 0 then 0 else lock
  }

  /** Every message a waiting receiver could have is accounted for by a wake-up given or owed. */
  predicate ReceiversCovered(s: State) {
    ReceiverWaits(s) ==> s.q.messages <= |s.q.wokenR| + Owed(s.q.txLock) || s.q.txLock >= s.q.tasks
  }

  predicate SendersCovered(s: State) {
    SenderWaits(s) ==> s.q.length - s.q.messages <= |s.q.wokenS| + Owed(s.q.rxLock) || s.q.rxLock >= s.q.tasks
  }

  /** A task on an event list is off the processor, or about to be, in a call of that side that can block. */
  predicate MayWait(pc: PC, send: bool) {
    Blocking(pc) && !pc.call.Overwrite? && Sends(pc.call) == send
  }

  /** A woken task goes back to the first section of its call, whatever happens in between. */
  predicate MayBeWoken(pc: PC, send: bool) {
    (Blocking(pc) || pc.Enter?) && !pc.call.Overwrite? && Sends(pc.call) == send
  }

  /** An event list and its woken set hold tasks of the right kind, no task twice. */
  ghost predicate SideOk(wait: seq<Task>, woken: set<Task>, pc: map<Task, PC>, send: bool) {
    && NoDuplicates(wait)
    && (forall t :: t in wait ==> t in pc && MayWait(pc[t], send) && t !in woken)
    && (forall t :: t in woken ==> t in pc && MayBeWoken(pc[t], send))
  }

  /** The queue is locked exactly while the task that holds the scheduler says so. */
  ghost predicate LocksOk(s: State) {
    && (s.holder.None? ==> s.q.txLock == s.q.rxLock == UNLOCKED)
    && (s.holder.Some? ==>
          && s.holder.value in s.pc && Holding(s.pc[s.holder.value])
          && (s.q.txLock >= 0 <==> !s.pc[s.holder.value].UnlockingRx? && !s.pc[s.holder.value].Resuming?)
          && (s.q.rxLock >= 0 <==> !s.pc[s.holder.value].Resuming?))
    && (forall t :: t in s.pc && Holding(s.pc[t]) ==> s.holder == Some(t))
    && -1 <= s.q.txLock && -1 <= s.q.rxLock
  }

  ghost predicate Inv(s: State) {
    && s.q.messages <= s.q.length && |s.pc| <= s.q.tasks
    && SidesOk(s.q, s.pc) && LocksOk(s)
    && (forall t :: t in s.pc && !s.pc[t].Outside? && s.pc[t].call.Overwrite? ==> s.pc[t].Enter? && s.q.length == 1)
    && ReceiversCovered(s) && SendersCovered(s)
  }

  // ---------- Waking a batch ----------

  function Min(a: nat, b: nat): nat {
    if a < b then a else b
  }

  function SetOf(s: seq<Task>): set<Task> {
    if s == [] then {} else {s[0]} + SetOf(s[1..])
  }

  /** The first `count` receivers of the list are woken, no task twice. */
  lemma {:induction false} WakeReceiversSpec(q: Queue, count: nat)
    ensures var m := Min(count, |q.waitR|);
            WakeReceivers(q, count) == q.(waitR := q.waitR[m..], wokenR := q.wokenR + SetOf(q.waitR[..m]))
    decreases count
  {
    if count > 0 && q.waitR != [] {
      var r := WakeReceiver(q);
      WakeReceiversSpec(r, count - 1);
      var m := Min(count, |q.waitR|);
      assert q.waitR[..m][1..] == r.waitR[..m - 1] && r.waitR[m - 1..] == q.waitR[m..];
    }
  }

  lemma {:induction false} WakeSendersSpec(q: Queue, count: nat)
    ensures var m := Min(count, |q.waitS|);
            WakeSenders(q, count) == q.(waitS := q.waitS[m..], wokenS := q.wokenS + SetOf(q.waitS[..m]))
    decreases count
  {
    if count > 0 && q.waitS != [] {
      var r := WakeSender(q);
      WakeSendersSpec(r, count - 1);
      var m := Min(count, |q.waitS|);
      assert q.waitS[..m][1..] == r.waitS[..m - 1] && r.waitS[m - 1..] == q.waitS[m..];
    }
  }

  lemma {:induction false} CountWoken(woken: set<Task>, list: seq<Task>)
    requires NoDuplicates(list) && forall t :: t in list ==> t !in woken
    ensures |woken + SetOf(list)| == |woken| + |list|
    decreases list
  {
    if list == [] {
      assert woken + SetOf(list) == woken;
    } else {
      assert list[0] in list;
      CountWoken(woken + {list[0]}, list[1..]);
      assert woken + SetOf(list) == woken + {list[0]} + SetOf(list[1..]);
    }
  }

  lemma SetOfSubset(list: seq<Task>, all: set<Task>)
    requires forall t :: t in list ==> t in all
    ensures SetOf(list) <= all
  {
  }

  /** A list of distinct tasks is no longer than the number of tasks. */
  lemma ListFits(list: seq<Task>, pc: map<Task, PC>)
    requires NoDuplicates(list) && forall t :: t in list ==> t in pc
    ensures |list| <= |pc|
  {
    CountWoken({}, list);
    SetOfSubset(list, pc.Keys);
    assert {} + SetOf(list) == SetOf(list);
    SubsetSize(SetOf(list), pc.Keys);
  }

  lemma SubsetSize(a: set<Task>, b: set<Task>)
    requires a <= b
    ensures |a| <= |b|
  {
    if a != {} {
      var t :| t in a;
      SubsetSize(a - {t}, b - {t});
    }
  }

  // ---------- The sections keep the lists in order ----------

  lemma SideAfterWake(wait: seq<Task>, woken: set<Task>, pc: map<Task, PC>, send: bool)
    requires SideOk(wait, woken, pc, send) && wait != []
    ensures SideOk(wait[1..], woken + {wait[0]}, pc, send)
    ensures |woken + {wait[0]}| == |woken| + 1
  {
    assert wait[0] in wait;
  }

  lemma {:induction false} SideAfterWaking(wait: seq<Task>, woken: set<Task>, pc: map<Task, PC>, send: bool, m: nat)
    requires SideOk(wait, woken, pc, send) && m <= |wait|
    ensures SideOk(wait[m..], woken + SetOf(wait[..m]), pc, send)
  {
    if m == 0 {
      assert wait[0..] == wait && woken + SetOf(wait[..0]) == woken;
    } else {
      SideAfterWake(wait, woken, pc, send);
      SideAfterWaking(wait[1..], woken + {wait[0]}, pc, send, m - 1);
      assert wait[1..][m - 1..] == wait[m..] && wait[..m][1..] == wait[1..][..m - 1];
      assert woken + SetOf(wait[..m]) == woken + {wait[0]} + SetOf(wait[1..][..m - 1]);
    }
  }

  /**
   One side of unlocking.  If the count stayed below the number of tasks, every counted
   event has become a wake-up or nobody is left waiting; if it was cut off there, there
   were no more waiters than that, so nobody is left either way.
   */
  lemma SideAfterUnlock(wait: seq<Task>, woken: set<Task>, pc: map<Task, PC>, send: bool,
                        lock: nat, tasks: nat, need: int)
    requires SideOk(wait, woken, pc, send) && |pc| <= tasks
    ensures var m := Min(lock, |wait|);
            && SideOk(wait[m..], woken + SetOf(wait[..m]), pc, send)
            && (need <= |woken| + lock || lock >= tasks ==>
                  wait[m..] == [] || need <= |woken + SetOf(wait[..m])|)
  {
    var m := Min(lock, |wait|);
    SideAfterWaking(wait, woken, pc, send, m);
    ListFits(wait, pc);
    CountWoken(woken, wait[..m]);
  }

  lemma SideAfterInsert(wait: seq<Task>, woken: set<Task>, pc: map<Task, PC>, send: bool, t: Task, place: nat)
    requires SideOk(wait, woken, pc, send) && t !in wait && t !in woken && t in pc && MayWait(pc[t], send)
    ensures SideOk(InsertAt(wait, place, t), woken, pc, send) && InsertAt(wait, place, t) != []
  {
    InsertAtSpec(wait, place, t);
  }

  lemma SideAfterRemove(wait: seq<Task>, woken: set<Task>, pc: map<Task, PC>, send: bool, t: Task)
    requires SideOk(wait, woken, pc, send)
    ensures SideOk(Remove(wait, t), woken, pc, send)
    ensures wait == [] ==> Remove(wait, t) == []
  {
    RemoveSpec(wait, t);
  }

  /** A task that is on neither list, or stays of the right kind, may move on. */
  lemma SideAfterMove(wait: seq<Task>, woken: set<Task>, pc: map<Task, PC>, send: bool, t: Task, to: PC)
    requires SideOk(wait, woken, pc, send)
    requires t in wait ==> MayWait(to, send)
    requires t in woken ==> MayBeWoken(to, send)
    ensures SideOk(wait, woken, pc[t := to], send)
  {
  }

  ghost predicate SidesOk(q: Queue, pc: map<Task, PC>) {
    SideOk(q.waitR, q.wokenR, pc, false) && SideOk(q.waitS, q.wokenS, pc, true)
  }

  /** A task running its first section again is no longer counted as woken. */
  lemma SideAfterRun(wait: seq<Task>, woken: set<Task>, pc: map<Task, PC>, send: bool, t: Task)
    requires SideOk(wait, woken, pc, send)
    ensures SideOk(wait, woken - {t}, pc, send)
    ensures |woken - {t}| >= |woken| - 1
    ensures t !in woken ==> woken - {t} == woken
  {
    assert woken <= (woken - {t}) + {t};
  }

  lemma InsertAtSpec(s: seq<Task>, place: nat, t: Task)
    requires NoDuplicates(s) && t !in s
    ensures NoDuplicates(InsertAt(s, place, t)) && |InsertAt(s, place, t)| == |s| + 1
    ensures forall u :: u in InsertAt(s, place, t) <==> u in s || u == t
  {
    var r := InsertAt(s, place, t);
    var k := if place <= |s| then place else |s|;
    assert r == s[..k] + [t] + s[k..] && s == s[..k] + s[k..];
  }

  lemma RemoveSpec(s: seq<Task>, t: Task)
    requires NoDuplicates(s)
    ensures NoDuplicates(Remove(s, t))
    ensures forall u :: u in Remove(s, t) <==> u in s && u != t
  {
    if s != [] {
      RemoveSpec(s[1..], t);
      assert s == [s[0]] + s[1..];
      assert s[0] !in s[1..];
    }
  }

  // ---------- Every step keeps the invariant ----------

  lemma InitialInv(s: State)
    requires Initial(s)
    ensures Inv(s)
  {
  }

  /** A task outside the blocked part of its call is on no list. */
  lemma NotOnLists(s: State, t: Task)
    requires Inv(s) && t in s.pc && !Blocking(s.pc[t])
    ensures t !in s.q.waitR && t !in s.q.waitS
    ensures !s.pc[t].Enter? ==> t !in s.q.wokenR && t !in s.q.wokenS
    ensures s.pc[t].Enter? && t in s.q.wokenR ==> !Sends(s.pc[t].call)
    ensures s.pc[t].Enter? && t in s.q.wokenS ==> s.pc[t].call.Send?
  {
  }

  lemma KeepStartCall(s: State, t: Task, call: Call)
    requires Inv(s) && Enabled(s, StartCall(t, call))
    ensures Inv(Next(s, StartCall(t, call)))
  {
  }

  lemma KeepLockQueue(s: State, t: Task)
    requires Inv(s) && Enabled(s, LockQueue(t))
    ensures Inv(Next(s, LockQueue(t)))
  {
  }

  lemma KeepCheck(s: State, t: Task, timedOut: bool)
    requires Inv(s) && Enabled(s, Check(t, timedOut))
    ensures Inv(Next(s, Check(t, timedOut)))
  {
  }

  lemma KeepResumeAll(s: State, t: Task)
    requires Inv(s) && Enabled(s, ResumeAll(t))
    ensures Inv(Next(s, ResumeAll(t)))
  {
    hide SidesOk;
    var call := s.pc[t].call;
    SidesStillWait(s.q, s.pc, t, match s.pc[t].after
                                 case Retry => Enter(call)
                                 case Block => Asleep(call)
                                 case TimedOut => if Sends(call) then Outside else Recheck(call));
  }

  /** A task that moves on without ending its wait stays where it is on the lists. */
  lemma SidesStillWait(q: Queue, pc: map<Task, PC>, t: Task, to: PC)
    requires SidesOk(q, pc) && t in pc && !pc[t].Enter?
    requires Blocking(pc[t]) ==> Blocking(to) && to.call == pc[t].call
    ensures SidesOk(q, pc[t := to])
  {
    hide SideOk;
    NotWaiting(q.waitR, q.wokenR, pc, false, t);
    NotWaiting(q.waitS, q.wokenS, pc, true, t);
    SideAfterMove(q.waitR, q.wokenR, pc, false, t, to);
    SideAfterMove(q.waitS, q.wokenS, pc, true, t, to);
  }

  lemma NotWaiting(wait: seq<Task>, woken: set<Task>, pc: map<Task, PC>, send: bool, t: Task)
    requires SideOk(wait, woken, pc, send) && t in pc
    ensures t in wait ==> MayWait(pc[t], send)
    ensures t in woken ==> MayBeWoken(pc[t], send)
  {
  }

  lemma KeepLookAgain(s: State, t: Task)
    requires Inv(s) && Enabled(s, LookAgain(t))
    ensures Inv(Next(s, LookAgain(t)))
  {
  }

  lemma KeepRunAgain(s: State, t: Task)
    requires Inv(s) && Enabled(s, RunAgain(t))
    ensures Inv(Next(s, RunAgain(t)))
  {
  }

  lemma KeepNewTask(s: State, t: Task)
    requires Inv(s) && Enabled(s, NewTask(t))
    ensures Inv(Next(s, NewTask(t)))
  {
  }

  /** The first section of a call, up to taking the caller off the woken sets and moving it on. */
  lemma SidesAfterRun(s: State, t: Task, to: PC)
    requires Inv(s) && t in s.pc && s.pc[t].Enter?
    ensures SidesOk(s.q.(wokenR := s.q.wokenR - {t}, wokenS := s.q.wokenS - {t}), s.pc[t := to])
    ensures |s.q.wokenR - {t}| >= if Sends(s.pc[t].call) then |s.q.wokenR| else |s.q.wokenR| - 1
    ensures |s.q.wokenS - {t}| >= if s.pc[t].call.Send? then |s.q.wokenS| - 1 else |s.q.wokenS|
    ensures Sends(s.pc[t].call) ==> s.q.wokenR - {t} == s.q.wokenR
    ensures !s.pc[t].call.Send? ==> s.q.wokenS - {t} == s.q.wokenS
  {
    hide SideOk, LocksOk, ReceiversCovered, SendersCovered;
    var q := s.q;
    NotOnLists(s, t);
    SideAfterRun(q.waitR, q.wokenR, s.pc, false, t);
    SideAfterRun(q.waitS, q.wokenS, s.pc, true, t);
    SideAfterMove(q.waitR, q.wokenR - {t}, s.pc, false, t, to);
    SideAfterMove(q.waitS, q.wokenS - {t}, s.pc, true, t, to);
  }

  /** With the queue unlocked, waiting tasks are balanced by woken ones alone. */
  lemma Unlocked(s: State)
    requires Inv(s) && s.holder.None?
    ensures s.q.txLock == s.q.rxLock == UNLOCKED && s.q.messages <= s.q.length
    ensures s.q.waitR != [] ==> s.q.messages <= |s.q.wokenR|
    ensures s.q.waitS != [] ==> s.q.length - s.q.messages <= |s.q.wokenS|
    ensures forall t :: t in s.pc && s.pc[t].Enter? && s.pc[t].call.Overwrite? ==> s.q.length == 1
  {
  }

  /** What the first section of a call leaves, if its event lists and their balance are in order. */
  lemma AfterFirstSection(s: State, t: Task, to: PC, q: Queue)
    requires Inv(s) && t in s.pc && s.pc[t].Enter? && s.holder.None?
    requires to.Outside? || (to.Suspend? && !to.call.Overwrite?)
    requires q.txLock == q.rxLock == UNLOCKED && q.tasks == s.q.tasks && q.length == s.q.length
             && q.messages <= q.length
    requires SidesOk(q, s.pc[t := to])
    requires q.waitR != [] ==> q.messages <= |q.wokenR|
    requires q.waitS != [] ==> q.length - q.messages <= |q.wokenS|
    ensures Inv(State(q, s.pc[t := to], s.holder))
  {
    hide SidesOk;
  }

  lemma KeepTryStuck(s: State, t: Task, mayBlock: bool)
    requires Inv(s) && Enabled(s, TryNow(t, mayBlock)) && Stuck(s.q, s.pc[t].call)
    ensures Inv(Next(s, TryNow(t, mayBlock)))
  {
    hide SidesOk, Inv;
    var to := if mayBlock then Suspend(s.pc[t].call) else Outside;
    Unlocked(s);
    SidesAfterRun(s, t, to);
    AfterFirstSection(s, t, to, s.q.(wokenR := s.q.wokenR - {t}, wokenS := s.q.wokenS - {t}));
  }

  lemma KeepTryReceive(s: State, t: Task, mayBlock: bool)
    requires Inv(s) && Enabled(s, TryNow(t, mayBlock)) && !Stuck(s.q, s.pc[t].call) && !Sends(s.pc[t].call)
    ensures Inv(Next(s, TryNow(t, mayBlock)))
  {
    hide SideOk, Inv;
    Unlocked(s);
    SidesAfterRun(s, t, Outside);
    if s.pc[t].call.Receive? {
      if s.q.waitS != [] {
        SideAfterWake(s.q.waitS, s.q.wokenS, s.pc[t := Outside], true);
      }
    } else if s.q.waitR != [] {
      SideAfterWake(s.q.waitR, s.q.wokenR - {t}, s.pc[t := Outside], false);
    }
    AfterFirstSection(s, t, Outside, Done(s.q, t, s.pc[t].call));
  }

  lemma KeepTrySend(s: State, t: Task, mayBlock: bool)
    requires Inv(s) && Enabled(s, TryNow(t, mayBlock)) && !Stuck(s.q, s.pc[t].call) && Sends(s.pc[t].call)
    ensures Inv(Next(s, TryNow(t, mayBlock)))
  {
    hide SideOk, Inv;
    Unlocked(s);
    SidesAfterRun(s, t, Outside);
    if s.q.waitR != [] {
      SideAfterWake(s.q.waitR, s.q.wokenR, s.pc[t := Outside], false);
    }
    AfterFirstSection(s, t, Outside, Done(s.q, t, s.pc[t].call));
  }

  lemma KeepPutOnList(s: State, t: Task, place: nat)
    requires Inv(s) && Enabled(s, PutOnList(t, place))
    ensures Inv(Next(s, PutOnList(t, place)))
  {
    hide SideOk, InsertAt;
    var q, call := s.q, s.pc[t].call;
    var to := UnlockingTx(call, Block);
    NotOnLists(s, t);
    SideAfterMove(q.waitR, q.wokenR, s.pc, false, t, to);
    SideAfterMove(q.waitS, q.wokenS, s.pc, true, t, to);
    if Sends(call) {
      SideAfterInsert(q.waitS, q.wokenS, s.pc[t := to], true, t, place);
    } else {
      SideAfterInsert(q.waitR, q.wokenR, s.pc[t := to], false, t, place);
    }
  }

  lemma KeepUnlockTxSection(s: State, t: Task)
    requires Inv(s) && Enabled(s, UnlockTxSection(t))
    ensures Inv(Next(s, UnlockTxSection(t)))
  {
    hide SideOk, WakeReceivers, SetOf;
    var q, to := s.q, UnlockingRx(s.pc[t].call, s.pc[t].after);
    WakeReceiversSpec(q, q.txLock);
    SideAfterUnlock(q.waitR, q.wokenR, s.pc, false, q.txLock, q.tasks, q.messages);
    var r := UnlockTx(q);
    SidesStillWait(r, s.pc, t, to);
    AfterUnlockTx(s, t, r);
  }

  /** Once the receivers' side is balanced, the task may go on to unlock the senders' side. */
  lemma AfterUnlockTx(s: State, t: Task, r: Queue)
    requires Inv(s) && Enabled(s, UnlockTxSection(t))
    requires r == s.q.(waitR := r.waitR, wokenR := r.wokenR, txLock := UNLOCKED)
    requires SidesOk(r, s.pc[t := UnlockingRx(s.pc[t].call, s.pc[t].after)])
    requires r.waitR == [] || r.messages <= |r.wokenR|
    ensures Inv(State(r, s.pc[t := UnlockingRx(s.pc[t].call, s.pc[t].after)], s.holder))
  {
    hide SidesOk;
  }

  lemma OwedToSenders(s: State, t: Task)
    requires Inv(s) && Enabled(s, UnlockRxSection(t))
    ensures SidesOk(s.q, s.pc) && |s.pc| <= s.q.tasks && 0 <= s.q.rxLock
    ensures s.q.waitS != [] ==> s.q.length - s.q.messages <= |s.q.wokenS| + s.q.rxLock || s.q.rxLock >= s.q.tasks
  {
    hide SidesOk;
  }

  /** Once both sides are balanced, the task may resume the scheduler. */
  lemma AfterUnlockRx(s: State, t: Task, r: Queue)
    requires Inv(s) && Enabled(s, UnlockRxSection(t))
    requires r == s.q.(waitS := r.waitS, wokenS := r.wokenS, rxLock := UNLOCKED)
    requires SidesOk(r, s.pc[t := Resuming(s.pc[t].call, s.pc[t].after)])
    requires r.waitS == [] || r.length - r.messages <= |r.wokenS|
    ensures Inv(State(r, s.pc[t := Resuming(s.pc[t].call, s.pc[t].after)], s.holder))
  {
    hide SidesOk;
  }

  lemma KeepUnlockRxSection(s: State, t: Task)
    requires Inv(s) && Enabled(s, UnlockRxSection(t))
    ensures Inv(Next(s, UnlockRxSection(t)))
  {
    hide SideOk, WakeSenders, SetOf, Inv;
    var q, to := s.q, Resuming(s.pc[t].call, s.pc[t].after);
    OwedToSenders(s, t);
    WakeSendersSpec(q, q.rxLock);
    SideAfterUnlock(q.waitS, q.wokenS, s.pc, true, q.rxLock, q.tasks, q.length - q.messages);
    var r := UnlockRx(q);
    SidesStillWait(r, s.pc, t, to);
    AfterUnlockRx(s, t, r);
  }

  lemma KeepTimeout(s: State, t: Task)
    requires Inv(s) && Enabled(s, Timeout(t))
    ensures Inv(Next(s, Timeout(t)))
  {
    hide SideOk, Remove, Owed;
    SideAfterRemove(s.q.waitR, s.q.wokenR, s.pc, false, t);
    SideAfterRemove(s.q.waitS, s.q.wokenS, s.pc, true, t);
  }

  lemma KeepInterruptSend(s: State, overwrite: bool)
    requires Inv(s) && Enabled(s, InterruptSend(overwrite))
    ensures Inv(Next(s, InterruptSend(overwrite)))
  {
    hide Inv, Next;
    if s.q.txLock == UNLOCKED {
      KeepDirectSend(s, overwrite);
    } else {
      KeepCountedSend(s, overwrite);
    }
  }

  lemma KeepDirectSend(s: State, overwrite: bool)
    requires Inv(s) && Enabled(s, InterruptSend(overwrite)) && s.q.txLock == UNLOCKED
    ensures Inv(Next(s, InterruptSend(overwrite)))
  {
    hide SideOk;
    if s.q.waitR != [] {
      SideAfterWake(s.q.waitR, s.q.wokenR, s.pc, false);
    }
  }

  lemma KeepCountedSend(s: State, overwrite: bool)
    requires Inv(s) && Enabled(s, InterruptSend(overwrite)) && s.q.txLock != UNLOCKED
    ensures Inv(Next(s, InterruptSend(overwrite)))
  {
    hide SideOk;
  }

  lemma KeepInterruptReceive(s: State)
    requires Inv(s) && Enabled(s, InterruptReceive)
    ensures Inv(Next(s, InterruptReceive))
  {
    hide SideOk;
    if s.q.waitS != [] {
      SideAfterWake(s.q.waitS, s.q.wokenS, s.pc, true);
    }
  }

  lemma StepKeepsInv(s: State, step: Step)
    requires Inv(s) && Enabled(s, step)
    ensures Inv(Next(s, step))
  {
    hide Inv, Next;
    match step {
      case StartCall(t, call) => KeepStartCall(s, t, call);
      case TryNow(t, mayBlock) =>
        if Stuck(s.q, s.pc[t].call) {
          KeepTryStuck(s, t, mayBlock);
        } else if Sends(s.pc[t].call) {
          KeepTrySend(s, t, mayBlock);
        } else {
          KeepTryReceive(s, t, mayBlock);
        }
      case LockQueue(t) => KeepLockQueue(s, t);
      case Check(t, timedOut) => KeepCheck(s, t, timedOut);
      case PutOnList(t, place) => KeepPutOnList(s, t, place);
      case UnlockTxSection(t) => KeepUnlockTxSection(s, t);
      case UnlockRxSection(t) => KeepUnlockRxSection(s, t);
      case ResumeAll(t) => KeepResumeAll(s, t);
      case LookAgain(t) => KeepLookAgain(s, t);
      case RunAgain(t) => KeepRunAgain(s, t);
      case Timeout(t) => KeepTimeout(s, t);
      case InterruptSend(overwrite) => KeepInterruptSend(s, overwrite);
      case InterruptReceive => KeepInterruptReceive(s);
      case NewTask(t) => KeepNewTask(s, t);
    }
  }

  lemma {:induction false} RunKeepsInv(run: seq<State>, steps: seq<Step>, i: nat)
    requires IsRun(run, steps) && i < |run|
    ensures Inv(run[i])
  {
    hide Inv, Next, Enabled, Initial;
    if i == 0 {
      InitialInv(run[0]);
    } else {
      RunKeepsInv(run, steps, i - 1);
      StepKeepsInv(run[i - 1], steps[i - 1]);
    }
  }

  // ---------- What the steps do to the messages ----------

  /** The change in the number of messages that a step makes. */
  function Change(s: State, step: Step): int
    requires Enabled(s, step)
  {
    match step
    case TryNow(t, _) =>
      (match s.pc[t].call
       case Receive => if s.q.messages > 0 then -1 else 0
       case Peek => 0
       case Send => if s.q.messages < s.q.length then 1 else 0
       case Overwrite => if s.q.messages == 0 then 1 else 0)
    case InterruptSend(overwrite) => if overwrite && s.q.messages > 0 then 0 else 1
    case InterruptReceive => -1
    case _ => 0
  }

  lemma StepCounts(s: State, step: Step)
    requires Enabled(s, step)
    ensures Next(s, step).q.messages == s.q.messages + Change(s, step)
    ensures step.NewTask? || Next(s, step).q.tasks == s.q.tasks
    ensures Next(s, step).q.length == s.q.length
  {
    hide WakeReceivers, WakeSenders, SetOf;
    if step.UnlockTxSection? && s.q.txLock > 0 {
      WakeReceiversSpec(s.q, s.q.txLock);
    } else if step.UnlockRxSection? && s.q.rxLock > 0 {
      WakeSendersSpec(s.q, s.q.rxLock);
    }
    NobodyToWake(s.q);
  }

  lemma NobodyToWake(q: Queue)
    ensures q.txLock <= 0 ==> WakeReceivers(q, q.txLock) == q
    ensures q.rxLock <= 0 ==> WakeSenders(q, q.rxLock) == q
  {
  }

  function Total(run: seq<State>, steps: seq<Step>, i: nat): int
    requires |run| == |steps| + 1 && i <= |steps| && forall k :: 0 <= k < |steps| ==> Enabled(run[k], steps[k])
  {
    if i == 0 then 0 else Total(run, steps, i - 1) + Change(run[i - 1], steps[i - 1])
  }

  /** Messages are conserved: in every run there are as many as were posted and not received. */
  lemma {:induction false} MessagesConserved(run: seq<State>, steps: seq<Step>, i: nat)
    requires IsRun(run, steps) && i < |run|
    ensures run[i].q.messages == Total(run, steps, i)
  {
    hide Change, Next, Enabled;
    if i > 0 {
      MessagesConserved(run, steps, i - 1);
      StepCounts(run[i - 1], steps[i - 1]);
    }
  }

  /** Only receives and peeks look at the queue again after a timeout. */
  ghost predicate ReceiversRecheck(s: State) {
    forall t :: t in s.pc && s.pc[t].Recheck? ==> !Sends(s.pc[t].call)
  }

  lemma {:induction false} RecheckInRuns(run: seq<State>, steps: seq<Step>, i: nat)
    requires IsRun(run, steps) && i < |run|
    ensures ReceiversRecheck(run[i])
  {
    if i > 0 {
      RecheckInRuns(run, steps, i - 1);
      RecheckKept(run[i - 1], steps[i - 1]);
    }
  }

  lemma RecheckKept(s: State, step: Step)
    requires Enabled(s, step) && ReceiversRecheck(s)
    ensures ReceiversRecheck(Next(s, step))
  {
    hide WakeReceivers, WakeSenders, UnlockTx, UnlockRx, IsrSend, IsrReceive, Done, Lock;
  }

  /**
   A receive or a peek ends in a state without a message, or in its own first section, which
   found one; a send ends in its own first section, or after its block time has run out.
   */
  lemma HowCallsEnd(run: seq<State>, steps: seq<Step>, i: nat, t: Task)
    requires IsRun(run, steps) && i < |steps| && t in run[i].pc && t in run[i + 1].pc
    requires !run[i].pc[t].Outside? && run[i + 1].pc[t].Outside?
    ensures var pc, step := run[i].pc[t], steps[i];
            if Sends(pc.call) then
              || (step.TryNow? && step.t == t)
              || (step.ResumeAll? && step.t == t && pc.Resuming? && pc.after.TimedOut?)
            else
              run[i].q.messages == 0 || (step.TryNow? && step.t == t)
  {
    RecheckInRuns(run, steps, i);
    assert Enabled(run[i], steps[i]) && run[i + 1] == Next(run[i], steps[i]);
    CallEnds(run[i], steps[i], t);
  }

  lemma CallEnds(s: State, step: Step, t: Task)
    requires Enabled(s, step) && ReceiversRecheck(s) && t in s.pc && !s.pc[t].Outside?
    requires t in Next(s, step).pc && Next(s, step).pc[t].Outside?
    ensures if Sends(s.pc[t].call) then
              || (step.TryNow? && step.t == t)
              || (step.ResumeAll? && step.t == t && s.pc[t].Resuming? && s.pc[t].after.TimedOut?)
            else
              s.q.messages == 0 || (step.TryNow? && step.t == t)
  {
    hide WakeReceivers, WakeSenders, UnlockTx, UnlockRx, IsrSend, IsrReceive, Done, Lock;
  }

  /**
   No lost wake-up.  In every state of every run, while receivers wait, the messages in
   the queue are matched by receivers already woken and by posts the unlocking task still
   has to pass on, unless the count was cut off at the number of tasks.  With the queue
   unlocked only the woken receivers remain in the balance: if none is pending, nobody
   sleeps beside a message.  The same holds for senders and free space.
   */
  lemma NoLostWakeUp(run: seq<State>, steps: seq<Step>, i: nat)
    requires IsRun(run, steps) && i < |run|
    ensures var q := run[i].q;
            && q.messages <= q.length
            && (q.waitR != [] ==> q.messages <= |q.wokenR| + Owed(q.txLock) || q.txLock >= q.tasks)
            && (q.waitS != [] ==> q.length - q.messages <= |q.wokenS| + Owed(q.rxLock) || q.rxLock >= q.tasks)
    ensures var q := run[i].q;
            run[i].holder.None? ==>
              && (q.waitR != [] && q.wokenR == {} ==> q.messages == 0)
              && (q.waitS != [] && q.wokenS == {} ==> q.messages == q.length)
  {
    RunKeepsInv(run, steps, i);
    var s := run[i];
    assert s.q.tasks > s.q.txLock || s.holder.Some?;
  }

  // ---------- The sections as the code runs them ----------

  /** The queue structure: counts, lock counts and event lists, changed in place. */
  class QueueControl {
    const length: nat
    const tasks: nat
    var messages: nat
    var txLock: int
    var rxLock: int
    var waitR: seq<Task>
    var waitS: seq<Task>
    ghost var wokenR: set<Task>
    ghost var wokenS: set<Task>

    ghost function View(): Queue
      reads this
    {
      Queue(messages, length, tasks, txLock, rxLock, waitR, waitS, wokenR, wokenS)
    }

    constructor (length: nat, tasks: nat)
      ensures View() == Queue(0, length, tasks, UNLOCKED, UNLOCKED, [], [], {}, {})
    {
      this.length, this.tasks := length, tasks;
      messages, txLock, rxLock, waitR, waitS := 0, UNLOCKED, UNLOCKED, [], [];
      wokenR, wokenS := {}, {};
    }

    /** xTaskRemoveFromEventList on the receivers' list. */
    method RemoveReceiver()
      requires waitR != []
      modifies this`waitR, this`wokenR
      ensures View() == WakeReceiver(old(View()))
    {
      wokenR := wokenR + {waitR[0]};
      waitR := waitR[1..];
    }

    method RemoveSender()
      requires waitS != []
      modifies this`waitS, this`wokenS
      ensures View() == WakeSender(old(View()))
    {
      wokenS := wokenS + {waitS[0]};
      waitS := waitS[1..];
    }

    /** prvLockQueue. */
    method LockQueue()
      modifies this`txLock, this`rxLock
      ensures View() == Lock(old(View()))
    {
      if rxLock == UNLOCKED {
        rxLock := LOCKED_UNMODIFIED;
      }
      if txLock == UNLOCKED {
        txLock := LOCKED_UNMODIFIED;
      }
    }

    /** The first critical section of prvUnlockQueue. */
    method UnlockTransmit()
      modifies this`txLock, this`waitR, this`wokenR
      ensures View() == UnlockTx(old(View()))
    {
      var count := txLock;
      while count > LOCKED_UNMODIFIED
        invariant txLock == old(txLock)
        invariant WakeReceivers(View(), count) == WakeReceivers(old(View()), old(txLock))
      {
        if waitR == [] {
          break;
        }
        RemoveReceiver();
        count := count - 1;
      }
      txLock := UNLOCKED;
    }

    /** The second critical section of prvUnlockQueue. */
    method UnlockReceive()
      modifies this`rxLock, this`waitS, this`wokenS
      ensures View() == UnlockRx(old(View()))
    {
      var count := rxLock;
      while count > LOCKED_UNMODIFIED
        invariant rxLock == old(rxLock)
        invariant WakeSenders(View(), count) == WakeSenders(old(View()), old(rxLock))
      {
        if waitS == [] {
          break;
        }
        RemoveSender();
        count := count - 1;
      }
      rxLock := UNLOCKED;
    }

    /** xQueueGenericSendFromISR: queued if there is room; a locked queue only counts the post. */
    method SendFromISR(overwrite: bool) returns (sent: bool)
      requires txLock < tasks ==> txLock != 127
      modifies this`messages, this`txLock, this`waitR, this`wokenR
      ensures sent <==> old(HasRoom(View(), overwrite))
      ensures View() == if sent then IsrSend(old(View()), overwrite) else old(View())
    {
      sent := messages < length || overwrite;
      if sent {
        var lock := txLock;
        messages := if overwrite && messages > 0 then messages else messages + 1;
        if lock == UNLOCKED {
          if waitR != [] {
            RemoveReceiver();
          }
        } else if lock < tasks {
          txLock := lock + 1;
        }
      }
    }

    /** xQueueReceiveFromISR. */
    method ReceiveFromISR() returns (received: bool)
      requires rxLock < tasks ==> rxLock != 127
      modifies this`messages, this`rxLock, this`waitS, this`wokenS
      ensures received <==> old(messages) > 0
      ensures View() == if received then IsrReceive(old(View())) else old(View())
    {
      received := messages > 0;
      if received {
        var lock := rxLock;
        messages := messages - 1;
        if lock == UNLOCKED {
          if waitS != [] {
            RemoveSender();
          }
        } else if lock < tasks {
          rxLock := lock + 1;
        }
      }
    }

    /** The critical section that xQueueGenericSend, xQueueReceive and xQueuePeek start with. */
    method Attempt(t: Task, call: Call) returns (done: bool)
      modifies this`messages, this`waitR, this`wokenR, this`waitS, this`wokenS
      ensures done <==> !old(Stuck(View(), call))
      ensures View() == if done then Done(old(View()), t, call)
                        else old(View()).(wokenR := old(wokenR) - {t}, wokenS := old(wokenS) - {t})
    {
      match call {
        case Receive =>
          wokenR := wokenR - {t};
          done := messages > 0;
          if done {
            messages := messages - 1;
            if waitS != [] {
              RemoveSender();
            }
          }
        case Peek =>
          wokenR := wokenR - {t};
          done := messages > 0;
          if done && waitR != [] {
            RemoveReceiver();
          }
        case Send =>
          wokenS := wokenS - {t};
          done := messages < length;
          if done {
            messages := messages + 1;
            if waitR != [] {
              RemoveReceiver();
            }
          }
        case Overwrite =>
          wokenS := wokenS - {t};
          done := true;
          messages := if messages > 0 then messages else 1;
          if waitR != [] {
            RemoveReceiver();
          }
      }
      if !done {
        wokenR, wokenS := wokenR - {t}, wokenS - {t};
      }
    }
  }
}
