/**
 What locking a queue is for (queue.c): interrupts that find it locked leave the event lists
 alone and only count, and the unlock then does what they would have done on an unlocked queue.
 */
module QueueDeferral {
  import opened QueueSync

  /** An interrupt that posts, or one that receives. */
  datatype Interrupt = Post(overwrite: bool) | Receipt

  /** xQueueGenericSendFromISR or xQueueReceiveFromISR, which do nothing on a full or an empty queue. */
  function Interrupted(q: Queue, e: Interrupt): Queue {
    match e
    case Post(overwrite) => if HasRoom(q, overwrite) then IsrSend(q, overwrite) else q
    case Receipt => if q.messages > 0 then IsrReceive(q) else q
  }

  function Interrupts(q: Queue, es: seq<Interrupt>): Queue {
    if es == [] then q else Interrupted(Interrupts(q, es[..|es| - 1]), es[|es| - 1])
  }

  /** The messages left, and how many posts and receipts found something to do. */
  datatype Tally = Tally(messages: nat, posts: nat, receipts: nat)

  function Counted(t: Tally, length: nat, e: Interrupt): Tally {
    match e
    case Post(overwrite) =>
      if !(t.messages < length || overwrite) then t
      else Tally(if overwrite && t.messages > 0 then t.messages else t.messages + 1, t.posts + 1, t.receipts)
    case Receipt => if t.messages == 0 then t else Tally(t.messages - 1, t.posts, t.receipts + 1)
  }

  function TallyOf(messages: nat, length: nat, es: seq<Interrupt>): Tally {
    if es == [] then Tally(messages, 0, 0)
    else Counted(TallyOf(messages, length, es[..|es| - 1]), length, es[|es| - 1])
  }

  /** On a locked queue the event lists stand, and the locks count up to the number of tasks. */
  lemma {:induction false} WhileLocked(q: Queue, es: seq<Interrupt>)
    requires q.txLock == q.rxLock == UNLOCKED
    ensures var t := TallyOf(q.messages, q.length, es);
            Interrupts(Lock(q), es) == q.(messages := t.messages, txLock := Min(t.posts, q.tasks),
                rxLock := Min(t.receipts, q.tasks))
  {
    if es != [] {
      WhileLocked(q, es[..|es| - 1]);
    }
  }

  /** The queue with the first `posts` receivers and the first `receipts` senders woken. */
  function Woken(q: Queue, t: Tally): Queue {
    var r, s := Min(t.posts, |q.waitR|), Min(t.receipts, |q.waitS|);
    q.(messages := t.messages, waitR := q.waitR[r..], wokenR := q.wokenR + SetOf(q.waitR[..r]),
       waitS := q.waitS[s..], wokenS := q.wokenS + SetOf(q.waitS[..s]))
  }

  lemma {:induction false} SetOfOneMore(s: seq<Task>, k: nat)
    requires k < |s|
    ensures SetOf(s[..k + 1]) == SetOf(s[..k]) + {s[k]}
  {
    if k == 0 {
      assert s[..1] == [s[0]] && s[..0] == [] && [s[0]][1..] == [];
    } else {
      SetOfOneMore(s[1..], k - 1);
      assert s[..k + 1][1..] == s[1..][..k] && s[..k][1..] == s[1..][..k - 1];
    }
  }

  lemma OneMoreReceiver(q: Queue, t: Tally, messages: nat)
    requires q.txLock == UNLOCKED
    ensures WakeReceiver(Woken(q, t).(messages := messages)) == Woken(q, Tally(messages, t.posts + 1, t.receipts))
  {
    hide SetOf;
    if t.posts < |q.waitR| {
      SetOfOneMore(q.waitR, t.posts);
    }
  }

  lemma OneMoreSender(q: Queue, t: Tally, messages: nat)
    ensures WakeSender(Woken(q, t).(messages := messages)) == Woken(q, Tally(messages, t.posts, t.receipts + 1))
  {
    hide SetOf;
    if t.receipts < |q.waitS| {
      SetOfOneMore(q.waitS, t.receipts);
    }
  }

  /** On an unlocked queue every post wakes a receiver at once, and every receipt a sender. */
  lemma {:induction false} WhileUnlocked(q: Queue, es: seq<Interrupt>)
    requires q.txLock == q.rxLock == UNLOCKED
    ensures Interrupts(q, es) == Woken(q, TallyOf(q.messages, q.length, es))
  {
    hide Woken;
    if es == [] {
      NobodyWoken(q);
    } else {
      var before := es[..|es| - 1];
      var t := TallyOf(q.messages, q.length, before);
      WhileUnlocked(q, before);
      WokenKeeps(q, t);
      OneMoreReceiver(q, t, Posted(Woken(q, t), es[|es| - 1].Post? && es[|es| - 1].overwrite).messages);
      if t.messages > 0 {
        OneMoreSender(q, t, t.messages - 1);
      }
    }
  }

  lemma NobodyWoken(q: Queue)
    ensures Woken(q, Tally(q.messages, 0, 0)) == q
  {
    assert q.waitR[..0] == [] && q.waitS[..0] == [];
  }

  lemma WokenKeeps(q: Queue, t: Tally)
    ensures var w := Woken(q, t);
            w.messages == t.messages && w.length == q.length && w.txLock == q.txLock && w.rxLock == q.rxLock
  {
  }

  /**
   Locking makes no difference in the end: once it is unlocked, a queue is as if every
   interrupt had found it unlocked.  The cap on the lock counts does no harm, as no event
   list is longer than the number of tasks.
   */
  lemma DeferredIsDirect(q: Queue, es: seq<Interrupt>)
    requires q.txLock == q.rxLock == UNLOCKED && |q.waitR| <= q.tasks && |q.waitS| <= q.tasks
    ensures UnlockRx(UnlockTx(Interrupts(Lock(q), es))) == Interrupts(q, es)
  {
    hide SetOf, Interrupts, TallyOf, WakeReceivers, WakeSenders;
    var t, locked := TallyOf(q.messages, q.length, es), Interrupts(Lock(q), es);
    WhileLocked(q, es);
    WhileUnlocked(q, es);
    WakeReceiversSpec(locked, locked.txLock);
    var half := UnlockTx(locked);
    WakeSendersSpec(half, half.rxLock);
  }

  /** So it is whenever a task is about to lock the queue in any run of the protocol. */
  lemma DeferredInRuns(run: seq<State>, steps: seq<Step>, i: nat, es: seq<Interrupt>)
    requires IsRun(run, steps) && i < |run| && run[i].holder.None?
    ensures var q := run[i].q; UnlockRx(UnlockTx(Interrupts(Lock(q), es))) == Interrupts(q, es)
  {
    hide Inv, IsRun, Interrupts, Lock, UnlockTx, UnlockRx;
    RunKeepsInv(run, steps, i);
    ListsFit(run[i]);
    DeferredIsDirect(run[i].q, es);
  }

  lemma ListsFit(s: State)
    requires Inv(s) && s.holder.None?
    ensures s.q.txLock == s.q.rxLock == UNLOCKED && |s.q.waitR| <= s.q.tasks && |s.q.waitS| <= s.q.tasks
  {
    ListFits(s.q.waitR, s.pc);
    ListFits(s.q.waitS, s.pc);
  }
}
