/** The calls of an event group (event_groups.c) as they run, up to where they block and from there on. */
module EventGroup {
  import opened EventBits

  /** One turn of the walk in xEventGroupSetBits, in the terms of its functions. */
  lemma WalkStep(list: seq<Waiter>, k: nat, current: Bits, released: map<Task, Release>)
    requires k < |list|
    ensures var w, met := list[k], MetBy(list[k], current);
            && Unmet(list[k..], current) == (if met then [] else [w]) + Unmet(list[k + 1..], current)
            && ToClear(list[k..], current) == (if met && w.clear then w.bits else {}) + ToClear(list[k + 1..], current)
            && ReleaseMet(released, list[k..], current)
               == ReleaseMet(if met then released[w.task := Release(w, current)] else released, list[k + 1..], current)
  {
    hide MetBy;
    assert list[k..][1..] == list[k + 1..];
  }

  lemma NothingLeft(list: seq<Waiter>, current: Bits, released: map<Task, Release>)
    requires list == []
    ensures Unmet(list, current) == [] && ToClear(list, current) == {}
            && ReleaseMet(released, list, current) == released
  {
  }

  lemma TakeOut<T>(list: seq<T>, i: nat)
    requires i < |list|
    ensures (list[..i] + list[i + 1..])[..i] == list[..i] && (list[..i] + list[i + 1..])[i..] == list[i + 1..]
    ensures list[..i + 1] == list[..i] + [list[i]] && list[i..][1..] == list[i + 1..]
  {
  }

  class EventGroup {
    var uxEventBits: Bits
    var tasksWaitingForBits: seq<Waiter>
    var unblocked: map<Task, Release>

    ghost function View(): Group
      reads this
    {
      Group(uxEventBits, tasksWaitingForBits, unblocked)
    }

    /** xEventGroupCreate. */
    constructor ()
      ensures View() == Group({}, [], map[])
    {
      uxEventBits, tasksWaitingForBits, unblocked := {}, [], map[];
    }

    /** prvTestWaitCondition. */
    static method TestWaitCondition(current: Bits, bits: Bits, all: bool) returns (met: bool)
      ensures met <==> Met(current, bits, all)
    {
      met := false;
      if !all {
        if current * bits != {} {
          met := true;
        }
      } else if current * bits == bits {
        met := true;
      }
    }

    /** xEventGroupSetBits: the walk over the list, taking out the tasks whose bits match. */
    method SetBits(bits: Bits) returns (r: Bits)
      modifies this
      ensures View() == EventBits.SetBits(old(View()), bits) && r == uxEventBits
    {
      hide Unmet, ToClear, ReleaseMet;
      ghost var list := tasksWaitingForBits;
      uxEventBits := uxEventBits + bits;
      var toClear: Bits, i, k := {}, 0, 0;
      assert list[0..] == list;
      while i < |tasksWaitingForBits|
        invariant 0 <= i <= |tasksWaitingForBits| && 0 <= k <= |list| && tasksWaitingForBits[i..] == list[k..]
        invariant uxEventBits == old(uxEventBits) + bits
        invariant Unmet(list, uxEventBits) == tasksWaitingForBits[..i] + Unmet(list[k..], uxEventBits)
        invariant ToClear(list, uxEventBits) == toClear + ToClear(list[k..], uxEventBits)
        invariant ReleaseMet(old(unblocked), list, uxEventBits) == ReleaseMet(unblocked, list[k..], uxEventBits)
        decreases |list| - k
      {
        var w := tasksWaitingForBits[i];
        assert w == list[k..][0] == list[k];
        WalkStep(list, k, uxEventBits, unblocked);
        TakeOut(tasksWaitingForBits, i);
        TakeOut(list, k);
        ghost var kept, rest := tasksWaitingForBits[..i], Unmet(list[k + 1..], uxEventBits);
        assert kept + ([w] + rest) == (kept + [w]) + rest && kept + ([] + rest) == kept + rest;
        var matchFound := TestWaitCondition(uxEventBits, w.bits, w.all);
        if matchFound {
          if w.clear {
            toClear := toClear + w.bits;
          }
          unblocked := unblocked[w.task := Release(w, uxEventBits)];
          tasksWaitingForBits := tasksWaitingForBits[..i] + tasksWaitingForBits[i + 1..];
        } else {
          i := i + 1;
        }
        k := k + 1;
      }
      NothingLeft(list[k..], uxEventBits, unblocked);
      assert tasksWaitingForBits[..i] + [] == tasksWaitingForBits;
      uxEventBits := uxEventBits - toClear;
      r := uxEventBits;
    }

    /** xEventGroupClearBits. */
    method ClearBits(bits: Bits) returns (r: Bits)
      modifies this`uxEventBits
      ensures View() == EventBits.ClearBits(old(View()), bits) && r == old(uxEventBits)
    {
      r := uxEventBits;
      uxEventBits := uxEventBits - bits;
    }

    /** xEventGroupWaitBits, up to where the task blocks. */
    method WaitBits(w: Waiter, block: bool) returns (outcome: Outcome)
      modifies this`uxEventBits, this`tasksWaitingForBits
      ensures (View(), outcome) == EventBits.WaitBits(old(View()), w, block)
    {
      var current := uxEventBits;
      var conditionMet := TestWaitCondition(current, w.bits, w.all);
      if conditionMet {
        outcome := Returned(current);
        if w.clear {
          uxEventBits := uxEventBits - w.bits;
        }
      } else if !block {
        outcome := TimedOut(current);
      } else {
        tasksWaitingForBits := tasksWaitingForBits + [w];
        outcome := Blocked;
      }
    }

    /** xEventGroupSync, up to where the task blocks. */
    method Sync(task: Task, bitsToSet: Bits, bits: Bits, block: bool) returns (outcome: Outcome)
      modifies this
      ensures (View(), outcome) == EventBits.Sync(old(View()), task, bitsToSet, bits, block)
    {
      hide EventBits.SetBits;
      var original := uxEventBits;
      var _ := SetBits(bitsToSet);
      if (original + bitsToSet) * bits == bits {
        outcome := Returned(original + bitsToSet);
        uxEventBits := uxEventBits - bits;
      } else if block {
        tasksWaitingForBits := tasksWaitingForBits + [Waiter(task, bits, true, true)];
        outcome := Blocked;
      } else {
        outcome := TimedOut(uxEventBits);
      }
    }

    /** The end of either call in a released task: uxTaskResetEventItemValue gives the bits stored at the match. */
    method ResumeReleased(task: Task) returns (r: Bits)
      requires task in unblocked
      modifies this`unblocked
      ensures (View(), r) == Resume(old(View()), task)
    {
      r := unblocked[task].value;
      unblocked := unblocked - {task};
    }

    /** The end of either call in a task whose block time ran out. */
    method ResumeExpired(w: Waiter) returns (r: Bits)
      modifies this`uxEventBits
      ensures (View(), r) == EventBits.ResumeExpired(old(View()), w)
    {
      r := uxEventBits;
      var conditionMet := TestWaitCondition(r, w.bits, w.all);
      if conditionMet && w.clear {
        uxEventBits := uxEventBits - w.bits;
      }
    }
  }
}
