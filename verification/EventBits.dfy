/**
 Event groups (event_groups.c) as functions: a set of event bits, the tasks waiting for
 bits in list order, and the tasks released but not yet running again.
 */
module EventBits {

  /** The positions of the bits that are one. */
  type Bits = set<nat>
  type Task = nat

  /** A task on the waiting list: the bits in its event list item, and the two control bits stored with them. */
  datatype Waiter = Waiter(task: Task, bits: Bits, all: bool, clear: bool)

  /** A released task: what it waited for, and the bits stored for it when they matched. */
  datatype Release = Release(waiter: Waiter, value: Bits)

  datatype Group = Group(bits: Bits, waiting: seq<Waiter>, released: map<Task, Release>)

  /** The condition of prvTestWaitCondition. */
  predicate Met(current: Bits, bits: Bits, all: bool) {
    if all then bits <= current else current * bits != {}
  }

  predicate MetBy(w: Waiter, current: Bits) {
    Met(current, w.bits, w.all)
  }

  // ---------- Setting bits ----------

  /** The waiters that stay, in their order. */
  function Unmet(ws: seq<Waiter>, current: Bits): seq<Waiter> {
    if ws == [] then []
    else (if MetBy(ws[0], current) then [] else [ws[0]]) + Unmet(ws[1..], current)
  }

  /** The bits that released waiters want cleared. */
  function ToClear(ws: seq<Waiter>, current: Bits): Bits {
    if ws == [] then {}
    else (if MetBy(ws[0], current) && ws[0].clear then ws[0].bits else {}) + ToClear(ws[1..], current)
  }

  function ReleaseMet(released: map<Task, Release>, ws: seq<Waiter>, current: Bits): map<Task, Release>
    decreases ws
  {
    if ws == [] then released
    else
      var r := if MetBy(ws[0], current) then released[ws[0].task := Release(ws[0], current)] else released;
      ReleaseMet(r, ws[1..], current)
  }

  /** xEventGroupSetBits: all waiters are tested against the same bits, and clearing comes last. */
  function SetBits(g: Group, bits: Bits): Group {
    var current := g.bits + bits;
    Group(current - ToClear(g.waiting, current), Unmet(g.waiting, current), ReleaseMet(g.released, g.waiting, current))
  }

  lemma {:induction false} UnmetMembers(ws: seq<Waiter>, current: Bits, w: Waiter)
    ensures w in Unmet(ws, current) <==> w in ws && !MetBy(w, current)
  {
    hide MetBy;
    if ws != [] {
      UnmetMembers(ws[1..], current, w);
    }
  }

  lemma {:induction false} ToClearMembers(ws: seq<Waiter>, current: Bits, b: nat)
    ensures b in ToClear(ws, current) <==> exists w :: w in ws && MetBy(w, current) && w.clear && b in w.bits
  {
    hide MetBy;
    if ws != [] {
      ToClearMembers(ws[1..], current, b);
      if b in ToClear(ws[1..], current) {
        var w :| w in ws[1..] && MetBy(w, current) && w.clear && b in w.bits;
        assert w in ws;
      }
      if exists w :: w in ws && MetBy(w, current) && w.clear && b in w.bits {
        var w :| w in ws && MetBy(w, current) && w.clear && b in w.bits;
        assert w == ws[0] || w in ws[1..];
      }
    }
  }

  /** No task is on the list twice, or on the list and released. */
  ghost predicate TasksDistinct(ws: seq<Waiter>, released: map<Task, Release>) {
    Distinct(ws) && forall w :: w in ws ==> w.task !in released
  }

  ghost predicate Distinct(ws: seq<Waiter>) {
    forall i, j :: 0 <= i < j < |ws| ==> ws[i].task != ws[j].task
  }

  lemma {:induction false} ReleasedMembers(released: map<Task, Release>, ws: seq<Waiter>, current: Bits, t: Task)
    requires TasksDistinct(ws, released)
    decreases ws
    ensures var r := ReleaseMet(released, ws, current);
            && (t in r <==> t in released || exists w :: w in ws && MetBy(w, current) && w.task == t)
            && (t in released ==> r[t] == released[t])
            && (t in r && t !in released ==>
                  && r[t].waiter in ws && r[t].waiter.task == t
                  && MetBy(r[t].waiter, current) && r[t].value == current)
  {
    hide MetBy;
    if ws != [] {
      var r := if MetBy(ws[0], current) then released[ws[0].task := Release(ws[0], current)] else released;
      assert TasksDistinct(ws[1..], r) by {
        forall w | w in ws[1..] ensures w.task !in r {
          var i :| 0 <= i < |ws| - 1 && w == ws[1..][i];
          assert w == ws[i + 1] && w in ws;
        }
      }
      ReleasedMembers(r, ws[1..], current, t);
      assert forall w :: w in ws <==> w == ws[0] || w in ws[1..];
    }
  }

  lemma {:induction false} UnmetDistinct(ws: seq<Waiter>, current: Bits)
    requires Distinct(ws)
    ensures Distinct(Unmet(ws, current))
  {
    hide MetBy;
    if ws != [] {
      UnmetDistinct(ws[1..], current);
      var rest := Unmet(ws[1..], current);
      forall k | 0 <= k < |rest| ensures rest[k].task != ws[0].task {
        UnmetMembers(ws[1..], current, rest[k]);
        var j :| 0 <= j < |ws| - 1 && ws[1..][j] == rest[k];
        assert ws[j + 1].task != ws[0].task;
      }
    }
  }

  // ---------- What holds after bits are set ----------

  /** No task on the list has what it waits for. */
  ghost predicate NoneSatisfied(g: Group) {
    forall w :: w in g.waiting ==> !MetBy(w, g.bits)
  }

  /** A condition that does not hold cannot come to hold by clearing bits. */
  lemma MetMonotone(bits: Bits, all: bool, current: Bits, fewer: Bits)
    requires fewer <= current && Met(fewer, bits, all)
    ensures Met(current, bits, all)
  {
    if !all {
      var b :| b in fewer * bits;
      assert b in current * bits;
    }
  }

  /** xEventGroupSetBits leaves nobody waiting who could go on, for all it clears at the end. */
  lemma SetBitsLeavesNone(g: Group, bits: Bits)
    ensures NoneSatisfied(SetBits(g, bits))
  {
    hide MetBy, Unmet, ToClear, ReleaseMet;
    var current := g.bits + bits;
    var g' := SetBits(g, bits);
    forall w | w in g'.waiting ensures !MetBy(w, g'.bits) {
      UnmetMembers(g.waiting, current, w);
      StillUnmet(w, current, g'.bits);
    }
  }

  lemma StillUnmet(w: Waiter, current: Bits, fewer: Bits)
    requires fewer <= current && !MetBy(w, current)
    ensures !MetBy(w, fewer)
  {
    if Met(fewer, w.bits, w.all) {
      MetMonotone(w.bits, w.all, current, fewer);
    }
  }

  lemma {:induction false} UnmetCount(ws: seq<Waiter>, current: Bits, w: Waiter)
    ensures multiset(Unmet(ws, current))[w] == if MetBy(w, current) then 0 else multiset(ws)[w]
  {
    hide MetBy;
    if ws != [] {
      UnmetCount(ws[1..], current, w);
      assert ws == [ws[0]] + ws[1..];
    }
  }

  /**
   The order of the list does not matter to xEventGroupSetBits: the same tasks are released
   with the same values, the same tasks keep waiting, and the bits end up the same.
   */
  lemma OrderIrrelevant(g: Group, h: Group, bits: Bits)
    requires g.bits == h.bits && g.released == h.released && multiset(g.waiting) == multiset(h.waiting)
    requires TasksDistinct(g.waiting, g.released) && TasksDistinct(h.waiting, h.released)
    ensures var g', h' := SetBits(g, bits), SetBits(h, bits);
            g'.bits == h'.bits && g'.released == h'.released && multiset(g'.waiting) == multiset(h'.waiting)
  {
    hide MetBy, Unmet, ToClear, ReleaseMet;
    var current := g.bits + bits;
    assert forall w :: w in g.waiting <==> w in multiset(g.waiting);
    assert forall w :: w in h.waiting <==> w in multiset(h.waiting);
    forall b: nat ensures b in ToClear(g.waiting, current) <==> b in ToClear(h.waiting, current) {
      ToClearMembers(g.waiting, current, b);
      ToClearMembers(h.waiting, current, b);
    }
    forall w: Waiter ensures multiset(Unmet(g.waiting, current))[w] == multiset(Unmet(h.waiting, current))[w] {
      UnmetCount(g.waiting, current, w);
      UnmetCount(h.waiting, current, w);
    }
    var r, r' := ReleaseMet(g.released, g.waiting, current), ReleaseMet(h.released, h.waiting, current);
    forall t: Task ensures (t in r <==> t in r') && (t in r ==> r[t] == r'[t]) {
      ReleasedMembers(g.released, g.waiting, current, t);
      ReleasedMembers(h.released, h.waiting, current, t);
      if t in r && t in r' && t !in g.released {
        SameTask(g.waiting, g.released, r[t].waiter, r'[t].waiter);
      }
    }
    assert ToClear(g.waiting, current) == ToClear(h.waiting, current);
    assert r == r';
  }

  lemma SameTask(ws: seq<Waiter>, released: map<Task, Release>, v: Waiter, w: Waiter)
    requires TasksDistinct(ws, released) && v in ws && w in ws && v.task == w.task
    ensures v == w
  {
    var i :| 0 <= i < |ws| && ws[i] == v;
    var j :| 0 <= j < |ws| && ws[j] == w;
    assert i == j;
  }

  // ---------- The other operations ----------

  /** What a call that may block has come to when the scheduler runs again. */
  datatype Outcome = Returned(value: Bits) | TimedOut(value: Bits) | Blocked

  /** xEventGroupClearBits. */
  function ClearBits(g: Group, bits: Bits): Group {
    g.(bits := g.bits - bits)
  }

  /** vTaskPlaceOnUnorderedEventList: at the end of the list. */
  function Place(g: Group, w: Waiter): Group {
    g.(waiting := g.waiting + [w])
  }

  /** xEventGroupWaitBits up to where it blocks; `block` says that a block time was given. */
  function WaitBits(g: Group, w: Waiter, block: bool): (Group, Outcome) {
    if MetBy(w, g.bits) then (if w.clear then ClearBits(g, w.bits) else g, Returned(g.bits))
    else if !block then (g, TimedOut(g.bits))
    else (Place(g, w), Blocked)
  }

  /** xEventGroupSync up to where it blocks. */
  function Sync(g: Group, task: Task, set': Bits, bits: Bits, block: bool): (Group, Outcome) {
    var after := SetBits(g, set');
    if bits <= g.bits + set' then (ClearBits(after, bits), Returned(g.bits + set'))
    else if block then (Place(after, Waiter(task, bits, true, true)), Blocked)
    else (after, TimedOut(after.bits))
  }

  /** The block time of a waiting task runs out, and the kernel takes it off the list. */
  function Expire(g: Group, i: nat): Group
    requires i < |g.waiting|
  {
    g.(waiting := g.waiting[..i] + g.waiting[i + 1..])
  }

  /** The others stay, and none of them is the same task. */
  lemma ExpireMembers(ws: seq<Waiter>, i: nat)
    requires Distinct(ws) && i < |ws|
    ensures var rest := ws[..i] + ws[i + 1..];
            Distinct(rest) && forall w :: w in rest <==> w in ws && w.task != ws[i].task
  {
    var rest := ws[..i] + ws[i + 1..];
    assert forall j :: 0 <= j < |rest| ==> rest[j] == ws[if j < i then j else j + 1];
    forall w | w in ws && w.task != ws[i].task ensures w in rest {
      var j :| 0 <= j < |ws| && ws[j] == w;
      assert rest[if j < i then j else j - 1] == w;
    }
    forall w | w in rest ensures w in ws && w.task != ws[i].task {
      var j :| 0 <= j < |rest| && rest[j] == w;
      assert ws[if j < i then j else j + 1] == w;
    }
  }

  /** The end of either call in a task that was released. */
  function Resume(g: Group, t: Task): (Group, Bits)
    requires t in g.released
  {
    (g.(released := g.released - {t}), g.released[t].value)
  }

  /** The end of either call in a task whose block time ran out: the bits may have come in the meantime. */
  function ResumeExpired(g: Group, w: Waiter): (Group, Bits) {
    (if MetBy(w, g.bits) && w.clear then ClearBits(g, w.bits) else g, g.bits)
  }

  lemma ClearKeepsNone(g: Group, bits: Bits)
    requires NoneSatisfied(g)
    ensures NoneSatisfied(ClearBits(g, bits))
  {
    hide MetBy;
    forall w | w in g.waiting ensures !MetBy(w, g.bits - bits) {
      StillUnmet(w, g.bits, g.bits - bits);
    }
  }

  lemma PlaceKeepsNone(g: Group, w: Waiter)
    requires NoneSatisfied(g) && !MetBy(w, g.bits)
    ensures NoneSatisfied(Place(g, w))
  {
  }

  /** A task that xEventGroupSync puts on the list could not go on: setting bits may clear some, but adds no others. */
  lemma SyncKeepsNone(g: Group, task: Task, set': Bits, bits: Bits, block: bool)
    ensures NoneSatisfied(Sync(g, task, set', bits, block).0)
  {
    hide SetBits, NoneSatisfied;
    SetBitsLeavesNone(g, set');
    var after := SetBits(g, set');
    SetBitsAddsNone(g, set');
    ClearKeepsNone(after, bits);
    if !(bits <= g.bits + set') {
      PlaceKeepsNone(after, Waiter(task, bits, true, true));
    }
  }

  lemma SetBitsAddsNone(g: Group, bits: Bits)
    ensures SetBits(g, bits).bits <= g.bits + bits
  {
  }

  lemma WaitKeepsNone(g: Group, w: Waiter, block: bool)
    requires NoneSatisfied(g)
    ensures NoneSatisfied(WaitBits(g, w, block).0)
  {
    ClearKeepsNone(g, w.bits);
  }

  // ---------- What the operations do to each bit ----------

  /** Wait-any and wait-all. */
  lemma MetMeaning(current: Bits, bits: Bits)
    ensures Met(current, bits, true) <==> forall b :: b in bits ==> b in current
    ensures Met(current, bits, false) <==> exists b :: b in bits && b in current
  {
    if b :| b in current * bits {
      assert b in bits && b in current;
    }
    if b :| b in bits && b in current {
      assert b in current * bits;
    }
  }

  /** Setting bits adds them, and clears exactly what released waiters asked for. */
  lemma BitsAfterSet(g: Group, bits: Bits, b: nat)
    ensures b in SetBits(g, bits).bits <==>
              (b in g.bits || b in bits)
              && !exists w :: w in g.waiting && Met(g.bits + bits, w.bits, w.all) && w.clear && b in w.bits
  {
    hide ToClear, Unmet, ReleaseMet, Met;
    ToClearMembers(g.waiting, g.bits + bits, b);
    if w :| w in g.waiting && Met(g.bits + bits, w.bits, w.all) && w.clear && b in w.bits {
      assert MetBy(w, g.bits + bits);
    }
  }

  /** A wait that finds its condition takes its own bits away if it is to clear, and otherwise none. */
  lemma BitsAfterWait(g: Group, w: Waiter, block: bool, b: nat)
    ensures var (g', outcome) := WaitBits(g, w, block);
            && (b in g'.bits <==> b in g.bits && !(Met(g.bits, w.bits, w.all) && w.clear && b in w.bits))
            && (outcome.Returned? <==> Met(g.bits, w.bits, w.all))
            && (outcome.Blocked? <==> !Met(g.bits, w.bits, w.all) && block)
            && (!outcome.Blocked? ==> outcome.value == g.bits && g'.waiting == g.waiting)
            && (outcome.Blocked? ==> g'.waiting == g.waiting + [w])
            && g'.released == g.released
  {
    hide Met;
  }

  /** So does a wait that timed out and finds its condition after all. */
  lemma BitsAfterExpired(g: Group, w: Waiter, b: nat)
    ensures var (g', value) := ResumeExpired(g, w);
            && (b in g'.bits <==> b in g.bits && !(Met(g.bits, w.bits, w.all) && w.clear && b in w.bits))
            && value == g.bits && g'.waiting == g.waiting && g'.released == g.released
  {
    hide Met;
  }

  /** A rendezvous that is complete returns with all its bits cleared; else the bits are as after setting. */
  lemma BitsAfterSync(g: Group, task: Task, set': Bits, bits: Bits, block: bool, b: nat)
    ensures var (g', outcome) := Sync(g, task, set', bits, block);
            && (outcome.Returned? <==> bits <= g.bits + set')
            && (outcome.Blocked? <==> !(bits <= g.bits + set') && block)
            && (b in g'.bits <==> b in SetBits(g, set').bits && !(outcome.Returned? && b in bits))
            && (outcome.Returned? ==> outcome.value == g.bits + set')
            && (outcome.TimedOut? ==> outcome.value == g'.bits)
            && (outcome.Blocked? ==> g'.waiting == SetBits(g, set').waiting + [Waiter(task, bits, true, true)])
  {
    hide SetBits;
  }
}
