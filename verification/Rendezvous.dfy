/**
 xEventGroupSync as a barrier (event_groups.c): a fixed set of tasks meets over and over,
 each setting its own bit and waiting for all of them without a time limit, while other
 tasks use other bits of the same group.
 */
module Rendezvous {
  import opened EventBits

  /**
   `own[t]` is the bit of task t.  `arrived[t]` and `left[t]` count the rounds task t has
   entered and left, `round` those in which everybody has arrived.  `expired` are the other
   tasks whose block time ran out and which have not run since.
   */
  datatype State = State(own: seq<nat>, group: Group, expired: map<Task, Waiter>,
                         arrived: seq<nat>, left: seq<nat>, round: nat)

  datatype Step =
    | Arrive(t: Task)
    | Leave(t: Task)
    | OtherSet(bits: Bits)
    | OtherClear(bits: Bits)
    | OtherWait(w: Waiter, block: bool)
    | OtherSync(t: Task, set': Bits, bits: Bits, block: bool)
    | OtherLeave(t: Task)
    | RunOut(i: nat)
    | GoOnExpired(t: Task)

  function All(own: seq<nat>): Bits {
    set b | b in own
  }

  /** What xEventGroupSync stores for a task of the barrier. */
  function Partner(own: seq<nat>, t: Task): Waiter {
    Waiter(t, All(own), true, true)
  }

  predicate Running(g: Group, t: Task) {
    (forall w :: w in g.waiting ==> w.task != t) && t !in g.released
  }

  /** A task outside the barrier can call only while it is running. */
  predicate OtherCalls(s: State, t: Task) {
    t >= |s.own| && Running(s.group, t) && t !in s.expired
  }

  predicate Enabled(s: State, step: Step) {
    match step
    case Arrive(t) => t < |s.own| && Running(s.group, t)
    case Leave(t) => t < |s.own| && t in s.group.released
    case OtherSet(bits) => bits !! All(s.own)
    case OtherClear(bits) => bits !! All(s.own)
    case OtherWait(w, _) => OtherCalls(s, w.task) && w.bits !! All(s.own)
    case OtherSync(t, set', bits, _) => OtherCalls(s, t) && set' !! All(s.own) && bits !! All(s.own)
    case OtherLeave(t) => t >= |s.own| && t in s.group.released
    case RunOut(i) => i < |s.group.waiting| && s.group.waiting[i].task >= |s.own|
    case GoOnExpired(t) => t in s.expired
  }

  function Next(s: State, step: Step): State
    requires Enabled(s, step) && |s.arrived| == |s.left| == |s.own|
  {
    match step
    case Arrive(t) =>
      var (g, outcome) := Sync(s.group, t, {s.own[t]}, All(s.own), true);
      var s' := s.(group := g, arrived := s.arrived[t := s.arrived[t] + 1]);
      if outcome.Returned? then s'.(left := s.left[t := s.left[t] + 1], round := s.round + 1) else s'
    case Leave(t) => s.(group := Resume(s.group, t).0, left := s.left[t := s.left[t] + 1])
    case OtherSet(bits) => s.(group := SetBits(s.group, bits))
    case OtherClear(bits) => s.(group := ClearBits(s.group, bits))
    case OtherWait(w, block) => s.(group := WaitBits(s.group, w, block).0)
    case OtherSync(t, set', bits, block) => s.(group := Sync(s.group, t, set', bits, block).0)
    case OtherLeave(t) => s.(group := Resume(s.group, t).0)
    case RunOut(i) =>
      var w := s.group.waiting[i];
      s.(group := Expire(s.group, i), expired := s.expired[w.task := w])
    case GoOnExpired(t) => s.(group := ResumeExpired(s.group, s.expired[t]).0, expired := s.expired - {t})
  }

  // ---------- The invariant ----------

  /** The list holds partners of the barrier and tasks that wait for other bits. */
  ghost predicate ListOk(own: seq<nat>, g: Group) {
    && TasksDistinct(g.waiting, g.released)
    && forall w :: w in g.waiting ==> if w.task < |own| then w == Partner(own, w.task) else w.bits !! All(own)
  }

  /** Task t stands in round `round`: not there yet, waiting in it, or released from the one before. */
  ghost predicate TaskOk(s: State, t: Task)
    requires t < |s.own| == |s.arrived| == |s.left|
  {
    && (s.arrived[t] == s.round || s.arrived[t] == s.round + 1)
    && (s.arrived[t] == s.round + 1 <==> Partner(s.own, t) in s.group.waiting)
    && (s.arrived[t] == s.round + 1 <==> s.own[t] in s.group.bits)
    && s.left[t] == (if t in s.group.released then s.round - 1 else s.round)
    && (t in s.group.released ==> All(s.own) <= s.group.released[t].value)
  }

  ghost predicate Inv(s: State) {
    && |s.arrived| == |s.left| == |s.own|
    && (forall i, j :: 0 <= i < j < |s.own| ==> s.own[i] != s.own[j])
    && ListOk(s.own, s.group)
    && (forall t: nat :: t < |s.own| ==> TaskOk(s, t))
    && (exists u: nat :: u < |s.own| && s.arrived[u] == s.round)
    && (forall t :: t in s.expired ==> s.expired[t].bits !! All(s.own))
  }

  ghost function Initial(own: seq<nat>): (s: State)
    requires own != [] && forall i, j :: 0 <= i < j < |own| ==> own[i] != own[j]
    ensures Inv(s)
  {
    var s := State(own, Group({}, [], map[]), map[], seq(|own|, _ => 0), seq(|own|, _ => 0), 0);
    assert s.arrived[0] == s.round;
    s
  }

  // ---------- Setting bits while somebody is missing ----------

  /** What a call of xEventGroupSetBits that does not complete the round leaves as it was. */
  ghost predicate Undisturbed(own: seq<nat>, g: Group, g': Group, set': Bits) {
    && ListOk(own, g')
    && (forall t: nat :: t < |own| ==> (Partner(own, t) in g'.waiting <==> Partner(own, t) in g.waiting))
    && (forall t: nat :: t < |own| ==> (t in g'.released <==> t in g.released))
    && (forall t: nat :: t < |own| && t in g.released ==> g'.released[t] == g.released[t])
    && (forall b :: b in All(own) ==> (b in g'.bits <==> b in g.bits + set'))
  }

  lemma SomebodyMissing(own: seq<nat>, g: Group, set': Bits, u: nat)
    requires ListOk(own, g) && u < |own| && own[u] !in g.bits + set'
    ensures Undisturbed(own, g, SetBits(g, set'), set')
  {
    hide Unmet, ToClear, ReleaseMet;
    var current, g' := g.bits + set', SetBits(g, set');
    forall t: nat | t < |own| ensures !MetBy(Partner(own, t), current) {
      assert own[u] in All(own);
    }
    StillListed(own, g, set');
    forall t: nat | t < |own| ensures Partner(own, t) in g'.waiting <==> Partner(own, t) in g.waiting {
      UnmetMembers(g.waiting, current, Partner(own, t));
    }
    forall t: nat | t < |own|
      ensures (t in g'.released <==> t in g.released) && (t in g.released ==> g'.released[t] == g.released[t])
    {
      ReleasedMembers(g.released, g.waiting, current, t);
    }
    forall b | b in All(own) ensures b in g'.bits <==> b in current {
      ToClearMembers(g.waiting, current, b);
    }
  }

  lemma StillListed(own: seq<nat>, g: Group, set': Bits)
    requires ListOk(own, g)
    ensures ListOk(own, SetBits(g, set'))
  {
    hide Unmet, ToClear, ReleaseMet, MetBy, All, Distinct;
    var current, g' := g.bits + set', SetBits(g, set');
    UnmetDistinct(g.waiting, current);
    forall w | w in g'.waiting ensures w in g.waiting && w.task !in g'.released {
      UnmetMembers(g.waiting, current, w);
      ReleasedMembers(g.released, g.waiting, current, w.task);
      if v :| v in g.waiting && MetBy(v, current) && v.task == w.task {
        SameTask(g.waiting, g.released, v, w);
      }
    }
  }

  // ---------- The steps ----------

  /** Nothing that matters to the barrier has changed. */
  lemma KeepUndisturbed(s: State, g': Group, set': Bits, expired': map<Task, Waiter>)
    requires Inv(s) && Undisturbed(s.own, s.group, g', set') && set' !! All(s.own)
    requires forall t :: t in expired' ==> expired'[t].bits !! All(s.own)
    ensures Inv(s.(group := g', expired := expired'))
  {
    hide ListOk;
    var s' := s.(group := g', expired := expired');
    forall t: nat | t < |s.own| ensures TaskOk(s', t) {
      assert TaskOk(s, t) && s.own[t] in All(s.own);
    }
  }

  lemma Missing(s: State)
    requires Inv(s)
    ensures exists u: nat :: u < |s.own| && s.own[u] !in s.group.bits && s.own[u] in All(s.own)
  {
    hide ListOk;
    var u: nat :| u < |s.own| && s.arrived[u] == s.round;
    assert TaskOk(s, u);
  }

  lemma KeepOtherSet(s: State, bits: Bits)
    requires Inv(s) && Enabled(s, OtherSet(bits))
    ensures Inv(Next(s, OtherSet(bits)))
  {
    hide ListOk, Inv, SetBits, Undisturbed;
    Missing(s);
    var u: nat :| u < |s.own| && s.own[u] !in s.group.bits && s.own[u] in All(s.own);
    InvParts(s);
    SomebodyMissing(s.own, s.group, bits, u);
    KeepUndisturbed(s, SetBits(s.group, bits), bits, s.expired);
  }

  lemma InvParts(s: State)
    requires Inv(s)
    ensures |s.arrived| == |s.left| == |s.own| && ListOk(s.own, s.group)
    ensures forall t :: t in s.expired ==> s.expired[t].bits !! All(s.own)
  {
  }

  lemma KeepOtherClear(s: State, bits: Bits)
    requires Inv(s) && Enabled(s, OtherClear(bits))
    ensures Inv(Next(s, OtherClear(bits)))
  {
    KeepUndisturbed(s, ClearBits(s.group, bits), {}, s.expired);
  }

  lemma KeepOtherWait(s: State, w: Waiter, block: bool)
    requires Inv(s) && Enabled(s, OtherWait(w, block))
    ensures Inv(Next(s, OtherWait(w, block)))
  {
    hide MetBy;
    var g' := WaitBits(s.group, w, block).0;
    if !MetBy(w, s.group.bits) && block {
      PlaceListOk(s.own, s.group, w);
    }
    KeepUndisturbed(s, g', {}, s.expired);
  }

  lemma PlaceListOk(own: seq<nat>, g: Group, w: Waiter)
    requires ListOk(own, g) && Running(g, w.task)
    requires if w.task < |own| then w == Partner(own, w.task) else w.bits !! All(own)
    ensures ListOk(own, Place(g, w))
  {
    var ws := g.waiting + [w];
    forall i, j | 0 <= i < j < |ws| ensures ws[i].task != ws[j].task {
      assert ws[i] in g.waiting;
    }
  }

  lemma KeepOtherLeave(s: State, t: Task)
    requires Inv(s) && Enabled(s, OtherLeave(t))
    ensures Inv(Next(s, OtherLeave(t)))
  {
    KeepUndisturbed(s, Resume(s.group, t).0, {}, s.expired);
  }

  /** Setting bits neither blocks nor releases a running task. */
  lemma StillRunning(own: seq<nat>, g: Group, set': Bits, t: Task)
    requires ListOk(own, g) && Running(g, t)
    ensures Running(SetBits(g, set'), t)
  {
    hide Unmet, ToClear, ReleaseMet, MetBy;
    var current := g.bits + set';
    ReleasedMembers(g.released, g.waiting, current, t);
    forall w | w in SetBits(g, set').waiting ensures w.task != t {
      UnmetMembers(g.waiting, current, w);
    }
  }

  /** Clearing other bits, or listing a task that waits for other bits, disturbs nobody. */
  lemma ClearUndisturbed(own: seq<nat>, g: Group, g': Group, set': Bits, bits: Bits)
    requires Undisturbed(own, g, g', set') && bits !! All(own)
    ensures Undisturbed(own, g, ClearBits(g', bits), set')
  {
  }

  lemma PlaceUndisturbed(own: seq<nat>, g: Group, g': Group, set': Bits, w: Waiter)
    requires Undisturbed(own, g, g', set') && w.task >= |own| && w.bits !! All(own) && Running(g', w.task)
    ensures Undisturbed(own, g, Place(g', w), set')
  {
    hide ListOk;
    PlaceListOk(own, g', w);
  }

  /** Other tasks may meet at a barrier of their own in the same group. */
  lemma KeepOtherSync(s: State, t: Task, set': Bits, bits: Bits, block: bool)
    requires Inv(s) && Enabled(s, OtherSync(t, set', bits, block))
    ensures Inv(Next(s, OtherSync(t, set', bits, block)))
  {
    hide ListOk, Inv, SetBits, Undisturbed;
    Missing(s);
    var u: nat :| u < |s.own| && s.own[u] !in s.group.bits && s.own[u] in All(s.own);
    InvParts(s);
    SomebodyMissing(s.own, s.group, set', u);
    var g' := SetBits(s.group, set');
    StillRunning(s.own, s.group, set', t);
    ClearUndisturbed(s.own, s.group, g', set', bits);
    PlaceUndisturbed(s.own, s.group, g', set', Waiter(t, bits, true, true));
    KeepUndisturbed(s, Sync(s.group, t, set', bits, block).0, set', s.expired);
  }

  /** The block time of a task outside the barrier runs out. */
  lemma KeepRunOut(s: State, i: nat)
    requires Inv(s) && Enabled(s, RunOut(i))
    ensures Inv(Next(s, RunOut(i)))
  {
    hide Inv;
    InvParts(s);
    var w := s.group.waiting[i];
    ExpireUndisturbed(s.own, s.group, i);
    KeepUndisturbed(s, Expire(s.group, i), {}, s.expired[w.task := w]);
  }

  lemma ExpireUndisturbed(own: seq<nat>, g: Group, i: nat)
    requires ListOk(own, g) && i < |g.waiting| && g.waiting[i].task >= |own|
    ensures Undisturbed(own, g, Expire(g, i), {}) && g.waiting[i].bits !! All(own)
  {
    hide Distinct;
    ExpireMembers(g.waiting, i);
    assert g.waiting[i] in g.waiting;
  }

  lemma KeepGoOnExpired(s: State, t: Task)
    requires Inv(s) && Enabled(s, GoOnExpired(t))
    ensures Inv(Next(s, GoOnExpired(t)))
  {
    hide Inv, MetBy, ListOk;
    InvParts(s);
    NothingDone(s.own, s.group);
    ClearUndisturbed(s.own, s.group, s.group, {}, s.expired[t].bits);
    KeepUndisturbed(s, ResumeExpired(s.group, s.expired[t]).0, {}, s.expired - {t});
  }

  lemma NothingDone(own: seq<nat>, g: Group)
    requires ListOk(own, g)
    ensures Undisturbed(own, g, g, {})
  {
  }

  lemma KeepLeave(s: State, t: Task)
    requires Inv(s) && Enabled(s, Leave(t))
    ensures Inv(Next(s, Leave(t)))
  {
    var s' := Next(s, Leave(t));
    forall v: nat | v < |s.own| ensures TaskOk(s', v) {
      assert TaskOk(s, v) && TaskOk(s, t);
    }
    var u: nat :| u < |s.own| && s.arrived[u] == s.round;
    assert s'.arrived[u] == s'.round;
  }

  /** A task that arrives while others are still missing joins the list. */
  lemma KeepArriveEarly(s: State, t: Task, u: nat)
    requires Inv(s) && Enabled(s, Arrive(t)) && u < |s.own| && s.own[u] !in s.group.bits + {s.own[t]}
    ensures Inv(Next(s, Arrive(t)))
  {
    hide ListOk, SetBits;
    var own, s' := s.own, Next(s, Arrive(t));
    var g' := SetBits(s.group, {own[t]});
    SomebodyMissing(own, s.group, {own[t]}, u);
    assert own[u] in All(own);
    ArrivedRunning(s, t, g');
    PlaceListOk(own, g', Partner(own, t));
    forall v: nat | v < |own| ensures TaskOk(s', v) {
      assert TaskOk(s, v) && own[v] in All(own);
      assert v != t ==> own[v] != own[t];
    }
    assert TaskOk(s, u) && s'.arrived[u] == s'.round;
  }

  /** A running task of the barrier has entered and left the same rounds, and stays off the list and unreleased. */
  lemma ArrivedRunning(s: State, t: Task, g': Group)
    requires Inv(s) && t < |s.own| && Running(s.group, t) && Undisturbed(s.own, s.group, g', {s.own[t]})
    ensures Running(g', t) && s.arrived[t] == s.round
  {
    assert TaskOk(s, t);
    assert forall w :: w in g'.waiting ==> w.task == t ==> w == Partner(s.own, t);
  }

  // ---------- The last task of a round ----------

  /** With everybody's bit there, all partners are released with all the bits. */
  lemma EverybodyReleased(own: seq<nat>, g: Group, set': Bits)
    requires ListOk(own, g) && All(own) <= g.bits + set'
    ensures ListOk(own, SetBits(g, set'))
    ensures forall t: nat :: t < |own| ==> Partner(own, t) !in SetBits(g, set').waiting
    ensures forall t: nat :: t < |own| && Partner(own, t) in g.waiting ==>
              t in SetBits(g, set').released && SetBits(g, set').released[t].value == g.bits + set'
    ensures forall t: nat :: t < |own| && Partner(own, t) !in g.waiting ==>
              (t in SetBits(g, set').released <==> t in g.released)
                  && (t in g.released ==> SetBits(g, set').released[t] == g.released[t])
  {
    hide Unmet, ToClear, ReleaseMet;
    var current, g' := g.bits + set', SetBits(g, set');
    StillListed(own, g, set');
    forall t: nat | t < |own| ensures Partner(own, t) !in g'.waiting {
      UnmetMembers(g.waiting, current, Partner(own, t));
    }
    forall t: nat | t < |own|
      ensures Partner(own, t) in g.waiting ==> t in g'.released && g'.released[t].value == current
      ensures Partner(own, t) !in g.waiting ==>
                (t in g'.released <==> t in g.released) && (t in g.released ==> g'.released[t] == g.released[t])
    {
      ReleasedMembers(g.released, g.waiting, current, t);
      if Partner(own, t) in g.waiting {
        assert MetBy(Partner(own, t), current) && Partner(own, t).task !in g.released;
      }
    }
  }

  /** The last task to arrive goes straight on, and everybody else is released. */
  lemma KeepArriveLast(s: State, t: Task)
    requires Inv(s) && Enabled(s, Arrive(t)) && All(s.own) <= s.group.bits + {s.own[t]}
    ensures Inv(Next(s, Arrive(t)))
  {
    hide ListOk, SetBits;
    var own, s' := s.own, Next(s, Arrive(t));
    EverybodyReleased(own, s.group, {own[t]});
    var after := SetBits(s.group, {own[t]});
    ClearedListOk(own, after);
    RunningHere(s, t);
    assert s'.group == ClearBits(after, All(own)) && s'.round == s.round + 1;
    forall v: nat | v < |own| ensures TaskOk(s', v) {
      assert TaskOk(s, v) && own[v] in All(own);
      if v != t {
        assert own[v] != own[t] && own[v] in s.group.bits;
        NotBoth(own, s.group, v);
      }
    }
    assert s'.arrived[t] == s'.round;
  }

  lemma NotBoth(own: seq<nat>, g: Group, v: Task)
    requires ListOk(own, g) && Partner(own, v) in g.waiting
    ensures v !in g.released
  {
    assert Partner(own, v).task !in g.released;
  }

  lemma ClearedListOk(own: seq<nat>, g: Group)
    requires ListOk(own, g)
    ensures ListOk(own, ClearBits(g, All(own)))
  {
  }

  lemma RunningHere(s: State, t: Task)
    requires Inv(s) && t < |s.own| && Running(s.group, t)
    ensures s.arrived[t] == s.round == s.left[t] && Partner(s.own, t) !in s.group.waiting
  {
    assert TaskOk(s, t);
  }

  lemma StepKeepsInv(s: State, step: Step)
    requires Inv(s) && Enabled(s, step)
    ensures Inv(Next(s, step))
  {
    hide Inv, Next;
    match step {
      case Arrive(t) =>
        if u :| u in All(s.own) && u !in s.group.bits + {s.own[t]} {
          var v: nat :| v < |s.own| && s.own[v] == u;
          KeepArriveEarly(s, t, v);
        } else {
          KeepArriveLast(s, t);
        }
      case Leave(t) => KeepLeave(s, t);
      case OtherSet(bits) => KeepOtherSet(s, bits);
      case OtherClear(bits) => KeepOtherClear(s, bits);
      case OtherWait(w, block) => KeepOtherWait(s, w, block);
      case OtherSync(t, set', bits, block) => KeepOtherSync(s, t, set', bits, block);
      case RunOut(i) => KeepRunOut(s, i);
      case GoOnExpired(t) => KeepGoOnExpired(s, t);
      case OtherLeave(t) => KeepOtherLeave(s, t);
    }
  }

  // ---------- Runs ----------

  ghost predicate Runs(s: State, steps: seq<Step>)
    requires Inv(s)
    decreases |steps|
  {
    steps == [] || (Enabled(s, steps[0]) && (StepKeepsInv(s, steps[0]); Runs(Next(s, steps[0]), steps[1..])))
  }

  ghost function After(s: State, steps: seq<Step>): (t: State)
    requires Inv(s) && Runs(s, steps)
    ensures Inv(t) && t.own == s.own
    decreases |steps|
  {
    if steps == [] then s
    else
      StepKeepsInv(s, steps[0]);
      After(Next(s, steps[0]), steps[1..])
  }

  /** Over any number of rounds, no task leaves a round before every task has arrived at it. */
  lemma NobodyLeavesEarly(own: seq<nat>, steps: seq<Step>, t: nat, u: nat)
    requires own != [] && (forall i, j :: 0 <= i < j < |own| ==> own[i] != own[j])
    requires Runs(Initial(own), steps) && t < |own| && u < |own|
    ensures var s := After(Initial(own), steps); |s.left| == |s.arrived| == |own| && s.left[t] <= s.arrived[u]
  {
    var s := After(Initial(own), steps);
    assert TaskOk(s, t) && TaskOk(s, u);
  }

  /**
   The bits of the barrier are those of the tasks that wait in the current round, so all are clear
   when a round is complete.
   */
  lemma BitsOfTheRound(own: seq<nat>, steps: seq<Step>, t: nat)
    requires own != [] && (forall i, j :: 0 <= i < j < |own| ==> own[i] != own[j])
    requires Runs(Initial(own), steps) && t < |own|
    ensures var s := After(Initial(own), steps); own[t] in s.group.bits <==> Partner(own, t) in s.group.waiting
  {
    assert TaskOk(After(Initial(own), steps), t);
  }

  predicate CanGoOn(g: Group, t: Task) {
    t in g.released || Running(g, t)
  }

  /** The barrier never locks up: some task of it is running or released. */
  lemma SomebodyCanGoOn(own: seq<nat>, steps: seq<Step>)
    requires own != [] && (forall i, j :: 0 <= i < j < |own| ==> own[i] != own[j])
    requires Runs(Initial(own), steps)
    ensures exists u: nat :: u < |own| && CanGoOn(After(Initial(own), steps).group, u)
  {
    hide MetBy;
    var s := After(Initial(own), steps);
    var u: nat :| u < |own| && s.arrived[u] == s.round;
    assert TaskOk(s, u);
    assert forall w :: w in s.group.waiting && w.task == u ==> w == Partner(own, u);
    assert CanGoOn(s.group, u);
  }

  /** Whoever leaves a round, at once or after waiting, is given all the bits of the barrier. */
  lemma AllBitsReturned(s: State, t: Task)
    requires Inv(s) && t < |s.own|
    ensures Running(s.group, t) ==>
              var outcome := Sync(s.group, t, {s.own[t]}, All(s.own), true).1;
              outcome.Blocked? || (outcome.Returned? && All(s.own) <= outcome.value)
    ensures t in s.group.released ==> All(s.own) <= Resume(s.group, t).1
  {
    assert TaskOk(s, t);
  }
}
