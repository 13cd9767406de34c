/** Event groups over whole runs: tasks calling, blocking, being released, timing out and going on in any order. */
module EventRuns {
  import opened EventBits

  /** `expired` are the tasks whose block time ran out and which have not run since. */
  datatype State = State(group: Group, expired: map<Task, Waiter>)

  datatype Step =
    | Set(bits: Bits)
    | Clear(bits: Bits)
    | Wait(w: Waiter, block: bool)
    | Rendezvous(task: Task, own: Bits, bits: Bits, block: bool)
    | RunOut(i: nat)
    | GoOn(task: Task)
    | GoOnExpired(task: Task)

  /** A task can call only while it is running. */
  predicate Running(s: State, t: Task) {
    && (forall w :: w in s.group.waiting ==> w.task != t)
    && t !in s.group.released && t !in s.expired
  }

  predicate Enabled(s: State, step: Step) {
    match step
    case Set(_) => true
    case Clear(_) => true
    case Wait(w, _) => Running(s, w.task) && w.bits != {}
    case Rendezvous(t, _, bits, _) => Running(s, t) && bits != {}
    case RunOut(i) => i < |s.group.waiting|
    case GoOn(t) => t in s.group.released
    case GoOnExpired(t) => t in s.expired
  }

  function Next(s: State, step: Step): State
    requires Enabled(s, step)
  {
    match step
    case Set(bits) => s.(group := SetBits(s.group, bits))
    case Clear(bits) => s.(group := ClearBits(s.group, bits))
    case Wait(w, block) => s.(group := WaitBits(s.group, w, block).0)
    case Rendezvous(t, own, bits, block) => s.(group := Sync(s.group, t, own, bits, block).0)
    case RunOut(i) =>
      var w := s.group.waiting[i];
      State(Expire(s.group, i), s.expired[w.task := w])
    case GoOn(t) => s.(group := Resume(s.group, t).0)
    case GoOnExpired(t) => State(ResumeExpired(s.group, s.expired[t]).0, s.expired - {t})
  }

  /** What a step returns to its caller, if it returns. */
  function Result(s: State, step: Step): Outcome
    requires Enabled(s, step)
  {
    match step
    case Set(bits) => Returned(SetBits(s.group, bits).bits)
    case Clear(_) => Returned(s.group.bits)
    case Wait(w, block) => WaitBits(s.group, w, block).1
    case Rendezvous(t, own, bits, block) => Sync(s.group, t, own, bits, block).1
    case RunOut(_) => Blocked
    case GoOn(t) => Returned(Resume(s.group, t).1)
    case GoOnExpired(t) => TimedOut(ResumeExpired(s.group, s.expired[t]).1)
  }

  ghost predicate ReleaseOk(r: Release, t: Task) {
    r.waiter.task == t && MetBy(r.waiter, r.value)
  }

  /** Every task is in one place, and was released because its condition held. */
  ghost predicate PlacesOk(g: Group, expired: map<Task, Waiter>) {
    && TasksDistinct(g.waiting, g.released)
    && (forall w :: w in g.waiting ==> w.task !in expired)
    && (forall t :: t in expired ==> t !in g.released && expired[t].task == t)
    && (forall t :: t in g.released ==> ReleaseOk(g.released[t], t))
  }

  /** In addition, nobody waits for what is there. */
  ghost predicate Inv(s: State) {
    NoneSatisfied(s.group) && PlacesOk(s.group, s.expired)
  }

  /** Setting bits moves tasks from the list to the released ones, and keeps every task in one place. */
  lemma SetBitsPlaces(g: Group, expired: map<Task, Waiter>, bits: Bits)
    requires PlacesOk(g, expired)
    ensures PlacesOk(SetBits(g, bits), expired)
  {
    hide MetBy, Unmet, ToClear, ReleaseMet, Distinct;
    var current := g.bits + bits;
    var g' := SetBits(g, bits);
    UnmetDistinct(g.waiting, current);
    forall w | w in g'.waiting ensures w.task !in g'.released && w.task !in expired {
      UnmetMembers(g.waiting, current, w);
      ReleasedMembers(g.released, g.waiting, current, w.task);
      if v :| v in g.waiting && MetBy(v, current) && v.task == w.task {
        SameTask(g.waiting, g.released, v, w);
      }
    }
    forall t | t in g'.released ensures ReleaseOk(g'.released[t], t) && t !in expired {
      ReleasedMembers(g.released, g.waiting, current, t);
    }
  }

  lemma PlacePlaces(g: Group, expired: map<Task, Waiter>, w: Waiter)
    requires PlacesOk(g, expired) && w.task !in g.released && w.task !in expired
    requires forall v :: v in g.waiting ==> v.task != w.task
    ensures PlacesOk(Place(g, w), expired)
  {
    hide ReleaseOk;
    var ws := g.waiting + [w];
    forall i, j | 0 <= i < j < |ws| ensures ws[i].task != ws[j].task {
      assert ws[i] in g.waiting;
    }
  }

  lemma KeepRendezvous(s: State, t: Task, own: Bits, bits: Bits, block: bool)
    requires Inv(s) && Enabled(s, Rendezvous(t, own, bits, block))
    ensures Inv(Next(s, Rendezvous(t, own, bits, block)))
  {
    hide SetBits, NoneSatisfied, ReleaseOk, TasksDistinct;
    SyncKeepsNone(s.group, t, own, bits, block);
    SetBitsPlaces(s.group, s.expired, own);
    if !(bits <= s.group.bits + own) && block {
      StaysRunning(s, t, own);
      PlacePlaces(SetBits(s.group, own), s.expired, Waiter(t, bits, true, true));
    }
  }

  /** Setting bits neither blocks nor releases a running task. */
  lemma StaysRunning(s: State, t: Task, bits: Bits)
    requires Inv(s) && Running(s, t)
    ensures Running(State(SetBits(s.group, bits), s.expired), t)
  {
    hide Unmet, ToClear, ReleaseMet, MetBy, NoneSatisfied;
    var g, current := s.group, s.group.bits + bits;
    ReleasedMembers(g.released, g.waiting, current, t);
    forall w | w in SetBits(g, bits).waiting ensures w.task != t {
      UnmetMembers(g.waiting, current, w);
    }
  }

  lemma KeepWait(s: State, w: Waiter, block: bool)
    requires Inv(s) && Enabled(s, Wait(w, block))
    ensures Inv(Next(s, Wait(w, block)))
  {
    hide NoneSatisfied, ReleaseOk, MetBy;
    WaitKeepsNone(s.group, w, block);
    if !MetBy(w, s.group.bits) && block {
      PlacePlaces(s.group, s.expired, w);
    }
  }

  lemma KeepRunOut(s: State, i: nat)
    requires Inv(s) && i < |s.group.waiting|
    ensures Inv(Next(s, RunOut(i)))
  {
    hide ReleaseOk, MetBy, Distinct;
    ExpireMembers(s.group.waiting, i);
    assert s.group.waiting[i] in s.group.waiting;
  }

  lemma StepKeepsInv(s: State, step: Step)
    requires Inv(s) && Enabled(s, step)
    ensures Inv(Next(s, step))
  {
    hide NoneSatisfied, ReleaseOk, MetBy, SetBits, TasksDistinct;
    match step {
      case Set(bits) =>
        SetBitsLeavesNone(s.group, bits);
        SetBitsPlaces(s.group, s.expired, bits);
      case Clear(bits) =>
        ClearKeepsNone(s.group, bits);
      case Wait(w, block) =>
        KeepWait(s, w, block);
      case Rendezvous(t, own, bits, block) =>
        KeepRendezvous(s, t, own, bits, block);
      case RunOut(i) =>
        KeepRunOut(s, i);
      case GoOn(t) =>
        KeepGoOn(s, t);
      case GoOnExpired(t) =>
        ClearKeepsNone(s.group, s.expired[t].bits);
    }
  }

  lemma KeepGoOn(s: State, t: Task)
    requires Inv(s) && t in s.group.released
    ensures Inv(Next(s, GoOn(t)))
  {
    hide MetBy;
  }

  // ---------- Runs ----------

  ghost predicate Runs(s: State, steps: seq<Step>)
    requires Inv(s)
    decreases |steps|
  {
    steps == [] || (Enabled(s, steps[0]) && (StepKeepsInv(s, steps[0]); Runs(Next(s, steps[0]), steps[1..])))
  }

  ghost function After(s: State, steps: seq<Step>): (t: State)
    requires Inv(s) && Runs(s, steps)
    ensures Inv(t)
    decreases |steps|
  {
    if steps == [] then s
    else
      StepKeepsInv(s, steps[0]);
      After(Next(s, steps[0]), steps[1..])
  }

  /** xEventGroupCreate. */
  ghost function Initial(): (s: State)
    ensures Inv(s)
  {
    State(Group({}, [], map[]), map[])
  }

  /** In no reachable state does a task wait for bits that are there. */
  lemma NobodyWaitsInVain(steps: seq<Step>, w: Waiter)
    requires Runs(Initial(), steps) && w in After(Initial(), steps).group.waiting
    ensures !Met(After(Initial(), steps).group.bits, w.bits, w.all)
  {
    assert !MetBy(w, After(Initial(), steps).group.bits);
  }

  /** A call that does not time out returns bits that satisfy its condition. */
  lemma ReturnedMeansMet(s: State, step: Step)
    requires Inv(s) && Enabled(s, step) && Result(s, step).Returned?
    ensures step.Wait? ==> MetBy(step.w, Result(s, step).value)
    ensures step.Rendezvous? ==> step.bits <= Result(s, step).value
    ensures step.GoOn? ==> MetBy(s.group.released[step.task].waiter, Result(s, step).value)
  {
    if step.GoOn? {
      assert ReleaseOk(s.group.released[step.task], step.task);
    }
  }
}
