/** Several runners of the fallback queue at once, statement by statement (autopilot_work_queue.py). */
module WorkQueueRaces {
  import opened Sequences
  import opened WorkQueue

  type RunnerId = nat

  /** Where a runner stands; `seen` is how much of the ledger it had read when its checks passed. */
  datatype Phase = Checked(task: Task, seen: nat) | Holding(task: Task, seen: nat) | Begun(task: Task) | Ended(task: Task)

  datatype World = World(ledger: seq<Entry>, lock: Option<RunnerId>, runners: map<RunnerId, Phase>)

  datatype Step =
    | Look(r: RunnerId, task: Task)
    | Take(r: RunnerId)
    | Begin(r: RunnerId)
    | End(r: RunnerId, ok: bool)
    | Leave(r: RunnerId)
    | Kill(r: RunnerId)
    | ClearLock

  const NOBODY := World([], None, map[])

  /** Reading and checking come first; the lock is taken later, without reading again. A runner that finds
      the lock taken gives up; one that leaves, for whatever reason, releases it; one that is killed does not. */
  function Perform(w: World, step: Step): World {
    match step
    case Look(r, t) =>
      if r in w.runners || RunError(t, w.ledger).Some? then w
      else w.(runners := w.runners[r := Checked(t, |w.ledger|)])
    case Take(r) =>
      if r !in w.runners || !w.runners[r].Checked? then w
      else if w.lock.Some? then w.(runners := w.runners - {r})
      else w.(lock := Some(r), runners := w.runners[r := Holding(w.runners[r].task, w.runners[r].seen)])
    case Begin(r) =>
      if r !in w.runners || !w.runners[r].Holding? then w
      else w.(ledger := w.ledger + [Entry(w.runners[r].task.id, Started)], runners := w.runners[r := Begun(w.runners[r].task)])
    case End(r, ok) =>
      if r !in w.runners || !w.runners[r].Begun? then w
      else w.(ledger := w.ledger + [Entry(w.runners[r].task.id, if ok then Completed else Failed)],
              runners := w.runners[r := Ended(w.runners[r].task)])
    case Leave(r) =>
      if r !in w.runners || w.runners[r].Checked? then w
      else w.(lock := None, runners := w.runners - {r})
    case Kill(r) => w.(runners := w.runners - {r})
    case ClearLock => if w.lock.Some? && w.lock.value !in w.runners then w.(lock := None) else w
  }

  function PerformAll(w: World, steps: seq<Step>): World {
    if steps == [] then w else Perform(PerformAll(w, steps[..|steps| - 1]), steps[|steps| - 1])
  }

  function Exec(steps: seq<Step>): World { PerformAll(NOBODY, steps) }

  // ---- The invariant of every interleaving ----

  ghost predicate PhaseOk(w: World, r: RunnerId) requires r in w.runners {
    match w.runners[r]
    case Checked(t, seen) => seen <= |w.ledger| && RunError(t, w.ledger[..seen]).None?
    case Holding(t, seen) => seen <= |w.ledger| && RunError(t, w.ledger[..seen]).None? && w.lock == Some(r)
    case Begun(t) => w.lock == Some(r) && w.ledger != [] && w.ledger[|w.ledger| - 1] == Entry(t.id, Started)
    case Ended(_) => w.lock == Some(r)
  }

  ghost predicate WorldOk(w: World) { forall r :: r in w.runners ==> PhaseOk(w, r) }

  /** All runners of one id work under the same attempt limit. */
  ghost predicate SameLimit(w: World, id: string, max: int) {
    forall r :: r in w.runners && w.runners[r].task.id == id ==> Attempts(w.runners[r].task) == max
  }

  lemma StepKeepsWorld(w: World, step: Step)
    requires WorldOk(w)
    ensures WorldOk(Perform(w, step))
  {
    hide RunError;
    var w' := Perform(w, step);
    forall r | r in w'.runners ensures PhaseOk(w', r) {
      if r in w.runners {
        assert PhaseOk(w, r);
        var p := w.runners[r];
        if (p.Checked? || p.Holding?) && p.seen <= |w.ledger| { assert w'.ledger[..p.seen] == w.ledger[..p.seen]; }
      } else {
        assert w.ledger[..|w.ledger|] == w.ledger;
      }
      match step
      case Begin(q) => if q in w.runners { assert PhaseOk(w, q); }
      case End(q, _) => if q in w.runners { assert PhaseOk(w, q); }
      case Leave(q) => if q in w.runners { assert PhaseOk(w, q); }
      case _ =>
    }
  }

  // ---- Exactly when a start comes too late ----

  /** Since the runner's reading, other events of its id completed it or used up its last attempt. */
  ghost predicate Overtaken(w: World, r: RunnerId) {
    && r in w.runners && w.runners[r].Holding? && w.runners[r].seen <= |w.ledger|
    && var t, seen := w.runners[r].task, w.runners[r].seen;
       || Done(w.ledger[seen..], t.id)
       || Starts(w.ledger[..seen], t.id) + Starts(w.ledger[seen..], t.id) >= Attempts(t)
  }

  ghost predicate LateStart(w: World, step: Step, id: string) {
    step.Begin? && Overtaken(w, step.r) && w.runners[step.r].task.id == id
  }

  ghost predicate NeverLate(steps: seq<Step>, id: string) {
    steps != [] ==>
      && NeverLate(steps[..|steps| - 1], id)
      && !LateStart(Exec(steps[..|steps| - 1]), steps[|steps| - 1], id)
  }

  lemma {:induction false} StartsConcat(a: seq<Status>, b: seq<Status>)
    ensures StartsIn(a + b) == StartsIn(a) + StartsIn(b)
  {
    if b == [] {
      assert a + b == a;
    } else {
      assert (a + b)[..|a + b| - 1] == a + b[..|b| - 1];
      StartsConcat(a, b[..|b| - 1]);
    }
  }

  /** What the reading and the events after it say together is what the whole ledger says. */
  lemma OvertakenIff(w: World, r: RunnerId)
    requires r in w.runners && w.runners[r].Holding? && PhaseOk(w, r)
    ensures var t := w.runners[r].task;
            Overtaken(w, r) <==> Done(w.ledger, t.id) || Starts(w.ledger, t.id) >= Attempts(t)
  {
    var t, seen := w.runners[r].task, w.runners[r].seen;
    var a, b := w.ledger[..seen], w.ledger[seen..];
    assert a + b == w.ledger;
    StatusesConcat(a, b, t.id);
    StartsConcat(StatusesOf(a, t.id), StatusesOf(b, t.id));
    assert !Done(a, t.id);
  }

  lemma DisciplinedBefore(ledger: seq<Entry>, e: Entry, id: string, max: int)
    requires Disciplined(ledger + [e], id, max)
    ensures Disciplined(ledger, id, max)
  {
    EntryStatuses(ledger, e, id);
    hide StatusesOf;
    var s, longer := StatusesOf(ledger, id), StatusesOf(ledger + [e], id);
    assert forall i :: 0 <= i < |s| ==> longer[i] == s[i];
    if e.taskId == id { StartsSnoc(s, e.status); }
  }

  lemma BeginDiscipline(w: World, r: RunnerId, id: string, max: int)
    requires WorldOk(w) && SameLimit(w, id, max) && r in w.runners && w.runners[r].Holding?
    ensures Disciplined(Perform(w, Begin(r)).ledger, id, max)
       <==> Disciplined(w.ledger, id, max) && !LateStart(w, Begin(r), id)
  {
    assert PhaseOk(w, r);
    var t := w.runners[r].task;
    var e := Entry(t.id, Started);
    if Disciplined(w.ledger + [e], id, max) { DisciplinedBefore(w.ledger, e, id, max); }
    OvertakenIff(w, r);
    hide Overtaken, Disciplined, RunError;
    if Disciplined(w.ledger, id, max) {
      if t.id == id { StartKeepsDiscipline(w.ledger, t); } else { OtherKeepsDiscipline(w.ledger, e, id, max); }
    }
  }

  /** After its own start an id is not done, so the end that follows keeps the discipline. */
  lemma EndAfterStart(ledger: seq<Entry>, own: string, status: Status, id: string, max: int)
    requires ledger != [] && ledger[|ledger| - 1] == Entry(own, Started) && !status.Started?
    ensures Disciplined(ledger + [Entry(own, status)], id, max) <==> Disciplined(ledger, id, max)
  {
    hide Disciplined, Done;
    if Disciplined(ledger + [Entry(own, status)], id, max) { DisciplinedBefore(ledger, Entry(own, status), id, max); }
    if Disciplined(ledger, id, max) {
      if own == id {
        LastStartedNotDone(ledger, id, max);
        EndKeepsDiscipline(ledger, id, max, status);
      } else {
        OtherKeepsDiscipline(ledger, Entry(own, status), id, max);
      }
    }
  }

  lemma EndDiscipline(w: World, r: RunnerId, ok: bool, id: string, max: int)
    requires WorldOk(w) && r in w.runners && w.runners[r].Begun?
    ensures Disciplined(Perform(w, End(r, ok)).ledger, id, max) <==> Disciplined(w.ledger, id, max)
  {
    hide Disciplined, RunError;
    assert PhaseOk(w, r);
    EndAfterStart(w.ledger, w.runners[r].task.id, if ok then Completed else Failed, id, max);
  }

  lemma LastStartedNotDone(ledger: seq<Entry>, id: string, max: int)
    requires Disciplined(ledger, id, max) && ledger != [] && ledger[|ledger| - 1] == Entry(id, Started)
    ensures !Done(ledger, id)
  {
    var front := ledger[..|ledger| - 1];
    assert ledger == front + [Entry(id, Started)];
    EntryStatuses(front, Entry(id, Started), id);
    hide StatusesOf;
    var s := StatusesOf(ledger, id);
    assert s[|s| - 1] == Started;
  }

  lemma StepDiscipline(w: World, step: Step, id: string, max: int)
    requires WorldOk(w) && SameLimit(w, id, max)
    ensures Disciplined(Perform(w, step).ledger, id, max) <==> Disciplined(w.ledger, id, max) && !LateStart(w, step, id)
  {
    hide Disciplined, Overtaken, WorldOk;
    match step
    case Begin(r) => if r in w.runners && w.runners[r].Holding? { BeginDiscipline(w, r, id, max); } else { NotLate(w, r); }
    case End(r, ok) => if r in w.runners && w.runners[r].Begun? { EndDiscipline(w, r, ok, id, max); }
    case _ =>
  }

  lemma NotLate(w: World, r: RunnerId)
    requires r !in w.runners || !w.runners[r].Holding?
    ensures !Overtaken(w, r)
  {
  }

  /** Over all interleavings of any number of runners, with kills, interrupts and operator resets: an id is
      started at most its allowed number of times and never after completion if and only if no runner
      starts it on a reading that other events have overtaken. */
  lemma {:induction false} RacesAreDisciplinedIff(steps: seq<Step>, id: string, max: nat)
    requires forall s :: s in steps && s.Look? && s.task.id == id ==> Attempts(s.task) == max
    ensures WorldOk(Exec(steps)) && SameLimit(Exec(steps), id, max)
    ensures Disciplined(Exec(steps).ledger, id, max) <==> NeverLate(steps, id)
  {
    if steps != [] {
      hide Disciplined, WorldOk, LateStart;
      var front, step := steps[..|steps| - 1], steps[|steps| - 1];
      assert steps == front + [step];
      assert step in steps && forall s :: s in front ==> s in steps;
      RacesAreDisciplinedIff(front, id, max);
      StepKeepsWorld(Exec(front), step);
      StepDiscipline(Exec(front), step, id, max);
      LimitStays(Exec(front), step, id, max);
    }
  }

  lemma LimitStays(w: World, step: Step, id: string, max: int)
    requires SameLimit(w, id, max) && (step.Look? && step.task.id == id ==> Attempts(step.task) == max)
    ensures SameLimit(Perform(w, step), id, max)
  {
  }

  // ---- A run that does it, and the serial runs ----

  lemma {:induction false} PerformConcat(w: World, a: seq<Step>, b: seq<Step>)
    ensures PerformAll(w, a + b) == PerformAll(PerformAll(w, a), b)
  {
    if b == [] {
      assert a + b == a;
    } else {
      hide Perform;
      PerformConcat(w, a, b[..|b| - 1]);
      assert (a + b)[..|a + b| - 1] == a + b[..|b| - 1];
    }
  }

  /** The steps of one runner that nobody else disturbs. */
  function StepsOf(r: RunnerId, t: Task, end: WorkQueue.End): seq<Step> {
    match end
    case Succeeds => [Look(r, t), Take(r), Begin(r), End(r, true), Leave(r)]
    case Fails => [Look(r, t), Take(r), Begin(r), End(r, false), Leave(r)]
    case Interrupted => [Look(r, t), Take(r), Begin(r), Leave(r)]
    case KilledBeforeStart => [Look(r, t), Take(r), Kill(r)]
    case KilledRunning => [Look(r, t), Take(r), Begin(r), Kill(r)]
    case KilledAfter(ok) => [Look(r, t), Take(r), Begin(r), End(r, ok), Kill(r)]
  }

  lemma Five(w: World, a: Step, b: Step, c: Step, d: Step, e: Step)
    ensures PerformAll(w, [a, b]) == Perform(Perform(w, a), b)
    ensures PerformAll(w, [a, b, c]) == Perform(Perform(Perform(w, a), b), c)
    ensures PerformAll(w, [a, b, c, d]) == Perform(PerformAll(w, [a, b, c]), d)
    ensures PerformAll(w, [a, b, c, d, e]) == Perform(PerformAll(w, [a, b, c, d]), e)
  {
    hide Perform;
    assert [a, b, c, d, e][..4] == [a, b, c, d] && [a, b, c, d][..3] == [a, b, c] && [a, b, c][..2] == [a, b];
    assert [a, b][..1] == [a] && [a][..0] == [];
    assert PerformAll(w, [a]) == Perform(w, a);
  }

  lemma StartedAlone(ledger: seq<Entry>, r: RunnerId, t: Task)
    requires RunError(t, ledger).None?
    ensures var held := Perform(Perform(World(ledger, None, map[]), Look(r, t)), Take(r));
            && held == World(ledger, Some(r), map[r := Holding(t, |ledger|)])
            && Perform(held, Begin(r)) == World(ledger + [Entry(t.id, Started)], Some(r), map[r := Begun(t)])
  {
    hide RunError;
    assert map[r := Checked(t, |ledger|)][r := Holding(t, |ledger|)] == map[r := Holding(t, |ledger|)];
    assert map[r := Holding(t, |ledger|)][r := Begun(t)] == map[r := Begun(t)];
  }

  lemma EndedAlone(ledger: seq<Entry>, r: RunnerId, t: Task, ok: bool)
    ensures Perform(World(ledger, Some(r), map[r := Begun(t)]), End(r, ok))
         == World(ledger + [Entry(t.id, if ok then Completed else Failed)], Some(r), map[r := Ended(t)])
  {
    assert map[r := Begun(t)][r := Ended(t)] == map[r := Ended(t)];
  }

  lemma GoneAlone(ledger: seq<Entry>, r: RunnerId, p: Phase)
    ensures Perform(World(ledger, Some(r), map[r := p]), Kill(r)) == World(ledger, Some(r), map[])
    ensures !p.Checked? ==> Perform(World(ledger, Some(r), map[r := p]), Leave(r)) == World(ledger, None, map[])
  {
    assert map[r := p] - {r} == map[];
  }

  lemma RefusedAlone(ledger: seq<Entry>, r: RunnerId, t: Task, end: WorkQueue.End)
    requires RunError(t, ledger).Some?
    ensures PerformAll(World(ledger, None, map[]), StepsOf(r, t, end)) == World(ledger, None, map[])
  {
    hide RunError;
    var w := World(ledger, None, map[]);
    assert w.runners - {r} == map[];
    forall s | s in StepsOf(r, t, end) ensures Perform(w, s) == w {}
    NothingHappens(w, StepsOf(r, t, end));
  }

  lemma {:induction false} NothingHappens(w: World, steps: seq<Step>)
    requires forall s :: s in steps ==> Perform(w, s) == w
    ensures PerformAll(w, steps) == w
  {
    if steps != [] {
      hide Perform;
      NothingHappens(w, steps[..|steps| - 1]);
    }
  }

  /** Undisturbed, these steps are exactly the serial run of the runner. */
  lemma SerialIsUndisturbed(ledger: seq<Entry>, r: RunnerId, t: Task, end: WorkQueue.End)
    ensures var w, f := PerformAll(World(ledger, None, map[]), StepsOf(r, t, end)), AfterRun(Files(ledger, false), t, end);
            w.ledger == f.ledger && w.lock == (if f.locked then Some(r) else None) && w.runners == map[]
  {
    hide RunError, PerformAll, Perform;
    if RunError(t, ledger).Some? {
      RefusedAlone(ledger, r, t, end);
    } else {
      var ok := end.Succeeds? || (end.KilledAfter? && end.ok);
      var begun := ledger + [Entry(t.id, Started)];
      var ended := begun + [Entry(t.id, if ok then Completed else Failed)];
      Five(World(ledger, None, map[]), Look(r, t), Take(r), if end.KilledBeforeStart? then Kill(r) else Begin(r),
           if end.Interrupted? then Leave(r) else if end.KilledRunning? then Kill(r) else End(r, ok),
           if end.KilledAfter? then Kill(r) else Leave(r));
      StartedAlone(ledger, r, t);
      EndedAlone(begun, r, t, ok);
      GoneAlone(ledger, r, Holding(t, |ledger|));
      GoneAlone(begun, r, Begun(t));
      GoneAlone(ended, r, Ended(t));
      assert ended == ledger + [Entry(t.id, Started), Entry(t.id, if ok then Completed else Failed)];
      assert ledger + [] == ledger;
    }
  }

  /** Two runners read the empty ledger, one completes the work, and the other starts it again: for every
      valid entry with a supported runner this run breaks the discipline. */
  lemma StaleReadingRestarts(t: Task) returns (steps: seq<Step>)
    requires TaskError(t).None? && t.runner in SUPPORTED
    ensures Exec(steps).ledger == [Entry(t.id, Started), Entry(t.id, Completed), Entry(t.id, Started)]
    ensures !Disciplined(Exec(steps).ledger, t.id, Attempts(t)) && !NeverLate(steps, t.id)
  {
    hide Perform, Disciplined, NeverLate;
    FreshIsEligible(t);
    var looks, first, second := [Look(1, t), Look(2, t)], [Take(1), Begin(1), End(1, true), Leave(1)], [Take(2), Begin(2)];
    steps := looks + first + second;
    PerformConcat(NOBODY, looks + first, second);
    PerformConcat(NOBODY, looks, first);
    BothLook(t);
    FirstFinishes(t);
    SecondStarts(t);
    StaleReadingStartsCompletedTask(t);
    assert [Entry(t.id, Started), Entry(t.id, Completed)] + [Entry(t.id, Started)]
        == [Entry(t.id, Started), Entry(t.id, Completed), Entry(t.id, Started)];
    assert forall s :: s in steps ==> s in looks || s in first || s in second;
    RacesAreDisciplinedIff(steps, t.id, Attempts(t));
  }

  lemma BothLook(t: Task)
    requires RunError(t, []).None?
    ensures PerformAll(NOBODY, [Look(1, t), Look(2, t)]) == World([], None, map[1 := Checked(t, 0), 2 := Checked(t, 0)])
  {
    hide RunError, PerformAll;
    Five(NOBODY, Look(1, t), Look(2, t), ClearLock, ClearLock, ClearLock);
    assert map[1 := Checked(t, 0)][2 := Checked(t, 0)] == map[1 := Checked(t, 0), 2 := Checked(t, 0)];
  }

  lemma FirstFinishes(t: Task)
    ensures PerformAll(World([], None, map[1 := Checked(t, 0), 2 := Checked(t, 0)]), [Take(1), Begin(1), End(1, true), Leave(1)])
         == World([Entry(t.id, Started), Entry(t.id, Completed)], None, map[2 := Checked(t, 0)])
  {
    hide RunError, PerformAll;
    var w := World([], None, map[1 := Checked(t, 0), 2 := Checked(t, 0)]);
    Five(w, Take(1), Begin(1), End(1, true), Leave(1), ClearLock);
    assert [] + [Entry(t.id, Started)] == [Entry(t.id, Started)];
    assert map[1 := Ended(t), 2 := Checked(t, 0)] - {1} == map[2 := Checked(t, 0)];
  }

  lemma SecondStarts(t: Task)
    ensures var done := [Entry(t.id, Started), Entry(t.id, Completed)];
            PerformAll(World(done, None, map[2 := Checked(t, 0)]), [Take(2), Begin(2)]).ledger == done + [Entry(t.id, Started)]
  {
    hide PerformAll;
    Five(World([Entry(t.id, Started), Entry(t.id, Completed)], None, map[2 := Checked(t, 0)]), Take(2), Begin(2), ClearLock, ClearLock, ClearLock);
  }
}
