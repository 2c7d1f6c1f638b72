/** The productive fallback queue: its ledger-driven resolver (autopilot_guard.py) and its runner
    (autopilot_work_queue.py). */
module WorkQueue {
  import opened Sequences

  datatype Status = Started | Completed | Failed

  datatype Entry = Entry(taskId: string, status: Status)

  /** `maxAttempts` is zero when the policy leaves it out. */
  datatype Task = Task(id: string, runner: string, maxRuntimeSec: int, maxAttempts: int)

  datatype QueueError = MissingId | UnsupportedRunner | BadRuntime | BadAttempts | AlreadyCompleted | AttemptsExhausted | AlreadyOwned | TaskFailed

  datatype Resolution = Ready(task: Task, attempts: nat) | InProgress(ids: seq<string>) | Exhausted | Invalid(error: QueueError)

  const SUPPORTED := {"code_baseline_manifest", "evidence_manifest", "git_worktree_inventory", "python_unittest", "python_unittest_discover"}

  function Attempts(t: Task): int { if t.maxAttempts == 0 then 1 else t.maxAttempts }

  // ---- Reading the ledger ----

  function StatusesOf(ledger: seq<Entry>, id: string): seq<Status> {
    if ledger == [] then []
    else StatusesOf(ledger[..|ledger| - 1], id) + if ledger[|ledger| - 1].taskId == id then [ledger[|ledger| - 1].status] else []
  }

  function StartsIn(statuses: seq<Status>): nat {
    if statuses == [] then 0
    else StartsIn(statuses[..|statuses| - 1]) + if statuses[|statuses| - 1].Started? then 1 else 0
  }

  function Starts(ledger: seq<Entry>, id: string): nat { StartsIn(StatusesOf(ledger, id)) }

  predicate Done(ledger: seq<Entry>, id: string) { Completed in StatusesOf(ledger, id) }

  predicate Running(ledger: seq<Entry>, id: string) {
    var s := StatusesOf(ledger, id);
    s != [] && s[|s| - 1].Started?
  }

  // ---- The resolver ----

  function TaskError(t: Task): Option<QueueError> {
    if t.id == "" || t.runner == "" then Some(MissingId)
    else if t.maxRuntimeSec <= 0 || t.maxRuntimeSec > 1_800 then Some(BadRuntime)
    else if Attempts(t) <= 0 || Attempts(t) > 2 then Some(BadAttempts)
    else None
  }

  predicate Selectable(t: Task, ledger: seq<Entry>) {
    !Done(ledger, t.id) && !Running(ledger, t.id) && Starts(ledger, t.id) < Attempts(t)
  }

  /** The resolver from its `i`-th task on, with the tasks in progress found so far. */
  function ResolveFrom(tasks: seq<Task>, i: nat, ledger: seq<Entry>, waiting: seq<string>): Resolution
    requires i <= |tasks|
    decreases |tasks| - i
  {
    if i == |tasks| then (if waiting != [] then InProgress(waiting) else Exhausted)
    else
      var t := tasks[i];
      if TaskError(t).Some? then Invalid(TaskError(t).value)
      else if Done(ledger, t.id) then ResolveFrom(tasks, i + 1, ledger, waiting)
      else if Running(ledger, t.id) then ResolveFrom(tasks, i + 1, ledger, waiting + [t.id])
      else if Starts(ledger, t.id) >= Attempts(t) then ResolveFrom(tasks, i + 1, ledger, waiting)
      else Ready(t, Starts(ledger, t.id))
  }

  function Resolve(tasks: seq<Task>, ledger: seq<Entry>): Resolution { ResolveFrom(tasks, 0, ledger, []) }

  /** Each id's statuses, in ledger order; an id without events is absent. */
  ghost predicate Grouped(events: map<string, seq<Status>>, ledger: seq<Entry>) {
    forall id {:trigger StatusesOf(ledger, id)} :: (if id in events then events[id] else []) == StatusesOf(ledger, id)
  }

  lemma EntryStatuses(ledger: seq<Entry>, e: Entry, id: string)
    ensures StatusesOf(ledger + [e], id) == StatusesOf(ledger, id) + if e.taskId == id then [e.status] else []
    ensures Starts(ledger + [e], id) == Starts(ledger, id) + if e.taskId == id && e.status.Started? then 1 else 0
  {
    assert (ledger + [e])[..|ledger|] == ledger;
    StartsSnoc(StatusesOf(ledger, id), e.status);
    assert StatusesOf(ledger, id) + [] == StatusesOf(ledger, id);
  }

  lemma StartsSnoc(s: seq<Status>, x: Status)
    ensures StartsIn(s + [x]) == StartsIn(s) + if x.Started? then 1 else 0
  {
    assert (s + [x])[..|s|] == s;
  }

  lemma GroupedSnoc(events: map<string, seq<Status>>, ledger: seq<Entry>, e: Entry)
    requires Grouped(events, ledger)
    ensures Grouped(events[e.taskId := (if e.taskId in events then events[e.taskId] else []) + [e.status]], ledger + [e])
  {
    hide StatusesOf, Starts;
    var after := events[e.taskId := (if e.taskId in events then events[e.taskId] else []) + [e.status]];
    forall id ensures (if id in after then after[id] else []) == StatusesOf(ledger + [e], id) {
      EntryStatuses(ledger, e, id);
      assert (if id in events then events[id] else []) == StatusesOf(ledger, id);
      assert StatusesOf(ledger, id) + [] == StatusesOf(ledger, id);
    }
  }

  method CollectEvents(ledger: seq<Entry>) returns (events: map<string, seq<Status>>)
    ensures forall id :: (if id in events then events[id] else []) == StatusesOf(ledger, id)
  {
    events := map[];
    assert Grouped(events, []);
    hide StatusesOf;
    for k := 0 to |ledger|
      invariant Grouped(events, ledger[..k])
    {
      hide Grouped;
      GroupedSnoc(events, ledger[..k], ledger[k]);
      assert ledger[..k] + [ledger[k]] == ledger[..k + 1];
      var id := ledger[k].taskId;
      events := events[id := (if id in events then events[id] else []) + [ledger[k].status]];
    }
    assert ledger[..|ledger|] == ledger;
  }

  method CountStarts(statuses: seq<Status>) returns (n: nat)
    ensures n == StartsIn(statuses)
  {
    n := 0;
    for k := 0 to |statuses|
      invariant n == StartsIn(statuses[..k])
    {
      assert statuses[..k + 1][..k] == statuses[..k];
      n := n + if statuses[k].Started? then 1 else 0;
    }
    assert statuses[..|statuses|] == statuses;
  }

  method ResolveProductiveFallback(tasks: seq<Task>, ledger: seq<Entry>) returns (r: Resolution)
    ensures r == Resolve(tasks, ledger)
  {
    hide StatusesOf;
    hide StartsIn;
    var events := CollectEvents(ledger);
    var waiting: seq<string> := [];
    for i := 0 to |tasks|
      invariant Resolve(tasks, ledger) == ResolveFrom(tasks, i, ledger, waiting)
    {
      var t := tasks[i];
      if t.id == "" || t.runner == "" {
        return Invalid(MissingId);
      }
      if t.maxRuntimeSec <= 0 || t.maxRuntimeSec > 1_800 {
        return Invalid(BadRuntime);
      }
      if Attempts(t) <= 0 || Attempts(t) > 2 {
        return Invalid(BadAttempts);
      }
      var statuses := if t.id in events then events[t.id] else [];
      assert statuses == StatusesOf(ledger, t.id);
      if Completed in statuses {
        continue;
      }
      var attempts := CountStarts(statuses);
      if statuses != [] && statuses[|statuses| - 1].Started? {
        waiting := waiting + [t.id];
        continue;
      }
      if attempts >= Attempts(t) {
        continue;
      }
      return Ready(t, attempts);
    }
    return if waiting != [] then InProgress(waiting) else Exhausted;
  }

  // ---- The runner ----

  /** How one run ends: an exception escaping as an interrupt releases the lock without an event; a
      killed process leaves the lock. */
  datatype End = Succeeds | Fails | Interrupted | KilledBeforeStart | KilledRunning | KilledAfter(ok: bool)

  datatype Files = Files(ledger: seq<Entry>, locked: bool)

  function RunError(t: Task, ledger: seq<Entry>): Option<QueueError> {
    if t.id == "" then Some(MissingId)
    else if t.runner !in SUPPORTED then Some(UnsupportedRunner)
    else if t.maxRuntimeSec <= 0 || t.maxRuntimeSec > 1_800 then Some(BadRuntime)
    else if Done(ledger, t.id) then Some(AlreadyCompleted)
    else if Starts(ledger, t.id) >= Attempts(t) then Some(AttemptsExhausted)
    else None
  }

  function EntriesOf(t: Task, end: End): seq<Entry> {
    match end
    case Succeeds => [Entry(t.id, Started), Entry(t.id, Completed)]
    case Fails => [Entry(t.id, Started), Entry(t.id, Failed)]
    case Interrupted => [Entry(t.id, Started)]
    case KilledBeforeStart => []
    case KilledRunning => [Entry(t.id, Started)]
    case KilledAfter(ok) => [Entry(t.id, Started), Entry(t.id, if ok then Completed else Failed)]
  }

  predicate LeavesLock(end: End) { end.KilledBeforeStart? || end.KilledRunning? || end.KilledAfter? }

  function AfterRun(f: Files, t: Task, end: End): Files {
    if RunError(t, f.ledger).Some? || f.locked then f
    else Files(f.ledger + EntriesOf(t, end), LeavesLock(end))
  }

  class FallbackQueue {
    var ledger: seq<Entry>
    var locked: bool

    constructor ()
      ensures ledger == [] && !locked
    {
      ledger, locked := [], false;
    }

    ghost function State(): Files reads this { Files(ledger, locked) }

    method Append(e: Entry)
      modifies this`ledger
      ensures ledger == old(ledger) + [e]
    {
      ledger := ledger + [e];
    }

    method RunTask(t: Task, end: End) returns (r: Result<(), QueueError>)
      modifies this
      ensures State() == AfterRun(old(State()), t, end)
      ensures RunError(t, old(ledger)).Some? ==> r == Err(RunError(t, old(ledger)).value)
      ensures RunError(t, old(ledger)).None? && old(locked) ==> r == Err(AlreadyOwned)
    {
      if t.id == "" {
        return Err(MissingId);
      }
      if t.runner !in SUPPORTED {
        return Err(UnsupportedRunner);
      }
      if t.maxRuntimeSec <= 0 || t.maxRuntimeSec > 1_800 {
        return Err(BadRuntime);
      }
      if Done(ledger, t.id) {
        return Err(AlreadyCompleted);
      }
      if Starts(ledger, t.id) >= Attempts(t) {
        return Err(AttemptsExhausted);
      }
      if locked {
        return Err(AlreadyOwned);
      }
      locked := true;
      if end.KilledBeforeStart? {
        return Err(TaskFailed);
      }
      Append(Entry(t.id, Started));
      if end.KilledRunning? {
        return Err(TaskFailed);
      }
      if end.Interrupted? {
        locked := false;
        return Err(TaskFailed);
      }
      var ok := end.Succeeds? || (end.KilledAfter? && end.ok);
      Append(Entry(t.id, if ok then Completed else Failed));
      assert ledger == old(ledger) + EntriesOf(t, end);
      if end.KilledAfter? {
        return Err(TaskFailed);
      }
      locked := false;
      r := if ok then Ok(()) else Err(TaskFailed);
    }

    /** One unattended run: resolve, then run what is ready. */
    method RunNext(tasks: seq<Task>, end: End) returns (r: Resolution)
      modifies this
      ensures r == Resolve(tasks, old(ledger))
      ensures State() == NextRun(old(State()), tasks, end)
    {
      r := ResolveProductiveFallback(tasks, ledger);
      if r.Ready? {
        var result := RunTask(r.task, end);
      }
    }
  }

  function NextRun(f: Files, tasks: seq<Task>, end: End): Files {
    var r := Resolve(tasks, f.ledger);
    if r.Ready? then AfterRun(f, r.task, end) else f
  }

  // ---- Resolver and runner agree ----

  lemma {:induction false} ReadyFrom(tasks: seq<Task>, i: nat, ledger: seq<Entry>, waiting: seq<string>)
    requires i <= |tasks|
    ensures var r := ResolveFrom(tasks, i, ledger, waiting);
            && (r.Ready? ==> r.task in tasks[i..] && TaskError(r.task).None? && Selectable(r.task, ledger)
                             && r.attempts == Starts(ledger, r.task.id))
            && (r.InProgress? || r.Exhausted? ==> forall t :: t in tasks[i..] ==> !Selectable(t, ledger))
            && (r.Invalid? ==> exists t :: t in tasks[i..] && TaskError(t).Some?)
    decreases |tasks| - i
  {
    hide Done;
    hide Running;
    hide Starts;
    hide TaskError;
    if i < |tasks| {
      var t := tasks[i];
      assert t in tasks[i..] && forall u :: u in tasks[i..] <==> u == t || u in tasks[i + 1..];
      ReadyFrom(tasks, i + 1, ledger, waiting);
      ReadyFrom(tasks, i + 1, ledger, waiting + [t.id]);
    }
  }

  /** The resolver takes the first selectable entry, and nothing before it is invalid. */
  lemma {:induction false} ReadyIsFirst(tasks: seq<Task>, i: nat, ledger: seq<Entry>, waiting: seq<string>) returns (k: nat)
    requires i <= |tasks| && ResolveFrom(tasks, i, ledger, waiting).Ready?
    ensures i <= k < |tasks| && tasks[k] == ResolveFrom(tasks, i, ledger, waiting).task && Selectable(tasks[k], ledger)
    ensures forall j :: i <= j < k ==> TaskError(tasks[j]).None? && !Selectable(tasks[j], ledger)
    decreases |tasks| - i
  {
    hide Done, Running, Starts, TaskError;
    var t := tasks[i];
    if Selectable(t, ledger) {
      k := i;
    } else {
      k := ReadyIsFirst(tasks, i + 1, ledger, if !Done(ledger, t.id) && Running(ledger, t.id) then waiting + [t.id] else waiting);
    }
  }

  /** What the resolver calls ready passes the runner's completed and attempt checks; the one check the
      two do not share is the runner's own list of supported runners. */
  lemma ReadyIsRunnable(tasks: seq<Task>, ledger: seq<Entry>)
    requires Resolve(tasks, ledger).Ready?
    ensures var t := Resolve(tasks, ledger).task;
            && t in tasks && !Done(ledger, t.id) && Starts(ledger, t.id) < Attempts(t)
            && (RunError(t, ledger).None? <==> t.runner in SUPPORTED)
  {
    ReadyFrom(tasks, 0, ledger, []);
    assert tasks[0..] == tasks;
  }

  // ---- Discipline of the ledger ----

  /** A task was started at most `max` times and completed at most once, with nothing after that. */
  ghost predicate Disciplined(ledger: seq<Entry>, id: string, max: int) {
    var s := StatusesOf(ledger, id);
    && StartsIn(s) <= max
    && forall i :: 0 <= i < |s| && s[i].Completed? ==> i == |s| - 1
  }

  lemma {:induction false} StatusesConcat(a: seq<Entry>, b: seq<Entry>, id: string)
    ensures StatusesOf(a + b, id) == StatusesOf(a, id) + StatusesOf(b, id)
  {
    if b == [] {
      assert a + b == a;
    } else {
      assert (a + b)[..|a + b| - 1] == a + b[..|b| - 1];
      StatusesConcat(a, b[..|b| - 1], id);
    }
  }

  /** Starting a task keeps the discipline exactly when the runner's two checks hold of the ledger it
      is appended to. The runner makes them before it takes its lock, so this is what a second runner
      with a stale reading breaks. */
  lemma StartKeepsDiscipline(ledger: seq<Entry>, t: Task)
    requires Disciplined(ledger, t.id, Attempts(t))
    ensures Disciplined(ledger + [Entry(t.id, Started)], t.id, Attempts(t))
       <==> !Done(ledger, t.id) && Starts(ledger, t.id) < Attempts(t)
  {
    EntryStatuses(ledger, Entry(t.id, Started), t.id);
    var s := StatusesOf(ledger, t.id);
    var longer := s + [Started];
    assert StatusesOf(ledger + [Entry(t.id, Started)], t.id) == longer;
    assert forall i :: 0 <= i < |s| ==> longer[i] == s[i];
    if Done(ledger, t.id) {
      var i :| 0 <= i < |s| && s[i].Completed?;
      assert longer[i].Completed? && i != |longer| - 1;
    }
  }

  lemma EndKeepsDiscipline(ledger: seq<Entry>, id: string, max: int, status: Status)
    requires Disciplined(ledger, id, max) && !Done(ledger, id) && !status.Started?
    ensures Disciplined(ledger + [Entry(id, status)], id, max)
  {
    EntryStatuses(ledger, Entry(id, status), id);
  }

  lemma OtherKeepsDiscipline(ledger: seq<Entry>, e: Entry, id: string, max: int)
    requires Disciplined(ledger, id, max) && e.taskId != id
    ensures Disciplined(ledger + [e], id, max)
  {
    EntryStatuses(ledger, e, id);
  }

  /** How a run that got as far as ending its work records it. */
  predicate RecordsEnd(end: End) { end.Succeeds? || end.Fails? || end.KilledAfter? }

  function EndStatus(end: End): Status { if end.Succeeds? || (end.KilledAfter? && end.ok) then Completed else Failed }

  lemma EntriesShape(ledger: seq<Entry>, t: Task, end: End)
    ensures var begun := ledger + [Entry(t.id, Started)];
            ledger + EntriesOf(t, end) == if end.KilledBeforeStart? then ledger
                                          else if RecordsEnd(end) then begun + [Entry(t.id, EndStatus(end))] else begun
  {
    assert ledger + [] == ledger;
    if RecordsEnd(end) {
      assert ledger + [Entry(t.id, Started)] + [Entry(t.id, EndStatus(end))]
          == ledger + [Entry(t.id, Started), Entry(t.id, EndStatus(end))];
    }
  }

  lemma StartDiscipline(ledger: seq<Entry>, t: Task, id: string, max: int)
    requires Disciplined(ledger, id, max) && (t.id == id ==> Attempts(t) == max) && RunError(t, ledger).None?
    ensures Disciplined(ledger + [Entry(t.id, Started)], id, max)
    ensures t.id == id ==> !Done(ledger + [Entry(t.id, Started)], id)
  {
    EntryStatuses(ledger, Entry(t.id, Started), id);
    hide Disciplined, Starts, StatusesOf;
    if t.id == id { StartKeepsDiscipline(ledger, t); } else { OtherKeepsDiscipline(ledger, Entry(t.id, Started), id, max); }
  }

  /** Every serial run of any task keeps every task disciplined, however the run ends. */
  lemma RunKeepsDiscipline(f: Files, t: Task, end: End, id: string, max: int)
    requires Disciplined(f.ledger, id, max) && (t.id == id ==> Attempts(t) == max)
    ensures Disciplined(AfterRun(f, t, end).ledger, id, max)
  {
    hide Disciplined, Done, RunError, EntriesOf;
    if RunError(t, f.ledger).None? && !f.locked {
      var begun, status := f.ledger + [Entry(t.id, Started)], EndStatus(end);
      StartDiscipline(f.ledger, t, id, max);
      if t.id == id { EndKeepsDiscipline(begun, id, max, status); } else { OtherKeepsDiscipline(begun, Entry(t.id, status), id, max); }
      EntriesShape(f.ledger, t, end);
    }
  }

  datatype Command = Run(task: Task, end: End) | Unlock

  function After(commands: seq<Command>): Files {
    if commands == [] then Files([], false)
    else
      var f, c := After(commands[..|commands| - 1]), commands[|commands| - 1];
      if c.Unlock? then f.(locked := false) else AfterRun(f, c.task, c.end)
  }

  /** Over all serial runs, by resolver or by task id, with deaths and operator unlocks: a task starts at
      most its allowed number of times, completes at most once, and never starts again after that. */
  lemma {:induction false} SerialRunsAreDisciplined(commands: seq<Command>, id: string, max: nat)
    requires forall c :: c in commands && c.Run? && c.task.id == id ==> Attempts(c.task) == max
    ensures Disciplined(After(commands).ledger, id, max)
  {
    if commands != [] {
      var front, c := commands[..|commands| - 1], commands[|commands| - 1];
      assert commands == front + [c];
      SerialRunsAreDisciplined(front, id, max);
      if c.Run? { RunKeepsDiscipline(After(front), c.task, c.end, id, max); }
    }
  }

  lemma FreshIsEligible(t: Task)
    requires TaskError(t).None? && t.runner in SUPPORTED
    ensures RunError(t, []).None?
  {
  }

  /** Two runners that both read the ledger before either locks it break the bound: the second starts a
      task that the first has completed. */
  lemma StaleReadingStartsCompletedTask(t: Task)
    requires TaskError(t).None? && t.runner in SUPPORTED
    ensures RunError(t, []).None?
    ensures var first := [Entry(t.id, Started), Entry(t.id, Completed)];
            var second := first + [Entry(t.id, Started)];
            Disciplined(first, t.id, Attempts(t)) && RunError(t, first).Some? && !Disciplined(second, t.id, Attempts(t))
  {
    FreshIsEligible(t);
    var begun := [Entry(t.id, Started)];
    var first := [Entry(t.id, Started), Entry(t.id, Completed)];
    assert begun == [] + begun && first == begun + [Entry(t.id, Completed)];
    EntryStatuses([], Entry(t.id, Started), t.id);
    EntryStatuses(begun, Entry(t.id, Completed), t.id);
    hide StatusesOf;
    StartKeepsDiscipline([], t);
    EndKeepsDiscipline(begun, t.id, Attempts(t), Completed);
    StartKeepsDiscipline(first, t);
  }

  // ---- The queue drains ----

  function Left(t: Task, ledger: seq<Entry>): nat {
    if Attempts(t) > Starts(ledger, t.id) then Attempts(t) - Starts(ledger, t.id) else 0
  }

  function Budget(tasks: seq<Task>, ledger: seq<Entry>): nat {
    if tasks == [] then 0 else Budget(tasks[..|tasks| - 1], ledger) + Left(tasks[|tasks| - 1], ledger)
  }

  lemma {:induction false} BudgetFalls(tasks: seq<Task>, before: seq<Entry>, after: seq<Entry>)
    requires forall t :: t in tasks ==> Left(t, after) <= Left(t, before)
    ensures Budget(tasks, after) <= Budget(tasks, before)
    ensures (exists t :: t in tasks && Left(t, after) < Left(t, before)) ==> Budget(tasks, after) < Budget(tasks, before)
  {
    if tasks != [] {
      assert tasks == tasks[..|tasks| - 1] + [tasks[|tasks| - 1]];
      BudgetFalls(tasks[..|tasks| - 1], before, after);
    }
  }

  lemma RunStartsOnce(ledger: seq<Entry>, t: Task, end: End, id: string)
    requires !end.KilledBeforeStart?
    ensures Starts(ledger + EntriesOf(t, end), id) == Starts(ledger, id) + if t.id == id then 1 else 0
  {
    var begun := ledger + [Entry(t.id, Started)];
    EntriesShape(ledger, t, end);
    EntryStatuses(ledger, Entry(t.id, Started), id);
    EntryStatuses(begun, Entry(t.id, EndStatus(end)), id);
    hide Starts, StatusesOf, EntriesOf;
  }

  /** An unattended run appends what the ready task's run records, or nothing. */
  lemma NextRunAppends(f: Files, tasks: seq<Task>, end: End)
    ensures var r := Resolve(tasks, f.ledger);
            NextRun(f, tasks, end).ledger == f.ledger || (r.Ready? && NextRun(f, tasks, end).ledger == f.ledger + EntriesOf(r.task, end))
    ensures var r := Resolve(tasks, f.ledger);
            r.Ready? && r.task.runner in SUPPORTED && !f.locked ==> NextRun(f, tasks, end).ledger == f.ledger + EntriesOf(r.task, end)
  {
    if Resolve(tasks, f.ledger).Ready? { ReadyIsRunnable(tasks, f.ledger); }
    hide RunError, Resolve, EntriesOf;
  }

  /** A run of a ready, supported task spends one attempt, whether or not it survives. */
  lemma ReadyRunSpends(f: Files, tasks: seq<Task>, end: End)
    requires Resolve(tasks, f.ledger).Ready? && !f.locked && !end.KilledBeforeStart?
    requires Resolve(tasks, f.ledger).task.runner in SUPPORTED
    ensures Budget(tasks, NextRun(f, tasks, end).ledger) < Budget(tasks, f.ledger)
  {
    hide Budget, Starts, Resolve, NextRun, EntriesOf, RunError, Done;
    ReadyIsRunnable(tasks, f.ledger);
    NextRunAppends(f, tasks, end);
    var t := Resolve(tasks, f.ledger).task;
    var after := f.ledger + EntriesOf(t, end);
    forall u | u in tasks ensures Left(u, after) <= Left(u, f.ledger) { RunStartsOnce(f.ledger, t, end, u.id); }
    RunStartsOnce(f.ledger, t, end, t.id);
    assert Left(t, after) < Left(t, f.ledger);
    hide Left;
    BudgetFalls(tasks, f.ledger, after);
  }

  /** Unattended runs one after the other, each with the lock cleared before it. */
  function Unattended(f: Files, tasks: seq<Task>, ends: seq<End>): Files {
    if ends == [] then f
    else NextRun(Unattended(f, tasks, ends[..|ends| - 1]).(locked := false), tasks, ends[|ends| - 1])
  }

  /** The runs that got as far as their STARTED event. */
  function StartedRuns(ends: seq<End>): nat {
    if ends == [] then 0
    else StartedRuns(ends[..|ends| - 1]) + if ends[|ends| - 1].KilledBeforeStart? then 0 else 1
  }

  /** An entry that the resolver offers and no run can start. */
  predicate Blocks(t: Task, ledger: seq<Entry>) { t.runner !in SUPPORTED && Selectable(t, ledger) }

  lemma {:induction false} NoEntries(entries: seq<Entry>, id: string)
    requires forall i :: 0 <= i < |entries| ==> entries[i].taskId != id
    ensures StatusesOf(entries, id) == []
  {
    if entries != [] { NoEntries(entries[..|entries| - 1], id); }
  }

  lemma OthersLeaveNothing(ledger: seq<Entry>, t: Task, end: End, id: string)
    requires t.id != id
    ensures StatusesOf(ledger + EntriesOf(t, end), id) == StatusesOf(ledger, id)
  {
    NoEntries(EntriesOf(t, end), id);
    StatusesConcat(ledger, EntriesOf(t, end), id);
    assert StatusesOf(ledger, id) + [] == StatusesOf(ledger, id);
  }

  lemma EntriesKeepUnselectable(ledger: seq<Entry>, u: Task, end: End, t: Task)
    requires Selectable(u, ledger) && !Selectable(t, ledger)
    ensures !Selectable(t, ledger + EntriesOf(u, end))
  {
    EntriesShape(ledger, u, end);
    if u.id != t.id {
      OthersLeaveNothing(ledger, u, end, t.id);
    } else if !end.KilledBeforeStart? {
      RunStartsOnce(ledger, u, end, t.id);
      hide EntriesOf, Starts;
    }
  }

  /** A run makes no entry selectable that was not. */
  lemma StaysUnselectable(f: Files, tasks: seq<Task>, end: End, t: Task)
    requires !Selectable(t, f.ledger)
    ensures !Selectable(t, NextRun(f, tasks, end).ledger)
  {
    ReadyFrom(tasks, 0, f.ledger, []);
    var r := Resolve(tasks, f.ledger);
    NextRunAppends(f, tasks, end);
    hide Selectable, Resolve, NextRun, EntriesOf;
    if r.Ready? { EntriesKeepUnselectable(f.ledger, r.task, end, t); }
  }

  lemma {:induction false} PositiveBudget(tasks: seq<Task>, ledger: seq<Entry>, t: Task)
    requires t in tasks && Left(t, ledger) > 0
    ensures Budget(tasks, ledger) > 0
  {
    if tasks[|tasks| - 1] != t {
      assert tasks == tasks[..|tasks| - 1] + [tasks[|tasks| - 1]];
      PositiveBudget(tasks[..|tasks| - 1], ledger, t);
    }
  }

  lemma ReadyDoesNotBlock(tasks: seq<Task>, ledger: seq<Entry>)
    requires Resolve(tasks, ledger).Ready? && forall t :: t in tasks ==> !Blocks(t, ledger)
    ensures Resolve(tasks, ledger).task.runner in SUPPORTED
  {
    hide Selectable;
    ReadyFrom(tasks, 0, ledger, []);
    assert tasks[0..] == tasks;
  }

  /** Each started run either finds nothing ready or lowers the budget by at least one. */
  lemma {:induction false} DrainStep(f: Files, tasks: seq<Task>, ends: seq<End>)
    requires forall t :: t in tasks ==> !Blocks(t, f.ledger)
    ensures var last := Unattended(f, tasks, ends);
            && (forall t :: t in tasks ==> !Blocks(t, last.ledger))
            && (!Resolve(tasks, last.ledger).Ready? || Budget(tasks, last.ledger) + StartedRuns(ends) <= Budget(tasks, f.ledger))
  {
    if ends != [] {
      hide Selectable, Resolve, Budget, AfterRun;
      var front, e := ends[..|ends| - 1], ends[|ends| - 1];
      DrainStep(f, tasks, front);
      var before := Unattended(f, tasks, front).(locked := false);
      var last := NextRun(before, tasks, e);
      forall t | t in tasks ensures !Blocks(t, last.ledger) {
        if t.runner !in SUPPORTED { StaysUnselectable(before, tasks, e, t); }
      }
      if Resolve(tasks, before.ledger).Ready? {
        ReadyDoesNotBlock(tasks, before.ledger);
        if e.KilledBeforeStart? {
          StartlessRun(before, tasks, e);
        } else {
          ReadyRunSpends(before, tasks, e);
        }
      }
    }
  }

  lemma StartlessRun(f: Files, tasks: seq<Task>, end: End)
    requires end.KilledBeforeStart?
    ensures NextRun(f, tasks, end).ledger == f.ledger
  {
    assert f.ledger + [] == f.ledger;
  }

  /** With nothing blocking, the queue drains: after as many started runs as attempts are left in all,
      whether they succeed, fail or die, the resolver no longer finds a ready task. */
  lemma {:induction false} QueueDrains(f: Files, tasks: seq<Task>, ends: seq<End>)
    requires forall t :: t in tasks ==> TaskError(t).None? && !Blocks(t, f.ledger)
    requires StartedRuns(ends) >= Budget(tasks, f.ledger)
    ensures var r := Resolve(tasks, Unattended(f, tasks, ends).ledger); r.InProgress? || r.Exhausted?
  {
    DrainStep(f, tasks, ends);
    var last := Unattended(f, tasks, ends);
    ReadyFrom(tasks, 0, last.ledger, []);
    assert tasks[0..] == tasks;
    if Resolve(tasks, last.ledger).Ready? {
      PositiveBudget(tasks, last.ledger, Resolve(tasks, last.ledger).task);
    }
  }

  /** A blocking entry stays as it is and keeps the queue from draining, however many runs are made. */
  lemma {:induction false} BlockedNeverDrains(f: Files, tasks: seq<Task>, ends: seq<End>, stuck: Task)
    requires forall t :: t in tasks ==> TaskError(t).None?
    requires stuck in tasks && Blocks(stuck, f.ledger)
    requires forall t :: t in tasks && t.id == stuck.id ==> t == stuck
    ensures StatusesOf(Unattended(f, tasks, ends).ledger, stuck.id) == StatusesOf(f.ledger, stuck.id)
    ensures Resolve(tasks, Unattended(f, tasks, ends).ledger).Ready?
  {
    hide Resolve, StatusesOf;
    if ends != [] {
      var front, e := ends[..|ends| - 1], ends[|ends| - 1];
      BlockedNeverDrains(f, tasks, front, stuck);
      BlockedStep(Unattended(f, tasks, front).(locked := false), tasks, e, stuck);
    }
    var last := Unattended(f, tasks, ends);
    assert Selectable(stuck, last.ledger);
    SelectableMeansReady(tasks, last.ledger, stuck);
  }

  lemma SelectableMeansReady(tasks: seq<Task>, ledger: seq<Entry>, t: Task)
    requires t in tasks && Selectable(t, ledger) && forall u :: u in tasks ==> TaskError(u).None?
    ensures Resolve(tasks, ledger).Ready?
  {
    hide Selectable, TaskError;
    ReadyFrom(tasks, 0, ledger, []);
    assert tasks[0..] == tasks;
  }

  lemma BlockedStep(f: Files, tasks: seq<Task>, end: End, stuck: Task)
    requires stuck.runner !in SUPPORTED && forall t :: t in tasks && t.id == stuck.id ==> t == stuck
    ensures StatusesOf(NextRun(f, tasks, end).ledger, stuck.id) == StatusesOf(f.ledger, stuck.id)
  {
    hide StatusesOf;
    var r := Resolve(tasks, f.ledger);
    if r.Ready? {
      ReadyFrom(tasks, 0, f.ledger, []);
      assert tasks[0..] == tasks;
      hide Resolve;
      if r.task != stuck { OthersLeaveNothing(f.ledger, r.task, end, stuck.id); }
    }
  }

  /** Exactly when the queue drains: for valid tasks with distinct ids, enough started runs leave nothing
      ready if and only if no entry with an unsupported runner is selectable at the start. */
  lemma {:induction false} QueueDrainsIff(f: Files, tasks: seq<Task>, ends: seq<End>)
    requires forall t :: t in tasks ==> TaskError(t).None?
    requires forall t, u :: t in tasks && u in tasks && t.id == u.id ==> t == u
    requires StartedRuns(ends) >= Budget(tasks, f.ledger)
    ensures var r := Resolve(tasks, Unattended(f, tasks, ends).ledger);
            && (!r.Ready? <==> forall t :: t in tasks ==> t.runner in SUPPORTED || !Selectable(t, f.ledger))
            && (!r.Ready? ==> r.InProgress? || r.Exhausted?)
  {
    hide Resolve, Unattended, Budget, Selectable;
    if stuck :| stuck in tasks && Blocks(stuck, f.ledger) {
      BlockedNeverDrains(f, tasks, ends, stuck);
    } else {
      QueueDrains(f, tasks, ends);
    }
  }
}
