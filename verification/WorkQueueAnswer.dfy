/** What the resolver and the runner of the fallback queue answer, told from the events of the ledger. */
module WorkQueueAnswer {
  import opened Sequences
  import opened WorkQueue

  // ---- What the ledger says of a task ----

  ghost predicate HasCompleted(ledger: seq<Entry>, id: string) { Entry(id, Completed) in ledger }

  /** Its last event is a start. */
  ghost predicate InFlight(ledger: seq<Entry>, id: string) {
    exists i :: 0 <= i < |ledger| && ledger[i] == Entry(id, Started) && forall k :: i < k < |ledger| ==> ledger[k].taskId != id
  }

  /** As often as its start stands in the ledger. */
  function StartCount(ledger: seq<Entry>, id: string): nat { multiset(ledger)[Entry(id, Started)] }

  lemma {:induction false} LedgerReads(ledger: seq<Entry>, id: string)
    ensures Done(ledger, id) <==> HasCompleted(ledger, id)
    ensures Running(ledger, id) <==> InFlight(ledger, id)
    ensures Starts(ledger, id) == StartCount(ledger, id)
    ensures StatusesOf(ledger, id) == [] <==> forall e :: e in ledger ==> e.taskId != id
  {
    if ledger != [] {
      var front, e := ledger[..|ledger| - 1], ledger[|ledger| - 1];
      assert ledger == front + [e];
      LedgerReads(front, id);
      EntryStatuses(front, e, id);
      StatusesGrow(front, e, id);
      FlightOneMore(front, e, id);
      hide StatusesOf, StartsIn, Done, Running, InFlight;
    }
  }

  lemma StatusesGrow(front: seq<Entry>, e: Entry, id: string)
    ensures Done(front + [e], id) <==> Done(front, id) || (e.taskId == id && e.status.Completed?)
    ensures Running(front + [e], id) <==> if e.taskId == id then e.status.Started? else Running(front, id)
    ensures StatusesOf(front + [e], id) == [] <==> StatusesOf(front, id) == [] && e.taskId != id
  {
    EntryStatuses(front, e, id);
    hide StatusesOf, Starts;
  }

  lemma FlightOneMore(front: seq<Entry>, e: Entry, id: string)
    ensures InFlight(front + [e], id) <==> if e.taskId == id then e.status.Started? else InFlight(front, id)
  {
    var ledger := front + [e];
    if e.taskId == id {
      assert ledger[|front|] == e;
    } else {
      if i :| 0 <= i < |front| && front[i] == Entry(id, Started) && forall k :: i < k < |front| ==> front[k].taskId != id {
        assert ledger[i] == front[i] && forall k :: i < k < |ledger| ==> ledger[k].taskId != id;
      }
      if i :| 0 <= i < |ledger| && ledger[i] == Entry(id, Started) && forall k :: i < k < |ledger| ==> ledger[k].taskId != id {
        assert front[i] == ledger[i] && forall k :: i < k < |front| ==> front[k] == ledger[k];
      }
    }
  }

  // ---- What a policy entry needs ----

  /** An id, a runner, at most half an hour, and one attempt or two; no number of attempts means one. */
  predicate Valid(t: Task) {
    t.id != "" && t.runner != "" && 1 <= t.maxRuntimeSec <= 1_800 && t.maxAttempts in {0, 1, 2}
  }

  function Allowed(t: Task): int { if t.maxAttempts == 0 then 1 else t.maxAttempts }

  /** The fault of an entry that is not valid, the first in this order. */
  ghost predicate Faulty(t: Task, error: QueueError) {
    match error
    case MissingId => t.id == "" || t.runner == ""
    case BadRuntime => t.id != "" && t.runner != "" && !(1 <= t.maxRuntimeSec <= 1_800)
    case BadAttempts => t.id != "" && t.runner != "" && 1 <= t.maxRuntimeSec <= 1_800 && t.maxAttempts !in {0, 1, 2}
    case _ => false
  }

  lemma FaultsAre(t: Task)
    ensures TaskError(t).None? <==> Valid(t)
    ensures forall error :: TaskError(t) == Some(error) <==> Faulty(t, error)
  {
  }

  /** Waiting for nothing: not completed, not running and not out of attempts. */
  ghost predicate Free(t: Task, ledger: seq<Entry>) {
    !HasCompleted(ledger, t.id) && !InFlight(ledger, t.id) && StartCount(ledger, t.id) < Allowed(t)
  }

  /** Not completed, and the last event is a start. */
  ghost predicate Underway(t: Task, ledger: seq<Entry>) { !HasCompleted(ledger, t.id) && InFlight(ledger, t.id) }

  lemma FreeIsSelectable(t: Task, ledger: seq<Entry>)
    ensures Free(t, ledger) <==> Selectable(t, ledger)
    ensures Underway(t, ledger) <==> !Done(ledger, t.id) && Running(ledger, t.id)
  {
    LedgerReads(ledger, t.id);
    hide Done, Running, Starts, StartCount, HasCompleted, InFlight;
  }

  ghost function UnderwayIds(tasks: seq<Task>, ledger: seq<Entry>): seq<string> {
    if tasks == [] then []
    else (if Underway(tasks[0], ledger) then [tasks[0].id] else []) + UnderwayIds(tasks[1..], ledger)
  }

  // ---- The resolver ----

  /** Where the resolver stops: at the first entry that is not valid or is free. */
  ghost predicate StopsAt(tasks: seq<Task>, ledger: seq<Entry>, k: nat) {
    && k <= |tasks| && (forall j :: 0 <= j < k ==> Valid(tasks[j]) && !Free(tasks[j], ledger))
    && (k < |tasks| ==> !Valid(tasks[k]) || Free(tasks[k], ledger))
  }

  /** What it answers there. */
  ghost predicate Answers(tasks: seq<Task>, ledger: seq<Entry>, k: nat, r: Resolution)
    requires k <= |tasks|
  {
    if k < |tasks| then
      if Valid(tasks[k]) then r == Ready(tasks[k], StartCount(ledger, tasks[k].id))
      else r.Invalid? && Faulty(tasks[k], r.error)
    else
      r == if UnderwayIds(tasks, ledger) != [] then InProgress(UnderwayIds(tasks, ledger)) else Exhausted
  }

  lemma {:induction false} ResolveFromAnswers(tasks: seq<Task>, i: nat, ledger: seq<Entry>, waiting: seq<string>)
    returns (k: nat)
    requires i <= |tasks|
    requires forall j :: 0 <= j < i ==> Valid(tasks[j]) && !Free(tasks[j], ledger)
    requires waiting + UnderwayIds(tasks[i..], ledger) == UnderwayIds(tasks, ledger)
    ensures StopsAt(tasks, ledger, k) && Answers(tasks, ledger, k, ResolveFrom(tasks, i, ledger, waiting))
    decreases |tasks| - i
  {
    hide Valid, Free, Underway, Faulty, TaskError, Done, Running, Starts, StartCount, Attempts;
    k := i;
    if i == |tasks| {
      assert tasks[i..] == [] && waiting + [] == waiting;
    } else {
      var t := tasks[i];
      FaultsAre(t);
      FreeIsSelectable(t, ledger);
      LedgerReads(ledger, t.id);
      if Valid(t) && !Free(t, ledger) {
        assert tasks[i..][0] == t && tasks[i..][1..] == tasks[i + 1..];
        var more := if Underway(t, ledger) then waiting + [t.id] else waiting;
        assert UnderwayIds(tasks[i..], ledger) == (if Underway(t, ledger) then [t.id] else []) + UnderwayIds(tasks[i + 1..], ledger);
        assert more + UnderwayIds(tasks[i + 1..], ledger) == UnderwayIds(tasks, ledger);
        k := ResolveFromAnswers(tasks, i + 1, ledger, more);
      }
    }
  }

  lemma {:induction false} SomeUnderway(tasks: seq<Task>, ledger: seq<Entry>)
    ensures UnderwayIds(tasks, ledger) != [] <==> exists t :: t in tasks && Underway(t, ledger)
    ensures forall id :: id in UnderwayIds(tasks, ledger) <==> exists t :: t in tasks && Underway(t, ledger) && t.id == id
  {
    hide Underway;
    if tasks != [] {
      SomeUnderway(tasks[1..], ledger);
      assert tasks == [tasks[0]] + tasks[1..];
    }
  }

  /** Completed, or without an attempt left and not running. */
  ghost predicate Spent(t: Task, ledger: seq<Entry>) {
    HasCompleted(ledger, t.id) || (!InFlight(ledger, t.id) && StartCount(ledger, t.id) >= Allowed(t))
  }

  /** Exactly what the resolver answers: ready or invalid by the first entry that is free or has a fault; else
      in progress when some entry was started last and not completed, with exactly those ids in list order;
      and exhausted only when every entry is completed or out of attempts and none is running. */
  lemma ResolvesExactly(tasks: seq<Task>, ledger: seq<Entry>) returns (k: nat)
    ensures StopsAt(tasks, ledger, k) && Answers(tasks, ledger, k, Resolve(tasks, ledger))
    ensures var r, sound := Resolve(tasks, ledger), forall t :: t in tasks ==> Valid(t);
            && (r.InProgress? <==>
                  sound && (forall t :: t in tasks ==> !Free(t, ledger)) && exists t :: t in tasks && Underway(t, ledger))
            && (r.InProgress? ==> r.ids == UnderwayIds(tasks, ledger))
            && (r.Exhausted? <==> sound && forall t :: t in tasks ==> Spent(t, ledger))
  {
    hide Valid, Faulty, ResolveFrom;
    assert tasks[0..] == tasks && [] + UnderwayIds(tasks, ledger) == UnderwayIds(tasks, ledger);
    k := ResolveFromAnswers(tasks, 0, ledger, []);
    SomeUnderway(tasks, ledger);
    NoneFree(tasks, ledger, k);
    forall t | t in tasks ensures Spent(t, ledger) <==> !Free(t, ledger) && !Underway(t, ledger) { SpentIs(t, ledger); }
    hide Spent, Free, Underway, UnderwayIds;
  }

  lemma NoneFree(tasks: seq<Task>, ledger: seq<Entry>, k: nat)
    requires StopsAt(tasks, ledger, k)
    ensures k == |tasks| <==> forall t :: t in tasks ==> Valid(t) && !Free(t, ledger)
  {
    hide Valid, Free;
    if k < |tasks| { assert tasks[k] in tasks; }
  }

  lemma SpentIs(t: Task, ledger: seq<Entry>)
    ensures Spent(t, ledger) <==> !Free(t, ledger) && !Underway(t, ledger)
  {
    hide HasCompleted, InFlight, StartCount;
  }

  // ---- The runner ----

  /** The first of the runner's checks that a task fails. */
  ghost predicate RefusedAs(t: Task, ledger: seq<Entry>, error: QueueError) {
    var known := t.id != "" && t.runner in SUPPORTED;
    var timed := known && 1 <= t.maxRuntimeSec <= 1_800;
    match error
    case MissingId => t.id == ""
    case UnsupportedRunner => t.id != "" && t.runner !in SUPPORTED
    case BadRuntime => known && !(1 <= t.maxRuntimeSec <= 1_800)
    case AlreadyCompleted => timed && HasCompleted(ledger, t.id)
    case AttemptsExhausted => timed && !HasCompleted(ledger, t.id) && StartCount(ledger, t.id) >= Allowed(t)
    case _ => false
  }

  /** Exactly when a run is refused before it takes the lock, and as what. */
  lemma RefusedExactlyWhen(t: Task, ledger: seq<Entry>)
    ensures forall error :: RunError(t, ledger) == Some(error) <==> RefusedAs(t, ledger, error)
  {
    LedgerReads(ledger, t.id);
    hide HasCompleted, Done, Starts, StartCount;
  }

  /** After any serial history a cleared lock lets every task that is not refused run to its end, and an empty
      queue needs no clearing. */
  lemma UnlockedRunsComplete(commands: seq<Command>, t: Task)
    requires RunError(t, After(commands).ledger).None?
    ensures After(commands + [Unlock, Run(t, Succeeds)])
         == Files(After(commands).ledger + [Entry(t.id, Started), Entry(t.id, Completed)], false)
    ensures commands == [] ==> After([Run(t, Succeeds)]) == Files([Entry(t.id, Started), Entry(t.id, Completed)], false)
  {
    hide RunError;
    var longer := commands + [Unlock, Run(t, Succeeds)];
    assert longer[..|longer| - 1] == commands + [Unlock];
    assert (commands + [Unlock])[..|commands|] == commands;
    if commands == [] {
      assert [Run(t, Succeeds)][..0] == commands;
      assert [] + [Entry(t.id, Started), Entry(t.id, Completed)] == [Entry(t.id, Started), Entry(t.id, Completed)];
    }
  }
}
