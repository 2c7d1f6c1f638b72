/** The bounded research backlog and its refill from a catalog (autopilot_research_backlog.py). */
module ResearchBacklog {
  import opened Sequences

  datatype Status = Pending | Running | Completed | Failed | Unknown

  datatype Task = Task(id: string, maxRuntimeSec: int, outputPath: string, status: Status)

  datatype CatalogTask = CatalogTask(id: string, maxRuntimeSec: int, outputPath: string, objective: string, inputs: nat)

  /** What reading the configured catalog gives: the hash is compared before the content is used. */
  datatype Catalog = NotConfigured | Missing | WrongHash | Loaded(tasks: seq<CatalogTask>)

  datatype BacklogError =
    | Unreadable | BadCatalog | CatalogMissing | HashMismatch | AnotherRunning | UnknownTask | NotPending | NotRunning
    | WrongArtifact | ArtifactMissing

  datatype Backlog = Backlog(tasks: seq<Task>, autoRefill: bool, refills: nat)

  datatype Ensured = NoopActive | NoAutoRefill | NothingNew | Refilled(added: seq<string>)

  datatype Next = InProgress(task: Task) | Ready(task: Task) | Exhausted(refill: Ensured)

  const MAX_RUNTIME_SEC := 1_800

  // ---- Reading ----

  predicate TaskOk(t: Task) {
    t.id != "" && 0 < t.maxRuntimeSec <= MAX_RUNTIME_SEC && !t.status.Unknown? && t.outputPath != ""
  }

  function Ids(tasks: seq<Task>): (r: seq<string>)
    ensures |r| == |tasks|
  {
    if tasks == [] then [] else Ids(tasks[..|tasks| - 1]) + [tasks[|tasks| - 1].id]
  }

  predicate Readable(tasks: seq<Task>) {
    tasks != [] ==>
      && Readable(tasks[..|tasks| - 1])
      && TaskOk(tasks[|tasks| - 1]) && tasks[|tasks| - 1].id !in Ids(tasks[..|tasks| - 1])
  }

  function StrippedIds(tasks: seq<CatalogTask>): seq<string> {
    if tasks == [] then [] else StrippedIds(tasks[..|tasks| - 1]) + [Strip(tasks[|tasks| - 1].id)]
  }

  predicate CatalogTaskOk(t: CatalogTask) {
    && Strip(t.id) != "" && 0 < t.maxRuntimeSec <= MAX_RUNTIME_SEC
    && Strip(t.outputPath) != "" && Strip(t.objective) != "" && t.inputs > 0
  }

  predicate CatalogOk(tasks: seq<CatalogTask>) {
    tasks != [] ==>
      && CatalogOk(tasks[..|tasks| - 1])
      && CatalogTaskOk(tasks[|tasks| - 1]) && Strip(tasks[|tasks| - 1].id) !in StrippedIds(tasks[..|tasks| - 1])
  }

  function CountStatus(tasks: seq<Task>, status: Status): nat {
    if tasks == [] then 0
    else CountStatus(tasks[..|tasks| - 1], status) + if tasks[|tasks| - 1].status == status then 1 else 0
  }

  /** The first task in a status, as the program's list comprehension takes it. */
  function FirstIn(tasks: seq<Task>, status: Status): Option<nat> {
    if tasks == [] then None
    else
      var before := FirstIn(tasks[..|tasks| - 1], status);
      if before.Some? then before
      else if tasks[|tasks| - 1].status == status then Some(|tasks| - 1) else None
  }

  lemma {:induction false} FirstInFacts(tasks: seq<Task>, status: Status)
    ensures FirstIn(tasks, status).None? <==> CountStatus(tasks, status) == 0
    ensures FirstIn(tasks, status).Some? ==>
              FirstIn(tasks, status).value < |tasks| && tasks[FirstIn(tasks, status).value].status == status
    ensures FirstIn(tasks, status).Some? ==>
              forall i :: 0 <= i < FirstIn(tasks, status).value < |tasks| ==> tasks[i].status != status
    ensures CountStatus(tasks, status) == 0 ==> forall i :: 0 <= i < |tasks| ==> tasks[i].status != status
  {
    if tasks != [] {
      FirstInFacts(tasks[..|tasks| - 1], status);
    }
  }

  /** The entry that stands first among those of a status. */
  ghost predicate IsFirst(tasks: seq<Task>, status: Status, t: Task) {
    exists k :: 0 <= k < |tasks| && tasks[k] == t && t.status == status && forall i :: 0 <= i < k ==> tasks[i].status != status
  }

  function IndexOf(tasks: seq<Task>, id: string): Option<nat> {
    if tasks == [] then None
    else
      var before := IndexOf(tasks[..|tasks| - 1], id);
      if before.Some? then before else if tasks[|tasks| - 1].id == id then Some(|tasks| - 1) else None
  }

  lemma {:induction false} IndexOfFacts(tasks: seq<Task>, id: string)
    ensures IndexOf(tasks, id).Some? ==> IndexOf(tasks, id).value < |tasks| && tasks[IndexOf(tasks, id).value].id == id
  {
    if tasks != [] {
      IndexOfFacts(tasks[..|tasks| - 1], id);
    }
  }

  // ---- Refill ----

  function Offer(t: CatalogTask): Task { Task(t.id, t.maxRuntimeSec, t.outputPath, Pending) }

  function RefillWith(tasks: seq<Task>, catalog: seq<CatalogTask>): (r: seq<Task>)
    ensures tasks <= r
  {
    if catalog == [] then tasks
    else
      var before := RefillWith(tasks, catalog[..|catalog| - 1]);
      if catalog[|catalog| - 1].id in Ids(before) then before else before + [Offer(catalog[|catalog| - 1])]
  }

  predicate AnyActive(tasks: seq<Task>) { CountStatus(tasks, Pending) > 0 || CountStatus(tasks, Running) > 0 }

  function EnsureResult(b: Backlog, catalog: Catalog): Result<Ensured, BacklogError> {
    if !Readable(b.tasks) then Err(Unreadable)
    else if AnyActive(b.tasks) then Ok(NoopActive)
    else if !b.autoRefill then Ok(NoAutoRefill)
    else
      match catalog
      case NotConfigured => Err(BadCatalog)
      case Missing => Err(CatalogMissing)
      case WrongHash => Err(HashMismatch)
      case Loaded(offers) =>
        if !CatalogOk(offers) then Err(BadCatalog)
        else
          var refilled := RefillWith(b.tasks, offers);
          if refilled == b.tasks then Ok(NothingNew) else Ok(Refilled(Ids(refilled)[|b.tasks|..]))
  }

  function EnsureAfter(b: Backlog, catalog: Catalog): Backlog {
    var r := EnsureResult(b, catalog);
    if r.Ok? && r.value.Refilled? then Backlog(RefillWith(b.tasks, catalog.tasks), b.autoRefill, b.refills + 1) else b
  }

  // ---- Life of one task ----

  function Move(b: Backlog, i: nat, status: Status): Backlog
    requires i < |b.tasks|
  {
    b.(tasks := b.tasks[i := b.tasks[i].(status := status)])
  }

  function ClaimError(b: Backlog, id: string): Option<BacklogError> {
    if !Readable(b.tasks) then Some(Unreadable)
    else if CountStatus(b.tasks, Running) > 0 then Some(AnotherRunning)
    else if IndexOf(b.tasks, id).None? then Some(UnknownTask)
    else
      IndexOfFacts(b.tasks, id);
      if !b.tasks[IndexOf(b.tasks, id).value].status.Pending? then Some(NotPending) else None
  }

  function FinishError(b: Backlog, id: string): Option<BacklogError> {
    if !Readable(b.tasks) then Some(Unreadable)
    else if IndexOf(b.tasks, id).None? then Some(UnknownTask)
    else
      IndexOfFacts(b.tasks, id);
      if !b.tasks[IndexOf(b.tasks, id).value].status.Running? then Some(NotRunning) else None
  }

  function CompleteError(b: Backlog, id: string, artifact: string, exists': bool): Option<BacklogError> {
    if FinishError(b, id).Some? then FinishError(b, id)
    else
      IndexOfFacts(b.tasks, id);
      if b.tasks[IndexOf(b.tasks, id).value].outputPath != artifact then Some(WrongArtifact)
      else if !exists' then Some(ArtifactMissing) else None
  }

  datatype Op =
    | Ensure(catalog: Catalog)
    | TakeNext(catalog: Catalog)
    | Claim(id: string)
    | Complete(id: string, artifact: string, present: bool)
    | Fail(id: string)

  function Apply(b: Backlog, op: Op): Backlog {
    match op
    case Ensure(catalog) => EnsureAfter(b, catalog)
    case TakeNext(catalog) =>
      if CountStatus(b.tasks, Running) > 0 || CountStatus(b.tasks, Pending) > 0 then b else EnsureAfter(b, catalog)
    case Claim(id) =>
      if ClaimError(b, id).Some? then b else IndexOfFacts(b.tasks, id); Move(b, IndexOf(b.tasks, id).value, Running)
    case Complete(id, artifact, present) =>
      if CompleteError(b, id, artifact, present).Some? then b
      else IndexOfFacts(b.tasks, id); Move(b, IndexOf(b.tasks, id).value, Completed)
    case Fail(id) =>
      if FinishError(b, id).Some? then b else IndexOfFacts(b.tasks, id); Move(b, IndexOf(b.tasks, id).value, Failed)
  }

  method Refill(tasks: seq<Task>, offers: seq<CatalogTask>) returns (current: seq<Task>, added: seq<string>)
    ensures current == RefillWith(tasks, offers)
    ensures Ids(current) == Ids(tasks) + added && |current| == |tasks| + |added|
  {
    hide Offer;
    assert forall c: CatalogTask :: Offer(c).id == c.id by {
      forall c: CatalogTask ensures Offer(c).id == c.id { OfferId(c); }
    }
    var existing := Ids(tasks);
    current, added := tasks, [];
    for i := 0 to |offers|
      invariant current == RefillWith(tasks, offers[..i]) && existing == Ids(current)
      invariant existing == Ids(tasks) + added
    {
      assert offers[..i + 1][..i] == offers[..i];
      if offers[i].id !in existing {
        assert (current + [Offer(offers[i])])[..|current|] == current;
        current := current + [Offer(offers[i])];
        existing := existing + [offers[i].id];
        added := added + [offers[i].id];
      }
    }
    assert offers[..|offers|] == offers;
  }

  lemma OfferId(c: CatalogTask)
    ensures Offer(c).id == c.id
  {
  }

  class BacklogFile {
    var tasks: seq<Task>
    var autoRefill: bool
    var refills: nat

    constructor (tasks: seq<Task>, autoRefill: bool)
      ensures Value() == Backlog(tasks, autoRefill, 0)
    {
      this.tasks, this.autoRefill, refills := tasks, autoRefill, 0;
    }

    ghost function Value(): Backlog reads this { Backlog(tasks, autoRefill, refills) }

    method EnsureBacklog(catalog: Catalog) returns (r: Result<Ensured, BacklogError>)
      modifies this
      ensures r == EnsureResult(old(Value()), catalog)
      ensures Value() == EnsureAfter(old(Value()), catalog)
    {
      hide Readable;
      hide CatalogOk;
      hide CountStatus;
      if !Readable(tasks) {
        return Err(Unreadable);
      }
      if AnyActive(tasks) {
        return Ok(NoopActive);
      }
      if !autoRefill {
        return Ok(NoAutoRefill);
      }
      match catalog {
        case NotConfigured => return Err(BadCatalog);
        case Missing => return Err(CatalogMissing);
        case WrongHash => return Err(HashMismatch);
        case Loaded(offers) =>
          if !CatalogOk(offers) {
            return Err(BadCatalog);
          }
          var current, added := Refill(tasks, offers);
          if added == [] {
            assert current == tasks;
            return Ok(NothingNew);
          }
          tasks := current;
          refills := refills + 1;
          return Ok(Refilled(added));
      }
    }

    method NextTask(catalog: Catalog) returns (r: Result<Next, BacklogError>)
      modifies this
      ensures Value() == if Readable(old(tasks)) then Apply(old(Value()), TakeNext(catalog)) else old(Value())
      ensures !Readable(old(tasks)) ==> r == Err(Unreadable)
      ensures r.Err? && Readable(old(tasks)) ==> EnsureResult(old(Value()), catalog) == Err(r.error)
      ensures r.Ok? && r.value.InProgress? ==> IsFirst(tasks, Running, r.value.task)
      ensures r.Ok? && r.value.Ready? ==> IsFirst(tasks, Pending, r.value.task) && CountStatus(tasks, Running) == 0
      ensures r.Ok? && r.value.Exhausted? ==>
                && CountStatus(tasks, Running) == 0 && CountStatus(tasks, Pending) == 0
                && EnsureResult(old(Value()), catalog) == Ok(r.value.refill)
    {
      hide Ids;
      hide RefillWith;
      hide CatalogOk;
      hide Readable;
      hide CountStatus;
      hide FirstIn;
      if !Readable(tasks) {
        return Err(Unreadable);
      }
      FirstInFacts(tasks, Running);
      FirstInFacts(tasks, Pending);
      var running := FirstIn(tasks, Running);
      if running.Some? {
        return Ok(InProgress(tasks[running.value]));
      }
      var pending := FirstIn(tasks, Pending);
      if pending.None? {
        var ensured := EnsureBacklog(catalog);
        if ensured.Err? {
          return Err(ensured.error);
        }
        if ensured.value.Refilled? {
          RefillAddsPending(old(tasks), catalog.tasks);
          pending := FirstIn(tasks, Pending);
          FirstInFacts(tasks, Pending);
        }
        if pending.None? {
          return Ok(Exhausted(ensured.value));
        }
      }
      return Ok(Ready(tasks[pending.value]));
    }

    method ClaimTask(id: string) returns (r: Result<Task, BacklogError>)
      modifies this
      ensures Value() == Apply(old(Value()), Claim(id))
      ensures r.Err? <==> ClaimError(old(Value()), id).Some?
      ensures r.Err? ==> r.error == ClaimError(old(Value()), id).value
      ensures r.Ok? ==> r.value in tasks && r.value.id == id && r.value.status.Running?
    {
      if !Readable(tasks) {
        return Err(Unreadable);
      }
      if CountStatus(tasks, Running) > 0 {
        return Err(AnotherRunning);
      }
      var at := IndexOf(tasks, id);
      if at.None? {
        return Err(UnknownTask);
      }
      IndexOfFacts(tasks, id);
      if !tasks[at.value].status.Pending? {
        return Err(NotPending);
      }
      tasks := tasks[at.value := tasks[at.value].(status := Running)];
      return Ok(tasks[at.value]);
    }

    method CompleteTask(id: string, artifact: string, present: bool) returns (r: Result<Task, BacklogError>)
      modifies this
      ensures Value() == Apply(old(Value()), Complete(id, artifact, present))
      ensures r.Err? <==> CompleteError(old(Value()), id, artifact, present).Some?
      ensures r.Err? ==> r.error == CompleteError(old(Value()), id, artifact, present).value
      ensures r.Ok? ==> r.value in tasks && r.value.id == id && r.value.status.Completed?
    {
      if !Readable(tasks) {
        return Err(Unreadable);
      }
      var at := IndexOf(tasks, id);
      if at.None? {
        return Err(UnknownTask);
      }
      IndexOfFacts(tasks, id);
      if !tasks[at.value].status.Running? {
        return Err(NotRunning);
      }
      if artifact != tasks[at.value].outputPath {
        return Err(WrongArtifact);
      }
      if !present {
        return Err(ArtifactMissing);
      }
      tasks := tasks[at.value := tasks[at.value].(status := Completed)];
      return Ok(tasks[at.value]);
    }

    method FailTask(id: string) returns (r: Result<Task, BacklogError>)
      modifies this
      ensures Value() == Apply(old(Value()), Fail(id))
      ensures r.Err? <==> FinishError(old(Value()), id).Some?
      ensures r.Err? ==> r.error == FinishError(old(Value()), id).value
      ensures r.Ok? ==> r.value in tasks && r.value.id == id && r.value.status.Failed?
    {
      if !Readable(tasks) {
        return Err(Unreadable);
      }
      var at := IndexOf(tasks, id);
      if at.None? {
        return Err(UnknownTask);
      }
      IndexOfFacts(tasks, id);
      if !tasks[at.value].status.Running? {
        return Err(NotRunning);
      }
      tasks := tasks[at.value := tasks[at.value].(status := Failed)];
      return Ok(tasks[at.value]);
    }
  }

  // ---- One operation ----

  function Rank(s: Status): nat {
    match s
    case Pending => 0
    case Running => 1
    case _ => 2
  }

  /** One task never moves back, never changes what it is, and once finished never changes at all. */
  ghost predicate Moved(was: Task, now: Task) {
    was.(status := now.status) == now && Rank(was.status) <= Rank(now.status) && (Rank(was.status) == 2 ==> now == was)
  }

  /** The list only grows at its end, and its old tasks only move forward. */
  ghost predicate Advanced(before: seq<Task>, after: seq<Task>) {
    |before| <= |after| && forall i :: 0 <= i < |before| ==> Moved(before[i], after[i])
  }

  lemma OfferFacts(before: seq<Task>, c: CatalogTask)
    requires Readable(before) && CatalogTaskOk(c) && c.id !in Ids(before)
    ensures var after := before + [Offer(c)];
            && Readable(after) && c.id in Ids(after) && (forall id :: id in Ids(before) ==> id in Ids(after))
            && CountStatus(after, Running) == CountStatus(before, Running)
            && CountStatus(after, Pending) == CountStatus(before, Pending) + 1
            && Taken(after) == Taken(before)
  {
    var after := before + [Offer(c)];
    assert after[..|before|] == before;
    assert Ids(after) == Ids(before) + [c.id];
    StripEmpty();
  }

  /** What a refill keeps and adds, from a list to the longer one. */
  ghost predicate Extended(tasks: seq<Task>, after: seq<Task>) {
    && Readable(after) && |tasks| <= |after|
    && CountStatus(after, Running) == CountStatus(tasks, Running)
    && CountStatus(after, Pending) == CountStatus(tasks, Pending) + |after| - |tasks|
    && Taken(after) == Taken(tasks)
  }

  lemma RefillStep(tasks: seq<Task>, before: seq<Task>, c: CatalogTask)
    requires Extended(tasks, before) && CatalogTaskOk(c)
    ensures var after := if c.id in Ids(before) then before else before + [Offer(c)];
            Extended(tasks, after) && c.id in Ids(after) && forall id :: id in Ids(before) ==> id in Ids(after)
  {
    if c.id !in Ids(before) { OfferFacts(before, c); }
    hide Readable, CountStatus, Ids, Taken, Offer, CatalogTaskOk;
  }

  lemma {:induction false} RefillFacts(tasks: seq<Task>, catalog: seq<CatalogTask>)
    requires Readable(tasks) && CatalogOk(catalog)
    ensures Readable(RefillWith(tasks, catalog))
    ensures CountStatus(RefillWith(tasks, catalog), Running) == CountStatus(tasks, Running)
    ensures CountStatus(RefillWith(tasks, catalog), Pending) ==
            CountStatus(tasks, Pending) + |RefillWith(tasks, catalog)| - |tasks|
    ensures Taken(RefillWith(tasks, catalog)) == Taken(tasks)
    ensures forall c :: c in catalog ==> c.id in Ids(RefillWith(tasks, catalog))
  {
    hide Readable, CountStatus, Ids, Taken, Offer, CatalogTaskOk;
    if catalog != [] {
      var front, c := catalog[..|catalog| - 1], catalog[|catalog| - 1];
      RefillFacts(tasks, front);
      RefillStep(tasks, RefillWith(tasks, front), c);
      assert catalog == front + [c];
    }
  }

  lemma StripEmpty()
    ensures Strip("") == ""
  {
  }

  lemma RefillAddsPending(tasks: seq<Task>, catalog: seq<CatalogTask>)
    requires Readable(tasks) && CatalogOk(catalog) && CountStatus(tasks, Running) == 0
    ensures CountStatus(RefillWith(tasks, catalog), Running) == 0
    ensures RefillWith(tasks, catalog) != tasks ==> CountStatus(RefillWith(tasks, catalog), Pending) > 0
  {
    RefillFacts(tasks, catalog);
  }

  /** Refilling again from the same catalog, at whatever later point, adds nothing. */
  lemma {:induction false} RefillTwiceAddsNothing(tasks: seq<Task>, catalog: seq<CatalogTask>)
    requires forall c :: c in catalog ==> c.id in Ids(tasks)
    ensures RefillWith(tasks, catalog) == tasks
  {
    if catalog != [] {
      assert catalog == catalog[..|catalog| - 1] + [catalog[|catalog| - 1]];
      RefillTwiceAddsNothing(tasks, catalog[..|catalog| - 1]);
    }
  }

  lemma {:induction false} UpdateFacts(tasks: seq<Task>, i: nat, status: Status)
    requires Readable(tasks) && i < |tasks| && !status.Unknown?
    ensures var after := tasks[i := tasks[i].(status := status)];
            && Readable(after) && Ids(after) == Ids(tasks)
            && forall s :: CountStatus(after, s) ==
                 CountStatus(tasks, s) - (if tasks[i].status == s then 1 else 0) + (if status == s then 1 else 0)
  {
    var after, n := tasks[i := tasks[i].(status := status)], |tasks| - 1;
    if i < n {
      assert after[..n] == tasks[..n][i := tasks[i].(status := status)];
      UpdateFacts(tasks[..n], i, status);
    } else {
      assert after[..n] == tasks[..n];
    }
  }

  function Claims(b: Backlog, op: Op): nat { if op.Claim? && ClaimError(b, op.id).None? then 1 else 0 }

  function Taken(tasks: seq<Task>): nat {
    CountStatus(tasks, Running) + CountStatus(tasks, Completed) + CountStatus(tasks, Failed)
  }

  ghost predicate OpFacts(b: Backlog, op: Op) {
    var a := Apply(b, op);
    && Readable(a.tasks) && Advanced(b.tasks, a.tasks)
    && CountStatus(a.tasks, Running) <= (if CountStatus(b.tasks, Running) > 1 then CountStatus(b.tasks, Running) else 1)
    && (|a.tasks| > |b.tasks| ==> !AnyActive(b.tasks))
    && Taken(a.tasks) == Taken(b.tasks) + Claims(b, op)
  }

  lemma MoveFacts(b: Backlog, i: nat, status: Status)
    requires Readable(b.tasks) && i < |b.tasks| && !status.Unknown?
    requires Rank(b.tasks[i].status) < Rank(status)
    ensures var a := Move(b, i, status).tasks;
            && Readable(a) && Advanced(b.tasks, a) && |a| == |b.tasks|
            && CountStatus(a, Running) == CountStatus(b.tasks, Running)
               - (if b.tasks[i].status.Running? then 1 else 0) + (if status.Running? then 1 else 0)
            && Taken(a) == Taken(b.tasks) + (if b.tasks[i].status.Pending? then 1 else 0)
  {
    UpdateFacts(b.tasks, i, status);
    hide CountStatus;
    hide Readable;
  }

  lemma EnsureFacts(b: Backlog, catalog: Catalog)
    requires Readable(b.tasks)
    ensures var a := EnsureAfter(b, catalog).tasks;
            && Readable(a) && Advanced(b.tasks, a)
            && CountStatus(a, Running) == CountStatus(b.tasks, Running)
            && (|a| > |b.tasks| ==> !AnyActive(b.tasks))
            && Taken(a) == Taken(b.tasks)
  {
    if EnsureResult(b, catalog).Ok? && EnsureResult(b, catalog).value.Refilled? {
      RefillFacts(b.tasks, catalog.tasks);
    }
  }

  lemma {:induction false} OperationFacts(b: Backlog, op: Op)
    requires Readable(b.tasks)
    ensures OpFacts(b, op)
  {
    hide CountStatus;
    hide Readable;
    hide Taken;
    match op
    case Ensure(catalog) => EnsureFacts(b, catalog);
    case TakeNext(catalog) => EnsureFacts(b, catalog);
    case Claim(id) => ClaimFacts(b, id);
    case Complete(id, artifact, present) =>
      IndexOfFacts(b.tasks, id);
      if CompleteError(b, id, artifact, present).None? { MoveFacts(b, IndexOf(b.tasks, id).value, Completed); }
    case Fail(id) =>
      IndexOfFacts(b.tasks, id);
      if FinishError(b, id).None? { MoveFacts(b, IndexOf(b.tasks, id).value, Failed); }
  }

  lemma ClaimFacts(b: Backlog, id: string)
    requires Readable(b.tasks)
    ensures OpFacts(b, Claim(id))
  {
    hide CountStatus;
    hide Readable;
    hide Taken;
    hide IndexOf;
    IndexOfFacts(b.tasks, id);
    if ClaimError(b, id).None? { MoveFacts(b, IndexOf(b.tasks, id).value, Running); }
  }

  // ---- Whole runs ----

  function ApplyAll(b: Backlog, ops: seq<Op>): Backlog {
    if ops == [] then b else Apply(ApplyAll(b, ops[..|ops| - 1]), ops[|ops| - 1])
  }

  function TotalClaims(b: Backlog, ops: seq<Op>): nat {
    if ops == [] then 0
    else TotalClaims(b, ops[..|ops| - 1]) + Claims(ApplyAll(b, ops[..|ops| - 1]), ops[|ops| - 1])
  }

  lemma {:induction false} TakenBounded(tasks: seq<Task>)
    ensures Taken(tasks) <= |tasks|
  {
    if tasks != [] {
      TakenBounded(tasks[..|tasks| - 1]);
    }
  }

  lemma {:induction false} ReadableMeansDistinct(tasks: seq<Task>)
    requires Readable(tasks)
    ensures forall i, j :: 0 <= i < j < |tasks| ==> tasks[i].id != tasks[j].id
  {
    if tasks != [] {
      ReadableMeansDistinct(tasks[..|tasks| - 1]);
      IdsMember(tasks[..|tasks| - 1]);
    }
  }

  lemma {:induction false} IdsMember(tasks: seq<Task>)
    ensures forall i :: 0 <= i < |tasks| ==> tasks[i].id in Ids(tasks)
  {
    if tasks != [] {
      IdsMember(tasks[..|tasks| - 1]);
    }
  }

  // ---- What was ever offered ----

  function CatalogIds(offers: seq<CatalogTask>): set<string> { set c | c in offers :: c.id }

  /** The ids of the catalog that an operation loaded, if it loaded one. */
  function OfferedBy(op: Op): set<string> {
    match op
    case Ensure(catalog) => if catalog.Loaded? then CatalogIds(catalog.tasks) else {}
    case TakeNext(catalog) => if catalog.Loaded? then CatalogIds(catalog.tasks) else {}
    case _ => {}
  }

  /** The ids of the initial list and of every catalog loaded since. */
  function EverOffered(b: Backlog, ops: seq<Op>): set<string> {
    if ops == [] then set t | t in b.tasks :: t.id
    else EverOffered(b, ops[..|ops| - 1]) + OfferedBy(ops[|ops| - 1])
  }

  ghost predicate AllFrom(tasks: seq<Task>, ids: set<string>) { forall i :: 0 <= i < |tasks| ==> tasks[i].id in ids }

  lemma {:induction false} RefillIsOffered(tasks: seq<Task>, offers: seq<CatalogTask>, ids: set<string>)
    requires AllFrom(tasks, ids) && CatalogIds(offers) <= ids
    ensures AllFrom(RefillWith(tasks, offers), ids)
  {
    if offers != [] {
      var front, c := offers[..|offers| - 1], offers[|offers| - 1];
      assert offers == front + [c];
      assert c in offers && c.id in CatalogIds(offers);
      forall d | d in front ensures d.id in CatalogIds(offers) { assert d in offers; }
      RefillIsOffered(tasks, front, ids);
    }
  }

  lemma EnsureIsOffered(b: Backlog, catalog: Catalog, ids: set<string>)
    requires AllFrom(b.tasks, ids) && (catalog.Loaded? ==> CatalogIds(catalog.tasks) <= ids)
    ensures AllFrom(EnsureAfter(b, catalog).tasks, ids)
  {
    hide AllFrom, Readable, RefillWith, CatalogOk, AnyActive, Ids;
    if EnsureResult(b, catalog).Ok? && EnsureResult(b, catalog).value.Refilled? { RefillIsOffered(b.tasks, catalog.tasks, ids); }
  }

  lemma OperationIsOffered(b: Backlog, op: Op, ids: set<string>)
    requires AllFrom(b.tasks, ids) && OfferedBy(op) <= ids
    ensures AllFrom(Apply(b, op).tasks, ids)
  {
    hide EnsureAfter, Readable, CountStatus, IndexOf, AllFrom, Move;
    match op
    case Ensure(catalog) => EnsureIsOffered(b, catalog, ids);
    case TakeNext(catalog) => EnsureIsOffered(b, catalog, ids);
    case Claim(id) =>
      IndexOfFacts(b.tasks, id);
      if ClaimError(b, id).None? { MoveIsOffered(b, IndexOf(b.tasks, id).value, Running, ids); }
    case Complete(id, artifact, present) =>
      IndexOfFacts(b.tasks, id);
      if CompleteError(b, id, artifact, present).None? { MoveIsOffered(b, IndexOf(b.tasks, id).value, Completed, ids); }
    case Fail(id) =>
      IndexOfFacts(b.tasks, id);
      if FinishError(b, id).None? { MoveIsOffered(b, IndexOf(b.tasks, id).value, Failed, ids); }
  }

  lemma MoveIsOffered(b: Backlog, i: nat, status: Status, ids: set<string>)
    requires i < |b.tasks| && AllFrom(b.tasks, ids)
    ensures AllFrom(Move(b, i, status).tasks, ids)
  {
  }

  /** Every entry on the list was on it at first or came from a loaded catalog. */
  lemma {:induction false} EveryEntryWasOffered(b: Backlog, ops: seq<Op>)
    ensures AllFrom(ApplyAll(b, ops).tasks, EverOffered(b, ops))
  {
    if ops != [] {
      hide Apply, OfferedBy;
      var front, op := ops[..|ops| - 1], ops[|ops| - 1];
      EveryEntryWasOffered(b, front);
      OperationIsOffered(ApplyAll(b, front), op, EverOffered(b, ops));
    }
  }

  lemma {:induction false} DistinctFit(tasks: seq<Task>, ids: set<string>)
    requires forall i, j :: 0 <= i < j < |tasks| ==> tasks[i].id != tasks[j].id
    requires AllFrom(tasks, ids)
    ensures |tasks| <= |ids|
  {
    if tasks != [] {
      var front, last := tasks[..|tasks| - 1], tasks[|tasks| - 1];
      assert tasks[|tasks| - 1].id in ids;
      DistinctFit(front, ids - {last.id});
    }
  }

  lemma {:induction false} RunsKeepInvariant(b: Backlog, ops: seq<Op>)
    requires Readable(b.tasks) && CountStatus(b.tasks, Running) <= 1
    ensures var a := ApplyAll(b, ops);
            && Readable(a.tasks) && CountStatus(a.tasks, Running) <= 1 && Advanced(b.tasks, a.tasks)
            && TotalClaims(b, ops) == Taken(a.tasks) - Taken(b.tasks)
  {
    if ops != [] {
      hide CountStatus;
      hide Readable;
      hide Apply;
      hide Claims;
      hide Taken;
      var front, op := ops[..|ops| - 1], ops[|ops| - 1];
      RunsKeepInvariant(b, front);
      OperationFacts(ApplyAll(b, front), op);
    }
  }

  /** Life cycle over every sequence of operations: the file stays readable and its ids distinct, at most
      one task runs, tasks only move forward and keep their order, every id was offered, and there are
      never more claims in all than distinct ids ever offered. */
  lemma LifecycleOverRuns(b: Backlog, ops: seq<Op>)
    requires Readable(b.tasks) && CountStatus(b.tasks, Running) <= 1
    ensures var a := ApplyAll(b, ops);
            && Readable(a.tasks) && (forall i, j :: 0 <= i < j < |a.tasks| ==> a.tasks[i].id != a.tasks[j].id)
            && CountStatus(a.tasks, Running) <= 1 && Advanced(b.tasks, a.tasks)
            && TotalClaims(b, ops) == Taken(a.tasks) - Taken(b.tasks)
            && AllFrom(a.tasks, EverOffered(b, ops))
            && TotalClaims(b, ops) <= |a.tasks| <= |EverOffered(b, ops)|
  {
    hide Readable, CountStatus, Advanced, Taken, TotalClaims, ApplyAll, EverOffered;
    var a := ApplyAll(b, ops);
    RunsKeepInvariant(b, ops);
    TakenBounded(a.tasks);
    ReadableMeansDistinct(a.tasks);
    EveryEntryWasOffered(b, ops);
    DistinctFit(a.tasks, EverOffered(b, ops));
  }
}
