/** What each operation of the research backlog answers and leaves, told from the entries of the list. */
module BacklogAnswer {
  import opened Sequences
  import opened ResearchBacklog

  // ---- Lists that are read ----

  predicate EntryOk(t: Task) {
    t.id != "" && 1 <= t.maxRuntimeSec <= 1_800 && t.outputPath != "" && t.status in {Pending, Running, Completed, Failed}
  }

  ghost predicate ListOk(tasks: seq<Task>) {
    && (forall i :: 0 <= i < |tasks| ==> EntryOk(tasks[i]))
    && (forall i, j :: 0 <= i < j < |tasks| ==> tasks[i].id != tasks[j].id)
  }

  lemma {:induction false} IdsAre(tasks: seq<Task>)
    ensures forall i :: 0 <= i < |tasks| ==> Ids(tasks)[i] == tasks[i].id
  {
    if tasks != [] { IdsAre(tasks[..|tasks| - 1]); }
  }

  lemma {:induction false} ReadableIff(tasks: seq<Task>)
    ensures Readable(tasks) <==> ListOk(tasks)
  {
    if tasks != [] {
      var front, last := tasks[..|tasks| - 1], tasks[|tasks| - 1];
      ReadableIff(front);
      IdsAre(front);
      hide Readable;
      assert tasks == front + [last];
      assert last.id in Ids(front) <==> exists i :: 0 <= i < |front| && front[i].id == last.id;
      assert Readable(tasks) <==> Readable(front) && EntryOk(last) && last.id !in Ids(front) by { ReadableSnoc(tasks); }
    }
  }

  lemma ReadableSnoc(tasks: seq<Task>)
    requires tasks != []
    ensures var front, last := tasks[..|tasks| - 1], tasks[|tasks| - 1];
            Readable(tasks) <==> Readable(front) && EntryOk(last) && last.id !in Ids(front)
  {
  }

  /** A catalog entry with something to do: named, bounded, and with an output, an objective and an input. */
  predicate OfferOk(c: CatalogTask) {
    && Strip(c.id) != "" && 1 <= c.maxRuntimeSec <= 1_800
    && Strip(c.outputPath) != "" && Strip(c.objective) != "" && c.inputs >= 1
  }

  ghost predicate OffersOk(offers: seq<CatalogTask>) {
    && (forall i :: 0 <= i < |offers| ==> OfferOk(offers[i]))
    && (forall i, j :: 0 <= i < j < |offers| ==> Strip(offers[i].id) != Strip(offers[j].id))
  }

  lemma {:induction false} StrippedIdsAre(offers: seq<CatalogTask>)
    ensures |StrippedIds(offers)| == |offers|
    ensures forall i :: 0 <= i < |offers| ==> StrippedIds(offers)[i] == Strip(offers[i].id)
  {
    if offers != [] { StrippedIdsAre(offers[..|offers| - 1]); }
  }

  lemma {:induction false} CatalogOkIff(offers: seq<CatalogTask>)
    ensures CatalogOk(offers) <==> OffersOk(offers)
  {
    if offers != [] {
      hide Strip;
      var front, last := offers[..|offers| - 1], offers[|offers| - 1];
      CatalogOkIff(front);
      StrippedIdsAre(front);
      assert offers == front + [last];
      assert Strip(last.id) in StrippedIds(front) <==> exists i :: 0 <= i < |front| && Strip(front[i].id) == Strip(last.id);
    }
  }

  // ---- Refills ----

  /** The catalog entries whose id is not on the list, as pending entries in catalog order. */
  function Unseen(tasks: seq<Task>, offers: seq<CatalogTask>): seq<Task> {
    if offers == [] then []
    else (if offers[0].id in Ids(tasks) then []
          else [Task(offers[0].id, offers[0].maxRuntimeSec, offers[0].outputPath, Pending)])
         + Unseen(tasks, offers[1..])
  }

  lemma {:induction false} UnseenSnoc(tasks: seq<Task>, offers: seq<CatalogTask>, c: CatalogTask)
    ensures Unseen(tasks, offers + [c]) == Unseen(tasks, offers) + Unseen(tasks, [c])
  {
    if offers == [] {
      assert offers + [c] == [c];
    } else {
      assert (offers + [c])[1..] == offers[1..] + [c];
      UnseenSnoc(tasks, offers[1..], c);
    }
  }

  lemma {:induction false} UnseenAreOffered(tasks: seq<Task>, offers: seq<CatalogTask>)
    ensures forall t :: t in Unseen(tasks, offers) ==> exists i :: 0 <= i < |offers| && offers[i].id == t.id
  {
    if offers != [] {
      UnseenAreOffered(tasks, offers[1..]);
      forall t | t in Unseen(tasks, offers) ensures exists i :: 0 <= i < |offers| && offers[i].id == t.id {
        if t in Unseen(tasks, offers[1..]) {
          var i :| 0 <= i < |offers[1..]| && offers[1..][i].id == t.id;
          assert offers[i + 1].id == t.id;
        }
      }
    }
  }

  lemma OnTheList(tasks: seq<Task>, id: string)
    ensures id in Ids(tasks) <==> exists i :: 0 <= i < |tasks| && tasks[i].id == id
  {
    IdsAre(tasks);
    if i :| 0 <= i < |tasks| && tasks[i].id == id { assert Ids(tasks)[i] == id; }
  }

  lemma SeenBefore(tasks: seq<Task>, front: seq<CatalogTask>, id: string)
    requires forall i :: 0 <= i < |front| ==> front[i].id != id
    ensures id in Ids(tasks + Unseen(tasks, front)) <==> id in Ids(tasks)
  {
    hide Ids;
    var added, before := Unseen(tasks, front), tasks + Unseen(tasks, front);
    UnseenAreOffered(tasks, front);
    forall j | 0 <= j < |added| ensures added[j].id != id { assert added[j] in added; }
    forall i | |tasks| <= i < |before| ensures before[i].id != id { assert before[i] == added[i - |tasks|]; }
    OnTheList(before, id);
    OnTheList(tasks, id);
    hide Unseen;
    if i :| 0 <= i < |before| && before[i].id == id {
      assert i < |tasks| && tasks[i].id == id;
    }
    if i :| 0 <= i < |tasks| && tasks[i].id == id { assert before[i].id == id; }
  }

  lemma UnseenOne(tasks: seq<Task>, c: CatalogTask)
    ensures Unseen(tasks, [c]) == if c.id in Ids(tasks) then [] else [Offer(c)]
  {
    assert [c][1..] == [];
  }

  /** A refill appends exactly the catalog entries that are not on the list. */
  lemma {:induction false} RefillAddsTheUnseen(tasks: seq<Task>, offers: seq<CatalogTask>)
    requires forall i, j :: 0 <= i < j < |offers| ==> offers[i].id != offers[j].id
    ensures RefillWith(tasks, offers) == tasks + Unseen(tasks, offers)
  {
    if offers == [] {
      assert tasks + [] == tasks;
    } else {
      hide Ids, Unseen, Offer;
      var front, c := offers[..|offers| - 1], offers[|offers| - 1];
      assert offers == front + [c];
      RefillAddsTheUnseen(tasks, front);
      UnseenSnoc(tasks, front, c);
      UnseenOne(tasks, c);
      SeenBefore(tasks, front, c.id);
      ConcatAssociative(tasks, Unseen(tasks, front), [Offer(c)]);
      assert Unseen(tasks, front) + [] == Unseen(tasks, front);
    }
  }

  lemma DistinctOffers(offers: seq<CatalogTask>)
    requires OffersOk(offers)
    ensures forall i, j :: 0 <= i < j < |offers| ==> offers[i].id != offers[j].id
  {
    hide Strip;
  }

  // ---- What each operation answers ----

  /** Finished entries only. */
  ghost predicate Idle(tasks: seq<Task>) {
    forall i :: 0 <= i < |tasks| ==> !tasks[i].status.Pending? && !tasks[i].status.Running?
  }

  ghost predicate NoneRunning(tasks: seq<Task>) { forall i :: 0 <= i < |tasks| ==> !tasks[i].status.Running? }

  lemma {:induction false} CountIsZero(tasks: seq<Task>, status: Status)
    ensures CountStatus(tasks, status) == 0 <==> forall i :: 0 <= i < |tasks| ==> tasks[i].status != status
  {
    if tasks != [] { CountIsZero(tasks[..|tasks| - 1], status); }
  }

  lemma IdleIsInactive(tasks: seq<Task>)
    ensures Idle(tasks) <==> !AnyActive(tasks)
  {
    CountIsZero(tasks, Pending);
    CountIsZero(tasks, Running);
    hide CountStatus;
  }

  /** Exactly when the list is refilled, with what, and what every other request for it answers; only a refill
      writes. */
  lemma EnsureExactly(b: Backlog, catalog: Catalog)
    ensures var r, after := EnsureResult(b, catalog), EnsureAfter(b, catalog);
            var asked := ListOk(b.tasks) && Idle(b.tasks) && b.autoRefill;
            var usable := catalog.Loaded? && OffersOk(catalog.tasks);
            && (r == Err(Unreadable) <==> !ListOk(b.tasks))
            && (r == Ok(NoopActive) <==> ListOk(b.tasks) && !Idle(b.tasks))
            && (r == Ok(NoAutoRefill) <==> ListOk(b.tasks) && Idle(b.tasks) && !b.autoRefill)
            && (r == Err(CatalogMissing) <==> asked && catalog.Missing?)
            && (r == Err(HashMismatch) <==> asked && catalog.WrongHash?)
            && (r == Err(BadCatalog) <==> asked && (catalog.NotConfigured? || (catalog.Loaded? && !OffersOk(catalog.tasks))))
            && (r == Ok(NothingNew) <==> asked && usable && Unseen(b.tasks, catalog.tasks) == [])
            && (r.Ok? && r.value.Refilled? <==> asked && usable && Unseen(b.tasks, catalog.tasks) != [])
            && after == (if r.Ok? && r.value.Refilled?
                         then b.(tasks := b.tasks + Unseen(b.tasks, catalog.tasks), refills := b.refills + 1) else b)
            && (r.Ok? && r.value.Refilled? ==> r.value.added == Ids(Unseen(b.tasks, catalog.tasks)))
  {
    hide Readable, CatalogOk, ListOk, OffersOk, AnyActive, Idle, Unseen, RefillWith;
    ReadableIff(b.tasks);
    IdleIsInactive(b.tasks);
    if catalog.Loaded? {
      CatalogOkIff(catalog.tasks);
      if OffersOk(catalog.tasks) {
        DistinctOffers(catalog.tasks);
        RefillAddsTheUnseen(b.tasks, catalog.tasks);
        IdsConcat(b.tasks, Unseen(b.tasks, catalog.tasks));
      }
    }
  }

  lemma IdsConcat(a: seq<Task>, b: seq<Task>)
    ensures Ids(a + b)[|a|..] == Ids(b)
  {
    IdsAre(a + b);
    IdsAre(b);
    hide Ids;
    forall i | 0 <= i < |b| ensures Ids(a + b)[|a|..][i] == Ids(b)[i] { assert (a + b)[|a| + i] == b[i]; }
  }

  /** Asking for the next task leaves exactly what a request for a refill leaves: a refill when only finished
      entries are on the list, and the list as it was while one is running or pending. */
  lemma NextRefillsExactly(b: Backlog, catalog: Catalog)
    requires ListOk(b.tasks)
    ensures Apply(b, TakeNext(catalog)) == EnsureAfter(b, catalog)
    ensures !Idle(b.tasks) ==> Apply(b, TakeNext(catalog)) == b
    ensures Idle(b.tasks) && b.autoRefill && catalog.Loaded? && OffersOk(catalog.tasks) ==>
              Apply(b, TakeNext(catalog)).tasks == b.tasks + Unseen(b.tasks, catalog.tasks)
  {
    ReadableIff(b.tasks);
    IdleIsInactive(b.tasks);
    EnsureExactly(b, catalog);
    hide Readable, CatalogOk, ListOk, OffersOk, Unseen, RefillWith, EnsureResult, Idle;
    if Unseen(b.tasks, if catalog.Loaded? then catalog.tasks else []) == [] { assert b.tasks + [] == b.tasks; }
  }

  /** An entry of the list with this id and status. */
  ghost predicate EntryIn(tasks: seq<Task>, i: nat, id: string, status: Status) {
    i < |tasks| && tasks[i].id == id && tasks[i].status == status
  }

  lemma {:induction false} FoundAt(tasks: seq<Task>, id: string)
    requires ListOk(tasks)
    ensures IndexOf(tasks, id).None? ==> forall i :: 0 <= i < |tasks| ==> tasks[i].id != id
    ensures IndexOf(tasks, id).Some? ==>
              IndexOf(tasks, id).value < |tasks|
              && forall i :: 0 <= i < |tasks| ==> (tasks[i].id == id <==> i == IndexOf(tasks, id).value)
  {
    if tasks != [] {
      var front := tasks[..|tasks| - 1];
      FoundAt(front, id);
      assert forall i :: 0 <= i < |front| ==> front[i] == tasks[i];
      if IndexOf(front, id).Some? { assert tasks[IndexOf(front, id).value].id == id; }
    }
  }

  /** Only this entry's status changes. */
  ghost predicate OnlyMoves(b: Backlog, after: Backlog, i: nat, status: Status) {
    i < |b.tasks| && after == b.(tasks := b.tasks[i := b.tasks[i].(status := status)])
  }

  /** A claim starts the pending entry of its id, exactly when no entry runs; a refused one writes nothing. */
  lemma ClaimExactly(b: Backlog, id: string)
    ensures var error, after := ClaimError(b, id), Apply(b, Claim(id));
            var sound := ListOk(b.tasks) && NoneRunning(b.tasks);
            && (error == Some(Unreadable) <==> !ListOk(b.tasks))
            && (error == Some(AnotherRunning) <==> ListOk(b.tasks) && !NoneRunning(b.tasks))
            && (error == Some(UnknownTask) <==> sound && forall i :: 0 <= i < |b.tasks| ==> b.tasks[i].id != id)
            && (error.None? <==> sound && exists i: nat :: EntryIn(b.tasks, i, id, Pending))
            && (error.None? ==> exists i: nat :: EntryIn(b.tasks, i, id, Pending) && OnlyMoves(b, after, i, Running))
            && (error.Some? ==> after == b)
  {
    ReadableIff(b.tasks);
    CountIsZero(b.tasks, Running);
    if ListOk(b.tasks) { FoundAt(b.tasks, id); }
    hide Readable, CountStatus, IndexOf, ListOk;
    if ClaimError(b, id).None? { assert EntryIn(b.tasks, IndexOf(b.tasks, id).value, id, Pending); }
  }

  /** A completion ends the running entry of its id, exactly when the artifact is the entry's own and present;
      an absent one is refused, and a refused one writes nothing. */
  lemma CompleteExactly(b: Backlog, id: string, artifact: string, present: bool)
    ensures var error, after := CompleteError(b, id, artifact, present), Apply(b, Complete(id, artifact, present));
            && (error == Some(Unreadable) <==> !ListOk(b.tasks))
            && (error == Some(UnknownTask) <==> ListOk(b.tasks) && forall i :: 0 <= i < |b.tasks| ==> b.tasks[i].id != id)
            && (error == Some(WrongArtifact) <==>
                  ListOk(b.tasks) && exists i: nat :: EntryIn(b.tasks, i, id, Running) && b.tasks[i].outputPath != artifact)
            && (error == Some(ArtifactMissing) <==>
                  && ListOk(b.tasks) && !present
                  && exists i: nat :: EntryIn(b.tasks, i, id, Running) && b.tasks[i].outputPath == artifact)
            && (error.None? <==>
                  && ListOk(b.tasks) && present
                  && exists i: nat :: EntryIn(b.tasks, i, id, Running) && b.tasks[i].outputPath == artifact)
            && (error.None? ==> exists i: nat :: EntryIn(b.tasks, i, id, Running) && OnlyMoves(b, after, i, Completed))
            && (error.Some? ==> after == b)
  {
    ReadableIff(b.tasks);
    if ListOk(b.tasks) { FoundAt(b.tasks, id); }
    hide Readable, IndexOf, ListOk;
    if FinishError(b, id).None? { assert EntryIn(b.tasks, IndexOf(b.tasks, id).value, id, Running); }
  }

  /** A failure ends the running entry of its id, and nothing else. */
  lemma FailExactly(b: Backlog, id: string)
    ensures var error, after := FinishError(b, id), Apply(b, Fail(id));
            && (error == Some(Unreadable) <==> !ListOk(b.tasks))
            && (error == Some(UnknownTask) <==> ListOk(b.tasks) && forall i :: 0 <= i < |b.tasks| ==> b.tasks[i].id != id)
            && (error.None? <==> ListOk(b.tasks) && exists i: nat :: EntryIn(b.tasks, i, id, Running))
            && (error.None? ==> exists i: nat :: EntryIn(b.tasks, i, id, Running) && OnlyMoves(b, after, i, Failed))
            && (error.Some? ==> after == b)
  {
    ReadableIff(b.tasks);
    if ListOk(b.tasks) { FoundAt(b.tasks, id); }
    hide Readable, IndexOf, ListOk;
    if FinishError(b, id).None? { assert EntryIn(b.tasks, IndexOf(b.tasks, id).value, id, Running); }
  }
}
