/** The program itself: the operations on the two files, statement by statement. A ghost trace
    records the image of the files after every durable write, which is what a crash leaves. */
module OmsStore {
  import opened Sequences
  import opened OmsTypes
  import opened OmsDecision
  import opened OmsLedger
  import opened OmsMachine
  import opened OmsCrash

  /** Appends one event and replaces the state file. */
  function PlayOne(d: Disk, st: State, p: Pending): (Disk, State) {
    (AppendLine(d, Record(MakeEvent(st, p))).(state := Some(Advance(st, p))), Advance(st, p))
  }

  function Played(d: Disk, st: State, done: seq<Pending>): (Disk, State) {
    if done == [] then (d, st)
    else
      var (d1, st1) := Played(d, st, done[..|done| - 1]);
      PlayOne(d1, st1, done[|done| - 1])
  }

  /** The images of the files along the way: two for each event. */
  function PlayTrace(d: Disk, st: State, done: seq<Pending>): seq<Disk> {
    if done == [] then []
    else
      var (d1, st1) := Played(d, st, done[..|done| - 1]);
      var p := done[|done| - 1];
      PlayTrace(d, st, done[..|done| - 1]) + [AppendLine(d1, Record(MakeEvent(st1, p))), PlayOne(d1, st1, p).0]
  }

  lemma PlayedSnoc(d: Disk, st: State, done: seq<Pending>, p: Pending)
    ensures Played(d, st, done + [p]) == PlayOne(Played(d, st, done).0, Played(d, st, done).1, p)
    ensures PlayTrace(d, st, done + [p]) == PlayTrace(d, st, done)
      + [AppendLine(Played(d, st, done).0, Record(MakeEvent(Played(d, st, done).1, p))), Played(d, st, done + [p]).0]
  {
    assert (done + [p])[..|done|] == done;
  }

  /** The program's writes are the machine's `Write` steps: after 2k of them k events are in. */
  lemma {:induction false} PlayedIsMachine(s: Sys, t: Token, k: nat)
    requires t in s.procs && !s.procs[t].dirty && k <= |s.procs[t].todo|
    ensures var p := s.procs[t];
            var (d, st) := Played(s.disk, p.mem, p.todo[..k]);
            Writes(s, t, 2 * k) == Sys(d, s.procs[t := Proc(st, p.todo[k..], false)])
    decreases k
  {
    hide MakeEvent, Perform, PlayOne;
    var p := s.procs[t];
    if k == 0 {
      assert s.procs[t := p] == s.procs;
    } else {
      PlayedIsMachine(s, t, k - 1);
      var half := Writes(s, t, 2 * (k - 1));
      PlayedSnoc(s.disk, p.mem, p.todo[..k - 1], p.todo[k - 1]);
      hide Played;
      assert p.todo[..k - 1] + [p.todo[k - 1]] == p.todo[..k];
      assert half.procs[t].todo[0] == p.todo[k - 1] && half.procs[t].todo[1..] == p.todo[k..];
      TwoWrites(half, t);
      assert Perform(Perform(half, Write(t)), Write(t)) == Writes(s, t, 2 * k);
      assert half.procs == s.procs[t := half.procs[t]];
    }
  }

  /** One event is one append followed by one replacement of the state file. */
  lemma TwoWrites(s: Sys, t: Token)
    requires t in s.procs && !s.procs[t].dirty && s.procs[t].todo != []
    ensures var p := s.procs[t];
            var (d, st) := PlayOne(s.disk, p.mem, p.todo[0]);
            && Perform(s, Write(t)).disk == AppendLine(s.disk, Record(MakeEvent(p.mem, p.todo[0])))
            && Perform(Perform(s, Write(t)), Write(t)) == Sys(d, s.procs[t := Proc(st, p.todo[1..], false)])
  {
    hide MakeEvent;
  }

  /** Each event adds two images to the trace, those of the machine's next two writes. */
  lemma TraceStep(s: Sys, t: Token, k: nat)
    requires t in s.procs && !s.procs[t].dirty && k < |s.procs[t].todo|
    ensures var d, p := s.disk, s.procs[t];
            PlayTrace(d, p.mem, p.todo[..k + 1])
              == PlayTrace(d, p.mem, p.todo[..k]) + [Writes(s, t, 2 * k + 1).disk, Writes(s, t, 2 * k + 2).disk]
  {
    hide MakeEvent, Played, PlayOne, Perform, PlayTrace;
    var p := s.procs[t];
    PlayedSnoc(s.disk, p.mem, p.todo[..k], p.todo[k]);
    assert p.todo[..k] + [p.todo[k]] == p.todo[..k + 1];
    PlayedIsMachine(s, t, k);
    PlayedIsMachine(s, t, k + 1);
    var half := Writes(s, t, 2 * k);
    assert half.procs[t].todo[0] == p.todo[k];
    TwoWrites(half, t);
    assert Writes(s, t, 2 * k + 1) == Perform(half, Write(t));
  }

  /** Every image in the program's trace is the image of the machine after as many `Write` steps:
      a crash of the program at any point is a `Die` step of the machine. */
  lemma {:induction false} TraceIsMachine(s: Sys, t: Token, k: nat, i: nat)
    requires t in s.procs && !s.procs[t].dirty && k <= |s.procs[t].todo|
    ensures var trace := PlayTrace(s.disk, s.procs[t].mem, s.procs[t].todo[..k]);
            |trace| == 2 * k && (i < 2 * k ==> trace[i] == Writes(s, t, i + 1).disk)
    decreases k
  {
    hide PlayTrace, Writes;
    if k == 0 {
      EmptyTrace(s.disk, s.procs[t]);
    } else {
      TraceIsMachine(s, t, k - 1, i);
      TraceStep(s, t, k - 1);
      var p := s.procs[t];
      TwoMore(PlayTrace(s.disk, p.mem, p.todo[..k - 1]), Writes(s, t, 2 * k - 1).disk, Writes(s, t, 2 * k).disk, i);
    }
  }

  lemma EmptyTrace(d: Disk, p: Proc)
    ensures PlayTrace(d, p.mem, p.todo[..0]) == []
  {
  }

  lemma TwoMore(images: seq<Disk>, a: Disk, b: Disk, i: nat)
    ensures i < |images| ==> (images + [a, b])[i] == images[i]
    ensures (images + [a, b])[|images|] == a && (images + [a, b])[|images| + 1] == b
  {
  }

  /** The pending write of a recovery, if there is one: the files after it, and their image. */
  function Synced(d: Disk, p: Proc): (Disk, seq<Disk>) {
    if p.dirty then (d.(state := Some(p.mem)), [d.(state := Some(p.mem))]) else (d, [])
  }

  lemma {:induction false} WritesShift(s: Sys, t: Token, n: nat)
    ensures Writes(Perform(s, Write(t)), t, n) == Writes(s, t, n + 1)
  {
    if n > 0 { WritesShift(s, t, n - 1); }
  }

  /** What an operation puts on the trace: the pending write of a recovery, then two images an event. */
  function Images(d: Disk, p: Proc): seq<Disk> {
    Synced(d, p).1 + PlayTrace(Synced(d, p).0, p.mem, p.todo)
  }

  ghost predicate MachineImages(s: Sys, t: Token, images: seq<Disk>) {
    forall i {:trigger images[i]} :: 0 <= i < |images| ==> images[i] == Writes(s, t, i + 1).disk
  }

  lemma CleanImages(s: Sys, t: Token)
    requires t in s.procs && !s.procs[t].dirty
    ensures var p := s.procs[t];
            var images, n := PlayTrace(s.disk, p.mem, p.todo), 2 * |p.todo|;
            && |images| == n && MachineImages(s, t, images)
            && Writes(s, t, n) == Sys(Played(s.disk, p.mem, p.todo).0, s.procs[t := Proc(Played(s.disk, p.mem, p.todo).1, [], false)])
  {
    hide Played, PlayTrace, Perform, Writes;
    var p := s.procs[t];
    assert p.todo[..|p.todo|] == p.todo && p.todo[|p.todo|..] == [];
    var images := PlayTrace(s.disk, p.mem, p.todo);
    TraceIsMachine(s, t, |p.todo|, 0);
    forall i | 0 <= i < |images| ensures images[i] == Writes(s, t, i + 1).disk { TraceIsMachine(s, t, |p.todo|, i); }
    PlayedIsMachine(s, t, |p.todo|);
  }

  /** The write that a recovery owes is the machine's first. */
  lemma RecoveryWrite(s: Sys, t: Token)
    requires t in s.procs && s.procs[t].dirty
    ensures Writes(s, t, 1) == Perform(s, Write(t))
    ensures Perform(s, Write(t)) == Sys(Synced(s.disk, s.procs[t]).0, s.procs[t := s.procs[t].(dirty := false)])
  {
    assert Writes(s, t, 0) == s;
  }

  lemma ImagesAfterRecovery(s: Sys, t: Token, rest: seq<Disk>)
    requires MachineImages(Perform(s, Write(t)), t, rest)
    ensures MachineImages(s, t, [Perform(s, Write(t)).disk] + rest)
  {
    hide Perform;
    var next := Perform(s, Write(t));
    var images := [next.disk] + rest;
    assert Writes(s, t, 0) == s && Writes(s, t, 1) == next;
    hide Writes;
    forall i | 0 <= i < |images| ensures images[i] == Writes(s, t, i + 1).disk {
      if i > 0 {
        assert images[i] == rest[i - 1];
        WritesShift(s, t, i);
      }
    }
  }

  /** A whole operation, the write of a recovery included: each image on its trace is the machine's after
      as many writes, and after the last one the process is ready to finish. */
  lemma OperationIsMachine(s: Sys, t: Token)
    requires t in s.procs
    ensures var p := s.procs[t];
            var images, (done, st) := Images(s.disk, p), Played(Synced(s.disk, p).0, p.mem, p.todo);
            && MachineImages(s, t, images)
            && Writes(s, t, |images|) == Sys(done, s.procs[t := Proc(st, [], false)])
  {
    hide Played, PlayTrace, Writes, Perform, MachineImages;
    if !s.procs[t].dirty {
      CleanImages(s, t);
      assert [] + PlayTrace(s.disk, s.procs[t].mem, s.procs[t].todo) == PlayTrace(s.disk, s.procs[t].mem, s.procs[t].todo);
    } else {
      DirtyImages(s, t);
    }
  }

  lemma DirtyImages(s: Sys, t: Token)
    requires t in s.procs && s.procs[t].dirty
    ensures var p := s.procs[t];
            var synced := Synced(s.disk, p).0;
            var images := [synced] + PlayTrace(synced, p.mem, p.todo);
            && MachineImages(s, t, images)
            && Writes(s, t, |images|) == Sys(Played(synced, p.mem, p.todo).0, s.procs[t := Proc(Played(synced, p.mem, p.todo).1, [], false)])
  {
    hide Played, PlayTrace, Writes, Perform, MachineImages, Synced;
    RecoveryWrite(s, t);
    var p, synced := s.procs[t], Perform(s, Write(t));
    CleanImages(synced, t);
    var rest, st := PlayTrace(synced.disk, p.mem, p.todo), Played(synced.disk, p.mem, p.todo).1;
    ImagesAfterRecovery(s, t, rest);
    WritesShift(s, t, |rest|);
    assert synced.procs[t := Proc(st, [], false)] == s.procs[t := Proc(st, [], false)];
  }

  /** Starting an admitted operation from free files gives exactly the process that the program runs. */
  lemma StartIsAdmission(d: Disk, t: Token, op: Operation)
    requires d.lock.None? && Admit(d, op).Ok?
    ensures Perform(Sys(d, map[]), Start(t, op)) == Sys(d.(lock := Some(t)), map[t := Admit(d, op).value.proc])
  {
    hide Admit;
  }

  lemma InitIsClean(d: Disk, chain: Option<Plan>, limit: real)
    requires Admit(d, Init(chain, limit)).Ok?
    ensures !Admit(d, Init(chain, limit)).value.proc.dirty
  {
  }

  lemma AdmissionIgnoresLock(d: Disk, t: Token, op: Operation)
    ensures Admit(d.(lock := Some(t)), op) == Admit(d, op)
  {
    hide Decide, ReadLedger, LoadFrom;
  }

  /** The program's operation as a run of the machine: start, the writes whose images are on the trace,
      finish. */
  ghost predicate RunsAsMachine(before: Disk, t: Token, op: Operation, images: seq<Disk>, after: Disk) {
    var first := Perform(Sys(before, map[]), Start(t, op));
    && MachineImages(first, t, images)
    && Perform(Writes(first, t, |images|), Finish(t)) == Sys(after, map[])
  }

  lemma OperationRunsAsMachine(before: Disk, t: Token, op: Operation)
    requires before.lock.None? && Admit(before, op).Ok?
    ensures var held, p := before.(lock := Some(t)), Admit(before, op).value.proc;
            RunsAsMachine(before, t, op, Images(held, p), Played(Synced(held, p).0, p.mem, p.todo).0.(lock := None))
  {
    hide Played, PlayTrace, Admit, Images;
    var held, p := before.(lock := Some(t)), Admit(before, op).value.proc;
    var first := Perform(Sys(before, map[]), Start(t, op));
    StartIsAdmission(before, t, op);
    OperationIsMachine(first, t);
    LockStays(Synced(held, p).0, p.mem, p.todo);
    hide Writes;
    var st := Played(Synced(held, p).0, p.mem, p.todo).1;
    assert map[t := p][t := Proc(st, [], false)] - {t} == map[];
  }

  lemma {:induction false} LockStays(d: Disk, st: State, done: seq<Pending>)
    ensures Played(d, st, done).0.lock == d.lock
  {
    if done != [] { LockStays(d, st, done[..|done| - 1]); }
  }

  lemma {:induction false} EventsOfPrefix(lines: seq<Line>, n: nat)
    requires n <= |lines|
    ensures EventsOf(lines[..n]) <= EventsOf(lines)
  {
    if n == |lines| {
      assert lines[..n] == lines;
    } else {
      assert lines[..|lines| - 1][..n] == lines[..n];
      EventsOfPrefix(lines[..|lines| - 1], n);
    }
  }

  lemma LineStep(lines: seq<Line>, i: nat)
    requires i < |lines|
    ensures EventsOf(lines[..i + 1]) == EventsOf(lines[..i]) + if lines[i].Torn? then [] else [lines[i].event]
    ensures Torn in lines[..i + 1] <==> Torn in lines[..i] || lines[i].Torn?
  {
    assert lines[..i] + [lines[i]] == lines[..i + 1];
    EventsOfAppend(lines[..i], lines[i]);
  }

  lemma {:induction false} RejectedPrefix(lines: seq<Line>, n: nat)
    requires n <= |lines| && !Accepted(EventsOf(lines[..n]))
    ensures !Accepted(EventsOf(lines))
  {
    EventsOfPrefix(lines, n);
    var whole, part := EventsOf(lines), EventsOf(lines[..n]);
    assert whole[..|part|] == part;
    if Accepted(whole) {
      AcceptedPrefix(whole, |part|);
    }
  }

  /** What the guarded transition hands back to its caller. */
  datatype Checked = Raised | Blocked(st: State) | Allowed(st: State, row: Observation)

  class PaperOms {
    var ledger: Option<seq<Line>>
    var state: Option<State>
    var lock: Option<Token>
    ghost var trace: seq<Disk>

    constructor ()
      ensures Files() == Disk(None, None, None) && trace == []
    {
      ledger, state, lock, trace := None, None, None, [];
    }

    ghost function Files(): Disk reads this { Disk(ledger, state, lock) }

    /** The files after the events `done` were written by a process that started from `d0` and `s0`;
        its memory `st` may already hold edits that no event has recorded yet. */
    ghost predicate At(d0: Disk, s0: State, t0: seq<Disk>, done: seq<Pending>, st: State)
      reads this
    {
      && Files() == Played(d0, s0, done).0
      && st.(now := BLANK) == Played(d0, s0, done).1.(now := BLANK)
      && trace == t0 + PlayTrace(d0, s0, done)
    }

    method PersistState(st: State)
      modifies this`state, this`trace
      ensures Files() == old(Files()).(state := Some(st))
      ensures trace == old(trace) + [Files()]
    {
      state := Some(st);
      trace := trace + [Files()];
    }

    method AppendEvent(st: State, details: Details, ts: int, ghost d0: Disk, ghost s0: State,
                       ghost t0: seq<Disk>, ghost done: seq<Pending>) returns (next: State)
      requires At(d0, s0, t0, done, st)
      modifies this`ledger, this`state, this`trace
      ensures next == Advance(st, Pending(details, ts, st.now))
      ensures next == Played(d0, s0, done + [Pending(details, ts, st.now)]).1
      ensures At(d0, s0, t0, done + [Pending(details, ts, st.now)], next)
    {
      ghost var p := Pending(details, ts, st.now);
      var sequence := st.sequence + 1;
      var body := Body(sequence, details, ts, st.frozen.planHash, st.frozen.reportHash, st.lastHash, st.now);
      var event := Event(body, Digest(body));
      ledger := Some((if ledger.Some? then ledger.value else []) + [Record(event)]);
      trace := trace + [Files()];
      next := st.(sequence := sequence, lastHash := event.hash);
      PersistState(next);
      PlayedSnoc(d0, s0, done, p);
      assert trace == t0 + (PlayTrace(d0, s0, done) + [AppendLine(old(Files()), Record(event)), Files()]);
    }

    /** Reads the ledger line by line, checking schema, sequence, previous hash and own hash. */
    method ReadLedgerEvents() returns (r: Result<seq<Event>, OmsError>)
      ensures r == ReadLedger(ledger)
    {
      if ledger.None? {
        return Err(LedgerMissing);
      }
      var lines := ledger.value;
      var events, previous := [], Genesis;
      assert Accepted([]) && lines[..0] == [] && EventsOf([]) == [];
      hide Accepted, EventsOf;
      var i := 0;
      while i < |lines|
        invariant 0 <= i <= |lines|
        invariant Torn !in lines[..i]
        invariant events == EventsOf(lines[..i]) && |events| == i
        invariant Accepted(events) && previous == PreviousHash(events)
      {
        LineStep(lines, i);
        if lines[i].Torn? {
          assert lines[i] in lines;
          return Err(LedgerCorrupt);
        }
        var event := lines[i].event;
        AcceptedSnoc(events, event);
        if event.body.sequence != |events| + 1 || event.body.previous != previous || event.hash != Digest(event.body) {
          RejectedPrefix(lines, i + 1);
          return Err(LedgerCorrupt);
        }
        previous := event.hash;
        events := events + [event];
        i := i + 1;
      }
      assert lines[..i] == lines;
      if events == [] {
        return Err(LedgerEmpty);
      }
      return Ok(events);
    }

    method RecoverOrValidateState() returns (r: Result<State, OmsError>)
      modifies this`state, this`trace
      ensures Load(old(Files())).Err? ==>
                r == Err(Load(old(Files())).error) && Files() == old(Files()) && trace == old(trace)
      ensures Load(old(Files())).Ok? ==>
                var p := Load(old(Files())).value;
                && r == Ok(p.mem)
                && Files() == (if p.dirty then WriteOnce(old(Files()), p).0 else old(Files()))
                && trace == old(trace) + (if p.dirty then [Files()] else [])
    {
      if state.None? {
        return Err(StateMissing);
      }
      var st := state.value;
      var read := ReadLedgerEvents();
      if read.Err? {
        return Err(read.error);
      }
      var events := read.value;
      if events == [] {
        return Err(LedgerEmpty);
      }
      var last := events[|events| - 1];
      if st.sequence == last.body.sequence {
        return if st.lastHash != last.hash then Err(LastHashMismatch) else Ok(st);
      }
      if st.sequence > last.body.sequence {
        return Err(StateAhead);
      }
      st := State(st.frozen, last.body.after, last.body.sequence, last.hash);
      PersistState(st);
      return Ok(st);
    }

    method AcquireLock(token: Token) returns (ok: bool)
      modifies this`lock
      ensures ok == old(lock).None?
      ensures lock == if ok then Some(token) else old(lock)
    {
      ok := lock.None?;
      if ok {
        lock := Some(token);
      }
    }

    method Initialize(token: Token, chain: Option<Plan>, limit: real) returns (r: Result<State, OmsError>)
      modifies this
      ensures lock == old(lock)
      ensures old(lock).Some? ==> r == Err(LockHeld) && Files() == old(Files()) && trace == old(trace)
      ensures old(lock).None? ==>
                var admitted := Admit(old(Files()), Init(chain, limit));
                if admitted.Err? then r == Err(admitted.error) && Files() == old(Files()) && trace == old(trace)
                else
                  var held, p := old(Files()).(lock := Some(token)), admitted.value.proc;
                  && r == Ok(Played(held, p.mem, p.todo).1)
                  && Files() == Played(held, p.mem, p.todo).0.(lock := None)
                  && trace == old(trace) + PlayTrace(held, p.mem, p.todo)
      ensures old(lock).None? && Admit(old(Files()), Init(chain, limit)).Ok? ==>
                && |old(trace)| <= |trace|
                && RunsAsMachine(old(Files()), token, Init(chain, limit), trace[|old(trace)|..], Files())
    {
      hide Admit, Played, PlayTrace, RunsAsMachine;
      var acquired := AcquireLock(token);
      if !acquired {
        return Err(LockHeld);
      }
      ghost var held, op := Files(), Init(chain, limit);
      AdmissionIgnoresLock(old(Files()), token, op);
      r := InitializeUnderLock(chain, limit);
      lock := None;
      if Admit(held, op).Ok? {
        InitIsClean(held, chain, limit);
        OperationRunsAsMachine(old(Files()), token, op);
        ghost var p := Admit(held, op).value.proc;
        assert [] + PlayTrace(held, p.mem, p.todo) == PlayTrace(held, p.mem, p.todo);
        assert trace[|old(trace)|..] == Images(held, p);
      }
    }

    method InitializeUnderLock(chain: Option<Plan>, limit: real) returns (r: Result<State, OmsError>)
      modifies this`ledger, this`state, this`trace
      ensures var admitted := Admit(old(Files()), Init(chain, limit));
              if admitted.Err? then r == Err(admitted.error) && Files() == old(Files()) && trace == old(trace)
              else
                var held, p := old(Files()), admitted.value.proc;
                && r == Ok(Played(held, p.mem, p.todo).1)
                && Files() == Played(held, p.mem, p.todo).0
                && trace == old(trace) + PlayTrace(held, p.mem, p.todo)
    {
      if limit <= 0.0 {
        return Err(BadLimit);
      }
      if ledger.Some? || state.Some? {
        return Err(ArtifactsExist);
      }
      if chain.None? {
        return Err(ChainNotReady);
      }
      var st := Fresh(FrozenOf(chain.value, limit));
      ghost var d0, t0 := Files(), trace;
      assert trace == t0 + PlayTrace(d0, st, []);
      st := AppendEvent(st, Initialized(limit), 0, d0, st, t0, []);
      assert [] + [Birth(st.frozen)] == [Birth(st.frozen)];
      r := Ok(st);
    }

    method ApplyObservation(token: Token, chain: Option<Plan>, raw: RawObservation, guard: Guard)
      returns (r: Result<State, OmsError>)
      modifies this
      ensures lock == old(lock)
      ensures old(lock).Some? ==> r == Err(LockHeld) && Files() == old(Files()) && trace == old(trace)
      ensures old(lock).None? ==>
                var held := old(Files()).(lock := Some(token));
                var admitted := Admit(held, Observe(chain, raw, guard));
                if admitted.Err? then r == Err(admitted.error) && Files() == old(Files()) && trace == old(trace)
                else
                  var p, verdict := admitted.value.proc, admitted.value.verdict;
                  var (synced, first) := Synced(held, p);
                  && (verdict.Done? ==> r == Ok(Played(synced, p.mem, p.todo).1))
                  && (verdict.Refused? ==> r == Err(verdict.error))
                  && Files() == Played(synced, p.mem, p.todo).0.(lock := None)
                  && trace == old(trace) + Images(held, p)
      ensures old(lock).None? && Admit(old(Files()), Observe(chain, raw, guard)).Ok? ==>
                && |old(trace)| <= |trace|
                && RunsAsMachine(old(Files()), token, Observe(chain, raw, guard), trace[|old(trace)|..], Files())
    {
      hide Admit, Played, PlayTrace, RunsAsMachine;
      var acquired := AcquireLock(token);
      if !acquired {
        return Err(LockHeld);
      }
      ghost var held, op := Files(), Observe(chain, raw, guard);
      AdmissionIgnoresLock(old(Files()), token, op);
      r := ApplyUnderLock(chain, raw, guard);
      lock := None;
      if Admit(held, op).Ok? {
        OperationRunsAsMachine(old(Files()), token, op);
        ghost var p := Admit(held, op).value.proc;
        assert trace == old(trace) + Images(held, p) by {
          ConcatAssociative(old(trace), Synced(held, p).1, PlayTrace(Synced(held, p).0, p.mem, p.todo));
        }
        assert trace[|old(trace)|..] == Images(held, p);
      }
    }

    method ApplyUnderLock(chain: Option<Plan>, raw: RawObservation, guard: Guard) returns (r: Result<State, OmsError>)
      modifies this`ledger, this`state, this`trace
      ensures var admitted := Admit(old(Files()), Observe(chain, raw, guard));
              if admitted.Err? then r == Err(admitted.error) && Files() == old(Files()) && trace == old(trace)
              else
                var p, verdict := admitted.value.proc, admitted.value.verdict;
                var (synced, first) := Synced(old(Files()), p);
                && (verdict.Done? ==> r == Ok(Played(synced, p.mem, p.todo).1))
                && (verdict.Refused? ==> r == Err(verdict.error))
                && Files() == Played(synced, p.mem, p.todo).0
                && trace == old(trace) + first + PlayTrace(synced, p.mem, p.todo)
    {
      if chain.None? {
        return Err(ChainNotReady);
      }
      var plan := chain.value;
      var loaded := RecoverOrValidateState();
      if loaded.Err? {
        return Err(loaded.error);
      }
      var st := loaded.value;
      ghost var d0, t0 := Files(), trace;
      assert t0 + PlayTrace(d0, st, []) == t0;
      if st.frozen.planHash != plan.planHash || st.frozen.reportHash != plan.reportHash {
        return Err(ProvenanceMismatch);
      }
      r := TradeOn(plan, st, raw, guard, d0, t0);
    }

    /** Everything after recovery: validation, the observation record, then one of open, fund, close. */
    method TradeOn(plan: Plan, loaded: State, raw: RawObservation, guard: Guard, ghost d0: Disk, ghost t0: seq<Disk>)
      returns (r: Result<State, OmsError>)
      requires At(d0, loaded, t0, [], loaded)
      modifies this`ledger, this`state, this`trace
      ensures Ends(d0, loaded, t0, Decide(plan, loaded.frozen, loaded.now, raw, guard), r)
    {
      hide Played;
      hide PlayTrace;
      var st := loaded;
      if st.now.status.Halted? {
        return Err(KillSwitchActive);
      }
      var normal := Normalize(raw);
      if normal.None? {
        return Err(BadObservation);
      }
      var row := normal.value;
      if row.base !in plan.candidates {
        return Err(OutsideUniverse);
      }
      if st.now.lastTs.Some? && row.ts <= st.now.lastTs.value {
        return Err(NotChronological);
      }
      st := st.(now := st.now.(lastTs := Some(row.ts)));
      if !row.qualityOk {
        st := st.(now := st.now.(status := Halted, killReason := Some(DataQualityFailure)));
        ghost var kill := Pending(KillSwitch(DataQualityFailure, Some(row)), row.ts, st.now);
        st := AppendEvent(st, KillSwitch(DataQualityFailure, Some(row)), row.ts, d0, loaded, t0, []);
        assert [] + [kill] == [kill];
        return Ok(st);
      }
      var held := row.base in st.now.positions;
      if held && row.settlementId.Some? {
        var id := Strip(row.settlementId.value);
        if id == "" {
          return Err(BlankSettlement);
        }
        if id in st.now.positions[row.base].settlementIds {
          return Err(DuplicateSettlement);
        }
        if row.mexcRate.None? || row.gateRate.None? {
          return Err(MissingRates);
        }
      }
      var details := Observed(row, MexcBps(row), GateBps(row), Spread(row));
      ghost var note := Pending(details, row.ts, st.now);
      st := AppendEvent(st, details, row.ts, d0, loaded, t0, []);
      assert [] + [note] == [note];
      if held {
        r := ManageHeld(plan, st, row, guard, d0, loaded, t0, [note]);
      } else {
        r := EnterNew(plan, st, row, guard, d0, loaded, t0, [note]);
      }
    }

    /** The operation has written exactly the decided events and reports the decided verdict. */
    ghost predicate Ends(d0: Disk, s0: State, t0: seq<Disk>, outcome: Outcome, r: Result<State, OmsError>)
      reads this
    {
      && At(d0, s0, t0, outcome.todo, Played(d0, s0, outcome.todo).1)
      && r == if outcome.verdict.Done? then Ok(Played(d0, s0, outcome.todo).1) else Err(outcome.verdict.error)
    }

    method GuardTransition(st: State, row: Observation, transition: Transition, guard: Guard, ghost d0: Disk,
                           ghost s0: State, ghost t0: seq<Disk>, ghost done: seq<Pending>) returns (gate: Checked)
      requires At(d0, s0, t0, done, st)
      modifies this`ledger, this`state, this`trace
      ensures match PassGuard(st.now, row, transition, guard)
              case Fault => gate == Raised && At(d0, s0, t0, done, st)
              case Stopped(event) => gate == Blocked(Played(d0, s0, done + [event]).1) && At(d0, s0, t0, done + [event], gate.st)
              case Passed(counted, priced) => gate == Allowed(st.(now := counted), priced) && At(d0, s0, t0, done, gate.st)
    {
      hide Played;
      hide PlayTrace;
      var memory := st;
      match guard
      case NoGuard =>
        memory := memory.(now := memory.now.(executed := memory.now.executed + 1, lastBlock := None));
        gate := Allowed(memory, row);
      case Malformed =>
        gate := Raised;
      case Rejected(why) =>
        memory := memory.(now := memory.now.(blocked := memory.now.blocked + 1, lastBlock := Some(BlockReason(why))));
        memory := AppendEvent(memory, ExecutionBlocked(transition, why), row.ts, d0, s0, t0, done);
        gate := Blocked(memory);
      case Approved(mexc, gateio) =>
        if mexc.None? || mexc.value <= 0.0 || gateio.None? || gateio.value <= 0.0 {
          gate := Raised;
        } else {
          memory := memory.(now := memory.now.(executed := memory.now.executed + 1, lastBlock := None));
          gate := Allowed(memory, row.(mexcTrade := mexc.value, gateTrade := gateio.value));
        }
    }

    method EnterNew(plan: Plan, st: State, row: Observation, guard: Guard, ghost d0: Disk, ghost s0: State,
                    ghost t0: seq<Disk>, ghost done: seq<Pending>) returns (r: Result<State, OmsError>)
      requires At(d0, s0, t0, done, st) && st == Played(d0, s0, done).1
      modifies this`ledger, this`state, this`trace
      ensures var rest := Enter(plan, st.frozen, st.now, row, guard);
              Ends(d0, s0, t0, Outcome(done + rest.todo, rest.verdict), r)
    {
      hide Played;
      hide PlayTrace;
      assert done + [] == done;
      if Spread(row) < plan.entryBps {
        return Ok(st);
      }
      var lower, higher := LowerVenue(row), HigherVenue(row);
      var gate := GuardTransition(st, row, OpenLegs(row.base, lower, higher, plan.notional), guard, d0, s0, t0, done);
      match gate
      case Raised => return Err(GuardFault);
      case Blocked(blocked) => return Ok(blocked);
      case Allowed(counted, priced) =>
        var pos := Position(PositionId(counted.frozen.planHash, row.base, row.ts), row.base, row.ts, lower, higher,
                            TradePrice(priced, lower), TradePrice(priced, higher), Spread(row), 0.0, [], guard);
        var memory := counted.(now := counted.now.(positions := counted.now.positions[row.base := pos], status := Open));
        memory := AppendEvent(memory, PositionOpened(pos), row.ts, d0, s0, t0, done);
        return Ok(memory);
    }

    method ManageHeld(plan: Plan, st: State, row: Observation, guard: Guard, ghost d0: Disk, ghost s0: State,
                      ghost t0: seq<Disk>, ghost done: seq<Pending>) returns (r: Result<State, OmsError>)
      requires At(d0, s0, t0, done, st) && st == Played(d0, s0, done).1
      requires row.base in st.now.positions && SettlementFault(st.now.positions[row.base], row).None?
      modifies this`ledger, this`state, this`trace
      ensures var rest := Manage(plan, st.frozen, st.now, st.now.positions[row.base], row, guard);
              Ends(d0, s0, t0, Outcome(done + rest.todo, rest.verdict), r)
    {
      hide Played;
      hide PlayTrace;
      var pos := st.now.positions[row.base];
      if row.settlementId.None? {
        r := ExitHeld(plan, st, pos, row, guard, d0, s0, t0, done);
      } else {
        var paid, memory := SettleFunding(plan, st, pos, row, d0, s0, t0, done);
        ghost var event := Pending(FundingSettled(pos.id, Strip(row.settlementId.value), FundingPnl(pos, row, plan.notional)),
                                   row.ts, memory.now);
        ghost var rest := Exit(plan, st.frozen, memory.now, paid, row, guard);
        assert done + ([event] + rest.todo) == done + [event] + rest.todo;
        r := ExitHeld(plan, memory, paid, row, guard, d0, s0, t0, done + [event]);
      }
    }

    method SettleFunding(plan: Plan, st: State, pos: Position, row: Observation, ghost d0: Disk, ghost s0: State,
                         ghost t0: seq<Disk>, ghost done: seq<Pending>) returns (paid: Position, memory: State)
      requires At(d0, s0, t0, done, st)
      requires row.settlementId.Some? && row.mexcRate.Some? && row.gateRate.Some?
      modifies this`ledger, this`state, this`trace
      ensures var id, amount := Strip(row.settlementId.value), FundingPnl(pos, row, plan.notional);
              var after := st.now.(positions := st.now.positions[row.base := paid]);
              var event := Pending(FundingSettled(pos.id, id, amount), row.ts, after);
              && paid == Settle(pos, id, amount)
              && memory == Advance(st, event) && memory == Played(d0, s0, done + [event]).1
              && At(d0, s0, t0, done + [event], memory)
    {
      hide Played;
      hide PlayTrace;
      var id := Strip(row.settlementId.value);
      var amount := FundingPnl(pos, row, plan.notional);
      paid := pos.(funding := pos.funding + amount, settlementIds := pos.settlementIds + [id]);
      memory := st.(now := st.now.(positions := st.now.positions[row.base := paid]));
      memory := AppendEvent(memory, FundingSettled(pos.id, id, amount), row.ts, d0, s0, t0, done);
    }

    method ExitHeld(plan: Plan, st: State, pos: Position, row: Observation, guard: Guard, ghost d0: Disk,
                    ghost s0: State, ghost t0: seq<Disk>, ghost done: seq<Pending>) returns (r: Result<State, OmsError>)
      requires At(d0, s0, t0, done, st) && st == Played(d0, s0, done).1
      modifies this`ledger, this`state, this`trace
      ensures var rest := Exit(plan, st.frozen, st.now, pos, row, guard);
              Ends(d0, s0, t0, Outcome(done + rest.todo, rest.verdict), r)
    {
      hide Played;
      hide PlayTrace;
      assert done + [] == done;
      var reason;
      if Spread(row) <= plan.exitBps {
        reason := Convergence;
      } else if row.ts - pos.entryTs >= plan.maxHoldHours * 3600 {
        reason := MaxHold;
      } else {
        return Ok(st);
      }
      var legs := CloseLegs(row.base, pos.id, pos.longVenue, pos.shortVenue, plan.notional, reason);
      var gate := GuardTransition(st, row, legs, guard, d0, s0, t0, done);
      match gate
      case Raised => return Err(GuardFault);
      case Blocked(blocked) => return Ok(blocked);
      case Allowed(counted, priced) =>
        r := CloseHeld(plan, counted, pos, priced, reason, guard, d0, s0, t0, done);
    }

    method CloseHeld(plan: Plan, counted: State, pos: Position, priced: Observation, reason: ExitReason, guard: Guard,
                     ghost d0: Disk, ghost s0: State, ghost t0: seq<Disk>, ghost done: seq<Pending>)
      returns (r: Result<State, OmsError>)
      requires At(d0, s0, t0, done, counted)
      modifies this`ledger, this`state, this`trace
      ensures Ends(d0, s0, t0,
                   Outcome(done + Closing(counted.frozen, counted.now, CloseOut(plan, counted.frozen, pos, priced, reason, guard),
                                          priced.ts), Done), r)
    {
      hide Played;
      hide PlayTrace;
      var pricePnl := PricePnl(pos, priced, plan.notional);
      var cost := plan.notional * counted.frozen.cycleCostBps / 10_000.0;
      var net := pricePnl + pos.funding - cost;
      var closed := ClosedPosition(pos.id, priced.base, pos.entryTs, priced.ts, reason, pricePnl, pos.funding, cost, net, guard);
      var now := counted.now.(positions := counted.now.positions - {priced.base});
      now := now.(status := if now.positions != map[] then Open else Flat, realized := now.realized + net);
      if now.dailyDate != Some(UtcDate(priced.ts)) {
        now := now.(dailyDate := Some(UtcDate(priced.ts)), dailyNet := 0.0);
      }
      now := now.(dailyNet := now.dailyNet + net);
      assert closed == CloseOut(plan, counted.frozen, pos, priced, reason, guard);
      assert now == BookClose(counted.now, closed, priced.ts);
      ghost var close := Pending(PositionClosed(closed), priced.ts, now);
      ghost var todo := Closing(counted.frozen, counted.now, closed, priced.ts);
      var memory := AppendEvent(counted.(now := now), PositionClosed(closed), priced.ts, d0, s0, t0, done);
      if memory.now.dailyNet <= -memory.frozen.limit {
        memory := memory.(now := memory.now.(status := Halted, killReason := Some(DailyLossLimit)));
        ghost var kill := Pending(KillSwitch(DailyLossLimit, None), priced.ts, memory.now);
        memory := AppendEvent(memory, KillSwitch(DailyLossLimit, None), priced.ts, d0, s0, t0, done + [close]);
        assert todo == [close] + [kill];
        assert done + todo == done + [close] + [kill];
      } else {
        assert todo == [close];
      }
      return Ok(memory);
    }
  }
}
