/** The two files and the lock as a state machine: every durable write is one step, any number of
    processes interleave, and a process may die between any two writes. */
module OmsMachine {
  import opened Sequences
  import opened OmsTypes
  import opened OmsDecision
  import opened OmsLedger
  import opened OmsHistory

  type Token = nat

  /** A line of the ledger file: a whole event, or what a torn write left behind. */
  datatype Line = Record(event: Event) | Torn

  datatype Disk = Disk(ledger: Option<seq<Line>>, state: Option<State>, lock: Option<Token>)

  /** A process inside an operation: its in-memory state, what it has still to append, and
      whether the state file is behind its memory. */
  datatype Proc = Proc(mem: State, todo: seq<Pending>, dirty: bool)

  datatype Sys = Sys(disk: Disk, procs: map<Token, Proc>)

  datatype Operation =
    | Init(chain: Option<Plan>, limit: real)
    | Observe(chain: Option<Plan>, raw: RawObservation, guard: Guard)

  datatype Step =
    | Start(token: Token, op: Operation)
    | Write(token: Token)
    | Finish(token: Token)
    | Die(token: Token, torn: bool)
    | ClearLock

  // ---- Reading the files ----

  function EventsOf(lines: seq<Line>): (es: seq<Event>) {
    if lines == [] then []
    else if lines[|lines| - 1].Torn? then EventsOf(lines[..|lines| - 1])
    else EventsOf(lines[..|lines| - 1]) + [lines[|lines| - 1].event]
  }

  ghost function ReadLedger(ledger: Option<seq<Line>>): Result<seq<Event>, OmsError> {
    if ledger.None? then Err(LedgerMissing)
    else if Torn in ledger.value || !Accepted(EventsOf(ledger.value)) then Err(LedgerCorrupt)
    else if ledger.value == [] then Err(LedgerEmpty)
    else Ok(EventsOf(ledger.value))
  }

  /** Loading with recovery: a stale state takes every projected field from the last event. */
  ghost function Load(disk: Disk): Result<Proc, OmsError> {
    if disk.state.None? then Err(StateMissing)
    else
      var s, read := disk.state.value, ReadLedger(disk.ledger);
      if read.Err? then Err(read.error)
      else
        LoadFrom(s, read.value)
  }

  ghost function LoadFrom(s: State, es: seq<Event>): Result<Proc, OmsError> {
    if es == [] then Err(LedgerEmpty)
    else
      var last := es[|es| - 1];
      if s.sequence == last.body.sequence then
        if s.lastHash != last.hash then Err(LastHashMismatch) else Ok(Proc(s, [], false))
      else if s.sequence > last.body.sequence then Err(StateAhead)
      else Ok(Proc(State(s.frozen, last.body.after, last.body.sequence, last.hash), [], true))
  }

  datatype Admission = Admission(proc: Proc, verdict: Verdict)

  ghost function Admit(disk: Disk, op: Operation): Result<Admission, OmsError> {
    match op
    case Init(chain, limit) =>
      if limit <= 0.0 then Err(BadLimit)
      else if disk.ledger.Some? || disk.state.Some? then Err(ArtifactsExist)
      else if chain.None? then Err(ChainNotReady)
      else
        var frozen := FrozenOf(chain.value, limit);
        Ok(Admission(Proc(Fresh(frozen), [Birth(frozen)], false), Done))
    case Observe(chain, raw, guard) =>
      if chain.None? then Err(ChainNotReady)
      else if Load(disk).Err? then Err(Load(disk).error)
      else Ok(AdmitObservation(Load(disk).value, chain.value, raw, guard))
  }

  function FrozenOf(plan: Plan, limit: real): Frozen {
    Frozen(plan.planHash, plan.reportHash, limit, plan.cycleCostBps)
  }

  function AdmitObservation(loaded: Proc, plan: Plan, raw: RawObservation, guard: Guard): Admission {
    if loaded.mem.frozen.planHash != plan.planHash || loaded.mem.frozen.reportHash != plan.reportHash
    then Admission(loaded, Refused(ProvenanceMismatch))
    else
      var outcome := Decide(plan, loaded.mem.frozen, loaded.mem.now, raw, guard);
      Admission(loaded.(todo := outcome.todo), outcome.verdict)
  }

  // ---- Steps ----

  function AppendLine(disk: Disk, line: Line): Disk {
    disk.(ledger := Some((if disk.ledger.Some? then disk.ledger.value else []) + [line]))
  }

  /** One durable write: the ledger append comes first, the state file is replaced after it. */
  function WriteOnce(disk: Disk, p: Proc): (Disk, Proc) {
    if p.dirty then (disk.(state := Some(p.mem)), p.(dirty := false))
    else if p.todo == [] then (disk, p)
    else (AppendLine(disk, Record(MakeEvent(p.mem, p.todo[0]))),
          Proc(Advance(p.mem, p.todo[0]), p.todo[1..], true))
  }

  ghost function Perform(s: Sys, step: Step): Sys {
    match step
    case Start(t, op) =>
      if t in s.procs || s.disk.lock.Some? || Admit(s.disk, op).Err? then s
      else Sys(s.disk.(lock := Some(t)), s.procs[t := Admit(s.disk, op).value.proc])
    case Write(t) =>
      if t !in s.procs then s
      else
        var (disk, p) := WriteOnce(s.disk, s.procs[t]);
        Sys(disk, s.procs[t := p])
    case Finish(t) =>
      if t !in s.procs || s.procs[t].dirty || s.procs[t].todo != [] then s
      else Sys(if s.disk.lock == Some(t) then s.disk.(lock := None) else s.disk, s.procs - {t})
    case Die(t, torn) =>
      if t !in s.procs then s
      else
        var tearing := torn && !s.procs[t].dirty && s.procs[t].todo != [];
        Sys(if tearing then AppendLine(s.disk, Torn) else s.disk, s.procs - {t})
    case ClearLock =>
      if s.disk.lock.Some? && s.disk.lock.value !in s.procs then s.(disk := s.disk.(lock := None)) else s
  }

  ghost function Exec(s: Sys, steps: seq<Step>): Sys {
    if steps == [] then s else Perform(Exec(s, steps[..|steps| - 1]), steps[|steps| - 1])
  }

  ghost function Writes(s: Sys, t: Token, n: nat): Sys { if n == 0 then s else Perform(Writes(s, t, n - 1), Write(t)) }

  /** No files, no processes: where every run begins. */
  const EMPTY := Sys(Disk(None, None, None), map[])

  /** The files right after a completed initialisation. */
  function Booted(frozen: Frozen): Sys {
    Sys(Disk(Some([Record(MakeEvent(Fresh(frozen), Birth(frozen)))]), Some(Advance(Fresh(frozen), Birth(frozen))), None),
        map[])
  }

  // ---- The invariant of every run ----

  ghost predicate TornOnlyLast(lines: seq<Line>) {
    forall i :: 0 <= i < |lines| - 1 ==> lines[i].Record?
  }

  function IsTorn(s: Sys): bool {
    s.disk.ledger.Some? && s.disk.ledger.value != [] && s.disk.ledger.value[|s.disk.ledger.value| - 1].Torn?
  }

  function History(s: Sys): seq<Event> { if s.disk.ledger.None? then [] else EventsOf(s.disk.ledger.value) }

  ghost predicate StateLagsAtMostOne(frozen: Frozen, s: Sys) {
    && s.disk.state.Some?
    && var es := History(s);
       || s.disk.state.value == StateOf(frozen, es)
       || (|es| >= 2 && s.disk.state.value == StateOf(frozen, es[..|es| - 1]))
  }

  ghost predicate ProcOk(frozen: Frozen, s: Sys, t: Token) requires t in s.procs {
    var p, es := s.procs[t], History(s);
    && s.disk.lock == Some(t)
    && p.mem == StateOf(frozen, es)
    && LegalRun(frozen, Latest(es), p.todo)
    && (!p.dirty <==> s.disk.state == Some(p.mem))
  }

  ghost predicate SysInv(frozen: Frozen, s: Sys) {
    && s.disk.ledger.Some? && TornOnlyLast(s.disk.ledger.value)
    && Grown(frozen, History(s))
    && StateLagsAtMostOne(frozen, s)
    && (IsTorn(s) ==> s.procs == map[] && s.disk.state == Some(StateOf(frozen, History(s))))
    && (forall t :: t in s.procs ==> ProcOk(frozen, s, t))
  }

  lemma EventsOfAppend(lines: seq<Line>, line: Line)
    ensures EventsOf(lines + [line]) == EventsOf(lines) + if line.Torn? then [] else [line.event]
  {
    assert (lines + [line])[..|lines|] == lines;
  }

  lemma {:induction false} NoTornEvents(lines: seq<Line>)
    ensures |EventsOf(lines)| <= |lines|
    ensures Torn !in lines ==> |EventsOf(lines)| == |lines|
  {
    if lines != [] {
      NoTornEvents(lines[..|lines| - 1]);
    }
  }

  lemma TornMembership(s: Sys)
    requires s.disk.ledger.Some? && TornOnlyLast(s.disk.ledger.value)
    ensures Torn in s.disk.ledger.value <==> IsTorn(s)
  {
    if IsTorn(s) { assert s.disk.ledger.value[|s.disk.ledger.value| - 1] == Torn; }
  }

  lemma BootedInv(frozen: Frozen)
    ensures SysInv(frozen, Booted(frozen))
  {
    EventsOfAppend([], Booted(frozen).disk.ledger.value[0]);
  }

  /** Recovery from the last event, whether the state file is up to date or one event behind. */
  lemma LoadFromLast(frozen: Frozen, stored: State, es: seq<Event>)
    requires Grown(frozen, es) && Accepted(es)
    requires stored == StateOf(frozen, es) || (|es| >= 2 && stored == StateOf(frozen, es[..|es| - 1]))
    ensures LoadFrom(stored, es) == Ok(Proc(StateOf(frozen, es), [], stored != StateOf(frozen, es)))
  {
    assert es[|es| - 1].body.sequence == |es|;
    hide Accepted, Legal;
    if |es| >= 2 { GrownPrefix(frozen, es, |es| - 1); }
  }

  lemma ReadsHistory(frozen: Frozen, s: Sys)
    requires SysInv(frozen, s) && !IsTorn(s)
    ensures ReadLedger(s.disk.ledger) == Ok(History(s)) && Accepted(History(s))
  {
    GrownIsAccepted(frozen, History(s));
    TornMembership(s);
    hide Accepted, Grown, Coherent, ProcOk, StateLagsAtMostOne;
    NoTornEvents(s.disk.ledger.value);
  }

  /** Loading any reachable pair of files gives the state of the last appended event. */
  lemma LoadGivesLastState(frozen: Frozen, s: Sys)
    requires SysInv(frozen, s) && !IsTorn(s)
    ensures Load(s.disk).Ok?
    ensures Load(s.disk).value.mem == StateOf(frozen, History(s)) && Load(s.disk).value.todo == []
    ensures !Load(s.disk).value.dirty <==> s.disk.state.value == StateOf(frozen, History(s))
  {
    ReadsHistory(frozen, s);
    hide ReadLedger, Accepted, Grown, LoadFrom, ProcOk;
    LoadFromLast(frozen, s.disk.state.value, History(s));
  }

  lemma LockFreeMeansIdle(frozen: Frozen, s: Sys)
    requires SysInv(frozen, s) && s.disk.lock.None?
    ensures s.procs == map[]
  {
    hide Decide;
    hide Coherent;
    assert forall u :: u in s.procs ==> ProcOk(frozen, s, u);
    assert s.procs.Keys == {};
  }

  /** A process admitted to reachable files starts from the last state with legal events to append. */
  lemma AdmittedIsLegal(frozen: Frozen, s: Sys, op: Operation)
    requires SysInv(frozen, s) && Admit(s.disk, op).Ok?
    ensures !IsTorn(s)
    ensures var p := Admit(s.disk, op).value.proc;
            && p.mem == StateOf(frozen, History(s))
            && LegalRun(frozen, Latest(History(s)), p.todo)
            && (!p.dirty <==> s.disk.state == Some(p.mem))
  {
    hide Decide;
    hide Coherent;
    TornMembership(s);
    LoadGivesLastState(frozen, s);
    GrownIsAccepted(frozen, History(s));
    DecideIsLegal(op.chain.value, frozen, Latest(History(s)), op.raw, op.guard);
  }

  lemma StartKeepsInv(frozen: Frozen, s: Sys, t: Token, op: Operation)
    requires SysInv(frozen, s)
    ensures SysInv(frozen, Perform(s, Start(t, op)))
  {
    hide Decide;
    hide Coherent;
    var s' := Perform(s, Start(t, op));
    if t !in s.procs && s.disk.lock.None? && Admit(s.disk, op).Ok? {
      AdmittedIsLegal(frozen, s, op);
      LockFreeMeansIdle(frozen, s);
      assert s'.disk.ledger == s.disk.ledger && s'.disk.state == s.disk.state;
      assert ProcOk(frozen, s', t);
    }
  }

  lemma {:induction false} WriteKeepsInv(frozen: Frozen, s: Sys, t: Token)
    requires SysInv(frozen, s)
    ensures SysInv(frozen, Perform(s, Write(t)))
  {
    hide LegalDetails;
    hide ReplayStep;
    hide Accepted;
    hide Decide;
    hide Coherent;
    if t in s.procs {
      assert ProcOk(frozen, s, t);
      var p, es, s' := s.procs[t], History(s), Perform(s, Write(t));
      forall u | u in s.procs ensures u == t { assert ProcOk(frozen, s, u); }
      if !p.dirty && p.todo != [] {
        var e := MakeEvent(p.mem, p.todo[0]);
        EventsOfAppend(s.disk.ledger.value, Record(e));
        GrownStep(frozen, es, p.todo[0]);
        assert History(s') == es + [e];
        assert (es + [e])[..|es|] == es;
      }
      assert ProcOk(frozen, s', t);
    }
  }

  lemma DieKeepsInv(frozen: Frozen, s: Sys, t: Token, torn: bool)
    requires SysInv(frozen, s)
    ensures SysInv(frozen, Perform(s, Die(t, torn)))
    ensures History(Perform(s, Die(t, torn))) == History(s)
  {
    hide LegalDetails;
    hide ReplayStep;
    hide Accepted;
    hide Decide;
    hide Coherent;
    if t in s.procs {
      assert ProcOk(frozen, s, t);
      forall u | u in s.procs ensures u == t { assert ProcOk(frozen, s, u); }
      EventsOfAppend(s.disk.ledger.value, Torn);
      assert s.procs - {t} == map[];
    }
  }

  lemma StepKeepsInv(frozen: Frozen, s: Sys, step: Step)
    requires SysInv(frozen, s)
    ensures SysInv(frozen, Perform(s, step))
  {
    hide Decide;
    hide Coherent;
    match step
    case Start(t, op) => StartKeepsInv(frozen, s, t, op);
    case Write(t) => WriteKeepsInv(frozen, s, t);
    case Finish(t) =>
      forall u | u in s.procs ensures ProcOk(frozen, s, u) {}
    case Die(t, torn) => DieKeepsInv(frozen, s, t, torn);
    case ClearLock =>
      forall u | u in s.procs ensures ProcOk(frozen, s, u) {}
  }
}
