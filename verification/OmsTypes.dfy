/** Values of the paper order management system (basis_paper_oms.py). */
module OmsTypes {
  import opened Sequences

  datatype Venue = Mexc | Gateio

  datatype OmsError =
    | LockHeld | LockLost | ArtifactsExist | BadLimit | ChainNotReady
    | StateMissing | LedgerMissing | LedgerEmpty | LedgerCorrupt | LastHashMismatch | StateAhead
    | ProvenanceMismatch | KillSwitchActive | BadObservation | OutsideUniverse | NotChronological
    | BlankSettlement | DuplicateSettlement | MissingRates | GuardFault

  /** The part of the frozen plan that the system reads. */
  datatype Plan = Plan(
    planHash: string, reportHash: string, candidates: set<string>,
    entryBps: real, exitBps: real, maxHoldHours: int, notional: real, cycleCostBps: real)

  /** An observation as handed in; an absent or non-numeric field is `None`. */
  datatype RawObservation = RawObservation(
    manualPnl: bool, ts: Option<int>, base: Option<string>,
    mexcTrade: Option<real>, gateTrade: Option<real>,
    mexcMark: Option<real>, mexcIndex: Option<real>, gateMark: Option<real>, gateIndex: Option<real>,
    qualityOk: Option<bool>, mexcRate: Option<real>, gateRate: Option<real>, settlementId: Option<string>)

  datatype Observation = Observation(
    ts: int, base: string, mexcTrade: Price, gateTrade: Price,
    mexcMark: Price, mexcIndex: Price, gateMark: Price, gateIndex: Price,
    qualityOk: bool, mexcRate: Option<real>, gateRate: Option<real>, settlementId: Option<string>)

  /** What the execution guard answers; a missing or non-numeric price is `None`. */
  datatype Guard =
    | NoGuard
    | Malformed
    | Rejected(reason: Option<string>)
    | Approved(mexc: Option<real>, gateio: Option<real>)

  datatype ExitReason = Convergence | MaxHold
  datatype KillReason = DataQualityFailure | DailyLossLimit
  datatype Status = Flat | Open | Halted

  /** A position identifier is a digest of these three values; the digest is taken as injective. */
  datatype PositionId = PositionId(planHash: string, base: string, entryTs: int)

  datatype Position = Position(
    id: PositionId, base: string, entryTs: int, longVenue: Venue, shortVenue: Venue,
    longEntry: Price, shortEntry: Price, entrySpread: real,
    funding: real, settlementIds: seq<string>, execution: Guard)

  datatype ClosedPosition = ClosedPosition(
    id: PositionId, base: string, entryTs: int, exitTs: int, reason: ExitReason,
    pricePnl: real, funding: real, cost: real, net: real, execution: Guard)

  datatype Transition =
    | OpenLegs(base: string, longVenue: Venue, shortVenue: Venue, notional: real)
    | CloseLegs(base: string, id: PositionId, longVenue: Venue, shortVenue: Venue, notional: real, reason: ExitReason)

  /** The ten fields that every ledger event repeats as `state_after`. */
  datatype Projection = Projection(
    status: Status, positions: map<string, Position>, realized: real,
    dailyDate: Option<int>, dailyNet: real, lastTs: Option<int>, killReason: Option<KillReason>,
    blocked: nat, executed: nat, lastBlock: Option<string>)

  /** The fields written once, at initialisation. */
  datatype Frozen = Frozen(planHash: string, reportHash: string, limit: real, cycleCostBps: real)

  datatype State = State(frozen: Frozen, now: Projection, sequence: nat, lastHash: Hash)

  datatype Details =
    | Initialized(limit: real)
    | KillSwitch(reason: KillReason, cause: Option<Observation>)
    | Observed(row: Observation, mexcBps: real, gateBps: real, spread: real)
    | ExecutionBlocked(transition: Transition, why: Option<string>)
    | PositionOpened(position: Position)
    | FundingSettled(id: PositionId, settlementId: string, amount: real)
    | PositionClosed(closed: ClosedPosition)

  /** Everything in a ledger event except its own hash. */
  datatype Body = Body(
    sequence: nat, details: Details, ts: int, planHash: string, reportHash: string,
    previous: Hash, after: Projection)

  /** The hash as a free constructor: equal hashes have equal preimages, and none equals GENESIS. */
  datatype Hash = Genesis | Digest(body: Body)

  datatype Event = Event(body: Body, hash: Hash)

  /** An event about to be appended: its type and details, its timestamp and the projected state. */
  datatype Pending = Pending(details: Details, ts: int, after: Projection)

  datatype Verdict = Done | Refused(error: OmsError)

  datatype Outcome = Outcome(todo: seq<Pending>, verdict: Verdict)

  const SECONDS_PER_DAY := 86_400

  /** The UTC calendar day of a timestamp, counted from the epoch (floor division). */
  function UtcDate(ts: int): int { ts / SECONDS_PER_DAY }

  lemma UtcDateMonotone(a: int, b: int)
    requires a <= b
    ensures UtcDate(a) <= UtcDate(b)
  {
  }
}
