# Verified models of the trading research system

This project models ten pieces of the trading research repository whose behaviour depends on
state, recovery or arithmetic, and proves what those pieces are for. Each Dafny module follows
one component of the program; imperative code is imperative here (classes with fields, methods
with loops), each method is proved against a specification function, and the theorems are about
that function over every input, every run or every reachable state.

| component | files | main results |
|---|---|---|
| paper order management | `OmsTypes`, `OmsDecision`, `OmsAnswer`, `OmsBooking`, `OmsLedger`, `OmsHistory`, `OmsMachine`, `OmsAdmission`, `OmsBoot`, `OmsCrash`, `OmsStore`, `OmsWitness` | exactly what each observation is answered with and books, crash recovery refines crash-free execution, the hash chain commits to the history, the state is a replay of the ledger, loss safety and its one exception |
| funding backtest | `FundingTypes`, `FundingPosition`, `FundingGates`, `FundingBacktest`, `FundingGroups`, `FundingTrades`, `FundingReturns`, `FundingZeros`, `EquityCurve`, `FundingMetrics` | closed form of the accrual loop, causality, market independence, what every trade returns, is paid and costs, told from its rows, what zero fields do, streaming drawdown is the pairwise one |
| capitulation study | `CapitulationSignals`, `CapitulationMedian`, `CapitulationBuilder`, `CapitulationVerdicts`, `CapitulationExecution`, `CapitulationSchedule`, `CapitulationGreedy`, `CapitulationReturns` | exactly which observations signal and what their trades earn, signal-to-trade causality, capacity and cooldown at every instant, execution refines a simple greedy rule, every observation counted once |
| funding history fetch | `FundingHistory`, `FundingComplete` | bisection is sound and in order, exactly when it is complete, at most 31 requests, exactly which limits serve hourly histories |
| dislocation scan | `TopEvents`, `DislocationScan`, `ScanQuotes`, `ReportTop` | the scan against its quotes, the lazily trimmed buffer agrees with the full sort, and exactly when the whole report does |
| fallback queue | `WorkQueue`, `WorkQueueAnswer`, `WorkQueueRaces` | exactly what the resolver answers, resolver and runner agree, exactly when the queue drains, exactly when racing runners stay within bounds |
| research backlog | `ResearchBacklog`, `BacklogAnswer` | exactly what each operation answers and leaves, lifecycle over all operation sequences |
| run windows | `RunWindow` | exactly which runtime requests are accepted |
| runtime registry | `StrategyRegistry`, `RegistryAnswer` | exactly the sound registries, one owner for each name, one launch |
| shared | `Sequences`, `Timeline` | stable sorting, sorted distinct times |

The paper order management system has three layers. `OmsDecision` says which events one
observation appends, and `OmsAnswer` and `OmsBooking` tie that to the raw fields of the observation. `OmsMachine` is a state machine over the ledger file, the state file, the
lock file and any number of processes, with steps for starting an operation, one durable write,
finishing, dying (with or without a torn last line) and an operator clearing a lock whose owner is
dead. `OmsStore` is the program itself, a class over the files; its methods carry a ghost trace of
the files after every durable write, and the contracts of `Initialize` and `ApplyObservation` say that
this trace is a run of the machine. `OmsBoot` starts the machine from no files at all, and the theorems
about runs speak of every run from there.

## Findings

Where the code does not meet a promise, the model keeps the code and the theorems state exactly when
the promise is kept.

- A process that dies after OBSERVATION_RECORDED loses the rest of its transition for good: the
  resubmitted observation is refused because its timestamp is no longer new (`ObservationIsAtMostOnce`).
  Such a run exists for every limit and every plan with a base and a notional (`EntryIsLost`).
- A process that dies between POSITION_CLOSED and KILL_SWITCH leaves a breached daily limit without a
  halt. It is the only step that does, and it always does (`LossSafetyStep`, `LossSafeRuns`); a run
  reaches it for every limit and every plan with a base and a notional (`BreachIsReachable`).
- An initialisation that tears its first append, or dies between that append and the first state file,
  leaves a ledger without a state, which no operation accepts, initialisation included. Exactly the
  other deaths leave usable files (`InitializationSurvivesIff`, `UsableIff`, `StillbornIsFinal`).
- On Mondays from 00:00 to 08:00 the calendar subtracts a week too many: it reports last weekend's
  window with no time remaining, so no request is accepted although the policy, and the branch's own
  condition, put that time inside the weekend window (`OpenWindowIsIntended`, `AcceptedIffInsideWindow`).
- The fallback runner reads eligibility before it takes its lock. Racing runners keep the bounds if and
  only if none starts on an overtaken reading (`RacesAreDisciplinedIff`), and one can start a completed
  entry again (`StaleReadingRestarts`).
- The resolver does not check the runner's name, so an entry with an unsupported runner is offered for
  ever. The queue drains if and only if no such entry is selectable (`QueueDrainsIff`).
- A dislocation report longer than the limit is the top list exactly when nothing was dropped or the last
  candidate caused a trim; otherwise a late weak event can stand in it where a stronger one was dropped
  (`ReportIsTopIff`).
- The funding fetch stops splitting at the fifth level or at one day. Settlements can be lost exactly when
  such a final window holds more of them than one page (`FetchIsCompleteIff`); hourly settlements over
  the 179 days need a limit of 269 (`HourlyLimitIff`), and the default of 1000 is safe.
- `or` defaults read a given zero as missing. At the gates this refuses a score or spread of zero that its
  threshold admits, and nothing else (`ZerosAtTheGates`); it also replaces a zero interval or time in
  openings and accruals (`OpenAgreesIff`, `AccrualAgreesIff`).

## Model

| member | source | states |
|---|---|---|
| OmsDecision.PairIsMarketNeutral | trading_mvp/src/basis_paper_oms.py:487-494 | the price result of a pair is the notional on the difference of the legs' returns, so a common move earns nothing |
| OmsDecision.TradesExactlyWhen | trading_mvp/src/basis_paper_oms.py:562-762 | exactly when one observation opens and when it closes a position, over all its checks, thresholds and the guard; what is opened is the pair the spread calls for, at executed prices |
| OmsDecision.SettlesExactlyWhen | trading_mvp/src/basis_paper_oms.py:595-686 | exactly when one observation settles funding, and that it books the notional on the difference of the venues' rates, once, before any exit |
| OmsAnswer.NormalizeReads | trading_mvp/src/basis_paper_oms.py:423-472 | exactly the well-formed observations are read, each price and rate at its own venue, and a venue's premium is its mark's distance from its index relative to the index |
| OmsAnswer.RefusedExactlyWhen | trading_mvp/src/basis_paper_oms.py:546-762 | exactly when an observation is refused, and as which error, told from its raw fields, the state and the guard; every other one is taken up |
| OmsAnswer.RecordedExactlyWhen | trading_mvp/src/basis_paper_oms.py:592-617 | exactly when an observation is recorded, once and first: its row, both premiums and their distance at its own time, with only the last time moved |
| OmsAnswer.QualityKillExactlyWhen | trading_mvp/src/basis_paper_oms.py:577-590 | exactly when failed data quality halts the system: one kill switch, nothing else, with the observation's time and row, the state halted for that reason and positions, sums and counters as before |
| OmsAnswer.WritesNothingIff | trading_mvp/src/basis_paper_oms.py:546-762 | nothing is appended exactly for the refusals that come before the record |
| OmsBooking.OpensExactlyWhen | trading_mvp/src/basis_paper_oms.py:619-668 | an opening stands alone behind the record: derived id, the pair and prices of the spread, no funding yet, and the state with it in |
| OmsBooking.ClosesExactlyWhen | trading_mvp/src/basis_paper_oms.py:688-762 | exactly when a position is closed, what the close says (reason, price result, all funding, cost, net), what it adds to the realised result and to its UTC day, and that the kill switch follows exactly when the day has reached the limit |
| OmsBooking.LossKillExactlyWhen | trading_mvp/src/basis_paper_oms.py:740-761 | the loss switch is thrown exactly by a close that takes its day to the limit |
| OmsBooking.BlocksExactlyWhen | trading_mvp/src/basis_paper_oms.py:497-543 | exactly when a transition is blocked: the transition asked for, the counter and the reason, and nothing else but a settlement of the same observation |
| OmsBooking.UtcDateIsADay | trading_mvp/src/basis_paper_oms.py:736 | the day of a close is the 86400 seconds from its midnight that hold it |
| OmsLedger.LastHashFixesTheLedger | trading_mvp/src/basis_paper_oms.py:227-255 | two accepted ledgers with the same last hash are equal event by event |
| OmsLedger.LegalKeepsCoherent | trading_mvp/src/basis_paper_oms.py:592-762 | each legal event keeps the state consistent: positions keyed by base with their derived ids, status agreeing with positions and kill reason, time not going back |
| OmsLedger.DecideIsLegal | trading_mvp/src/basis_paper_oms.py:546-762 | everything one observation appends is a legal continuation, and each recorded state is what its details replay to |
| OmsHistory.GrownIsAccepted | trading_mvp/src/basis_paper_oms.py:227-319 | every ledger grown by legal appends passes all the reader's checks |
| OmsHistory.LedgerReplaysToState | trading_mvp/src/basis_paper_oms.py:274-319 | the projected state equals a fold over the events' own details that never looks at the recorded states |
| OmsHistory.CountersMatchLedger | trading_mvp/src/basis_paper_oms.py:497-543 | executed and blocked counters, realised result and the number of open positions equal counts and sums over the ledger |
| OmsHistory.FundingMatchesLedger | trading_mvp/src/basis_paper_oms.py:670-686 | an open position's funding is the sum of its own settlement events, and no settlement id occurs twice |
| OmsHistory.ClosedFundingMatchesLedger | trading_mvp/src/basis_paper_oms.py:718-735 | a closed position's net result uses exactly the funding its settlements paid |
| OmsHistory.DailyResultMatchesLedger | trading_mvp/src/basis_paper_oms.py:736-740 | the daily result is the sum of the closes on its UTC day, which needs chronology across all bases |
| OmsHistory.TimestampsDoNotDecrease | trading_mvp/src/basis_paper_oms.py:574-577 | no event of a reachable ledger is later than the last observation |
| OmsHistory.ClosedStaysClosed | trading_mvp/src/basis_paper_oms.py:733-749 | a closed position is never open again |
| OmsHistory.ClosedAtMostOnce | trading_mvp/src/basis_paper_oms.py:733-749 | no position is closed twice |
| OmsHistory.HaltSaysWhy | trading_mvp/src/basis_paper_oms.py:577-761 | a reachable ledger is halted exactly when its last event is a kill switch, which a row of failed quality or a day at the limit justifies; every recorded observation was sound |
| OmsHistory.EventsCarryProvenance | trading_mvp/src/basis_paper_oms.py:289-319 | every event of a reachable ledger carries its place, the one plan and report hash, and the state its details replay to |
| OmsAdmission.InitializesExactlyWhen | trading_mvp/src/basis_paper_oms.py:364-420 | exactly when initialisation is admitted, and the flat state with the plan's hashes, cost and limit that it starts from |
| OmsAdmission.LoadsExactlyWhen | trading_mvp/src/basis_paper_oms.py:227-361 | exactly when the files can be loaded, to which state, and every reason why not |
| OmsAdmission.ObservesExactlyWhen | trading_mvp/src/basis_paper_oms.py:546-569 | exactly when an observation is admitted; one under another plan or report appends nothing |
| OmsAdmission.OnePlanPerLedger | trading_mvp/src/basis_paper_oms.py:563-567 | in every reachable state only observations under the ledger's own plan and report append anything |
| OmsMachine.LoadGivesLastState | trading_mvp/src/basis_paper_oms.py:336-361 | loading any reachable pair of files gives the state of the last appended event |
| OmsMachine.StepKeepsInv | trading_mvp/src/basis_paper_oms.py:90-361 | every step of every process keeps the ledger legal and the state file at most one event behind |
| OmsBoot.EveryRunIsConsistent | trading_mvp/src/basis_paper_oms.py:90-420 | in every run from no files at all, with any interleaving, deaths, torn writes and operator resets: once a state file exists the ledger is legal and the state file at most one event behind |
| OmsBoot.InitializationBoots | trading_mvp/src/basis_paper_oms.py:364-420 | completed initialisation gives the booted files |
| OmsBoot.InitializationSurvivesIff | trading_mvp/src/basis_paper_oms.py:364-420 | after an initialisation that died after n writes, torn or not, and was unlocked, some operation is admitted if and only if it died untorn before its append or after its state file |
| OmsBoot.UsableIff | trading_mvp/src/basis_paper_oms.py:336-420 | of all idle, unlocked files that a run can leave, exactly those without a ledger, or with a state file and an untorn ledger, admit any operation |
| OmsBoot.StillbornIsFinal | trading_mvp/src/basis_paper_oms.py:364-420 | a ledger without a state file is never changed and admits nothing, in any later run |
| OmsCrash.SingleWriter | trading_mvp/src/basis_paper_oms.py:90-163 | in every run from no files, at most one process is inside an operation, and the lock names it |
| OmsCrash.RecoveryRestoresMemory | trading_mvp/src/basis_paper_oms.py:336-361 | in every run from no files: after a death between any two writes, recovery gives exactly the state that the interrupted write would have left, and before the state file exists every load is refused |
| OmsCrash.ReconciliationIsExact | trading_mvp/src/basis_paper_oms.py:765-791 | in every run from no files, once the state file exists, reconciliation of an untorn ledger reports a match exactly when no recovery is needed, and then the whole state agrees |
| OmsCrash.TornLedgerFailsClosed | trading_mvp/src/basis_paper_oms.py:227-255 | after a torn last line no run changes either file, and the state agrees with the events before the tear |
| OmsCrash.ResubmittedIsRefused | trading_mvp/src/basis_paper_oms.py:568-577 | an observation submitted again after any of its events is refused and appends nothing |
| OmsCrash.ObservationIsAtMostOnce | trading_mvp/src/basis_paper_oms.py:546-762 | after a death an observation is decided as the first time if nothing was appended, and refused otherwise |
| OmsCrash.HaltIsFinal | trading_mvp/src/basis_paper_oms.py:568-569 | once halted the ledger never changes again, in any run |
| OmsCrash.DecideIsProtected | trading_mvp/src/basis_paper_oms.py:740-761 | a close that takes the day to its limit is always followed by the kill switch in the same operation |
| OmsCrash.LossSafetyStep | trading_mvp/src/basis_paper_oms.py:740-761 | a step breaks loss safety if and only if it is a death with the kill switch as next append |
| OmsCrash.LossSafeRuns | trading_mvp/src/basis_paper_oms.py:740-761 | a run from no files is loss safe throughout if and only if no process dies at that point |
| OmsWitness.BreachIsReachable | trading_mvp/src/basis_paper_oms.py:740-761 | for every plan with a tradable base and a positive notional, every limit, with or without an approving guard, a run from no files reaches that death, and it leaves a breach without a halt |
| OmsWitness.EntryIsLost | trading_mvp/src/basis_paper_oms.py:546-667 | for the same plans and limits a run from no files loses a decided opening: recorded observation, no position, and the retry refused |
| OmsStore.PlayedIsMachine | trading_mvp/src/basis_paper_oms.py:289-319 | the program's appends and state replacements are the machine's write steps |
| OmsStore.TraceIsMachine | trading_mvp/src/basis_paper_oms.py:289-319 | every image of the files along an operation is the machine's after as many writes, so a crash of the program is a death in the machine |
| OmsStore.OperationIsMachine | trading_mvp/src/basis_paper_oms.py:289-361 | a whole operation, the write of a recovery included, leaves the machine's images and ends where the machine does |
| OmsStore.PaperOms.AppendEvent | trading_mvp/src/basis_paper_oms.py:289-319 | appends one chained event, then replaces the state file, with both images on the trace |
| OmsStore.PaperOms.ReadLedgerEvents | trading_mvp/src/basis_paper_oms.py:227-255 | the reader's loop accepts exactly the untorn ledgers with a correct chain |
| OmsStore.PaperOms.RecoverOrValidateState | trading_mvp/src/basis_paper_oms.py:336-361 | returns the loaded state or the error, and writes the state file exactly when it was behind |
| OmsStore.PaperOms.AcquireLock | trading_mvp/src/basis_paper_oms.py:90-147 | takes the lock exactly when there is none |
| OmsStore.PaperOms.Initialize | trading_mvp/src/basis_paper_oms.py:364-420 | refuses existing artifacts and bad limits without writing, else writes the first event and state; its trace is a machine run from start to finish |
| OmsStore.PaperOms.ApplyObservation | trading_mvp/src/basis_paper_oms.py:546-762 | files, trace and result are those of the admitted decision, and its trace is a machine run: start, as many writes as images, finish |
| OmsStore.PaperOms.TradeOn | trading_mvp/src/basis_paper_oms.py:568-762 | the statements after recovery append exactly the decided events, in order |
| OmsStore.PaperOms.GuardTransition | trading_mvp/src/basis_paper_oms.py:497-543 | a guard passes with its prices, blocks with an event, or raises with nothing written |
| OmsStore.PaperOms.EnterNew | trading_mvp/src/basis_paper_oms.py:619-668 | the opening branch meets the decision |
| OmsStore.PaperOms.SettleFunding | trading_mvp/src/basis_paper_oms.py:670-686 | one settlement is added to the position and appended |
| OmsStore.PaperOms.ManageHeld | trading_mvp/src/basis_paper_oms.py:670-762 | funding comes before the exit test, and both meet the decision |
| OmsStore.PaperOms.ExitHeld | trading_mvp/src/basis_paper_oms.py:688-717 | the exit test and the guarded close meet the decision |
| OmsStore.PaperOms.CloseHeld | trading_mvp/src/basis_paper_oms.py:718-762 | the close books the result on its day and halts at the limit |
| FundingPosition.EntryIsNoExit | trading_mvp/src/basis.py:4446-4511 | the entry gates and the exit reasons are complements, apart from the two entry quotes |
| FundingGates.ReasonIsFirstUnmet | trading_mvp/src/basis.py:4472-4511 | the reason to exit is the first of nineteen demands, in a stated order, that the row does not meet |
| FundingGates.EntryMeetsEveryDemand | trading_mvp/src/basis.py:4446-4469 | a row is entered exactly when it meets all the demands and has both entry quotes |
| FundingPosition.SettlementsDueUnique | trading_mvp/src/basis.py:4562-4586 | the number of settlements due is the only count that leaves the next settlement after the row |
| FundingPosition.SettlementsDueBounds | trading_mvp/src/basis.py:4562-4586 | after the due settlements the next one is later than the row, and the last one is not |
| FundingPosition.AccrueFunding | trading_mvp/src/basis.py:4562-4586 | the settlement loop terminates and equals its closed form |
| FundingPosition.AccrualIsExact | trading_mvp/src/basis.py:4562-4586 | it pays only at the rate known before the row and stops just past the row |
| FundingPosition.SettlementsDueSplit | trading_mvp/src/basis.py:4562-4586 | the settlements due up to two successive times add up |
| FundingPosition.AccrualIgnoresIntermediateRows | trading_mvp/src/basis.py:4562-4586 | an intermediate row with the same rate and interval changes nothing |
| FundingPosition.ConstantRateFunding | trading_mvp/src/basis.py:4562-4586 | over rows of one rate the funding is that rate's payment for each settlement |
| FundingPosition.ExpectedCarryIsRealised | trading_mvp/src/basis.py:4525-4628 | a position opened, held and closed at one rate, with both legs moving alike, nets the expected carry for the settlements it received |
| FundingPosition.NeutralTradeNet | trading_mvp/src/basis.py:4589-4628 | with both legs moving alike a trade nets its funding less the round-trip cost |
| FundingBacktest.WalkMarket | trading_mvp/src/basis.py:2861-2882 | the loop over one market's rows, with its final close, equals the fold |
| FundingBacktest.GroupByMarket | trading_mvp/src/basis.py:2855-2858 | rows are grouped by market in order of first appearance, each group in input order |
| FundingGroups.OneMarketIff | trading_mvp/src/basis.py:4654-4655 | two rows are of one market exactly when exchange, spot and perp symbol agree, where the first two hold no colon |
| FundingGroups.RowsOfPicks | trading_mvp/src/basis.py:2855-2858 | a market gets exactly the rows with its key, each once and in input order |
| FundingGroups.MarketsByFirstRow | trading_mvp/src/basis.py:2855-2858 | the markets come each once, by their first rows |
| FundingGroups.HistoryIsInTimeOrder | trading_mvp/src/basis.py:2865 | a market's rows are walked by time, each once, and rows of one time in input order |
| FundingBacktest.RunFundingBacktest | trading_mvp/src/basis.py:2854-2882 | all trades are the markets' trades, market by market |
| FundingBacktest.WalkIsCausal | trading_mvp/src/basis.py:2861-2878 | more rows never change the trades already made |
| FundingBacktest.BacktestIsCausal | trading_mvp/src/basis.py:2861-2878 | rows that are not earlier than a market's own leave its trades, forced end aside, as a prefix of the new ones |
| FundingBacktest.MarketsAreIndependent | trading_mvp/src/basis.py:2855-2882 | a market's trades depend on its own rows alone |
| FundingBacktest.ClosingRowOpensNothing | trading_mvp/src/basis.py:2869-2877 | a row that closes a position could not open one, with or without the `continue` |
| FundingTrades.MarketTradesAreSpans | trading_mvp/src/basis.py:2861-2882 | every trade of a market, the forced one included, is one position over consecutive rows: opened at the first row allowed after the one before it, closed at the first row that gives a reason, and for that reason; after the last one no row is allowed |
| FundingReturns.HeldFollowsCourse | trading_mvp/src/basis.py:4525-4586 | a held position is paid once for each settlement between its rows, at the rate of the row before it; which settlements those are follows from announced times and intervals alone |
| FundingReturns.TradesEarn | trading_mvp/src/basis.py:4525-4628 | every trade of a market: its basis result is the notional on the spot leg's return less the perp leg's (exit at bid, mid or entry, and ask, mark or entry), its funding is what its course pays, its costs two fees a leg and four slippages, its net the sum |
| FundingReturns.BacktestTradesEarn | trading_mvp/src/basis.py:2854-2882 | the same for every trade of a whole backtest, over the rows of its own market |
| FundingTrades.TradesRealiseExpectedCarry | trading_mvp/src/basis.py:709-713 | every trade of a backtest at one rate, with both legs moving alike, nets the expected net carry for its settlements, at the scanner's own costs when no venue overrides them |
| FundingZeros.ZerosAtTheGates | trading_mvp/src/basis.py:4446-4511 | an entry is allowed, and an exit has no reason, if and only if the row as given says so and holds no zero score or spread that its threshold admits and its default does not |
| FundingZeros.GatesAgreeIff | trading_mvp/src/basis.py:4446-4469 | the gates agree with the row as given except for a row that should pass and holds such a zero |
| FundingZeros.NoSpreadIsRefused | trading_mvp/src/basis.py:4446-4511 | a spot spread of zero is refused, and left if held, under every limit that zero meets |
| FundingZeros.PassingRowWithoutSpread | trading_mvp/src/basis.py:4446-4469 | every row that passes stops passing when its spot spread falls to zero |
| FundingZeros.OpenAgreesIff | trading_mvp/src/basis.py:4525-4559 | opening differs from the row as given exactly for a funding interval of zero |
| FundingZeros.AccrualAgreesIff | trading_mvp/src/basis.py:4562-4586 | accrual differs from the row as given exactly for a time of zero after another time, or an interval of zero after a longer one |
| EquityCurve.BuildCurve | trading_mvp/src/basis.py:4964-4985 | each point holds the cumulative result, the running peak from zero and their difference |
| EquityCurve.CurveDrawdownIsPairwise | trading_mvp/src/basis.py:4964-4998 | the largest drawdown of the curve is the maximum over pairs i before j of the fall from i to j |
| EquityCurve.Drawdown | trading_mvp/src/cross_sectional_capitulation.py:411-417 | the running equity, peak and drawdown of the study equal the sum, the maximum prefix and the pairwise drawdown |
| FundingMetrics.AggregateIdentity | trading_mvp/src/basis.py:5020-5024 | over any backtest, net is funding plus basis less fees and slippage |
| FundingMetrics.Summarize | trading_mvp/src/basis.py:4988-5031 | ending equity equals the net result and the maximum drawdown is the pairwise one in order of exit |
| FundingMetrics.CurveIsInExitOrder | trading_mvp/src/basis.py:4968 | the curve runs over all trades, each once, sorted by exit time and then market |
| FundingMetrics.WindowMetrics | trading_mvp/src/basis.py:5034-5046 | each window holds the net result and count of the trades that exit in it |
| FundingGroups.TiesAreOneTime | trading_mvp/src/basis.py:2865 | the rows that the time order does not tell apart are those of one time |
| StableSort.SortIsStable | trading_mvp/src/basis.py:2865 | sorting leaves elements that the key does not tell apart in the order they came in |
| Sequences.TextIsLexicographic | trading_mvp/src/cross_sectional_capitulation.py:371 | text keys are compared at their first difference, a proper beginning coming first |
| Sequences.StripTrims | trading_mvp/src/basis_paper_oms.py:597 | what is trimmed from a settlement id is white space at its ends, and all of it |
| FundingMetrics.WindowHoldsExit | trading_mvp/src/basis.py:5034-5046 | a trade counts in the window that holds its exit time |
| FundingMetrics.WindowsPartitionTrades | trading_mvp/src/basis.py:5034-5046 | window results and counts add up to the net result and the number of trades |
| CapitulationSignals.SortAndDedupe | trading_mvp/src/cross_sectional_capitulation.py:229-242 | the loop keeps one bar of each timestamp and counts the others |
| CapitulationSignals.LoadingKeepsFirstBars | trading_mvp/src/cross_sectional_capitulation.py:229-242 | loaded bars are strictly chronological, and each is the first that the file gives for its time |
| CapitulationSignals.ContiguousTime | trading_mvp/src/cross_sectional_capitulation.py:259-262 | contiguous bars lie exactly one bar length apart |
| CapitulationMedian.MedianIsCentral | trading_mvp/src/cross_sectional_capitulation.py:291-296 | at least half of the peers are at most the median and at least half are at least it |
| CapitulationMedian.MedianIsMidpoint | trading_mvp/src/cross_sectional_capitulation.py:291-296 | the median is the midpoint of the lower and the upper median, two of the values |
| CapitulationVerdicts.ReturnsAreTheCrossSection | trading_mvp/src/cross_sectional_capitulation.py:276-281 | one return for each base with a bar of that time behind an unbroken lookback and no other; it is the change of the close relative to the earlier close, negative for a fall |
| CapitulationVerdicts.PeersAreTheOthers | trading_mvp/src/cross_sectional_capitulation.py:291 | the peers of an observation are the other returns of its time |
| CapitulationVerdicts.JudgedByFirstFailure | trading_mvp/src/cross_sectional_capitulation.py:285-353 | every observation is dropped for the first filter it fails, in the stated order, and one that fails none signals, with its prices and times |
| CapitulationVerdicts.CandidatesAreTheSignals | trading_mvp/src/cross_sectional_capitulation.py:265-353 | the candidates are exactly the signals of the observations from the start of the analysis on |
| CapitulationMedian.KeptMeansUnderperformer | trading_mvp/src/cross_sectional_capitulation.py:291-302 | a signal has enough peers, a low enough return, and at least half of its peers did better by the demanded margin |
| CapitulationMedian.KeptMeansVolumeSpike | trading_mvp/src/cross_sectional_capitulation.py:303-331 | a signal's bar has at least the demanded multiple of half of the trailing volumes, closes high in its range, and has unbroken bars before and after it; volume limits are positive, as plan validation demands |
| CapitulationBuilder.BuildAll | trading_mvp/src/cross_sectional_capitulation.py:265-353 | the loops yield the candidates, the number of observations and every counter |
| CapitulationBuilder.CountersPartition | trading_mvp/src/cross_sectional_capitulation.py:285-353 | every return observation lands in exactly one terminal counter |
| CapitulationBuilder.JudgedIsTimed | trading_mvp/src/cross_sectional_capitulation.py:326-342 | contiguity puts every entry at its own signal time and every exit the hold later |
| CapitulationBuilder.CandidatesAreCausal | trading_mvp/src/cross_sectional_capitulation.py:265-353 | bars later than all existing ones leave the candidates as a prefix, and new candidates signal strictly later |
| CapitulationExecution.PruneExits | trading_mvp/src/cross_sectional_capitulation.py:356-398 | pruning keeps exactly the exits after the entry, in order |
| CapitulationExecution.ExecuteGroup | trading_mvp/src/cross_sectional_capitulation.py:356-398 | the inner loop continues the schedule by one group |
| CapitulationExecution.ExecuteCandidates | trading_mvp/src/cross_sectional_capitulation.py:356-398 | the whole loop equals processing the schedule in order |
| CapitulationExecution.EveryCandidateCounted | trading_mvp/src/cross_sectional_capitulation.py:356-398 | every candidate is traded or skipped, once |
| CapitulationSchedule.ScheduleIsSorted | trading_mvp/src/cross_sectional_capitulation.py:368-373 | candidates are tried in a permutation sorted by signal time, then most negative residual, then base |
| CapitulationGreedy.ExecutionIsGreedy | trading_mvp/src/cross_sectional_capitulation.py:356-398 | the pruned list and the dict of last signals decide exactly the greedy rule over the trades accepted so far: a candidate is left out only when its base is cooling or all positions are held at its entry |
| CapitulationGreedy.StudyIsGreedy | trading_mvp/src/cross_sectional_capitulation.py:265-398 | the same for the study as a whole, from bars to trades |
| CapitulationExecution.TradesAreCausal | trading_mvp/src/cross_sectional_capitulation.py:265-398 | later bars leave the executed trades as a prefix, through generation and greedy execution |
| CapitulationExecution.CapacityHolds | trading_mvp/src/cross_sectional_capitulation.py:356-398 | at every instant at most the allowed number of trades is open |
| CapitulationExecution.CooldownHolds | trading_mvp/src/cross_sectional_capitulation.py:356-398 | accepted signals of one base are at least the cooldown apart |
| CapitulationExecution.StudyRespectsLimits | trading_mvp/src/cross_sectional_capitulation.py:265-398 | both limits hold for the study as a whole, from bars to trades |
| CapitulationReturns.TradesEarn | trading_mvp/src/cross_sectional_capitulation.py:356-398 | every executed trade stands on a signal of the cross section, is entered at the open of the next bar and left at the close of the last bar held, and its gross, net and quote results are those of these two prices |
| FundingHistory.FetchIsSoundAndComplete | trading_mvp/src/daily_collector.py:214-235 | only true rows of the window come back, and, what a caller can see, all of them whenever every final page is short |
| FundingHistory.FetchAscends | trading_mvp/src/daily_collector.py:214-235 | whatever comes back is in strictly ascending time order |
| FundingHistory.RequestsBounded | trading_mvp/src/daily_collector.py:202-235 | at most 31 requests, whatever the API answers |
| FundingHistory.WindowHoldsFew | trading_mvp/src/daily_collector.py:214-235 | settlements an hour apart fit a window at most its length over 3600 plus one times |
| FundingHistory.HourlySettlementsFit | trading_mvp/src/daily_collector.py:202-235 | with settlements an hour or more apart and a limit of 270 or more, every final page is short |
| FundingComplete.FullPageIff | trading_mvp/src/daily_collector.py:222-229 | a faithful page is full exactly when its window holds at least as many settlements as the limit, and with no more than that it is all of them |
| FundingComplete.FetchIsCompleteIff | trading_mvp/src/daily_collector.py:214-235 | the fetch is complete through every faithful API if and only if the data fits: halved where the windows hold a full page, no final window holds more settlements than the limit |
| FundingComplete.UnfittingLosesOne | trading_mvp/src/daily_collector.py:214-235 | data that does not fit loses a settlement to an API that answers the earliest ones |
| FundingComplete.HourlyHistoryIsExact | trading_mvp/src/daily_collector.py:202-235 | with settlements an hour or more apart and a limit of 269 or more the history is fetched exactly, each settlement once and in time order, from any allowed start |
| FundingComplete.HourlyLimitIff | trading_mvp/src/daily_collector.py:202-235 | the whole 179 days of every hourly history come back if and only if the limit is at least 269 |
| TopEvents.EventList.KeepTop | trading_mvp/src/cross_venue_dislocation.py:405-411 | one step of the lazily trimmed list |
| TopEvents.BufferIsBounded | trading_mvp/src/cross_venue_dislocation.py:405-411 | the buffer holds at most twice the limit, and only events of the stream |
| TopEvents.TopAgreesWithFullSort | trading_mvp/src/cross_venue_dislocation.py:405-415 | its best events are the best events of the whole stream, in the same order |
| TopEvents.DroppedAreDominated | trading_mvp/src/cross_venue_dislocation.py:405-411 | every dropped event is matched by a full limit of kept events with no smaller net edge |
| TopEvents.MaxEdges | trading_mvp/src/cross_venue_dislocation.py:438-441 | the loop returns the maxima of the list, or nothing when it is empty |
| TopEvents.KeptMaximaAreGlobal | trading_mvp/src/cross_venue_dislocation.py:260-261 | the maxima over the kept events are the maxima over everything offered |
| TopEvents.FallingReportFails | trading_mvp/src/cross_venue_dislocation.py:405-415 | of every stream with strictly falling net edges the report is not the top, unless nothing was dropped or the last event caused a trim |
| DislocationScan.OneDirectionAtMost | trading_mvp/src/cross_venue_dislocation.py:346-383 | the two directions of a quote pair are never both crossed |
| DislocationScan.Scanner.Offer | trading_mvp/src/cross_venue_dislocation.py:206-238 | one evaluated event goes to the right counter, list and cooldown entry |
| DislocationScan.Scanner.Observe | trading_mvp/src/cross_venue_dislocation.py:169-238 | one quote updates the book and offers both directions when both venues are known |
| DislocationScan.Scanner.ReportMaxima | trading_mvp/src/cross_venue_dislocation.py:260-261 | the reported maxima are those of all candidate events of the scan, or absent when there is no room for any |
| DislocationScan.ScanFacts | trading_mvp/src/cross_venue_dislocation.py:206-238 | candidates are fresh and crossed, each ends in one counter, and accepted events of a base and direction keep the cooldown |
| ScanQuotes.ScanKnowsLatest | trading_mvp/src/cross_venue_dislocation.py:175-187 | the book holds exactly the last quote of each venue and base |
| ScanQuotes.ScanSeesQuotes | trading_mvp/src/cross_venue_dislocation.py:206-216 | over every stream the stale counter counts exactly the pairs of latest quotes of which two times, that of the event included, are further apart than the limit; the offered events are exactly the near pairs with the bid above the ask, in stream order, with edge, cost and capacity as the two quotes give them |
| ScanQuotes.AcceptanceIsGreedy | trading_mvp/src/cross_venue_dislocation.py:217-238 | an event is accepted exactly when it is large enough, worth its cost and no accepted event of its base and direction is less than the cooldown before it; each counter counts the first of these that fails |
| ReportTop.ReportIsTopIff | trading_mvp/src/cross_venue_dislocation.py:206-261 | for every configuration and every number n of candidate events: all scans of well-formed quotes with n candidates report the top list if and only if there is no room, nothing can be fresh, n is at most twice the limit, or n less twice the limit less one is a multiple of the limit plus one |
| ReportTop.FallingScanFails | trading_mvp/src/cross_venue_dislocation.py:206-238 | one Gate.io quote and MEXC quotes falling towards it give a wrong report, for every base, room and other number of candidates |
| WorkQueue.CollectEvents | trading_mvp/src/autopilot_guard.py:362-367 | events are grouped by their id in ledger order |
| WorkQueue.ResolveProductiveFallback | trading_mvp/src/autopilot_guard.py:350-420 | the loop picks the first selectable entry, or reports what is in progress, exhausted or invalid |
| WorkQueue.ReadyIsFirst | trading_mvp/src/autopilot_guard.py:369-410 | the entry called ready is the first selectable one, with only valid entries before it |
| WorkQueue.ReadyIsRunnable | trading_mvp/src/autopilot_guard.py:350-420 | what is ready passes the runner's checks, except for the runner's own list of names |
| WorkQueueAnswer.LedgerReads | trading_mvp/src/autopilot_guard.py:386-394 | completed, in flight and started as the resolver reads them from grouped statuses, against the events of the ledger |
| WorkQueueAnswer.ResolvesExactly | trading_mvp/src/autopilot_guard.py:350-420 | ready or invalid by the first entry that is free or has a fault; in progress exactly when none is free and some entry was started last and not completed, with exactly those ids in list order; exhausted exactly when every entry is completed or out of attempts and none is running |
| WorkQueueAnswer.RefusedExactlyWhen | trading_mvp/src/autopilot_work_queue.py:358-378 | exactly when a run is refused before it takes the lock, and as what |
| WorkQueueAnswer.UnlockedRunsComplete | trading_mvp/src/autopilot_work_queue.py:380-466 | after any serial history a cleared lock lets every task that is not refused run to its end |
| WorkQueue.FallbackQueue.RunTask | trading_mvp/src/autopilot_work_queue.py:351-466 | checks, lock, STARTED, then FAILED or COMPLETED, for every way a run can end |
| WorkQueue.FallbackQueue.RunNext | trading_mvp/src/autopilot_work_queue.py:479-521 | resolves and runs what is ready |
| WorkQueue.StartKeepsDiscipline | trading_mvp/src/autopilot_work_queue.py:371-378 | a start keeps the bounds if and only if the two checks hold of the ledger it is appended to |
| WorkQueue.SerialRunsAreDisciplined | trading_mvp/src/autopilot_work_queue.py:351-466 | over all serial runs with deaths and unlocks: at most the allowed starts, one completion, nothing after it |
| WorkQueue.QueueDrains | trading_mvp/src/autopilot_guard.py:350-420 | with no selectable entry of an unsupported runner, as many started runs as attempts remain leave nothing ready, even if runs die |
| WorkQueue.BlockedNeverDrains | trading_mvp/src/autopilot_work_queue.py:365-366 | a selectable entry with an unsupported runner stays as it is and keeps the queue ready for ever |
| WorkQueue.QueueDrainsIff | trading_mvp/src/autopilot_guard.py:350-420 | for valid entries with distinct ids, enough started runs leave nothing ready if and only if no entry with an unsupported runner is selectable at the start |
| WorkQueueRaces.RacesAreDisciplinedIff | trading_mvp/src/autopilot_work_queue.py:371-466 | over all interleavings of runners, kills, interrupts and operator resets: an id starts at most its allowed number of times and never after completion if and only if no runner starts it on a reading that other events have overtaken |
| WorkQueueRaces.StaleReadingRestarts | trading_mvp/src/autopilot_work_queue.py:371-385 | for every valid, supported entry a run of two runners starts it again after its completion |
| WorkQueueRaces.SerialIsUndisturbed | trading_mvp/src/autopilot_work_queue.py:351-466 | one runner undisturbed makes exactly the serial run, for every way it can end |
| ResearchBacklog.Refill | trading_mvp/src/autopilot_research_backlog.py:102-157 | the loop appends exactly the unseen catalog entries, in order |
| ResearchBacklog.BacklogFile.EnsureBacklog | trading_mvp/src/autopilot_research_backlog.py:102-157 | refills only with nothing active, and writes nothing on any other outcome |
| ResearchBacklog.BacklogFile.NextTask | trading_mvp/src/autopilot_research_backlog.py:160-193 | returns the first running entry, else the first pending one, else refills, and reports exhaustion only when nothing is active |
| ResearchBacklog.BacklogFile.ClaimTask | trading_mvp/src/autopilot_research_backlog.py:203-216 | claims a pending entry exactly when none is running |
| ResearchBacklog.BacklogFile.CompleteTask | trading_mvp/src/autopilot_research_backlog.py:219-241 | completes a running entry exactly when its own artifact is present |
| ResearchBacklog.BacklogFile.FailTask | trading_mvp/src/autopilot_research_backlog.py:244-255 | fails a running entry |
| BacklogAnswer.ReadableIff | trading_mvp/src/autopilot_research_backlog.py:29-58 | the lists that are read: entries with an id, a bounded runtime, an output and a known status, and no id twice |
| BacklogAnswer.CatalogOkIff | trading_mvp/src/autopilot_research_backlog.py:61-90 | the catalogs that are read, with ids distinct after trimming |
| BacklogAnswer.RefillAddsTheUnseen | trading_mvp/src/autopilot_research_backlog.py:128-138 | a refill appends exactly the catalog entries that are not on the list, as pending, in catalog order |
| BacklogAnswer.EnsureExactly | trading_mvp/src/autopilot_research_backlog.py:102-157 | exactly when the list is refilled, with what, and what every other request for it answers; only a refill writes |
| BacklogAnswer.NextRefillsExactly | trading_mvp/src/autopilot_research_backlog.py:160-193 | asking for the next task refills exactly as a request for a refill does: not while an entry runs or is pending |
| BacklogAnswer.ClaimExactly | trading_mvp/src/autopilot_research_backlog.py:203-216 | a claim starts the pending entry of its id exactly when no entry runs, and changes nothing else |
| BacklogAnswer.CompleteExactly | trading_mvp/src/autopilot_research_backlog.py:219-241 | a completion ends the running entry of its id exactly when the artifact is the entry's own and present; an absent one is refused and nothing is written |
| BacklogAnswer.FailExactly | trading_mvp/src/autopilot_research_backlog.py:244-255 | a failure ends the running entry of its id and nothing else |
| ResearchBacklog.RefillFacts | trading_mvp/src/autopilot_research_backlog.py:102-157 | a refill keeps ids unique and statuses as they were, adds only pending entries and covers the catalog |
| ResearchBacklog.RefillTwiceAddsNothing | trading_mvp/src/autopilot_research_backlog.py:102-157 | a catalog already covered adds nothing |
| ResearchBacklog.OperationFacts | trading_mvp/src/autopilot_research_backlog.py:102-255 | every operation keeps ids unique, at most one entry running and the old list as a prefix, moves statuses only forward and grows only with nothing active |
| ResearchBacklog.EveryEntryWasOffered | trading_mvp/src/autopilot_research_backlog.py:102-255 | every id on the list was on it at first or came from a loaded catalog |
| ResearchBacklog.LifecycleOverRuns | trading_mvp/src/autopilot_research_backlog.py:102-255 | over all operation sequences: ids distinct and all offered, at most one running, only forward moves, and no more claims in all than distinct ids ever offered |
| RunWindow.ClosedExactlyInWorkingHours | trading_mvp/src/continuous_production.py:133-213 | closed exactly on weekdays from 08:00 to 19:00, with the next opening at 19:00 the same day |
| RunWindow.OpenWindowIsIntended | trading_mvp/src/continuous_production.py:133-188 | an open result is an intended window of 13 or 61 hours, and holds the instant except on Monday mornings |
| RunWindow.IntendedWindowIsUnique | trading_mvp/src/continuous_production.py:133-188 | at most one intended window holds an instant, and none reaches into working hours |
| RunWindow.AcceptedIffInsideWindow | trading_mvp/src/continuous_production.py:216-269 | a request is accepted if and only if it is sensible, lies wholly inside one intended window and does not start on a Monday morning |
| RunWindow.GrantStaysInWindow | trading_mvp/src/continuous_production.py:216-269 | every instant of a granted runtime is inside the window and outside working hours |
| RunWindow.PolicyIsFrozen | trading_mvp/src/continuous_production.py:75-122 | only one calendar is accepted, with an approval lead of at most twelve hours |
| RunWindow.AnswerCountsDown | trading_mvp/src/continuous_production.py:44-72 | an open answer counts the whole seconds left and admits a start while one is left; a closed one asks for approval exactly the lead before the opening |
| RunWindow.RequestExactly | trading_mvp/src/continuous_production.py:216-269 | why a request is refused, in order, and that a grant ends its seconds after its start and is long exactly above the limit of short tasks |
| StrategyRegistry.CheckOwners | trading_mvp/src/canonical_strategy_runtime.py:345-368 | no reason is given exactly when all owners are sound and distinct in id and namespace |
| StrategyRegistry.CheckOwnership | trading_mvp/src/canonical_strategy_runtime.py:526-545 | no reason is given exactly when runtimes and owners match both ways |
| StrategyRegistry.CheckActivation | trading_mvp/src/canonical_strategy_runtime.py:547-581 | no reason is given exactly when one runtime is active, routable, named and ready |
| StrategyRegistry.CheckPairs | trading_mvp/src/canonical_strategy_runtime.py:582-607 | no reason is given exactly when no two runtimes collide in namespace or overlap in scope and venue |
| StrategyRegistry.ValidateStructure | trading_mvp/src/canonical_strategy_runtime.py:305-609 | the local checks together give no reason exactly when the registry is sound |
| RegistryAnswer.StructureIsSound | trading_mvp/src/canonical_strategy_runtime.py:305-609 | the checks add up to exactly the sound registries: named owners and runtimes matched one to one, public data only and never live, routed only as the one active runtime of an active registry, no name under two namespaces, no shared scope and venue |
| RegistryAnswer.RowsReport | trading_mvp/src/canonical_strategy_runtime.py:766-798 | what the row of a runtime reports, the first case that applies |
| RegistryAnswer.LaunchesExactlyWhenPrepared | trading_mvp/src/canonical_strategy_runtime.py:847-860 | all rows are ready exactly when every runtime's files match and an active one's state can be used; what then launches is the one named runtime, public and never live |
| StrategyRegistry.ValidateRegistry | trading_mvp/src/canonical_strategy_runtime.py:824-882 | launch is allowed if and only if the registry is sound, of the active kind and every row is ready; no other kind has anything launchable |
| StrategyRegistry.CollisionIffSharedName | trading_mvp/src/canonical_strategy_runtime.py:595-607 | two namespaces collide exactly when some name belongs to both |
| StrategyRegistry.OneOwnerPerName | trading_mvp/src/canonical_strategy_runtime.py:595-607 | in an accepted registry a name falls under at most one runtime |
| StrategyRegistry.OneActiveRoutable | trading_mvp/src/canonical_strategy_runtime.py:547-581 | an accepted active registry has one runtime that is active, routable and named |
| StrategyRegistry.LaunchIffAllReady | trading_mvp/src/canonical_strategy_runtime.py:847-860 | when every row is ready the single launchable runtime is that one |

## Left out

- Hashing: SHA-256 over canonical JSON is an injective constructor, including the position id, which the program truncates to 24 hexadecimal digits.
- Files and time: JSON encoding, path handling, `updated_at` stamps, the state file's own hash and schema checks, and corrupt but well-formed files are not modelled; the ready-chain validation enters as an optional plan.
- Torn writes: a torn append leaves an unreadable line. A tear that loses only the final newline, so that the next line is glued to a complete one, is not modelled, and the fallback queue's ledger has no torn lines.
- Opening the ledger for its first append creates an empty file before any byte is written. A death there is modelled as a torn line: with either, the ledger exists, no read succeeds, and initialisation is refused (`StillbornIsFinal` speaks of both).
- The lock file holds a unique token; unreadable lock content and a lock replaced by somebody else while held are not modelled.
- OmsDecision.SettlesExactlyWhen: speaks of positions on two different venues; every reachable state has no others, by the invariant of `OmsLedger.LegalKeepsCoherent`.
- FundingGroups.OneMarketIff: asks that exchange and spot symbol hold no colon; names with colons can share a key.
- ScanQuotes.AcceptanceIsGreedy: speaks of cooldowns that are not negative.
- The execution guard is a parameter with four answers; a guard that changes the state it is shown is not modelled, and of its answer EXECUTION_BLOCKED keeps the reason only.
- Text: trimming and upper-casing of observation bases and exchange names are done before the model's input, and `Strip` knows the white space of ASCII only. Market keys are built from the plain fields.
- Numbers: reals stand for floats, without rounding, NaN or infinity; timestamps of the paper system, the bars and the funding history are integers. Dates outside the range of Python's `datetime` are not excluded.
- FundingBacktest: the rolling persistence and regime statistics, square roots included, are an arbitrary function of the rows seen so far in the market, so the theorems hold for any such statistics.
- FundingZeros: closing prices also fall through a quote of zero to the next one; that a zero quote is no price is taken as intended.
- FundingPosition: a spot ask or perp bid of zero raises a division error in the program; entry quotes are positive here.
- FundingMetrics: win rates, shares and profit factors are short algebra over the same trades and are left out.
- CapitulationBuilder: plan loading, evidence hashes, universe selection, gates and the final decision are left out; of the metrics only equity and drawdown are modelled.
- CapitulationGreedy.StudyIsGreedy: asks that signals come later than the program's stand-in for no earlier signal, ten to the eighteenth seconds before the epoch, plus the cooldown; every real timestamp does.
- FundingHistory: the API is a function that answers true rows of the window, each once, and everything when it answers fewer rows than the limit. The MEXC pager, candles and the collection loop are left out, and so are parse failures of single rows.
- FundingHistory.HourlySettlementsFit: speaks of short pages, which are sufficient but not necessary; the exact condition is `FundingComplete.FetchIsCompleteIff`.
- DislocationScan: reading lines, parsing symbols, per-base statistics and the report's decision are left out.
- WorkQueue: policy shapes other than a list of entries, stripping of ids and the bodies of the runners are left out; how a run ends is a parameter. The number of remaining entries that the resolver reports is left out.
- WorkQueue.QueueDrainsIff: asks for distinct ids; with one id listed twice a supported twin can finish it. A run killed before its STARTED event spends no attempt, so only started runs are counted.
- WorkQueueRaces: a reading, a lock and an append are single steps; the lock file's content and the time between opening and writing it are left out.
- ResearchBacklog: reading a catalog gives one of four cases; owners, timestamps, error texts and artifact hashes stored in an entry are left out, and two processes at once are not modelled.
- RunWindow: instants are local microseconds with the fixed offset of the policy; reading the policy file is left out.
- StrategyRegistry: checks of single fields, paths, files and commits are two booleans for each runtime. Reasons carry positions instead of texts, and their sorted order is left out.
- The HTTP clients, report and plan builders, audit modules, autopilot state evaluation and catalog derivation are left out: they are input and output, dictionary assembly or single-branch comparisons.
