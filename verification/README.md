# A Dafny model of Sentinel-FX's decision and learning kernel

Sentinel-FX is a trading agent whose central claim is that risk goes down automatically
and up only by a human. This project models the code behind that claim and proves its
properties over all inputs and whole runs. Where a claim turned out false of the code,
the model keeps the code's behaviour, exhibits a failing input, and proves exactly when
the claim holds.

| file | what it models |
|---|---|
| `OrderManager.dfy` | order submission, quarantine and resolution by query |
| `EntryLoop.dfy` | the entry loop, its refreshed risk context, and the frequency budgets over runs and restarts |
| `EquityWindow.dfy` | the rolling 24-hour loss window |
| `SpreadBaseline.dfy` | the median baseline spread |
| `ProfitLock.dfy` | the daily profit lock |
| `DurableState.dfy` | save and load, halt and resume, crash and restart |
| `Sizing.dfy` | shrink-only sizing of signals, accepted proposals and manual tickets |
| `LessonStore.dfy`, `LessonInfluence.dfy` | the lesson table and what lessons do to size |
| `PostMortem.dfy`, `FalseDiscovery.dfy` | counterfactual replay of a trade, and the false-discovery correction |
| `ShadowBook.dfy` | the triple-barrier resolver of shadow signals |
| `Proposals.dfy`, `ProposalQueue.dfy` | configuration proposals and their review lifecycle |
| `ModelAuthority.dfy`, `RateLimits.dfy` | the authority of the news model, call budgets and breakers |
| `AuditChain.dfy`, `CanonicalJson.dfy` | the hash-chained journal, its backup walker, and the text that is hashed |
| `Calibration.dfy` | Brier score, skill, AUC and reliability bands |
| `Common.dfy`, `RealFacts.dfy`, `Rounding.dfy` | shared values, real arithmetic, and grid rounding |

Classes and loops of the source are classes and loops here, each proved against a
specification function; the statements about runs are lemmas over those functions.
Money, prices, R and probabilities are reals; clocks are integers in nanoseconds. The
venue, the reconciler, the news and macro layers and the configuration's own validation
enter as arbitrary inputs. The risk engine enters through the rules the entry loop relies
on: it refuses on a halt, on an unresolved order, at a frequency cap and inside the entry
spacing, and may refuse for any other reason. `dafny verify dfyconfig.toml` checks the
whole project.

## Where the code and its own documentation part

- An order whose outcome is unknown is said to leave that state by query only, also to
  cancelled. A query that reports it pending, acknowledged or cancelled is read as
  acknowledged, which is an illegal move: the call raises, the cycle ends, and the order
  that may be live is not counted (`OrderManager.ResolutionRaisesIff`,
  `EntryLoop.LiveOrdersAreCountedIff`). An order the venue keeps reporting as cancelled
  never leaves that state, and until a restart the agent sends nothing at all; each cycle
  raises while it asks (orchestrator.py:665), before it manages its positions
  (`EntryLoop.UnsettledOrderStopsTrading`).
- The profit lock promises every stop at least the level that keeps the fraction. A
  candidate at or past the closing price is skipped instead, and with a keep fraction of
  one every candidate is. With prices on the grid that happens exactly when the position's
  share of the budget is within half a tick of its worth (`ProfitLock.ProtectedIff`,
  `ProfitLock.BeyondIffWithinHalfATick`, `ProfitLock.NoBudgetMovesNothing`).
- An unreadable state asks for a backup to be restored before resuming, but the same start
  writes a fresh state over it unless the account does not read; from then on the peak is
  the balance of that start (`DurableState.UnreadableSurvivesIff`,
  `DurableState.UnreadablePeakOverRuns`).
- The backup walker hashes text with non-ASCII characters escaped, the appender hashes it
  unescaped (`AuditChain.WalkerAcceptsIffPlain`).
- Acceptance is documented as never looser than the proposal; the recorded multiplier is
  rounded to four places and can round up (`Sizing.NeverLooserIffNotRoundedUp`).
- An operator's retirement is permanent only with a contradiction on record or one of four
  words in its reason (`LessonStore.OperatorRetirementLastsIff`).
- The running minimum of the false-discovery correction visits tied p-values in list order
  (`FalseDiscovery.AdjustedDecidesRejection`).
- A model version name of more than 120 characters is dropped on reload while its authority
  stays, and the next version to answer inherits it. The settings accept model names of 120
  characters, and from 110 on an unreported version is filed under a longer one
  (`ModelAuthority.ActiveIsEarnedIff`, `ModelAuthority.LongVersionHandsOverAuthority`).
- The gate for active authority names accuracies of 0.90 and 0.85 but compares values rounded
  to three places, so it asks for 0.8995 and 0.8495 (`ModelAuthority.BarsAreLowerIff`).
- A halt is said to survive a restart. If the state file is gone the agent starts as new,
  unhalted (`DurableState.RemovedHaltIsLostIff`).
- The call budget of the providers counts refusals as calls. A caller that keeps asking, at
  least as often as the hourly maximum allows, is never served again
  (`RateLimits.SteadyCallersAreShutOut`).
- The check after the step limit of a proposal is called unreachable. It fires exactly on a
  setting that is safer when lower, is asked to go to zero, and lies strictly between 10/13
  of 0.0001 and 0.0001; the derivation, its only caller, never asks for that
  (`Proposals.StepTurnsRiskyIff`, `Proposals.DerivedStepsNeverTurn`).

## Model

| member | source | states |
|---|---|---|
| OrderManager.Manager.ApplyResult | sentinel/execution/oms.py:245-361 | moves an order to the state a venue answer asks for: a fill without size stays unknown, a stop that cannot be placed quarantines the instrument, and an illegal move raises with the order left where it was |
| OrderManager.Manager.ResolveUnknown | sentinel/execution/oms.py:365-391 | only an unknown order is asked about; a terminal answer lifts its quarantine; no answer changes nothing |
| OrderManager.Manager.Submit | sentinel/execution/oms.py:155-243 | the retry loop ends as the first non-transient answer within the allowed attempts says; a quarantined instrument is refused and a known id is never sent again |
| OrderManager.AttemptsEnd | sentinel/execution/oms.py:182-225 | attempts go on through transient failures only, and at most as often as the retries allow |
| OrderManager.NewOrderEnds | sentinel/execution/oms.py:155-243 | a new order on a free instrument ends rejected, filled or partly filled exactly as the venue said, acknowledged when an answer names any other state but unknown, and unknown in every other case, exhausted retries and unclassified failures included; no other order changes |
| OrderManager.NewOrderFreezes | sentinel/execution/oms.py:155-361 | its instrument is frozen exactly when it ends unknown, when a partial fill was learnt by query, or when an answer told of a fill whose stop is missing |
| OrderManager.UnknownOrderEnds | sentinel/execution/oms.py:365-391 | a query leads an unknown order to a rejection or a fill exactly as the venue said and nowhere else, and exactly a terminal end lifts the freeze |
| OrderManager.EndsWereTold | sentinel/execution/oms.py:155-391 | over every run an order reads as rejected, filled or partly filled only if the venue said exactly that of it; no timeout, failure or number of retries invents an end |
| OrderManager.UnknownOrdersBlockTheirInstrument | sentinel/execution/oms.py:155-160 | in every run an instrument with an unknown order is quarantined, has exactly that one unknown order, and refuses every further submission |
| OrderManager.NeverSentTwice | sentinel/execution/oms.py:161-166 | once an id is in the book, no later history lets a second submission of it change anything |
| OrderManager.ResolutionRaisesIff | sentinel/execution/oms.py:306-317 | resolving an unknown order raises exactly when the venue reports it pending, acknowledged or cancelled, though the transition table allows cancelled; the order then stays unknown |
| OrderManager.StaysUnknownIff | sentinel/execution/oms.py:365-391 | an unknown order stays unknown after a query exactly when the venue has no answer, reports it pending, acknowledged, cancelled or unknown, or tells of a fill whose size no answer has given |
| OrderManager.NakedFillIsFrozenIff | sentinel/execution/oms.py:325-350 | an order ends filled exactly when the answer or, after a timeout, the query tells of a fill, and one whose stop is missing keeps its instrument frozen if and only if it was not a complete fill learnt by query |
| OrderManager.NakedFillCanGoFree | sentinel/execution/oms.py:386-388 | an input of that exception |
| EntryLoop.Agent.Execute | sentinel/agent/orchestrator.py:2076-2174 | an order in any state that may be live spends all three frequency budgets, stamps the last entry and saves all of it at once; anything else spends and saves nothing |
| EntryLoop.Agent.ActOnSignal | sentinel/agent/orchestrator.py:1759-1966 | a halting veto halts the agent, any veto or a size below the minimum sends nothing, and only an automatic mode submits |
| EntryLoop.SentIff | sentinel/agent/orchestrator.py:1905-1966 | over every run an order is sent if and only if the mode is automatic, the signal actionable, no other rule objects, the size reaches the minimum, the agent is not halted or stopped, no order is unresolved, every counter is below its cap and the last entry far enough back |
| EntryLoop.Agent.ConsiderEntries | sentinel/agent/orchestrator.py:1646-1757 | the whole cycle: each candidate in order on the context left by the one before, rebuilt after every order that may be live, ended by an exception, with the state file as the last save in it left it |
| EntryLoop.Agent.JudgeTicket | sentinel/agent/orchestrator.py:2206-2316 | a human's ticket is judged by the same rules on a context of its own, built after the venue's positions are read, which may halt the agent; a halting veto refuses it without halting |
| EntryLoop.HaltsIff | sentinel/agent/orchestrator.py:1912-1925 | a cycle halts the agent exactly on a halting veto or a book that contradicts the venue, a ticket only on the latter, and a halted agent judges no candidate of a cycle |
| EntryLoop.Agent.RollPeriods | sentinel/agent/orchestrator.py:833-871 | each counter starts again exactly when its own venue day, week or year changes, and the change is saved |
| EntryLoop.JudgedOnCurrentCounters | sentinel/agent/orchestrator.py:1654-1661 | every candidate of a cycle is judged on the agent's own counters, last entry and number of unresolved orders at that moment, for every sequence of venue answers |
| EntryLoop.EntriesStayWithinTheCaps | sentinel/agent/orchestrator.py:1753-1756 | a cycle takes no more entries than each of the three caps leaves, and the counters rise by exactly the entries taken |
| EntryLoop.NothingFollowsAnUnknown | sentinel/agent/orchestrator.py:1745-1756 | within a cycle nothing is sent after a judgement that leaves an order unresolved or that halts the agent |
| EntryLoop.LiveOrdersAreCountedIff | sentinel/agent/orchestrator.py:2110-2128 | a newly sent order that may be live is counted if and only if its submission did not raise, that is unless it timed out and the query found it pending, acknowledged or cancelled |
| EntryLoop.SpendsIff | sentinel/agent/orchestrator.py:2095-2128 | by what the venue said: everything but a rejection spends one entry of each budget and stamps the last entry, except the submission that raised |
| EntryLoop.SentOnlyInTheClear | sentinel/risk/engine.py:225-230 | over every run of cycles, tickets, period rolls, resolutions, halts, resumes and restarts, an order is sent only with no unresolved order in the book and every counter below its cap |
| EntryLoop.EntriesAreSpaced | sentinel/risk/engine.py:479-485 | over every run any two entries are at least the configured spacing apart, refreshed contexts, tickets and restarts included |
| EntryLoop.BudgetsHoldOverRuns | sentinel/agent/orchestrator.py:833-871 | counters never pass their caps, and while the calendar shows one venue day, week or year the entries taken equal the rise of that counter |
| EntryLoop.CountersSurviveRestarts | sentinel/agent/orchestrator.py:308-350 | over every run with crashes and restarts between steps the state file, written only where the agent saves, holds the agent's own counters, last entry and periods, and a run whose restarts read it is, judgement for judgement, the run that never lost them |
| EntryLoop.CrashesBuyNoEntries | sentinel/agent/orchestrator.py:311-315 | after any history from the first start, a stretch with any number of crashes and restarts takes no more entries within one venue day, week or year than that period's cap |
| EntryLoop.UnsettledOrderStopsTrading | sentinel/agent/orchestrator.py:664-667 | while no answer settles an unknown order it stays unknown over every run, and no cycle, ticket or accepted proposal sends anything on any instrument |
| EquityWindow.Agent.Rolling24hPnl | sentinel/agent/orchestrator.py:885-906 | the marks after each call are exactly the bucket-opening calls of the last day, and the result is the change since the first of them; the empty-window fallback never applies |
| EquityWindow.WindowIsBounded | sentinel/agent/orchestrator.py:76-77 | marks have distinct 300-second buckets, lie in the last 24 hours, and number 1 to 289, so the 400-slot queue never evicts one still needed |
| EquityWindow.WindowIsExact | sentinel/agent/orchestrator.py:894-903 | the window is exactly the bucket-opening calls not older than the cutoff: nothing else is kept, nothing of it is lost |
| EquityWindow.StepIsExact | sentinel/agent/orchestrator.py:899-903 | appending to the bounded queue and pruning keeps the window exact from any call to the next |
| EquityWindow.BaselineIsOldEnough | sentinel/agent/orchestrator.py:885-906 | the baseline is an equity read inside the window, no later than any call made at least one bucket after the cutoff |
| EquityWindow.BaselineIsTheFirstCallIff | sentinel/agent/orchestrator.py:899-906 | the loss is measured from the very first call of the window if and only if that call opens its bucket |
| SpreadBaseline.Agent.ObserveSpread | sentinel/agent/orchestrator.py:1254-1259 | each key holds the latest 500 positive spreads observed in its own session, other keys untouched |
| SpreadBaseline.HistoryIsComplete | sentinel/agent/orchestrator.py:1254-1259 | a key's history has exactly one entry for each positive spread of its own, the last observed last |
| SpreadBaseline.SessionsAreApart | sentinel/agent/orchestrator.py:1242-1252 | what is observed in the rollover hours, in London's or in the rest of the day never moves the baseline of another session |
| SpreadBaseline.Agent.NormalSpread | sentinel/agent/orchestrator.py:1261-1277 | the median of the key's window once it holds thirty, the live spread before |
| SpreadBaseline.MedianIsRobust | sentinel/agent/orchestrator.py:1273-1276 | while fewer than half of the samples exceed a bound the median does not, and while fewer than half fall short of one neither does it |
| SpreadBaseline.OddMedianIff | sentinel/agent/orchestrator.py:1273-1276 | on windows of odd size that condition is exact in both directions |
| SpreadBaseline.MedianFollowsTheMajority | sentinel/agent/orchestrator.py:1273-1276 | on windows of any size, once more than half of the samples lie past a bound the median does too |
| SpreadBaseline.EvenMedianIsHalfWay | sentinel/agent/orchestrator.py:1273-1276 | on windows of even size the median lies half-way between the middle two samples |
| SpreadBaseline.MedianWithin | sentinel/agent/orchestrator.py:1273-1276 | the median lies between the window's bounds |
| SpreadBaseline.BaselineIsHistorical | sentinel/agent/orchestrator.py:1261-1277 | after any observations a full-enough window yields a positive median, never the live spread, on the side of any bound that most samples keep to |
| ProfitLock.Agent.ApplyProfitLock | sentinel/agent/orchestrator.py:1365-1448 | the latch engages at the threshold and every position of the book ends as its own lock step says, in place |
| ProfitLock.LockedDayKeepsTheFraction | sentinel/agent/orchestrator.py:1380-1440 | the operation's own result: on an engaged or latched day with no open position left behind, a book closed at its stops leaves the kept fraction of the day's profit, less half a tick on each position |
| ProfitLock.LockMovesIff | sentinel/agent/orchestrator.py:1380-1440 | the operation moves a position exactly when the lock is engaged, the venue accepts, the stop is looser and its equal share of the give-back exceeds half a tick, and the new stop gives back that share within half a tick |
| ProfitLock.IdleLockTouchesNothing | sentinel/agent/orchestrator.py:1382-1386 | a lock that is off or not engaged, a closed position and one without a rate are left alone, and the latch is set exactly on engagement |
| ProfitLock.CandidateGivesBackItsShare | sentinel/agent/orchestrator.py:1412-1422 | closing at the candidate stop gives back the position's share of the budget within half a tick, the pip cancelling out |
| ProfitLock.UnrealisedIsTheWorseSide | sentinel/agent/orchestrator.py:1416-1423 | the unrealised profit is the worse of the two sides of the quote |
| ProfitLock.ProtectedIff | sentinel/agent/orchestrator.py:1423-1430 | a position ends at its candidate or safer except exactly when a tighter stop was wanted and lay at or past the closing price or was refused |
| ProfitLock.BeyondIffWithinHalfATick | sentinel/agent/orchestrator.py:1427-1429 | with closing prices on the grid a candidate is at or past the close exactly when the position's share of the budget is within half a tick of its worth, a tie going to an even price |
| ProfitLock.MovedIff | sentinel/agent/orchestrator.py:1423-1430 | so a position is moved if and only if the venue accepts, its share exceeds that, and the candidate is tighter |
| ProfitLock.LockKeepsTheFraction | sentinel/agent/orchestrator.py:1402-1406 | with every position priced and none left behind, the book closing at its stops leaves the day at least the kept fraction of its profit, less half a tick a position |
| ProfitLock.NoBudgetMovesNothing | sentinel/agent/orchestrator.py:1402-1430 | with prices on the grid, a keep fraction of one, or a latched day that is no longer in profit, moves no stop of the whole book |
| ProfitLock.StopsNeverWiden | sentinel/risk/protect.py:68-72 | over any number of cycles, whatever the market and the venue do, no stop is widened or removed |
| ProfitLock.GuaranteeNeverFalls | sentinel/agent/orchestrator.py:1376-1379 | the profit guaranteed by the stops of a fully stopped book never falls over repeated cycles |
| DurableState.MetaRoundTrip | sentinel/agent/orchestrator.py:412-434 | a position's metadata survives save and load in its normal form, and a second restart changes nothing more |
| DurableState.TheOrderIsWhatIsSaved | sentinel/agent/orchestrator.py:908-914 | the bounded id list that is saved is exactly the learnt order, whatever else the set holds |
| DurableState.StateRoundTrip | sentinel/agent/orchestrator.py:308-443 | save then load restores budgets, peak, rung, keys, counters, marks and halt exactly, metadata in normal form, and the latest 5000 trade ids |
| DurableState.LoadedIsWellKept | sentinel/agent/orchestrator.py:359-443 | whatever the file holds, a load that does not raise leaves a state that fits the loader's own shape |
| DurableState.Agent.SaveState | sentinel/agent/orchestrator.py:308-350 | the file holds the saved form of the whole memory |
| DurableState.Agent.LoadState | sentinel/agent/orchestrator.py:359-443 | a missing file restores nothing, an unreadable one halts, a stored one restores the memory or raises |
| DurableState.Agent.Halt | sentinel/agent/orchestrator.py:526-532 | the first halt records its reason and saves; a later one changes nothing |
| DurableState.Agent.Resume | sentinel/agent/orchestrator.py:534-543 | only a halted agent resumes, and the file says so |
| DurableState.Agent.Replay | sentinel/agent/orchestrator.py:500-519 | halts exactly when the journal cannot be read or some sent, never terminated order is unknown to the venue |
| DurableState.Agent.Start | sentinel/agent/orchestrator.py:449-498 | the load, the replay, the reconciliation, the baselines and the final save, in that order, with the file each raise leaves behind |
| DurableState.StartBaselines | sentinel/agent/orchestrator.py:482-497 | a first or unreadable start takes the balance for its peak and the equity for the three baselines; a restored one keeps every figure it had captured and takes the equity only for the others; nothing else is touched |
| DurableState.JournalStep | sentinel/agent/orchestrator.py:500-519 | a sent order joins those a restart must ask about unless it has no id or was closed before, and a fill, a rejection or a cancellation takes it out for good |
| DurableState.HaltLastsUntilResume | sentinel/agent/orchestrator.py:386-390 | once halt returns, every later state of every run of work, saves, crashes, damage to or removal of the file, and restarts is halted until a resume or a start that finds no file; with the file never removed, the file stays halted too |
| DurableState.RemovedHaltIsLostIff | sentinel/agent/orchestrator.py:359-361 | after the file of a halted agent is removed, the next start comes up unhalted if and only if the agent did not save before it went down and nothing else in that start halts it; halting it again is not a save |
| DurableState.StartsUnhaltedIff | sentinel/agent/orchestrator.py:449-498 | a start leaves an agent unhalted if and only if the account and journal read, the state was not halted or unreadable, every unterminated order is answered for, and reconciliation finds nothing |
| DurableState.CrashLoopForgetsNothing | sentinel/agent/orchestrator.py:481-498 | after any number of crashes and restarts the agent has the last saved budgets, peak, counters, marks and metadata |
| DurableState.UnreadableSurvivesIff | sentinel/agent/orchestrator.py:366-376 | an unreadable file survives a start if and only if the account did not read; otherwise the agent comes up halted over a fresh file whose peak is that moment's balance |
| DurableState.UnreadablePeakOverRuns | sentinel/agent/orchestrator.py:480-498 | over any crashes, restarts and resumes from an unreadable file it stays unreadable until an account first reads, and from then on the peak is the balance of that account |
| DurableState.ResumedLooksNew | sentinel/agent/orchestrator.py:480-498 | after a resume the agent and its file equal those of an agent started for the first time on that account, so no later restart can tell |
| LessonStore.MemoryStore.FindPrior | sentinel/agent/memory.py:245-262 | the newest active row of the key, else its newest retired row |
| LessonStore.MemoryStore.AddLesson | sentinel/agent/memory.py:237-300 | supersedes the prior row, or returns its id untouched when it was retired by a decision |
| LessonStore.AddedIsBelievedIff | sentinel/agent/memory.py:237-300 | after adding a lesson its key is believed if and only if it was never refuted, by a new last row that holds the lesson with its caution cut to between a quarter and one |
| LessonStore.MemoryStore.Retire | sentinel/agent/memory.py:325-334 | only an active row is retired, with its reason |
| LessonStore.MemoryStore.ReviewLesson | sentinel/agent/memory.py:336-392 | confirmation, contradiction or retirement of one row as the evidence says |
| LessonStore.ReviewDecides | sentinel/agent/memory.py:355-392 | support of the same sign confirms, which renews the lesson and counts no contradiction; the other sign or the last contradiction allowed retires; any other unsupported review only counts a contradiction |
| LessonStore.UnsupportedReviewsRefute | sentinel/agent/memory.py:355-392 | as many unsupported reviews as the limit leaves retire a lesson for good, whatever else the evidence says |
| LessonStore.MemoryStore.ExpireUnconfirmed | sentinel/agent/memory.py:394-414 | every active row not confirmed since the cutoff is retired, no other row changes, and the result is how many did |
| LessonStore.ExpiredIff | sentinel/agent/memory.py:394-414 | a row changes exactly when it is active and its last confirmation is older than the days given |
| LessonStore.RunsStayConsistent | sentinel/agent/memory.py:237-392 | over every run: at most one live lesson per key, no active lesson at the contradiction limit, and an unbroken supersession chain |
| LessonStore.RefutedNeverReturns | sentinel/agent/memory.py:262-280 | once a key is retired by a decision no run of any operations makes it active again |
| LessonStore.ReviewRefutes | sentinel/agent/memory.py:360-392 | a review that retires refutes its key, whatever the recorded wording |
| LessonStore.RetirementIsFinalIffDecision | sentinel/agent/memory.py:262-280 | a retirement is final for its key over all runs if and only if the lesson had a contradiction or the reason holds one of the four words |
| LessonStore.StaleLessonReturns | sentinel/agent/memory.py:262-280 | a lesson retired without a decision is made active again by the next that says the same |
| LessonStore.OperatorRetirementLastsIff | sentinel/agent/memory.py:262-334 | after an operator's retirement no run of any operations makes the key active again if and only if the lesson had a contradiction or the reason holds one of the four words |
| LessonStore.EmptyReasonIsUndone | sentinel/agent/memory.py:325-334 | the default empty reason is no decision: the next matching lesson undoes the retirement |
| LessonStore.ExpiryIsNotADecision | sentinel/agent/memory.py:394-414 | for every number of days the expiry reason contains none of the four words |
| LessonInfluence.Recall | sentinel/agent/memory.py:302-315 | the applicable active rows in order of confidence, at most the limit, none left out that ranks before one picked |
| LessonInfluence.RecallRanksByEvidence | sentinel/agent/memory.py:302-315 | active lessons that speak of nothing but what was asked about, by falling confidence and then falling sample, none left out for a less confident one |
| LessonInfluence.SessionLessonsNeverCount | sentinel/agent/memory.py:483 | the multiplier asks about no session, so a lesson learnt about one never counts toward size |
| LessonInfluence.CautionMultiplier | sentinel/agent/memory.py:469-495 | the clamped product of the recalled lessons' factors |
| LessonInfluence.CautionOnlyRelaxes | sentinel/agent/memory.py:127-141 | a clamped lesson's caution only rises with unconfirmed age and never passes one |
| LessonInfluence.FreshLessonCountsInFull | sentinel/agent/memory.py:137-141 | a lesson just confirmed has its full caution |
| LessonInfluence.HalfLifeHalves | sentinel/agent/memory.py:137-141 | every half-life without a confirmation halves what a lesson's caution falls short of one |
| LessonInfluence.ConfidenceIsTheProduct | sentinel/agent/memory.py:144-155 | confidence is the sample term times the significance to four places, none from the threshold on and full when both saturate |
| LessonInfluence.FactorOnlyRelaxes | sentinel/agent/memory.py:469-495 | so does the factor it contributes, which stays in the unit interval |
| LessonInfluence.MoreLessonsOnlyShrink | sentinel/agent/memory.py:485-495 | one more lesson takes off exactly its own factor and never gives size back |
| LessonInfluence.MultiplierShrinksAndRelaxes | sentinel/agent/memory.py:469-495 | for every lesson set and clock the multiplier is between the floor and one, and left unconfirmed it only gives size back |
| LessonInfluence.RunsStoreClamped | sentinel/agent/memory.py:117-121 | every lesson any run stores keeps its caution clamped to the unit interval |
| Sizing.SizeFor | sentinel/agent/orchestrator.py:1927-1940 | the largest number of lot steps within the approved lots times the caution, or nothing when that is below the minimum |
| Sizing.LessCautionNoFewerLots | sentinel/agent/orchestrator.py:1927-1929 | more caution never sends more lots |
| Sizing.CautionFor | sentinel/agent/orchestrator.py:1968-2003 | the least of the lesson multiplier and every layer, clamped to the unit interval |
| Sizing.TightenAllIsTheLeast | sentinel/agent/orchestrator.py:1985-2003 | every source bounds the combined caution and one of them attains it |
| Sizing.AcceptProposal | sentinel/agent/orchestrator.py:2284-2310 | an accepted proposal is sized under the least of the fresh and the recorded caution |
| Sizing.AcceptanceIsBounded | sentinel/agent/orchestrator.py:2284-2310 | accepted lots are at least the minimum and at most the approved lots times either caution |
| Sizing.NeverLooserIffNotRoundedUp | sentinel/agent/orchestrator.py:1908 | acceptance is never looser than the caution first applied if and only if its four-place rounding did not go up |
| Sizing.AtMostHalfAPlaceLooser | sentinel/agent/orchestrator.py:1908 | and never by more than half of the last recorded place |
| Sizing.AcceptedLooserThanProposed | sentinel/agent/orchestrator.py:2284-2300 | a concrete proposal of 50.00 lots that acceptance sends as 50.01 |
| Sizing.ManualTicket | sentinel/agent/orchestrator.py:2424-2458 | a ticket may ask for less risk than the budget, never for more |
| Sizing.TicketTakesTheLess | sentinel/agent/orchestrator.py:2424-2450 | a ticket's caution is the lesser of the caution in force and the part of the budget it asks for, and attains it |
| Sizing.TicketIsBounded | sentinel/agent/orchestrator.py:2424-2450 | ticket lots never exceed what the request, the caution and the engine allow |
| ShadowBook.ResolvePath | sentinel/brain/shadow.py:55-90 | the bar walk with its horizon, gap and adverse-first branches computes the recursive resolution |
| ShadowBook.ResolutionEarns | sentinel/brain/shadow.py:60-89 | what a resolved ticket earns: minus one less the cost at its stop, the signed distance of the target or a better open, of a gap's open or the horizon's close in units of the risk less the cost, and nothing when the stop is not on the losing side |
| ShadowBook.TargetEarns | sentinel/brain/shadow.py:76-78 | a target ahead of the entry and not opened past earns its own distance over the risk, less the cost |
| ShadowBook.CostComesOff | sentinel/brain/shadow.py:55-90 | the cost comes off whatever is earned and decides nothing else |
| ShadowBook.EndsOnTheFirstBarThatMay | sentinel/brain/shadow.py:66-90 | a ticket ends on the first bar that trades at a barrier or fills the horizon, by its horizon only if that bar trades at none, and stays open while there is no such bar |
| ShadowBook.AdverseFirstIsWorstCase | sentinel/brain/shadow.py:61-65 | along every price path consistent with the bars, first-touch trading exits on the same bar with at least the reported R |
| ShadowBook.WorstCaseIsReached | sentinel/brain/shadow.py:61-90 | the reported outcome is reached by an actual path unless the exit bar opened through the target |
| ShadowBook.WorstCaseIsPessimistic | sentinel/brain/shadow.py:61-90 | when it did, every path does strictly better |
| ShadowBook.ReportedOutcomeIsAttainable | sentinel/brain/shadow.py:61-90 | some consistent path earns exactly the reported outcome if and only if the exit bar does not open through the target |
| ShadowBook.SellMirrorsBuy | sentinel/brain/shadow.py:66-88 | resolving a SELL equals resolving a BUY on reflected prices |
| ShadowBook.OutcomeDependsOnUsedBars | sentinel/brain/shadow.py:66-90 | any record that agrees on the used bars gives the same resolved outcome |
| ShadowBook.LaterBarsChangeNothing | sentinel/brain/shadow.py:66-90 | appending bars never changes a resolved outcome |
| PostMortem.PathInR | sentinel/agent/postmortem.py:114-135 | each bar becomes its open, favourable high, adverse low and close in R |
| PostMortem.InRIsTheScale | sentinel/agent/postmortem.py:114-135 | the entry is zero, one risk distance in favour plus one and against it minus one, and equal moves are equal in R |
| PostMortem.TouchesSurviveConversion | sentinel/agent/postmortem.py:114-135 | on either side a bar trades through a price exactly when the converted point reaches that price in R |
| PostMortem.FirstTouch | sentinel/agent/postmortem.py:295-301 | the first point at or after the start whose high reaches the level |
| PostMortem.StopFillIsNeverGenerous | sentinel/agent/postmortem.py:304-318 | a stop is never credited more than its level less slippage, and exactly that unless the bar opened beyond it |
| PostMortem.PartialCountsItsDamage | sentinel/agent/postmortem.py:340-363 | the partial take is scored on every trade that reached the level and is negative exactly when the trade closed above what it would have banked |
| PostMortem.PartialIsItsFraction | sentinel/agent/postmortem.py:271-276 | a partial changes its fraction of the difference to the trade's own result, and the cost is what was paid over what was risked |
| PostMortem.SlippageIsTheObserved | sentinel/agent/postmortem.py:278-292 | the slippage allowance is the worse of the two observed, in the trade's own R, or the default if that is more |
| PostMortem.ScoreBreakeven | sentinel/agent/postmortem.py:387-416 | the loop exits at the first low at or below cost from the arming bar on, and never credits more than cost less slippage |
| PostMortem.BreakevenEndsAtCost | sentinel/agent/postmortem.py:387-416 | an armed trade ends on the first bar back at its cost, at the cost or a worse open less the slippage, and is left alone if none comes back |
| PostMortem.ScoreRatchet | sentinel/agent/postmortem.py:417-451 | the loop exits at the first bar giving back half of the best profit of strictly earlier bars once that reached one R |
| PostMortem.RatchetCreditsAtMostTheFloor | sentinel/agent/postmortem.py:417-451 | that bar and floor are unique and the credit never exceeds the floor less slippage |
| PostMortem.RatchetIsCausal | sentinel/agent/postmortem.py:417-451 | nothing after the exit bar changes the decision |
| PostMortem.Counterfactuals | sentinel/agent/postmortem.py:321-461 | every rule is scored, and those a record cannot answer are marked as not computable |
| FalseDiscovery.StepUp | sentinel/research/stats.py:452-466 | rejects exactly the hypotheses at or below the largest rank that clears its threshold |
| FalseDiscovery.Adjust | sentinel/agent/postmortem.py:906-925 | the in-place running minimum leaves at each finding the least level of the findings visited up to it, capped at one |
| FalseDiscovery.AdjustedInRange | sentinel/agent/postmortem.py:906-925 | each adjusted value lies between the raw p-value and one |
| FalseDiscovery.AdjustedKeepsOrder | sentinel/agent/postmortem.py:906-925 | a smaller raw p-value never gets a larger adjusted one |
| FalseDiscovery.AdjustedDecidesRejection | sentinel/agent/postmortem.py:906-925 | the adjusted value is the exact rejection threshold at every level if and only if the finding's tie is settled |
| FalseDiscovery.DistinctPValuesDecide | sentinel/agent/postmortem.py:906-925 | with distinct raw p-values adjusted at or below the level picks out exactly the step-up rejections |
| FalseDiscovery.UnsettledTieDisagrees | sentinel/agent/postmortem.py:906-925 | an unsettled tie has a level at which the report and the rejection disagree |
| FalseDiscovery.TiedPairIsMisreported | sentinel/agent/postmortem.py:906-925 | two equal p-values of 0.02 are both rejected at 0.03 while the first is reported as 0.04 |
| Proposals.Propose | sentinel/agent/proposals.py:166-311 | refused for the first of nine gates that objects, in their order, and otherwise proposed with the limited value |
| Proposals.LimitedStepIsSafe | sentinel/agent/proposals.py:190-297 | from a storable value the limited step is in bounds, on the grid, between current and request, no riskier and within 35% plus half a unit, so the second check never fires |
| Proposals.LimitedStepIsFull | sentinel/agent/proposals.py:270-290 | a request within the step limit is granted as clamped, and a longer one goes the whole allowed way toward it, within half a unit |
| Proposals.ChainsOnlyGetSafer | sentinel/agent/proposals.py:190-297 | any chain of accepted proposals stays in the table and only moves toward less risk |
| Proposals.StepTurnsRiskyIff | sentinel/agent/proposals.py:270-297 | for every path, current value and request that passed the first direction check, the check after the step limit fires if and only if the setting is safer when lower, is asked to go to zero, and 0.00005 < 0.65 current with current below 0.0001 |
| Proposals.OffGridStepCanTurnRisky | sentinel/agent/proposals.py:270-297 | 0.00008 asked to go to zero is such an input |
| Proposals.DerivedStepsNeverTurn | sentinel/agent/proposals.py:349-401 | no finding and no configuration makes the derivation reach that refusal |
| Proposals.DeriveProposals | sentinel/agent/proposals.py:314-412 | exactly one proposal, in order, for every supported finding whose request no gate objects to, and nothing else |
| Proposals.DerivedAreSound | sentinel/agent/proposals.py:314-412 | every derived proposal is storable, off the frozen list, no riskier than the value in force and backed by a supported finding |
| Proposals.EveryPatternCanFire | sentinel/agent/proposals.py:349-401 | on the default configuration a supported finding of each of the five patterns leads to a proposal of exactly the value it asks for |
| Proposals.ClampIsStorable | sentinel/agent/proposals.py:155-163 | clamping any number gives a value in bounds and on the grid |
| Proposals.ClampIsNearest | sentinel/agent/proposals.py:155-163 | a value out of bounds goes to the bound it passed, one in bounds to within half a unit of itself |
| ProposalQueue.Queue.Add | sentinel/agent/proposals.py:538-545 | the pending rivals for the same setting expire and the item takes its id's place |
| ProposalQueue.Queue.ExpireStale | sentinel/agent/proposals.py:547-556 | exactly the overdue pending items expire, and the result is how many did |
| ProposalQueue.Queue.Review | sentinel/agent/proposals.py:562-572 | only a pending item is approved or rejected |
| ProposalQueue.Queue.MarkValidated | sentinel/agent/proposals.py:574-583 | only an approved item is validated or rejected |
| ProposalQueue.Queue.MarkApplied | sentinel/agent/proposals.py:585-594 | only a validated item is applied |
| ProposalQueue.AtMostOnePending | sentinel/agent/proposals.py:538-594 | over every run at most one proposal per setting is pending |
| ProposalQueue.EveryStatusIsEarned | sentinel/agent/proposals.py:538-594 | over every run, re-used ids included: an item was added with its own path and value, its id was not added again since, and an applied one was approved, validated and applied after that, in order |
| ProposalQueue.ItemsLiveTheirOwnLives | sentinel/agent/proposals.py:538-594 | over every run that does not add its id again an item lives exactly its own life, whatever else the queue holds and in whatever order |
| ProposalQueue.TheWayThrough | sentinel/agent/proposals.py:562-594 | with anything else happening to other proposals in between, a proposal reviewed, validated and applied ends applied if it was approved and passed, and rejected otherwise |
| ProposalQueue.AddKeepsAllIffFresh | sentinel/agent/proposals.py:302 | adding keeps every proposal if and only if the id is new or collides with the same value of the same setting |
| ProposalQueue.FinalStaysFinal | sentinel/agent/proposals.py:562-594 | an item in a final state is unchanged by every run that does not add its id again |
| ModelAuthority.AIService.ObserveVersion | sentinel/ai/service.py:709-739 | an unknown version becomes pending and drops authority to shadow; the first ever seen becomes known |
| ModelAuthority.AIService.AcceptVersion | sentinel/ai/service.py:741-754 | acceptance makes the pending version known and leaves shadow mode |
| ModelAuthority.AIService.SetMode | sentinel/ai/service.py:756-773 | authority is raised only without a pending version, and to active only past the evidence gate on the newest 2000 answers of the known version |
| ModelAuthority.AuthorityMovesIff | sentinel/ai/service.py:741-773 | over every run acceptance puts the waiting version in force, always in shadow; a mode comes into force exactly when it is shadow, or no version waits and, for active, the evidence is there |
| ModelAuthority.GateIff | sentinel/ai/service.py:800-842 | the gate passes exactly on a version in force with none waiting, twenty labelled rows, and shares of rows decided as labelled of at least 0.8995 and 0.8495, all counted over the rows of that version |
| ModelAuthority.ReportRowsAre | sentinel/ai/service.py:785-797 | the gate reads the newest 2000 answers of the known version and no others |
| ModelAuthority.ViewIff | sentinel/ai/service.py:695-704 | nothing is shown in shadow, corrections only in shrink-only, everything in active |
| ModelAuthority.AIService.ClassifyNews | sentinel/ai/service.py:632-690 | the answering version is observed before the answer is filed |
| ModelAuthority.OneAnswerPerArticle | sentinel/ai/service.py:632-690 | in every run an article has one answer, its latest, so no headline counts twice toward the gate |
| ModelAuthority.AIService.Reload | sentinel/ai/service.py:67-80 | the loader's cleaning of the stored state |
| ModelAuthority.PendingMeansShadow | sentinel/ai/service.py:709-773 | in every run a pending version means shadow mode |
| ModelAuthority.ShownComesFromKnownVersion | sentinel/ai/service.py:695-704 | an extraction shown right after classification came from the known version with none pending |
| ModelAuthority.ActiveIsEarned | sentinel/ai/service.py:756-773 | in every run with version names the loader keeps, active mode means the gate passed on the very version now known and nothing changed since |
| ModelAuthority.ActiveIsEarnedIff | sentinel/ai/service.py:709-773 | where every reported version name has at most 80 characters, active mode is earned by the version in force in all runs of a configured model if and only if its name has at most 109 characters; the settings accept 120 |
| ModelAuthority.ContradictionsAreEarned | sentinel/ai/service.py:695-773 | in every run with version names the loader keeps, a contradiction the model claims reaches the policy only after the evidence was there at a promotion of the very version now known |
| ModelAuthority.ReloadKeepsVersionIffShort | sentinel/ai/service.py:67-80 | a reload keeps the granted state if and only if the version name has at most 120 characters |
| ModelAuthority.KeyIsShortIff | sentinel/ai/service.py:709-720 | a version key is short if and only if it was reported or the configured model name has at most 109 characters |
| ModelAuthority.BarsAreLowerIff | sentinel/ai/service.py:826-840 | the gate compares an accuracy rounded to three places, so it asks for a share of 0.8995 and 0.8495, exactly, where it names 0.90 and 0.85 |
| ModelAuthority.BelowTheBarPasses | sentinel/ai/service.py:826-840 | 188 correct of 209 is below 0.90 and passes |
| ModelAuthority.LongVersionHandsOverAuthority | sentinel/ai/service.py:67-80 | with a longer name a reload forgets the version but not its authority, and the next version to answer inherits it |
| RateLimits.Service.BudgetReached | sentinel/ai/service.py:546-554 | the hourly and daily counts against their maxima |
| RateLimits.Service.NoteBreaker | sentinel/ai/service.py:594-610 | a rate-limit answer opens the breaker for a doubling wait, a success closes it, any other failure leaves it |
| RateLimits.Service.Complete | sentinel/ai/service.py:556-588 | the provider chain walked in order, refusals journalled, and the result is the first provider that was asked and answered |
| RateLimits.WinnerIsTheLastCall | sentinel/ai/service.py:568-588 | an answer is the last call the walk journals, and without one every call it journals failed |
| RateLimits.FailoverIsInOrder | sentinel/ai/service.py:566-588 | for any chain the answer is that of the first position that may be asked when its turn comes and answers, and the walk is everything asked up to it |
| RateLimits.FirstAnswerWins | sentinel/ai/service.py:566-588 | with no provider named twice: a provider was called exactly when it writes text, was not backing off before the walk, and nobody before it answered |
| RateLimits.Service.Classify | sentinel/ai/service.py:632-666 | one provider asked under the same budget and breaker; answered exactly when the breaker was closed, the budget free and the provider answered |
| RateLimits.CallsAreBounded | sentinel/ai/service.py:546-588 | in every run no trailing hour holds more calls than the hourly maximum less one plus the longest chain, and no trailing day more than the daily maximum less one plus the longest chain |
| RateLimits.BudgetIsUsedUpIff | sentinel/ai/service.py:546-554 | a budget is used up by the rows, calls and refusals alike, of the last hour or the last day |
| RateLimits.SteadyCallersAreShutOut | sentinel/ai/service.py:562-565 | a caller that asks at least as often as the hourly maximum allows is refused from the maximum on and for ever, without any call, because a refusal uses up the budget like a call |
| RateLimits.RunsAreFaithful | sentinel/ai/service.py:590-610 | the stored breakers are exactly what the journal implies and no call went through an open one |
| RateLimits.BreakerCountsTheStreak | sentinel/ai/service.py:594-610 | a breaker counts exactly the rate-limited calls since the last answer |
| RateLimits.BreakerWaits | sentinel/ai/service.py:594-610 | it stays open from the latest of them for a minute doubled for each one before it, up to an hour, whatever other failures follow |
| RateLimits.BackOffBoundsTraffic | sentinel/ai/service.py:594-610 | under uninterrupted rate-limit answers n calls take at least 3600 n - 21420 seconds, whatever the breaker's state |
| RateLimits.BackOffBoundIsAttained | sentinel/ai/service.py:594-610 | for every n from six on, and any budget that admits n + 1 calls, some run asks one provider n + 1 times in a row, rate-limited each time, in exactly 3600 (n + 1) - 21420 seconds |
| AuditChain.VerifyChain | scripts/backup_state.py:50-72 | the walker reports intact with the number of records exactly on a chain, and otherwise names the first line that breaks it and how |
| AuditChain.FaultMeans | scripts/backup_state.py:57-69 | what each verdict on a record means: the number, or with it right the link, or with both right the hash |
| AuditChain.PrefixIsChain | scripts/backup_state.py:50-72 | every prefix of a chain is a chain |
| AuditChain.ExtensionIsChainIffLinked | scripts/backup_state.py:50-72 | any number of further records continue a chain if and only if each in turn is correctly numbered, linked and hashed |
| AuditChain.SameHeadSameHistory | scripts/backup_state.py:50-72 | two non-empty chains that verify and end in the same hash are equal record by record |
| AuditChain.AuditLog.Append | sentinel/core/audit.py:245-261 | the appender keeps its journal a chain over unescaped text |
| AuditChain.WalkerAcceptsIffPlain | scripts/backup_state.py:64-68 | the walker accepts a correctly written journal if and only if every string in it is plain ASCII |
| AuditChain.NonAsciiFirstRecordIsRejected | scripts/backup_state.py:64-69 | any correctly written first record whose payload is not plain ASCII is rejected |
| AuditChain.PersianTextFailsTheBackupCheck | scripts/backup_state.py:64-69 | a correctly written first record carrying a Persian word is reported as a hash mismatch |
| CanonicalJson.EncodeInjective | scripts/backup_state.py:64-67 | the canonical escaped text determines the value |
| CanonicalJson.ModesAgreeIffPlain | sentinel/core/audit.py:118-124 | escaped and unescaped text agree exactly on plain ASCII values |
| Calibration.ConstantBrierSplits | sentinel/ai/calibration.py:27-38 | a constant's Brier score is the base-rate score plus the squared distance from the base rate |
| Calibration.BaseRateIsTheBestConstant | sentinel/ai/calibration.py:27-46 | no constant beats the base rate: least Brier, skill never positive, both attained exactly there |
| Calibration.BrierIsZeroIff | sentinel/ai/calibration.py:27-46 | a Brier score is zero exactly for probabilities that are the truth, and only those have the most skill, which is one |
| Calibration.CountWins | sentinel/ai/calibration.py:49-59 | the double loop counts wins with ties as one half |
| Calibration.Auc | sentinel/ai/calibration.py:49-59 | the wins over the number of pairs, or nothing when a class is empty |
| Calibration.AucInUnit | sentinel/ai/calibration.py:49-59 | AUC lies in the unit interval |
| Calibration.PerfectAucIff | sentinel/ai/calibration.py:49-59 | AUC is one exactly when every true case scores above every false one, and zero exactly in the reverse |
| Calibration.FlippedLabelsComplementAuc | sentinel/ai/calibration.py:49-59 | flipping every label turns AUC into one minus AUC |
| Calibration.AucIgnoresRescaling | sentinel/ai/calibration.py:49-59 | AUC is unchanged by any strictly increasing map of the scores |
| Calibration.ConstantAucIsHalf | sentinel/ai/calibration.py:49-59 | a constant predictor's AUC is exactly one half |
| Calibration.RoundedAccuracyIff | sentinel/ai/calibration.py:78-87 | the rounded accuracy reaches an even number of thousandths if and only if the share of correct cases reaches half a place less |
| Calibration.GatherBand | sentinel/ai/calibration.py:62-75 | the pass over the pairs gathers count, sum and positives of one band |
| Calibration.Reliability | sentinel/ai/calibration.py:62-75 | one row per band with its count, mean and observed share |
| Calibration.RowsLieInTheirBands | sentinel/ai/calibration.py:62-75 | the mean a row reports lies in its own band and its share is a probability, up to the third place |
| Calibration.BandsPartition | sentinel/ai/calibration.py:62-75 | every probability falls in exactly one band and nothing else in any |
| Calibration.BandsCountEveryProbability | sentinel/ai/calibration.py:62-75 | the band counts add up to the number of pairs with a probability |
| Rounding.RoundToNear | sentinel/core/money.py:74-100 | rounding to a grid lands on it within half a step |
| Rounding.FloorToGreatest | sentinel/core/money.py:151-157 | rounding lots down gives the largest grid point that does not exceed them |

## Left out

- EntryLoop.EntriesAreSpaced: assumes the clock does not step back between a context and the entry it allows.
- EntryLoop.Agent.ActOnSignal: the meta-label gate, similarity and macro layers and intent validation are folded into whether a candidate is actionable and what size it leaves; sizing itself is in `Sizing.dfy`.
- EntryLoop.Agent.ConsiderEntries: allocations skipped before a signal is raised (disabled, suspended, wrong lifecycle, missing bars) are not candidates; they touch no counter.
- OrderManager.NakedFillIsFrozenIff: its exception needs a query that answers with an unconfirmed stop; the queries of the repository's adapters report every stop as confirmed.
- ModelAuthority.AIService.ClassifyNews: answers are stamped in the order they are filed, and the purge of answers older than 180 days is not modelled.
- EquityWindow.WindowIsBounded: holds for clock readings that never step back.
- ProfitLock.LockKeepsTheFraction: assumes a rate and a quote for every open position; an unpriced position is left alone by the code and guarantees nothing.
- DurableState.StateRoundTrip: decimal text is taken to read back as the number written; a stored text field is compared only with the words the loader names.
- DurableState.Agent.Start: halt reasons are fixed texts without order ids or mismatch kinds; the venue's answer to a replayed order counts as resolved whatever its state, as in the code.
- LessonInfluence.MultiplierShrinksAndRelaxes: the half-life power is any decreasing function that starts at one and halves with each unit, and the logarithmic sample term any function into the unit interval.
- RateLimits.Service.Complete: the connection check of a provider, which bypasses the budget, is not a run operation.
- OrderManager.UnknownOrdersBlockTheirInstrument: the manual release of a quarantine has no caller in the repository and is not a run operation.
- Floating-point rounding, NaN and infinities: arithmetic is exact.
- Partial takes, break-even moves, trails and closes of open positions: the protection rules of the risk package are not part of this model.
- The other vetoes of the risk engine, exposure and margin: any further refusal is an arbitrary input.
- Disk-write failures, thread races and crashes inside one operation, such as between an order's answer and the save of its count: each operation is one step, and a save replaces the file atomically.
- SQLite, JSON parsing, file permissions and log purging: tables are sequences and maps; the hash is injective.
- Layer scorecards, the similarity memory, meta-label fitting and regime labels: statistics taken from numerical libraries.
- Proposals whose value is a whole parameter table, regime lessons, and the coach's, brief's and dashboard's texts: no numeric kernel.
- Reading the last journal record after a torn write, licensing, user accounts and network clients: input, output and plumbing.
