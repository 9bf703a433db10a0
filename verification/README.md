# Verified model of the trading agent's evidence, reconciliation and run protocols

This project models the parts of the trading agent that keep its books and its evidence straight, and proves what they
promise. `dafny verify dfyconfig.toml` checks the whole project.

What is modelled, in the order of the modules:

- **Accounting dual-run evidence** (`Snapshots`, `Comparisons`, `Comparing`, `ComparisonLaws`, `RunValidation`,
  `Decoding`, `DecodingLimits`, `SampleEvidence`). Two captures of one account, legacy and ledger, become canonical
  snapshots and are compared fact by fact. The canonical payload is a value tree whose decimals, identities and timestamps
  are really printed and read (`Decimals`, `Uuids`, `Timestamps`); the digest, the derived identity and the Unicode tables
  are functions of a `Platform` record.
- **The cut-over gate** (`CutoverGate`, `GateLaws`, `GateOpens`, `GateTies`), **the two capture sources** (`Sources`,
  `FailClosed`) and **the leased capture protocol** (`CaptureRuns`).
- **Reconciliation with Alpaca** (`BrokerRows`, `Imports`, `LocalStores`, `OrderImports`, `PositionImports`, `TradeImports`,
  `Reconciler`, `ReconcileVerifier`, `VerifierLimits`). Tables are lists in which a row's place is its identity. Any page of
  a listing may be unreadable, and each write is stored and acknowledged, lost, or stored although reported as failed;
  nothing is assumed about which.
- **Run lifecycle under failing persistence** (`ExecutionGates`, `RunLogs`, `AgentRuns`, `NativeRuns`). The row and the audit
  events of runs are the history of attempted writes, with the same three outcomes.
- **Rate limiters** (`TokenBuckets`, `FixedWindows`), **the newest-first page of historical runs** (`HistoricalRuns`) and
  **preview-approve-settle of prediction markets** (`Fingerprints`, `Settlement`).

Library functions and everything outside (readers, brokers, stores, clocks, sorts of equal keys, map iteration order) are
parameters, so each theorem holds for all of them. `Text`, `Digits`, `Paging`,
`Persistence`, `Admissions` and `Evidence` hold shared definitions.

## Findings

Properties that the code does not have in general, each with an input on which it fails and the exact condition under which
it holds:

- Decoding a payload gives back the run exactly when the as-of year is not negative and the generation year has at most four
  digits (`Decoding.RunRoundTrip`, `Decoding.SnapshotRoundTrip`): other years are printed in a form the parser refuses, as
  on every day from year 10000 on (`DecodingLimits.LateRunNotDecoded`).
- Validating a run does not pin its as-of time or mark age, only how they print. A validating run is fully determined exactly
  when the first is a UTC microsecond and the second a whole number of microseconds (`RunValidation.ValidateDetermines`);
  `RunValidation.ValidateMissesDrift` moves a validating run to the previous UTC day.
- Validating runs do not make readiness independent of how the gate's sort breaks ties between copies with the same bytes:
  two validating copies may differ in mark age below the microsecond, so that one continues the policy of the day before and
  the other does not (`GateTies.TieDecidesReadiness`, `GateTies.ValidRunsNotStable`). The gate is ready for every sort
  exactly when nothing is late, every day of the window is uncontested, all its candidates qualify and candidates of
  different days share one policy (`GateTies.ReadyForEverySort`); it is ready for some sort exactly when one such run a day
  can be picked (`GateTies.ReadyForSomeSort`). Readiness and the chosen identities survive reordering, duplication, changes
  to older runs and any sort exactly when the second condition implies the first (`GateTies.StabilityExact`); pinned
  validating runs are a case of that (`GateLaws.ReadinessStable`).
- A completed row can lack its completion event without a failed repair: when storing the completion took effect but was
  reported as failed (`AgentRuns.CompletionMayLackEvent`, `NativeRuns.NativeCompletionMayLackEvent`). `AgentRuns.EndingExact`
  and `NativeRuns.NativeEndingExact` say exactly when.
- The reconciliation verifier rejects its own importer's result exactly when a trade that was already there disagrees with the
  fill of its identity, or stands in for a fill without having an identity (`ReconcileVerifier.VerifiedExact`);
  `VerifierLimits.StandInFailsVerification` is such a trade.
- A fixed-window limit of zero or less still admits one call per window (`FixedWindows.NonPositiveLimitStillAdmits`).
- Instruments called YES or NO can trade places with the winner in a preview fingerprint
  (`Fingerprints.OutcomeInstrumentsConfuse`), and instruments that read as identities with a decision
  (`Fingerprints.IdentityInstrumentsConfuse`). For one-line instruments the fingerprint pins its preview exactly when neither
  can happen (`Fingerprints.PinsExactly`).
- Overrides can take a sell below the minimum risk/reward (`ExecutionGates.SellMayLoseRiskReward`);
  `ExecutionGates.RiskRewardExact` says exactly when they do not.

## Model

| member | source | states |
|---|---|---|
| Decimals.SubUnits | internal/accountingrecon/comparison.go:307-326 | subtraction of two decimals is exact at every scale that holds both operands |
| Decimals.SubZero | internal/accountingrecon/comparison.go:307-326 | a difference is zero exactly when both values are the same decimal |
| Decimals.FitsBound | internal/accountingrecon/snapshot.go:408-416 | the 26.18 digit bound means fewer than 10^44 units of 10^-18, and nothing else |
| Decimals.ReadPrint | internal/accountingrecon/snapshot.go:418-423 | a normalised decimal prints to a text that reads back as the same value |
| Decimals.PrintInjective | internal/accountingrecon/snapshot.go:418-423 | two decimals that print alike are equal |
| Uuids.ReadPrint | internal/accountingrecon/snapshot.go:188-190 | an identity prints to a text that reads back as the same identity |
| Uuids.PrintInjective | internal/accountingrecon/snapshot.go:188-190 | two identities that print alike are equal |
| Timestamps.CivilOf | internal/accountingrecon/snapshot.go:397-406 | every day number has a valid civil date that counts back to it |
| Timestamps.DayOfInjective | internal/accountingrecon/snapshot.go:397-406 | two valid civil dates with the same day number are the same date |
| Timestamps.PrintInjective | internal/accountingrecon/snapshot.go:336-395 | two times print alike exactly when their wall clocks agree to the microsecond |
| Timestamps.ReadPrint | internal/accountingrecon/decode.go:63-70 | a printed UTC microsecond time reads back, to itself, exactly when its year lies in 0..9999 |
| Evidence.MetricFactKeyInjective | internal/accountingrecon/snapshot.go:186-186 | metric fact keys tell metrics apart |
| Evidence.PositionFactKeyInjective | internal/accountingrecon/snapshot.go:188-190 | position fact keys tell instruments apart |
| Evidence.FactKeysDisjoint | internal/accountingrecon/snapshot.go:186-190 | no metric fact key is a position fact key |
| Snapshots.CollectMetrics | internal/accountingrecon/snapshot.go:233-246 | accepts exactly the valid, duplicate-free metric lists and returns them sorted with the set of their keys |
| Snapshots.CollectPositions | internal/accountingrecon/snapshot.go:247-262 | accepts exactly the valid, duplicate-free position lists and returns them sorted with the set of their keys |
| Snapshots.CollectMissing | internal/accountingrecon/snapshot.go:264-281 | accepts exactly the valid, duplicate-free missing facts that are not also present, and returns them sorted |
| Snapshots.CollectFacts | internal/accountingrecon/snapshot.go:233-281 | accepts exactly the consistent fact lists: unique keys, present and missing disjoint |
| Snapshots.NewSnapshot | internal/accountingrecon/snapshot.go:192-295 | the constructor accepts exactly the admissible inputs and returns the canonical snapshot of the input |
| Snapshots.OrderIndependent | internal/accountingrecon/snapshot.go:233-281 | permuting metrics, positions or missing facts changes neither acceptance nor the snapshot |
| Snapshots.BuildCanonical | internal/accountingrecon/snapshot.go:233-294 | a built snapshot is sorted, duplicate-free and present/missing-disjoint, and rebuilding it gives it back |
| Snapshots.ValidateExact | internal/accountingrecon/snapshot.go:297-334 | a snapshot validates if and only if it is what the constructor rebuilds from its own fields |
| Snapshots.BuildValidates | internal/accountingrecon/snapshot.go:297-334 | every constructor output validates |
| Snapshots.PayloadDetermines | internal/accountingrecon/snapshot.go:336-395 | two validating snapshots with the same payload are the same snapshot |
| Comparisons.OutcomeExists | internal/accountingrecon/comparison.go:307-337 | a fact can be classified unless an explanation is given for one that is missing or equal |
| Comparing.ValidateExplanations | internal/accountingrecon/comparison.go:339-360 | accepts exactly the valid, unique explanations and indexes them by fact key |
| Comparing.CompareMetrics | internal/accountingrecon/comparison.go:183-192 | collects the outcome of each required metric once, or fails because some fact has no outcome |
| Comparing.ComparePositions | internal/accountingrecon/comparison.go:194-228 | collects, in any map order, the outcome of each position held on either side once, a covered absence reading as zero |
| Comparing.CompareMissing | internal/accountingrecon/comparison.go:230-244 | collects, in any map order, the outcome of each declared missing fact that is not yet there |
| Comparing.CompareFacts | internal/accountingrecon/comparison.go:183-250 | together the three loops collect the outcome of every fact exactly once |
| Comparing.SortCollected | internal/accountingrecon/comparison.go:251-251 | sorting the collected results gives the outcomes of all facts in key order, whatever order they were collected in |
| Comparing.Compare | internal/accountingrecon/comparison.go:127-276 | succeeds on exactly the comparable inputs and returns the one canonical run of the input |
| ComparisonLaws.EachFactOnce | internal/accountingrecon/comparison.go:183-250 | every required metric, held position and declared missing fact appears exactly once, in key order, with the status its two values call for |
| ComparisonLaws.CountsPartition | internal/accountingrecon/comparison.go:252-265 | the four counts are the numbers of results of each status and partition the results; the explained facts are exactly the explained keys |
| ComparisonLaws.ExplanationsReviewed | internal/accountingrecon/comparison.go:339-360 | every explanation in a run is by a reviewer other than the generator, between both observations and the generation time |
| ComparisonLaws.AllEqualExactly | internal/accountingrecon/comparison.go:194-228 | with full coverage all results are equal if and only if the metrics agree and both lists denote the same quantity function, absent meaning zero |
| RunValidation.RunOrderIndependent | internal/accountingrecon/comparison.go:339-360 | permuting the explanations changes neither acceptance nor the run |
| RunValidation.ValidateRun | internal/accountingrecon/comparison.go:278-305 | the validator accepts exactly the runs that rebuild to the same payload, identity and counts |
| RunValidation.RunValidateExact | internal/accountingrecon/comparison.go:278-305 | a run validates if and only if it is what Compare rebuilds from it, except that as-of time and mark age need only print alike |
| RunValidation.BuiltRunValidates | internal/accountingrecon/comparison.go:278-305 | every run Compare builds validates, and rebuilding it gives it back |
| RunValidation.AttachedExplanations | internal/accountingrecon/comparison.go:289-294 | the explanations attached to the results are, with multiplicity, the ones supplied |
| RunValidation.ValidateDetermines | internal/accountingrecon/comparison.go:278-305 | a validating run is wholly determined by rebuilding if and only if its as-of time is a UTC microsecond and its mark age a whole number of microseconds |
| RunValidation.AnyAsOfThatPrintsAlike | internal/accountingrecon/comparison.go:362-427 | any as-of time that prints like the original still validates |
| RunValidation.AnyMarkAgeThatPrintsAlike | internal/accountingrecon/comparison.go:362-427 | any mark age of the same whole microseconds still validates |
| RunValidation.ValidateMissesDrift | internal/accountingrecon/comparison.go:278-305 | a run moved by a nanosecond, or by an hour into a zone an hour ahead, still validates, and the latter may change its UTC day |
| RunValidation.RunPayloadDetermines | internal/accountingrecon/comparison.go:362-427 | two validating runs with those two fields pinned and the same payload are equal up to attestation |
| Decoding.DecodeSnapshot | internal/accountingrecon/decode.go:14-109 | decoding returns exactly the snapshot whose fields the payload spells and which rebuilds to that payload |
| Decoding.SnapshotRoundTrip | internal/accountingrecon/decode.go:14-109 | a validating snapshot decodes to itself if and only if its years lie in 0..9999, and is refused otherwise |
| Decoding.SnapshotDecodeSound | internal/accountingrecon/decode.go:101-109 | whatever decodes validates and has that payload |
| Decoding.SnapshotDecodeExact | internal/accountingrecon/decode.go:14-109 | a payload decodes if and only if it is that of some validating snapshot with readable years |
| Decoding.DecodeRun | internal/accountingrecon/decode.go:111-176 | decoding returns exactly the run that Compare rebuilds from the payload and that has that payload |
| Decoding.RunRoundTrip | internal/accountingrecon/decode.go:111-176 | a run Compare builds decodes to itself if and only if its as-of year is not negative and its generation year is at most 9999 |
| Decoding.RunDecodeSound | internal/accountingrecon/decode.go:168-176 | whatever run decodes validates and has that payload |
| Decoding.RunDecodeExact | internal/accountingrecon/decode.go:111-176 | a payload decodes if and only if it is that of the run of some comparable input with readable years |
| DecodingLimits.LateRunNotDecoded | internal/accountingrecon/decode.go:148-151 | for every account but the nil one, the run of a comparison on any day from year 10000 on is built but not decoded |
| CutoverGate.NonqualifyingReason | internal/accountingrecon/gate.go:137-171 | gives no reason exactly for runs that validate, are real, fully covered, without open differences, and attested |
| CutoverGate.ValidResults | internal/accountingrecon/gate.go:137-171 | the results and counts of a validating run are those of its rebuilt comparison |
| CutoverGate.NothingOpen | internal/accountingrecon/gate.go:147-166 | with both open counts zero every result of a validating run is equal or carries a review, and no required metric is left out |
| CutoverGate.JudgeDay | internal/accountingrecon/gate.go:92-117 | a day is chosen exactly when it has one uncontested piece of evidence that qualifies, else the reason says which part failed |
| CutoverGate.GroupByDay | internal/accountingrecon/gate.go:73-88 | groups the runs by UTC day in input order; a run after the through date or the last completed day is a reason |
| CutoverGate.SelectDays | internal/accountingrecon/gate.go:90-117 | no reason is given exactly when every day of the window holds, and then one run per day is selected, oldest first |
| CutoverGate.EvaluateCutover | internal/accountingrecon/gate.go:38-135 | ready exactly when no reason is given, exactly when every day of the window has an uncontested qualifying run, nothing is later and one policy holds; the run identities are the chosen ones in day order |
| GateLaws.QualifiedAccounts | internal/accountingrecon/gate.go:137-171 | a qualifying run accounts for every fact: equal, or explained by a reviewer who is not the generator, inside the evidence window |
| GateLaws.ReadyEvidence | internal/accountingrecon/gate.go:90-135 | readiness gives each of the consecutive days a qualifying run of that UTC day, one account and policy throughout, every fact accounted for, nothing later |
| GateLaws.ReadyForFewerDays | internal/accountingrecon/gate.go:90-135 | ready for n days implies ready for every m from 1 to n |
| GateLaws.ReadinessStable | internal/accountingrecon/gate.go:73-135 | for recent runs that validate and are pinned, readiness and the chosen identities survive reordering, duplication, any change to older runs and any sort |
| GateTies.FavouringIsSort | internal/accountingrecon/gate.go:98-98 | breaking ties in favour of any given runs is still sorting by printed identity |
| GateTies.ReadyForSomeSort | internal/accountingrecon/gate.go:73-135 | some sort makes the gate ready if and only if the request is in order, nothing is late, each day is uncontested and one qualifying run a day can be picked under one policy |
| GateTies.ReadyForEverySort | internal/accountingrecon/gate.go:73-135 | every sort makes the gate ready if and only if, beyond that, all candidates qualify and candidates of different days share one policy |
| GateTies.StabilityExact | internal/accountingrecon/gate.go:73-135 | readiness and the chosen identities survive reordering, duplication, any change to older runs and any sort if and only if being ready for some sort already meets the condition for every sort |
| GateTies.TieDecidesReadiness | internal/accountingrecon/gate.go:98-99 | over two days of validating runs, with a copy of the second whose mark age differs below the microsecond, favouring the run opens the gate and favouring the copy keeps it closed |
| GateTies.ValidRunsNotStable | internal/accountingrecon/gate.go:73-135 | every account but the nil one has, at every day after 0001-01-01, a request of validating runs only whose readiness the sort decides |
| Sources.TotalsConserve | internal/accountingrecon/source.go:99-130 | no legacy quantity is lost: each instrument total is the exact sum of the positions that resolve to it |
| Sources.CapturePositions | internal/accountingrecon/source.go:99-130 | succeeds exactly when every position is readable, and reports totals, gaps and completeness |
| Sources.ListPositions | internal/accountingrecon/source.go:131-134 | listing the totals in any map order gives the same positions |
| Sources.CaptureLegacy | internal/accountingrecon/source.go:67-158 | a legacy capture succeeds on exactly the leased, readable, admissible data and is the canonical snapshot of it |
| Sources.CaptureLedger | internal/accountingrecon/source.go:174-235 | a ledger capture succeeds on exactly the leased, verified, admissible projection and is the canonical snapshot of it |
| FailClosed.AtLeastFourNotComparable | internal/accountingrecon/source.go:101-105 | any run over a legacy capture and a ledger capture has at least four not-comparable facts |
| FailClosed.NeverQualifies | internal/accountingrecon/source.go:101-105 | no such run ever qualifies, whatever the verifier |
| FailClosed.GateStaysClosed | internal/accountingrecon/gate.go:38-135 | no set of such runs makes the gate ready, for any window, clock, verifier or sort |
| GateOpens.AgreementQualifies | internal/accountingrecon/gate.go:137-171 | an attested comparison of two real, fully covered captures that agree qualifies |
| GateOpens.AgreementOpensGate | internal/accountingrecon/gate.go:38-135 | agreements on n consecutive days under one policy, all attested, make the gate ready for n days, whatever the sort |
| SampleEvidence.SampleComparable | internal/accountingrecon/comparison.go:127-276 | every account but the nil one has two fully covered, agreeing captures on every day but 0001-01-01 that can be compared |
| GateOpens.AgreementExists | internal/accountingrecon/comparison.go:127-276 | every account but the nil one has such an agreement on every day after 0001-01-01, where lower-casing keeps a plain letter |
| CaptureRuns.CaptureBoth | internal/accountingrecon/runner.go:77-107 | both captures are taken in order and held by the lease, or some check failed |
| CaptureRuns.RunDual | internal/accountingrecon/runner.go:57-125 | every path that obtains a lease releases it; storing happens at most once, after a release that succeeded, with the comparison of two captures the lease held |
| CaptureRuns.EndingDisciplined | internal/accountingrecon/runner.go:72-76 | a release is repeated only after a failed one, and nothing is captured after a release |
| CaptureRuns.CapturesInsideLease | internal/accountingrecon/runner.go:77-107 | if a lease never reactivates, both captures lie inside its active period |
| CaptureRuns.StoredCarriesLease | internal/accountingrecon/runner.go:127-146 | the stored run validates and carries the fence identity, epoch and account of the lease |
| BrokerRows.ApplyOrderSnapshot | internal/automation/alpaca_reconciliation.go:654-710 | brings an order up to its snapshot, keeping quantities that read the same in storage, and reports a change exactly when one was made |
| BrokerRows.ApplyPositionSnapshot | internal/automation/alpaca_reconciliation.go:712-739 | brings a position up to its snapshot and reports a change exactly when one was made |
| BrokerRows.DiffOrderExact | internal/automation/alpaca_reconciliation.go:798-837 | the verifier finds nothing to report on an order exactly when the importer would change nothing but its strategy |
| BrokerRows.ApplyOrderIdempotent | internal/automation/alpaca_reconciliation.go:654-710 | applying an order snapshot twice is applying it once |
| BrokerRows.NewOrderSettled | internal/automation/alpaca_reconciliation.go:611-628 | a newly created order needs no update |
| BrokerRows.CountLegacyKeys | internal/automation/alpaca_reconciliation.go:752-758 | counts how many fills share each execution key |
| LocalStores.ListAll | internal/automation/alpaca_reconciliation.go:593-609 | paging returns the whole listing, nothing twice and nothing left out, exactly when every page it asks for can be read; otherwise nothing |
| Imports.UpdateKeeps | internal/automation/alpaca_reconciliation.go:305-314 | updating a row to one that settles alike does not change where the import leads |
| Imports.CreateKeeps | internal/automation/alpaca_reconciliation.go:316-322 | adding the next listed row that is missing does not change where the import leads |
| Imports.DoneExact | internal/automation/alpaca_reconciliation.go:300-365 | an import has nothing left to do exactly when every row is settled and every listed key has its row |
| Imports.RetireRow | internal/automation/alpaca_reconciliation.go:347-365 | closing a row nothing arrived for does not change where the import leads |
| OrderImports.LoadOrders | internal/automation/alpaca_reconciliation.go:251-265 | the order index is the last non-blank row per broker identity, or nothing exactly when a page could not be read |
| OrderImports.OrderIndexExact | internal/automation/alpaca_reconciliation.go:251-265 | with one row per identity the index knows exactly the tracked orders |
| PositionImports.LoadPositions | internal/automation/alpaca_reconciliation.go:267-281 | the position index is the last managed open row per ticker, or nothing exactly when a page could not be read |
| OrderImports.ImportOrders | internal/automation/alpaca_reconciliation.go:300-322 | whatever writes fail, the orders still lead where they led; a stage that succeeds is there; a stage that starts there writes nothing |
| PositionImports.PositionIndexExact | internal/automation/alpaca_reconciliation.go:267-281 | with one row per ticker the index knows exactly the managed open positions |
| PositionImports.ImportPositions | internal/automation/alpaca_reconciliation.go:324-345 | the same for creating and updating positions |
| PositionImports.ClosePositions | internal/automation/alpaca_reconciliation.go:347-365 | closing in any map order keeps the goal, and leaves open exactly the tickers the broker holds |
| PositionImports.PositionCloseFacts | internal/automation/alpaca_reconciliation.go:355-359 | a closed position has its unrealized profit moved into the realized one and is never closed again |
| TradeImports.KeysApart | internal/automation/alpaca_reconciliation.go:741-767 | under the two-level keys no key belongs to two fills |
| TradeImports.TradeKeepsFinal | internal/automation/alpaca_reconciliation.go:370-409 | making an outstanding trade does not change the trades the import leads to |
| TradeImports.TradesStableExact | internal/automation/alpaca_reconciliation.go:370-409 | the stage has nothing to do exactly when every fill is matched by one of its keys |
| TradeImports.FaithfulNext | internal/automation/alpaca_reconciliation.go:405-407 | the keys held in memory keep answering for every fill as the table would |
| TradeImports.LoadTradeKeys | internal/automation/alpaca_reconciliation.go:283-298 | the known keys are exactly those of the stored trades, or nothing exactly when a page could not be read |
| TradeImports.ImportFills | internal/automation/alpaca_reconciliation.go:367-409 | for any order of the fills: every trade made is for a fill and points to its order; the goal is kept at every write and reached on success; no write if already there |
| Reconciler.FinalExact | internal/automation/alpaca_reconciliation.go:219-416 | the books are final exactly when no stage has anything to do |
| Reconciler.Import | internal/automation/alpaca_reconciliation.go:300-409 | the four stages in order: whatever writes fail the books still lead where they led, success reaches the end, and from the end nothing is written |
| Reconciler.Reconcile | internal/automation/alpaca_reconciliation.go:219-416 | whatever writes fail, the books still lead where they led; on success they are there, with exactly the broker's tickers open; from there nothing is written; every new trade points to its fill's order; if a listing cannot be read nothing is written at all |
| Reconciler.RestartSafe | internal/automation/alpaca_reconciliation.go:219-416 | after any number of attempts interrupted by failed reads or writes, running to completion leaves the books of an uninterrupted run, up to closing times and what trades point to |
| ReconcileVerifier.VerifyOrders | internal/automation/alpaca_reconciliation.go:497-507 | reports nothing exactly when every broker order is found and agrees |
| ReconcileVerifier.VerifyPositions | internal/automation/alpaca_reconciliation.go:509-519 | reports nothing exactly when every broker position is found and agrees |
| ReconcileVerifier.VerifyFills | internal/automation/alpaca_reconciliation.go:521-539 | reports nothing exactly when every fill finds a trade, by its first key or else its second, that agrees |
| ReconcileVerifier.Verify | internal/automation/alpaca_reconciliation.go:427-555 | verified exactly when every order, position and fill of the broker is found and agrees; a report is made exactly when the listings could be read, and succeeds when its event is also stored |
| ReconcileVerifier.FillOkExact | internal/automation/alpaca_reconciliation.go:856-880 | a matched fill passes exactly when the trade under its own identity agrees; a trade without identity never passes |
| ReconcileVerifier.VerifiedExact | internal/automation/alpaca_reconciliation.go:427-555 | final books verify if and only if the trades that were already there are clean |
| VerifierLimits.StandInFailsVerification | internal/automation/alpaca_reconciliation.go:856-858 | final books whose one fill is matched by a trade without an external identity do not verify |
| ReconcileVerifier.NamedTradesAreClean | internal/automation/alpaca_reconciliation.go:856-858 | trades are clean when each has an external identity and one sharing a fill's identity agrees with it |
| ReconcileVerifier.ReconcileThenVerify | internal/automation/alpaca_reconciliation.go:219-555 | after a successful reconciliation the verifier is satisfied if and only if the earlier trades were clean, and a second reconciliation writes nothing |
| ExecutionGates.CanonicalSignal | internal/agent/runner.go:853-865 | a given final signal wins; otherwise the plan's action counts, or hold when that is missing too |
| ExecutionGates.ValidPlanExact | internal/agent/risk_overrides.go:115-155 | an actionable plan passes exactly when ticker, confidence, size, positive ordered levels and a reward of at least one and a half risks all hold |
| ExecutionGates.PipelineState.RunGate | internal/agent/runner.go:522-545 | after the gate an action is a plan that passes on the confidence of the signal that counts; otherwise the gate falls back to hold with nothing to trade |
| ExecutionGates.OrderKeptExactly | internal/agent/risk_overrides.go:45-71 | overriding an ordered plan keeps its order if and only if every given multiplier is positive |
| ExecutionGates.RiskRewardExact | internal/agent/risk_overrides.go:45-71 | after positive multipliers risk/reward holds if and only if the scaled distances do, a level below the entry stopping at zero |
| ExecutionGates.BuyKeepsRiskReward | internal/agent/risk_overrides.go:45-71 | a buy keeps its risk/reward when the target multiplier is at least the stop multiplier |
| ExecutionGates.SellMayLoseRiskReward | internal/agent/risk_overrides.go:67-68 | a sell that passes can fall below the minimum risk/reward under equal multipliers, because its target stops at zero |
| ExecutionGates.RunResult.AdjustTargets | internal/agent/risk_overrides.go:45-71 | moves each level by its multiplier on the side the signal needs |
| ExecutionGates.RunResult.ApplyOverrides | internal/agent/risk_overrides.go:77-98 | too little confidence means hold with nothing to trade; a plan that passed the gate keeps its order exactly when the multipliers are positive |
| RunLogs.OthersUntouched | internal/agent/runner.go:238-520 | the writes of one run leave the row and events of every other run alone |
| RunLogs.AuditableExtends | internal/agent/runner.go:238-520 | a run that stays auditable keeps the whole store auditable |
| RunLogs.QueueNext | cmd/tradingagent/prod_strategy_runner.go:1985-1987 | queueing for a run already stored as completed with its event keeps the queue law |
| AgentRuns.RunPhases | internal/agent/runner.go:374-447 | phases write progress events only, and a run that passes them with the gate on has a plan that passes |
| AgentRuns.Finish | internal/agent/runner.go:449-520 | the terminal writes are one of the four endings of the protocol |
| AgentRuns.EndingExact | internal/agent/runner.go:449-520 | an ending that succeeds leaves a completed row and its event; a completed row without its event is left exactly when the completion was stored but reported as failed, or event and repair were both lost |
| AgentRuns.CompletionMayLackEvent | internal/agent/runner.go:451-477 | a run whose completion was stored but reported as failed is left completed without its completion event |
| AgentRuns.EndingAuditable | internal/agent/runner.go:449-520 | whatever the store held, an ending keeps every completed row audited or excused |
| AgentRuns.RunStarted | internal/agent/runner.go:345-520 | the phases and terminal writes of a run whose row exists |
| AgentRuns.Run | internal/agent/runner.go:238-520 | no error only if completed status and completion event are both stored; exactly when a completed row lacks its event; auditability of the whole store is kept |
| NativeRuns.StartNativeRun | cmd/tradingagent/prod_strategy_runner.go:862-919 | the writes of a start: row, event, and a repair if the event fails |
| NativeRuns.StartingExact | cmd/tradingagent/prod_strategy_runner.go:862-919 | starting never completes a run; a start that succeeds leaves a running row and its start event |
| NativeRuns.CompleteNativeRun | cmd/tradingagent/prod_strategy_runner.go:921-977 | the writes of a completion: status, event, and a repair if a completed status lost its event |
| NativeRuns.NativeEndingExact | cmd/tradingagent/prod_strategy_runner.go:921-977 | a completion that succeeds leaves status, signal and event; a completed row without its event is left in exactly the two ways the repair cannot see |
| NativeRuns.NativeCompletionMayLackEvent | cmd/tradingagent/prod_strategy_runner.go:943-948 | a native run whose completion was stored but reported as failed is left completed without its completion event |
| NativeRuns.NativeEndingAuditable | cmd/tradingagent/prod_strategy_runner.go:921-977 | a completion keeps every completed row audited or excused |
| NativeRuns.RecordOpportunity | cmd/tradingagent/prod_strategy_runner.go:1972-2014 | an opportunity is queued only for a run held as completed with the same actionable signal |
| NativeRuns.RunKalshi | cmd/tradingagent/prod_strategy_runner.go:742-860 | a run that succeeds is stored as completed with the decided signal and its event; if that is not hold, it was acted on and the orders and positions read back; nothing is ever queued before completion; both laws hold across all runs |
| TokenBuckets.Limiter.constructor | internal/api/auth.go:127-137 | a limiter starts empty |
| TokenBuckets.Limiter.EvictIdle | internal/api/auth.go:178-191 | forgets exactly the buckets idle for two windows, when a cleanup is due |
| TokenBuckets.Limiter.Allow | internal/api/auth.go:140-176 | one call takes the limiter from state to state as the bucket rule says |
| TokenBuckets.Limiter.Serve | internal/api/auth.go:140-191 | serving calls one after the other gives the answers the bounds are about |
| TokenBuckets.EvictionInvisible | internal/api/auth.go:140-191 | with a clock that does not go back, eviction never changes an answer, whatever the limits |
| TokenBuckets.AdmittedWithinLevel | internal/api/auth.go:150-175 | from any moment a key is admitted at most its level plus the refill of the span |
| TokenBuckets.LimiterBound | internal/api/auth.go:140-176 | in any stretch of calls a key is admitted at most limit + limit * span / window times |
| FixedWindows.Limiter.constructor | internal/api/middleware.go:144-151 | a limiter starts empty |
| FixedWindows.Limiter.EvictExpired | internal/api/middleware.go:155-161 | forgets exactly the windows that have run out |
| FixedWindows.Limiter.Allow | internal/api/middleware.go:165-182 | one call takes the limiter from state to state as the window rule says |
| FixedWindows.Limiter.Serve | internal/api/middleware.go:155-182 | serving calls one after the other gives the answers the bounds are about |
| FixedWindows.EvictionInvisible | internal/api/middleware.go:155-182 | with a clock that does not go back, eviction never changes an answer, whatever the limit |
| FixedWindows.AdmittedInSpan | internal/api/middleware.go:165-182 | within one window's length a key is admitted at most what is left of its window plus one fresh window |
| FixedWindows.LimiterBound | internal/api/middleware.go:165-182 | in any stretch no longer than a window a key is admitted at most twice the limit |
| FixedWindows.NonPositiveLimitStillAdmits | internal/api/middleware.go:176-179 | a limit of zero or less still admits the call that opens a window |
| HistoricalRuns.ComesBeforeTransitive | internal/api/backtest_comparison.go:399-404 | newest first, greatest identity first among equal times, is transitive |
| HistoricalRuns.Search | internal/api/backtest_comparison.go:219-221 | binary search finds the first place whose run the new one comes before |
| HistoricalRuns.AppendToWindow | internal/api/backtest_comparison.go:210-234 | keeps the first places of the window with the new run inserted |
| HistoricalRuns.TakeInsert | internal/api/backtest_comparison.go:222-231 | what falls off the bounded window can never come back |
| HistoricalRuns.SortAllSorts | internal/api/backtest_comparison.go:210-234 | the simple form is a sorted permutation of all runs |
| HistoricalRuns.NormalizeQuery | internal/api/backtest_comparison.go:236-254 | refuses exactly a reversed date range, a negative limit or offset and a window over 10000; otherwise gives the offset and the limit, 50 when none is asked for |
| HistoricalRuns.FeedConfig | internal/api/backtest_comparison.go:136-154 | feeding page by page, whatever the page size, keeps the window of the sorted whole and the exact count, and fails exactly on an unreadable run |
| HistoricalRuns.PageOfWindow | internal/api/backtest_comparison.go:406-415 | slicing the window is slicing the sorted whole |
| HistoricalRuns.QueryRuns | internal/api/backtest_comparison.go:109-161 | returns exactly the requested slice of all matching runs sorted, with the exact total |
| HistoricalRuns.ReadingOrderIrrelevant | internal/api/backtest_comparison.go:399-404 | with one run per identity the order of reading never shows in a page |
| Fingerprints.FingerprintPreview | internal/automation/jobs_kalshi_settlement.go:183-189 | collects instrument, winner and decisions into the fingerprint |
| Fingerprints.LinesInjective | internal/automation/jobs_kalshi_settlement.go:174-181 | lines joined by line breaks read back as the same lines |
| Fingerprints.FingerprintExact | internal/automation/jobs_kalshi_settlement.go:174-181 | with a collision-free hash two fingerprints agree if and only if the parts agree up to order |
| Fingerprints.PreviewExact | internal/automation/jobs_kalshi_settlement.go:183-189 | for one-line instruments, the fingerprint of a preview that cannot be confused agrees with another if and only if instrument, winner and decisions agree |
| Fingerprints.PinsExactly | internal/automation/jobs_kalshi_settlement.go:183-189 | with a collision-free hash a one-line preview is told from all others by its fingerprint if and only if its instrument is neither the losing outcome nor an identity that a decision could trade places with |
| Fingerprints.OutcomeInstrumentsConfuse | internal/automation/jobs_kalshi_settlement.go:183-189 | an instrument called YES with winner NO has the fingerprint of NO with winner YES |
| Fingerprints.IdentityInstrumentsConfuse | internal/automation/jobs_kalshi_settlement.go:183-189 | an instrument that reads as one identity, with another as its decision, has the fingerprint of the two exchanged |
| Settlement.ProjectAll | internal/automation/jobs_kalshi_settlement.go:42-88 | projects exactly the resolved markets in order, with true counts, or fails because a market or preview was unreadable |
| Settlement.SettleAll | internal/automation/jobs_kalshi_settlement.go:101-126 | markets settle in order until one has changed or fails; that one is last and its failure is put on record |
| Settlement.Run | internal/automation/jobs_kalshi_settlement.go:26-136 | settles only what an eligible gate approved by fingerprint, each settlement being of an approved entry with its winner and, up to order, its previewed decisions; otherwise succeeds only by recording the projection it saw |
| Settlement.EachSettlement | internal/automation/jobs_kalshi_settlement.go:101-126 | each settle call names a projected market, its winner and the decisions of an unchanged preview, and follows no failure |
| Settlement.SettlesApproved | internal/automation/jobs_kalshi_settlement.go:101-126 | the settlements of a pass are, in turn, those of the projected entries: ticker, winner and, with a collision-free hash, the previewed decisions up to order |
| Settlement.FailureIsLast | internal/automation/jobs_kalshi_settlement.go:101-126 | a failed pass ends with the attempt to record its failure |
| Settlement.SettlesWhatWasPreviewed | internal/automation/jobs_kalshi_settlement.go:110-118 | with a collision-free hash an unchanged preview names the same instrument and the same decisions |
| Settlement.ApprovalExact | internal/automation/jobs_kalshi_settlement.go:89-99 | the projection matches the approved fingerprint if and only if both are about the same instruments, winners and decisions, in any order |

## Left out

- JSON bytes, SHA-256 and UUID derivation: payloads are value trees and these are plain functions, assumed collision-free only where a theorem says so.
- Spellings that the standard parsers also accept (one-digit hours, upper-case or braced identities, exponents): decoding compares the rebuilt payload with the input, so they are refused either way.
- The text of error messages, logging, metrics, broadcasts and notifications: only whether an operation fails, and why where the source distinguishes it.
- Ill-formed Unicode text and monotonic clock readings.
- Floating-point rounding, NaN and negative zero: legacy floats are their shortest decimals, prices, quantities and token counts are reals.
- Attestation cryptography, authentication, routing, repositories and SQL: only the calls made on them.
- Unconfigured repositories (nil persisters and repositories): every run is given both tables.
- Panics in agent phases and goroutine scheduling: a phase succeeds or fails.
- Reconciliation summary counters, the profit-and-loss report and the provenance rule that makes a position Alpaca's own: a position carries a flag for it.
- Concurrent writers: a reconciliation's cached copy of a row always equals the stored row, so the model keeps the row's place instead.
- Reconciler.Reconcile: says nothing about where a call that is not well-formed leads (repeated or blank identities, a fill without its order, an execution key that reads as an activity key, several local rows for one key); such a call still leaves earlier trades in place.
- Random row identities: a row's identity is its place in the table, so orders and positions are compared in order of creation; trades are compared as a multiset.
- The legacy pipeline in `internal/agent/pipeline.go` and `debate_executor.go`: the same lifecycle again.
- The Polymarket tail of the native runner and the agent-run tail of the strategy runner: the same completion and queueing steps as the Kalshi run.
- The health flag and display status of the settlement gate, and how the gate counts its way to eligibility.
- LLM agents, data providers, broker clients, discovery jobs and the WebSocket hub: input and output over unseen packages.
