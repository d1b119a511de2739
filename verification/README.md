# Cash-flow effects: model and proofs

The program keeps an investor's cash in step between two places it does not own. People keep a ledger
of deposits and withdrawals, and people also edit the cash holdings themselves. A scanner turns ledger rows into
versioned *effects*, compares each holding with its confirmed baseline, and lets an operator preview and
confirm absolute holding targets, bound to a hash. Writes that fail half way are compensated, and a NAV
is only published when a gate finds nothing unresolved. This project models that workflow and proves what it keeps over
whole runs; around it, it models the caches, the calendar, the asset bridge, the batch protocol, the cash deduction and
the receipt outbox the workflow rests on.

## How it is built

Files `effect_*.dfy` hold the main core.

- `effect_model`, `effect_operations`, `effect_scan`, `effect_preview`, `effect_confirm`: the entities and, as functions
  on them, what one scan, preview, confirmation, compensation retry or finalization does to a `World` (store, ledger,
  holdings). Money is in integer cents. A hash of a payload is the payload itself. What the storage answers to a write, what a
  second read of the holdings or the ledger shows, dates, final NAVs and Futu cash are parameters of a step, so every
  theorem holds for all of them.
- `effect_store`, `effect_service`: the objects the program has, `CashFlowEffectStore`, `CashFlowScanner` and
  `CashFlowEffectService`. Their methods update tables step by step, in the loops of the source, and each is proved
  to do exactly what the function says. `effect_scan_loops` has the loop steps.
- `effect_detection`, `effect_discovery`, `effect_writes`, `effect_verdicts`, `effect_passes`, `effect_transfers`: what each
  operation answers and leaves, case by case, in terms of rows, amounts, states and holdings.
- `effect_scan_laws`, `effect_rescan`, `effect_account_rescan`, `effect_invariants`, `effect_confirm_laws`, `effect_runs`, `effect_conservation`,
  `effect_settled`, `effect_gate`, `effect_moves`, `effect_owners`, `effect_order`, `effect_recovery`: the theorems. `effect_runs` has the state
  machine: a run interleaves ledger edits, holding edits, scans, previews, confirmations, retries and finalizations in any order.
- `effect_limits`, `effect_overlap`, and parts of `effect_rescan`, `effect_moves` and `effect_owners`: where the code keeps less than its documentation says, the
  input that shows it and the exact condition.

The other files model one component each: `market_time`, `capital_facts`, `cash_service`, `write_behind`, `nav_index`,
`cash_flow_agg`, `feishu_batch`, `receipt_outbox`. `totals` and `optional` are shared vocabulary.

## Where the code and its documentation differ

The model follows the code.

- The documentation wants the operator to declare whether a non-Futu event is in the holding already, and forbids guessing from
  amounts (docs/cash-flow-holding-effects.md:421-440). The code guesses when nothing is declared. Guessing is exact for one
  identity and its chosen baseline (`DetectionIsExact`), but that baseline is the amount before the last external change, so after
  an edit that was followed by its ledger row, a second deposit of the same amount is taken for the first one and lost
  (`EqualEventIsLost`; `UnreflectedEvent` has the condition).
- The documentation lets a change of the remark alone keep a confirmed target (docs/cash-flow-holding-effects.md:355-356). In the code the
  remark is part of the hashed source, here `FlowRecord.detail`. Editing it makes an unresolved version of an applied event and closes
  the gate (`RemarkEditBlocks`); `RescanKeepsVersion` says exactly when a rescanned row leaves the newest version in place.
- Targets of an unfinished compensation are never to be taken for a manual baseline (docs/cash-flow-holding-effects.md:365-366). The scanner
  asks the last stored preview instead of the compensation. For a version that is to be applied the two always name the same
  identities (`AppliedVersionsOwnTheirTargets`). For a record-only version that was previewed for the historical apply and then
  previewed plainly they do not, and the scan moves the baseline (`PendingTargetLosesBaseline`; `OwnersOfAFailedConfirmation` and
  `PendingTargetKept` have the conditions).
- While a compensation target is unfinished, its identity is to belong to the compensation alone (docs/cash-flow-holding-effects.md:365-366). The
  code still confirms other writes to it, and loses money by it: of two equal events at one holding, when the first write fails and the second
  is confirmed in between, the retry of the first finds its target in place, and both versions are applied to a holding that moved once
  (`OverlappingWritesLoseAnEvent`). A confirmation keeps conservation iff nothing is in flight there or its delta there is zero
  (`OverlappingConfirmationLoses`); `RunSettles` accounts for what is lost over any run.
- Unexplained Futu drift is meant to block the NAV (docs/cash-flow-holding-effects.md:938-940). It does, unless the same drift was settled
  before as the newest external change: then the version is found again, settled, and nothing blocks (`FutuDriftBlocks`). Three scans get
  there: the drift, the holding back at its baseline, the same drift again (`FutuDriftHidden`).
- A repeated scan is meant to find one version per record and source (docs/cash-flow-holding-effects.md:357-358). A row without a record id is
  stored and then swept as missing by every scan (`EmptyRecordIdNeverSettles`), and two rows that share an id but not their facts make
  versions of each other for ever. `ScanTwiceExactly` has the exact condition for the whole ledger, `AccountScanTwiceExactly` for one account.
- The drift an unresolved account move explains is counted at its new identity with both deltas (`NetIsTheDeltaHere`), so an operator who
  puts the moved amount there has the edit accepted as an external change while the move is still to be applied (`MoveEditAccepted`).
- A pending account move is meant to block the old and the new account (src/app/cash_flow_effect_service.py:1245-1287). Once a scan has found it, it
  does (`MoveBlocksBoth`), and so do the official gates, found or not (`OfficialGatesBlockMoves`). A gate that reads the whole ledger and is the first
  to see the move misses it in one case: the entered account stays open while no whole-ledger scan has found the move and the raw account text
  of the row is not that account (`AppliedEditBlocks`, `FoundMoveBlocks`).
- Planned and executed deductions differ for amounts ending in half a cent (`PlanAgreesWithExecution`), and a deduction raises exactly
  when it needs all of a balance ending in half a cent, for MMF after CASH has been drained (`HalfWrittenDeduction`).
- The in-memory twin of the NAV index does not refresh the month-end, year-end, inception and last rows (`TwinDiffers`); it agrees with the
  file-backed index exactly for upserts inside the history and before the last row of their months (`TwinAgrees`).
- Closing minutes count as open to their end: CN trades until 11:31 and 15:01, HK until 12:01 and 16:01 (`ClosingMinutesAreOpen`).

## Model

| member | source | states |
|---|---|---|
| EffectModel.AddVersionKeeps | src/app/cash_flow_effect_store.py:361-436 | inserting a version keeps 1..n, distinct neighbours and a single unresolved newest version, changes no settled row and not the last applied version |
| EffectModel.SetLatestKeeps | src/app/cash_flow_effect_store.py:438-496 | a guarded update of the newest version keeps the chain rules as long as it leaves no absorbing state |
| EffectOperations.OperationsAreTheChange | src/app/cash_flow_effect_service.py:1214-1243 | the deltas of a version are, at every identity, what it holds less what the last applied version holds, also after edits of account, broker or currency |
| EffectOperations.OperationsDistinct | src/app/cash_flow_effect_service.py:1214-1243 | two deltas of one version never name the same identity |
| EffectScanLaws.ScanTwice | src/app/cash_flow_effect_service.py:422-548 | with unique record ids, a second scan of unchanged inputs, of the whole ledger or of one account, counts nothing and changes no version, state, deferral or baseline |
| EffectRescan.ScanTwiceExactly | src/app/cash_flow_effect_service.py:422-548 | a whole-ledger scan is idempotent iff, outside compensation, every row has a record id and rows that share one have the same facts |
| EffectAccountRescan.AccountScanTwiceExactly | src/app/cash_flow_effect_service.py:422-548 | a scan of one account is idempotent iff every row's record is in compensation, settles, is out of the account's sight, or is taken out of it by its rows |
| EffectRescan.EmptyRecordIdNeverSettles | src/app/cash_flow_effect_service.py:438-548 | from any store and holdings, every whole-ledger scan of a ledger with an id-less row counts a deletion, unless its record is in compensation |
| EffectRescan.RowStaysSettled | src/app/cash_flow_effect_service.py:438-506 | a row whose record is in compensation, or whose duplicates have its facts, is settled by the ledger pass whatever rows follow it |
| EffectScanLaws.LedgerTwice | src/app/cash_flow_effect_service.py:438-548 | where the first passes settled the rows, a second pass over ledger and deletions finds nothing to do, whatever the holdings pass did in between |
| EffectScanLaws.ReconcileAtTwice | src/app/cash_flow_effect_service.py:642-860 | after a reconciliation every identity finds itself settled, although owners and nets are read again |
| EffectDiscovery.ScannedRowExactly | src/app/cash_flow_effect_service.py:438-506 | what the ledger loop makes of any row and record, and how it counts it |
| EffectDiscovery.IncompleteRowIsBlocked | src/app/cash_flow_effect_service.py:452-478 | a row that lacks a completed fact leaves a blocked version of a new or differing record |
| EffectDiscovery.IncompleteRowBlocks | src/app/cash_flow_effect_service.py:1269-1287 | such a row closes the gate of its account for every NAV date |
| EffectDiscovery.GoneRecordExactly | src/app/cash_flow_effect_service.py:508-548 | what a scan makes of a record that is gone: nothing outside the account or when deleted already, remembered in compensation, else a deletion as the newest version, to be applied iff the event was |
| EffectDiscovery.ScanCounts | src/app/cash_flow_effect_service.py:422-555 | the four counters of a scan are the rows added, the rows and holdings changed, the records gone and the incomplete rows seen |
| EffectDiscovery.ReconciledExactly | src/app/cash_flow_effect_service.py:700-860 | what becomes of the external changes of a holding: left, settled, accepted outside Futu, waiting in Futu, or remembered in compensation |
| EffectDiscovery.ExplainedExactly | src/app/cash_flow_effect_service.py:662-699 | the drift ledger effects explain at a holding: the change of amount of every record that waits there, none if no record does |
| EffectDiscovery.AccountScanLeavesHoldings | src/app/cash_flow_effect_service.py:630-645 | a scan of one account leaves baselines and external changes of others alone |
| EffectDiscovery.AccountScanLeavesRecords | src/app/cash_flow_effect_service.py:444-450 | and records that neither are in the account nor named by it |
| EffectDiscovery.ScanObserves | src/app/cash_flow_effect_service.py:690-699 | a scan observes every holding of its scope, also those gone |
| EffectScanLaws.DiscoveryTimeDoesNotMatter | src/app/cash_flow_effect_service.py:465-478 | a due row gives the same record whether first seen now or while still scheduled |
| EffectScanLaws.DeletionTakesBack | src/app/cash_flow_effect_service.py:508-548 | a vanished record is to be applied exactly when it was applied, and then takes back at every identity what it holds; otherwise it is only recorded |
| EffectPreview.DetectionIsExact | src/app/cash_flow_effect_service.py:1398-1493 | for one operation, already_reflected iff the holding is the chosen baseline plus the event, else apply_delta iff it is the baseline, else a refusal |
| EffectPreview.DetectedTargetIsBaselinePlusEvent | src/app/cash_flow_effect_service.py:1554-1700 | on the detected path a successful preview targets the chosen baseline plus the event |
| EffectPreview.FlowPreviewTargets | src/app/cash_flow_effect_service.py:1495-1774 | a ledger preview is bound to the version's source, targets no identity twice, starts from fresh holdings, and its deltas are the change from the last applied version |
| EffectPreview.FutuTargetsAreQuoted | src/app/cash_flow_effect_service.py:1336-1372 | every Futu target is the authoritative cash of its own identity |
| EffectDetection.BaselineIsTheConfirmed | src/app/cash_flow_effect_service.py:1451-1464 | without an external change an event is compared with the confirmed holding |
| EffectDetection.BaselineIsFromBefore | src/app/cash_flow_effect_service.py:1451-1464 | with one it is compared with the amount from before the newest change, or with the confirmed holding when that is not known |
| EffectDetection.EditedHoldingKeepsBaseline | src/app/cash_flow_effect_service.py:784-832 | a scan that accepts an edit confirms the edited holding and keeps the amount from before as the baseline of events |
| EffectDetection.DetectionOfSeveral | src/app/cash_flow_effect_service.py:1398-1493 | over any number of identities: already_reflected iff every touched one has a baseline, some one holds it plus its delta and none still holds it; apply_delta the other way round; a refusal in every other case |
| EffectDetection.MoveDetection | src/app/cash_flow_effect_service.py:1398-1493 | for the two identities of a move, the answer by baselines, holdings and amounts alone |
| EffectDetection.OperationsOfAMove | src/app/cash_flow_effect_service.py:1214-1243 | one operation unless the event moves, and never an operation of amount zero in a move |
| EffectDetection.FlowPreviewExactly | src/app/cash_flow_effect_service.py:1495-1774 | exactly which ledger previews succeed, and the target of each operation: identity, before value, amount, delta, origin and quote |
| EffectDetection.TargetsInOrder | src/app/cash_flow_effect_service.py:1583-1586 | targets come in the order of account, broker and currency |
| EffectDetection.LessIsLexical | src/app/cash_flow_effect_service.py:1583-1586 | that order compares texts by their first difference |
| EffectDetection.NoNegativeTargets | src/app/cash_flow_effect_service.py:1660-1690 | outside Futu no preview targets a negative amount that the holding has not already |
| EffectDetection.DriftPreviewExactly | src/app/cash_flow_effect_service.py:1610-1655 | the preview of an external change: the Futu quote, an accepted change without target, or the amount from before |
| EffectTransfers.MoveEnds | src/app/cash_flow_effect_service.py:1554-2200 | a found move, from its preview through the confirmation: the old amount leaves one holding, the new one enters the other, both are baselines, nothing else changes; whether nobody or the operator had touched both holdings |
| EffectTransfers.HalfDoneMoveIsRefused | src/app/cash_flow_effect_service.py:1487-1545 | a move done by hand in one of its two holdings is refused, blocked and not written |
| EffectVerdicts.FindRowIsFirst | src/app/cash_flow_effect_service.py:947-957 | the row the source check uses is the first one of the record |
| EffectVerdicts.RefreshExactly | src/app/cash_flow_effect_service.py:934-1033 | the source check: unchanged, remembered in compensation, or a correction with the state and mode a scan or a deletion gives |
| EffectVerdicts.RefreshTakesBack | src/app/cash_flow_effect_service.py:959-1010 | a row that vanishes while its event is applied becomes a deletion that takes back at every identity what was applied |
| EffectVerdicts.RefreshOfDrift | src/app/cash_flow_effect_service.py:934-939 | external changes are not checked against the ledger |
| EffectVerdicts.PreviewExactly | src/app/cash_flow_effect_service.py:1776-1834 | what a preview leaves of its version in every case: previewed with its targets, blocked, corrected or untouched |
| EffectVerdicts.PreviewableExactly | src/app/cash_flow_effect_service.py:1495-1533 | which versions can be previewed, and that a record-only one gives an empty preview |
| EffectVerdicts.WritesOnlyGuarded | src/app/cash_flow_effect_service.py:1868-2048 | a holding is written only for a previewed newest version, the current hash, the source in the ledger, a final NAV before it, unchanged holdings and locked accounts |
| EffectVerdicts.WhichVerdict | src/app/cash_flow_effect_service.py:1868-2048 | exactly when a confirmation answers that the source moved, that the hash is stale, that the version is kept, and exactly when it writes; else it refuses |
| EffectVerdicts.VerdictMeans | src/app/cash_flow_effect_service.py:1868-2211 | what each answer of a confirmation leaves of the chain |
| EffectVerdicts.OldVersionsRefused | src/app/cash_flow_effect_service.py:1878-1885 | a confirmation of a version that is not the newest changes nothing |
| EffectVerdicts.ConfirmFollowsPreview | src/app/cash_flow_effect_service.py:1868-2211 | a confirmation right after its preview does what was previewed: kept, refused before a final NAV, applied, or compensating with the writes up to the first failure |
| EffectConfirmLaws.ConfirmWritesThePreview | src/app/cash_flow_effect_service.py:1868-2211 | a holding is written only for the current hash and fresh before values; success puts every target and baseline in place and moves nothing else; failure records all targets and leaves exactly a confirmed prefix |
| EffectConfirmLaws.ConfirmKeeps | src/app/cash_flow_effect_service.py:1868-2211 | a confirmation changes one chain, legally, and applies exactly its newest version or none |
| EffectConfirmLaws.OnlyDueRowsArePreviewed | src/app/cash_flow_effect_service.py:228-252 | a newly discovered complete row is previewed for writing only on or after the cutover, not in the future, and behind a final NAV |
| EffectInvariants.CommitScanKeeps | src/app/cash_flow_effect_service.py:422-548 | a scan changes every chain legally and leaves every record's last applied version |
| EffectInvariants.PreviewQuiet | src/app/cash_flow_effect_service.py:1776-1834 | a preview changes one chain, legally, and applies nothing |
| EffectInvariants.WriteTargetsPrefix | src/app/cash_flow_effect_service.py:2049-2147 | the write loop leaves a confirmed prefix reading back, at most the failed target changed beyond it, nothing else touched |
| EffectInvariants.RetryTargetsPrefix | src/app/compensation_service.py:231-320 | the same for the retry of recorded absolute targets |
| EffectWrites.WritesExactly | src/app/cash_flow_effect_service.py:2049-2081 | the write loop: targets in order up to the first failure, each keeping its record or getting the new one |
| EffectWrites.RetryStopsAtConflict | src/app/compensation_service.py:559-570 | a target whose holding is neither as before nor in place is left as it is, not confirmed, and no later target is written |
| EffectWrites.RetryKeepsMatches | src/app/compensation_service.py:559-563 | what is in place is not written again |
| EffectWrites.RetryConfirmsMatches | src/app/compensation_service.py:559-563 | and it is confirmed without a write, whatever the storage would answer |
| EffectWrites.RetryConfirmsAll | src/app/compensation_service.py:262-276 | without a conflict a retry whose writes succeed confirms every target |
| EffectWrites.RetryWritesOnlyTargets | src/app/compensation_service.py:571-590 | every holding a retry changes is a target put in place, or what its failed write left |
| EffectWrites.RetryRefusesHandEdits | src/app/compensation_service.py:231-320 | a hand edit of a pending target survives every retry, which leaves the task unresolved |
| EffectWrites.RetryResolves | src/app/compensation_service.py:231-320 | without such an edit a retry whose writes succeed resolves the task with every target in place |
| EffectWrites.RetryTouchesOnlyTargets | src/app/compensation_service.py:231-320 | a retry changes no other holding and none that is in place |
| EffectWrites.FinalizeExactly | src/app/cash_flow_effect_service.py:2225-2273 | which baselines a finalization confirms, and that it applies the version iff every target reads back |
| EffectWrites.FinalizeNothing | src/app/cash_flow_effect_service.py:2225-2236 | without a resolved task of the newest version a finalization changes nothing |
| EffectWrites.PrintsExactly | src/app/cash_flow_effect_store.py:800-841 | confirming targets sets their baselines to what was read back and no other |
| EffectRuns.RunKeeps | src/app/cash_flow_effect_store.py:361-496 | the version-chain invariant holds in every reachable state, and rows, sources and absorbing states survive any run |
| EffectRuns.NeverAppliedTwice | src/app/cash_flow_effect_service.py:1985-2048 | once a reachable state has a version applied, by a confirmation or a finalized compensation, no later confirmation or retry of it writes a holding |
| EffectRuns.AppliedInOrder | src/app/cash_flow_effect_store.py:552-576 | across any two steps of a run, versions of one record are applied in increasing order |
| EffectRuns.FinalizeKeeps | src/app/cash_flow_effect_service.py:2225-2273 | a finalization applies the version exactly when its task is resolved and every target reads back |
| EffectConservation.RunConserves | src/app/cash_flow_effect_service.py:1583-1700 | over any run each non-Futu holding moves by the change of all last applied amounts that sit there, plus manual edits, also those between the two reads of a confirmation, less events declared to be in it |
| EffectConservation.RunFromEmptyStore | src/app/cash_flow_effect_store.py:552-576 | from an empty store a holding is its initial value plus the last applied amounts of all records that sit there |
| EffectConservation.CompensationCompletes | src/app/cash_flow_effect_service.py:2275-2328 | a failed confirmation followed by a retry that resolves ends as an uninterrupted confirmation would have |
| EffectSettled.RunSettles | src/app/cash_flow_effect_service.py:2049-2328 | conservation through failed and overlapping writes: over any run what is held at a non-Futu identity moves by the last applied amounts plus what arrived from outside less what overlapping writes lost, and is the holding itself once nothing is in flight |
| EffectSettled.RunSettlesFromEmptyStore | src/app/cash_flow_effect_store.py:552-576 | from an empty store, with nothing in flight at the end, a holding is its initial value plus the last applied amounts there plus arrivals less losses |
| EffectSettled.OverlappingConfirmationLoses | src/app/cash_flow_effect_service.py:1868-2048 | an applied confirmation, as a delta or as already reflected, keeps conservation at an identity iff nothing is in flight there or its delta there is zero |
| EffectSettled.OrderlyRunLosesNothing | src/app/cash_flow_effect_service.py:2049-2328 | a run in which no second write to the identity is confirmed while one is in flight loses nothing there |
| EffectSettled.FinalizedSettles | src/app/cash_flow_effect_service.py:2225-2273 | a finalized compensation books exactly what its recorded target leaves beyond the value it had in flight |
| EffectOverlap.OverlappingWritesLoseAnEvent | src/app/compensation_service.py:502-590 | the run in which a write fails, an equal event is confirmed on the same holding, and the retry of the first finds its target in place: both versions applied, the holding moved once |
| EffectOverlap.TwinsAreDiscovered | src/app/cash_flow_effect_service.py:422-548 | that run starts one scan away from a store with only a confirmed baseline and a ledger with the two rows |
| EffectOwners.EmptyStorePlaced | src/app/cash_flow_effect_store.py:361-436 | an empty store meets both invariants the run theorems start from |
| EffectOwners.BaselineOwnership | src/app/cash_flow_effect_service.py:642-832 | a scan of any state any run reaches without a record-only version pending compensation keeps the baseline of every Futu identity, of every target of a pending compensation and of every explained drift; every other identity it sees ends confirmed at what was observed, and the rest is untouched |
| EffectOwners.AppliedVersionsOwnTheirTargets | src/app/cash_flow_effect_service.py:646-660 | in every reachable state a pending compensation of a version that is to be applied protects exactly its targets |
| EffectOwners.OwnersAreTheTargets | src/app/cash_flow_effect_service.py:646-660 | a reachable state with no record-only version pending compensation protects exactly the pending targets |
| EffectOwners.OwnersOfAFailedConfirmation | src/app/cash_flow_effect_service.py:2081-2103 | a failed confirmation leaves its targets protected iff the preview stored on the version names the same identities |
| EffectOwners.PendingTargetKept | src/app/cash_flow_effect_service.py:642-832 | a scan of any legal state keeps the baseline of a drifted, unexplained pending target iff the preview stored on a version in compensation names it |
| EffectOwners.PendingTargetLosesBaseline | src/app/cash_flow_effect_service.py:642-832 | the run in which a scan takes a partly written holding for a new baseline while its compensation is pending |
| EffectGate.ScannedBaseline | src/app/cash_flow_effect_service.py:642-832 | which baselines a reconciliation keeps, in the scanner's own terms |
| EffectGate.GateIsComplete | src/app/cash_flow_effect_service.py:2371-2409 | if the gate passes, no version at all of the account is unresolved, apart from scheduled ones after the NAV date |
| EffectPasses.GateExactly | src/app/cash_flow_effect_service.py:1245-1290 | the gate passes iff after its scan every newest version concerning the account is applied, record_only or superseded, or scheduled after the NAV date |
| EffectPasses.LastAppliedIsNewest | src/app/cash_flow_effect_store.py:552-576 | the version to undo is the newest applied one |
| EffectPasses.HistoricalRowIsKept | src/app/cash_flow_effect_service.py:1944-1983 | a row from before the cutover, from discovery to the confirmation of its hash: kept, record_only, nothing written, no baseline moved, no NAV blocked |
| EffectPasses.KeptRowAndEditPass | src/app/cash_flow_effect_service.py:2371-2409 | a run with a record_only version and a hand edit in which the gate passes and accepts the edit |
| EffectGate.GateSettlesHoldings | src/app/cash_flow_effect_service.py:2371-2409 | a passing gate leaves every non-Futu holding of the account at its confirmed baseline, unless a later scheduled effect explains the drift |
| EffectGate.FutuDriftBlocks | src/app/cash_flow_effect_service.py:784-860 | exactly when Futu drift ends unresolved |
| EffectMoves.MoveBlocksBoth | src/app/cash_flow_effect_service.py:1245-1287 | while a move is pending, in any state and whatever its raw text, neither the account of the last applied version nor the one it enters passes the gate, unless the version is scheduled after the NAV date, or, for the entered account outside compensation, a row of the record is elsewhere by now |
| EffectMoves.EnteredAccountExactly | src/app/cash_flow_effect_service.py:1245-1287 | with unique record ids, a pending move blocks the account it enters iff its version counts for the NAV date and its row is not elsewhere by now, or the last applied version was of that account too |
| EffectMoves.DeferredMoveBlocks | src/app/cash_flow_effect_service.py:1245-1268 | a record in compensation blocks the account of its version, of the last applied one, of every stored target, and the account the ledger has moved it to |
| EffectMoves.CurrentAccountOf | src/app/cash_flow_effect_service.py:898-906 | with unique record ids the account a deferred move is looked up by is the raw text of its row |
| EffectMoves.VanishedMoveBlocks | src/app/cash_flow_effect_service.py:508-548 | an applied event whose record the gate's rows do not hold is made a deletion by the gate's scan, which blocks |
| EffectMoves.NamedRowCloses | src/app/cash_flow_effect_service.py:438-506 | a gate that sees the record in rows of its own account closes unless that version was resolved before |
| EffectMoves.OfficialGatesBlockMoves | src/app/cash_flow_effect_service.py:2371-2409 | with frozen rows per account, the gate of the account a move left and that of the account it entered are both closed, whether or not the move was found before |
| EffectMoves.FoundMoveBlocks | src/app/cash_flow_effect_service.py:422-548 | an edit or move of an applied event that a whole-ledger scan has found closes both accounts whatever the raw text |
| EffectMoves.AppliedEditBlocks | src/app/cash_flow_effect_service.py:1245-1287 | for an edit of an applied row that nothing has seen yet, the gate's scan of an account leaves the record a blocker iff the new version is not scheduled after the NAV date and the account is the applied one, or the new one and also the raw text of the row |
| EffectMoves.RescanKeepsVersion | src/app/cash_flow_effect_service.py:461-506 | a rescanned row leaves the newest version in place iff every hashed fact is the same or compensation owns the version |
| EffectMoves.RemarkEditBlocks | src/app/cash_flow_effect_service.py:163-183 | editing only the remark of an applied event closes the gate of its account |
| EffectOrder.OrderDoesNotMatter | src/app/cash_flow_effect_service.py:1451-1485 | log-edit-scan-confirm, edit-scan-log-scan-confirm and log-scan-confirm, with the row logged anywhere, scans of the whole ledger or of the account, over any number of days, all end with holding and baseline at the baseline plus the event |
| EffectOrder.SyncedNarrows | src/app/cash_flow_effect_service.py:438-548 | a ledger in step with a whole-ledger scan is in step with a scan of any account, so the order theorem's starting points serve both |
| EffectOrder.DiscoveredEnds | src/app/cash_flow_effect_service.py:1554-1700 | from discovery on, preview and confirm end at baseline plus event and change one chain, one baseline, one holding |
| EffectRecovery.RecoveryEnds | src/app/cash_flow_effect_service.py:2081-2328 | a discovered event whose confirmed write fails, and whose retries fail any number of times, ends at the baseline plus the event with the first retry that writes; no other holding moves |
| EffectLimits.CalmExample | src/app/cash_flow_effect_service.py:254-292 | starting points of the order theorem exist: one holding at its confirmed baseline and an empty ledger |
| EffectLimits.UnreflectedEvent | src/app/cash_flow_effect_service.py:1451-1464 | an event not yet in a confirmed holding is applied iff the chosen baseline is that holding, and lost iff it is older by the event |
| EffectLimits.EqualEventIsLost | src/app/cash_flow_effect_service.py:1451-1464 | after edit, log and confirm of a first deposit, an equal second one is confirmed without moving the holding, on whatever days the steps are taken |
| EffectLimits.NetIsTheDeltaHere | src/app/cash_flow_effect_service.py:662-699 | the net credited to an active effect is its delta at its own identity iff it undoes no non-zero amount elsewhere |
| EffectLimits.MoveEditAccepted | src/app/cash_flow_effect_service.py:662-757 | an applied event is moved and its amount put into the holding it moved to: the net credited there is zero, and the scan accepts the edit as an external change |
| EffectLimits.FutuDriftHidden | src/app/cash_flow_effect_service.py:784-860 | from a confirmed Futu baseline, a drift that goes, comes back and goes again passes the gate for every NAV date |
| EffectLimits.ScanLeavesSynced | src/app/cash_flow_effect_service.py:422-548 | after a whole-ledger scan of a settling ledger the ledger is in step with the store, so the starting point of the order theorem is what scans leave |
| EffectStore.CashFlowEffectStore.CreateVersion | src/app/cash_flow_effect_store.py:361-436 | the table after an insertion, and the newest version returned |
| EffectStore.CashFlowEffectStore.UpdateEffect | src/app/cash_flow_effect_store.py:438-496 | the guarded update, and the state conflict that leaves the table alone |
| EffectStore.CashFlowEffectStore.GetPreviousApplied | src/app/cash_flow_effect_store.py:552-576 | finds the newest applied version below the newest one |
| EffectStore.CashFlowEffectStore.ObserveFingerprint | src/app/cash_flow_effect_store.py:766-798 | an observation never touches the confirmed baseline |
| EffectStore.CashFlowEffectStore.ConfirmFingerprint | src/app/cash_flow_effect_store.py:800-841 | the confirmed baseline becomes the given holding |
| EffectStore.CashFlowEffectStore.DeferSourceChange | src/app/cash_flow_effect_service.py:908-932 | a changed source is remembered once while compensation owns the version |
| EffectStore.CashFlowScanner.ScanLedger | src/app/cash_flow_effect_service.py:438-506 | the ledger loop and its counters |
| EffectStore.CashFlowScanner.SweepDeletions | src/app/cash_flow_effect_service.py:508-548 | the deletion loop, in any order of the records, and its counter |
| EffectStore.CashFlowScanner.NetOfActive | src/app/cash_flow_effect_service.py:662-699 | accumulates for every identity the total delta of its unresolved effects |
| EffectStore.CashFlowScanner.ReconcileHoldings | src/app/cash_flow_effect_service.py:642-860 | the holdings loop, in any order of the identities, and its counter |
| EffectStore.CashFlowScanner.Commit | src/app/cash_flow_effect_service.py:422-555 | a whole scan: store, counters, and the store invariant |
| EffectService.CashFlowEffectService.RefreshSource | src/app/cash_flow_effect_service.py:934-1033 | the source check against the ledger and the correction it makes |
| EffectService.CashFlowEffectService.Preview | src/app/cash_flow_effect_service.py:1776-1834 | the whole world after a preview, and the payload |
| EffectService.CashFlowEffectService.Confirm | src/app/cash_flow_effect_service.py:1868-2211 | the whole world after a confirmation, and the verdict |
| EffectService.CashFlowEffectService.WriteAll | src/app/cash_flow_effect_service.py:2049-2081 | the write loop stops at the first target not confirmed |
| EffectService.CashFlowEffectService.RetryAll | src/app/compensation_service.py:262-276 | the retry loop matches, writes from the recorded state, or stops in conflict |
| EffectService.CashFlowEffectService.Finalize | src/app/cash_flow_effect_service.py:2225-2273 | baselines are confirmed up to the first target that does not read back, and the version is applied iff there is none |
| EffectService.CashFlowEffectService.Retry | src/app/cash_flow_effect_service.py:2275-2328 | a retry is its task followed by the finalization |
| EffectService.CashFlowEffectService.NavGate | src/app/cash_flow_effect_service.py:2371-2409 | the gate scans and then passes iff no version touching the account blocks |
| MarketTime.ClosingMinutesAreOpen | src/market_time.py:22-53 | the open test exceeds the documented sessions exactly inside the closing minutes and never closes early |
| MarketTime.SecondsReachTheOpen | src/market_time.py:87-151 | for a closed instant, now plus the seconds is the first open instant up to the truncated second, and the market is closed throughout before it |
| MarketTime.HasMarketSessionBetween | src/market_time.py:205-242 | true iff the window is not empty and the start or some instant in it is open; from a closed start iff the end reaches the next open; 45 days always suffice |
| MarketTime.OpenTtl | src/market_time.py:245-275 | while the market is open a price is cached for 30 minutes |
| MarketTime.ClosedTtlEndsBeforeOpen | src/market_time.py:245-275 | a price cached while the market is closed never outlives the close |
| CapitalFacts.SortSorts | src/app/capital_facts_service.py:49-56 | the history is a sorted permutation |
| CapitalFacts.LastIsLatest | src/app/capital_facts_service.py:173-175 | the last match is the latest NAV of the window |
| CapitalFacts.GetExactly | src/app/capital_facts_service.py:30-135 | what is reported: the reason when unavailable, else opening and ending NAV, both dates, flow and result, from the stored rows themselves |
| CapitalFacts.FlowsExactly | src/app/cash_flow_summary_service.py:324-337 | the flow of a period is the sum of all flows dated in it, both ends included |
| CapitalFacts.MonthLengths | src/app/capital_facts_service.py:169-170 | the length of every month of every year |
| CapitalFacts.MonthsTelescope | src/app/capital_facts_service.py:48-96 | consecutive monthly results telescope to one bridge plus the flows after each earlier month's last NAV |
| CapitalFacts.YtdIsTheSumOfMonths | src/app/capital_facts_service.py:48-96 | the monthly results add up to the YTD result plus exactly those flows |
| CapitalFacts.MonthsAddUpExactly | src/app/capital_facts_service.py:48-96 | with no such flow the two are equal |
| CashService.CashLikeHoldings.Plan | src/app/cash_service.py:234-261 | the planned targets in order, refused iff there is not enough |
| CashService.CashLikeHoldings.Deduct | src/app/cash_service.py:263-304 | outcome and both balances of an executed deduction, including a write the repository refuses |
| CashService.RoundingAgrees | src/app/cash_service.py:43-45 | rounding before or after subtracting agrees iff the deduction is not half a cent |
| CashService.QuantizeIsNearest | src/app/cash_service.py:40-42 | money is rounded to the nearest cent, half cents away from zero |
| CashService.NothingIsWritten | src/app/cash_service.py:263-280 | a deduction is refused iff it is positive and more than there is; nothing is written then, nor when there is nothing to deduct |
| CashService.CashGivesFirst | src/app/cash_service.py:263-304 | in whole cents CASH gives first and MMF what CASH does not have |
| CashService.PlanAgreesWithExecution | src/app/cash_service.py:234-304 | for whole-cent balances both refuse alike, execution never raises, and the balances agree iff the amount is not half a cent |
| CashService.DeductionConserves | src/app/cash_service.py:263-304 | any covered positive deduction from whole-cent balances lowers the total by exactly the amount rounded to cents, which is the amount iff that is whole cents; nothing goes negative, MMF is touched only once CASH is drained |
| CashService.OverdrawsOnlyHalfCents | src/feishu/repositories/holdings_repository.py:1166-1200 | the repository refuses a covered deduction iff it takes all of a balance ending in half a cent |
| CashService.HalfWrittenDeduction | src/app/cash_service.py:282-304 | for any balances, exactly when a covered deduction raises, and whether it left both balances alone or CASH drained |
| WriteBehind.RunIsSafe | src/local_cache.py:71-111 | for entries of any type and over any interleaving the file lacks only the last dirty changes; with saves succeeding and before close, dirty data has a pending timer or a waiting callback and there are fewer than ten changes |
| WriteBehind.FlushedMeansSaved | src/local_cache.py:91-111 | after a flush or a late callback that could write, the file equals the cache |
| WriteBehind.GuardLost | src/local_cache.py:71-106 | for every step, exactly when it leaves dirty data that no timer and no callback will write, or ten changes outstanding, read off the state before it and whether the file can be written |
| WriteBehind.LateCallbackStillWrites | src/local_cache.py:91-106 | a flush that fails while a fired timer's callback waits leaves the data to that callback, which writes it |
| WriteBehind.ChangeExactly | src/local_cache.py:169-228 | a change is written at once with a flush or as the tenth; any other leaves the file alone and starts one timer unless one is alive or the cache is closed |
| WriteBehind.OtherSteps | src/local_cache.py:91-167 | nothing else starts a timer, and entries change otherwise only by expiry |
| WriteBehind.LocalPriceCache.Save | src/local_cache.py:169-210 | state after a save, with the threshold and the timer |
| WriteBehind.LocalPriceCache.Get | src/local_cache.py:120-167 | what is served and when an expired entry is dropped |
| WriteBehind.LocalPriceCache.GetAll | src/local_cache.py:230-271 | the live entries, with expired ones removed and saved in one batch |
| WriteBehind.LocalPriceCache.Split | src/local_cache.py:232-260 | the scan separates live from expired entries |
| WriteBehind.LocalPriceCache.FlushDelayed | src/local_cache.py:91-96 | the callback of a fired timer |
| WriteBehind.LocalPriceCache.Flush | src/local_cache.py:98-106 | the forced flush and the cancelled timer |
| NavIndex.LocalNavIndexCache.UpsertNavRecords | src/local_cache.py:566-584 | the account's payload after an upsert; other accounts untouched |
| NavIndex.LocalNavIndexCache.Rebuild | src/local_cache.py:526-553 | the loop over the sorted rows builds the derived rows |
| NavIndex.UpsertedHistory | src/local_cache.py:566-584 | the history is strictly sorted and holds for each date the last row written |
| NavIndex.IndexRefinesSearch | src/local_cache.py:526-553 | month-end, year-end, inception and last rows are what a search of the history finds, the time stamp that of the last row |
| NavIndex.LessIsLexical | src/local_cache.py:526-553 | dates compare as texts, by their first difference |
| NavIndex.UpsertsCompose | src/local_cache.py:566-584 | upserting a then b is upserting a+b, and upserting twice is upserting once |
| NavIndex.RunIsOneUpsert | src/local_cache.py:566-584 | any sequence of upserts is one upsert of all their rows |
| NavIndex.TwinAgrees | src/feishu_storage.py:81-91 | from a payload that belongs to its history the in-memory twin agrees iff every written row is there already or lies strictly inside the history and before the last row of its month |
| NavIndex.TwinDiffers | src/feishu_storage.py:81-91 | the first record of an account: the file-backed index has a last row, the in-memory twin none |
| NavIndex.UpsertedBelongs | src/local_cache.py:566-584 | every upsert leaves a payload whose derived rows belong to its sorted history |
| CashFlowAgg.AggregatesEqualTheFold | src/local_cache.py:695-728 | after any appends each month is the sum of its days, each year of its months, the cumulative amount of the years and of all flows |
| CashFlowAgg.AppendAdds | src/local_cache.py:695-728 | one append keeps every level the sum of the one below |
| CashFlowAgg.DriveTwins | src/feishu_storage.py:93-115 | driven by the same appends over any accounts, both caches hold equal payloads, for every account those of its own run |
| FeishuBatch.BatchRecords | src/feishu_client.py:667-756 | done iff ids are valid and every chunk is answered; otherwise the first chunk that is not, with the results of the chunks before it |
| FeishuBatch.ValidateBatchRecords | src/feishu_client.py:582-634 | a chunk is accepted iff its response answers it, and an update's records come back in request order |
| FeishuBatch.ById | src/feishu_client.py:624-625 | the dictionary is as long as the list iff no id repeats |
| FeishuBatch.BatchDelete | src/feishu_client.py:758-817 | the number deleted, or the first chunk not deleted, with every chunk before it deleted |
| FeishuBatch.ResultAtEveryPosition | src/feishu_client.py:620-634 | every position holds the record requested there, whatever the server's order |
| FeishuBatch.StripExactly | src/feishu_client.py:574-576 | ids are stripped of surrounding blanks and nothing else |
| FeishuBatch.NormalizedExactly | src/feishu_client.py:567-580 | a normalized record keeps the fields the server sent |
| FeishuBatch.ResultsUnique | src/feishu_client.py:712-756 | the results are determined by requests and answers |
| FeishuBatch.ConfirmedIsThePrefix | src/feishu_client.py:636-665 | a failure at offset k reports as confirmed exactly what a batch of the first k requests returns |
| ReceiptOutbox.OutboxRuns | src/app/cash_flow_effect_store.py:897-989 | over any run a key keeps its first payload, attempts count its sends, and it is delivered at most once, iff marked sent |
| ReceiptOutbox.SettledStays | src/app/cash_flow_effect_store.py:927-942 | sent and invalid are absorbing and never sent again |
| ReceiptOutbox.MarkedExactly | src/app/cash_flow_effect_store.py:962-989 | delivered is sent, a failure is tried again, an unrenderable receipt never is |
| ReceiptOutbox.ListedExactly | src/app/cash_flow_effect_store.py:927-942 | a dispatch lists open receipts only, oldest first, all of them or as many as the limit allows |
| ReceiptOutbox.DispatchTouches | src/app/cash_flow_effect_receipt_service.py:59-105 | a dispatch touches each listed receipt once, with its own answer, and no other |
| ReceiptOutbox.DispatchDrains | src/app/cash_flow_effect_receipt_service.py:59-105 | a dispatch without limit whose sends all succeed leaves nothing open |
| ReceiptOutbox.ReceiptStore.EnqueueReceipt | src/app/cash_flow_effect_store.py:897-925 | a known key is ignored |
| ReceiptOutbox.ReceiptStore.ListPendingReceipts | src/app/cash_flow_effect_store.py:927-942 | the open receipts by creation, up to the limit |
| ReceiptOutbox.ReceiptStore.MarkReceipt | src/app/cash_flow_effect_store.py:962-989 | status and attempt count after a send |
| ReceiptOutbox.ReceiptStore.DispatchPending | src/app/cash_flow_effect_receipt_service.py:59-105 | the dispatch loop, its marks and its exact counters |

## Left out

- RunConserves: an identity is not covered while it is a target of a failed write; `RunSettles` covers it there. Futu holdings follow the authoritative quote instead (`FutuTargetsAreQuoted`).
- RunSettles: an edit of a holding while a write to it is in flight does not count as arriving, because that write lands only where its retry finds the recorded state from before it, or the recorded target itself.
- OrderDoesNotMatter: the runs start from a holding at its confirmed baseline with no external change and no other unresolved effect at the identity; `EqualEventIsLost` shows that successive equal events are not covered.
- ScanTwice: unique record ids are sufficient; `ScanTwiceExactly` and `AccountScanTwiceExactly` have the exact conditions.
- BaselineOwnership: a record-only version pending compensation is excluded, because the promise fails for it (`PendingTargetLosesBaseline`); `PendingTargetKept` has the condition for any state.
- RecoveryEnds: a retry that finds the holding neither as before nor at the target stops in conflict; such holdings are outside it.
- GateIsComplete: a version whose date cannot be read makes the gate raise; here it blocks.
- PlanAgreesWithExecution: balances are whole cents, as the repository writes them; `HalfWrittenDeduction` says for any balances when an execution raises.
- HasMarketSessionBetween: CN and HK only; unknown markets, missing bounds, the US market and its daylight saving are not modelled.
- YtdIsTheSumOfMonths: amounts are integer cents, so the rounding of stored floats and the comparison with stored results are not modelled.
- RunIsSafe: a save that fails leaves the file as it was; a file truncated in the middle of a write is not modelled.
- ResultAtEveryPosition: field values are one text and write-field validation is not modelled; blanks are the four ASCII ones.
- BatchDelete: the ids sent are taken as they are, the ids returned are stripped, as in the source; a record repeated in two chunks is not noticed.
- DispatchPending: a crash between a send and its mark is not modelled, nor are the effect events written beside a mark; receipts created in the same instant keep their insertion order.
- Legacy Futu observation (observe_futu_cash, broker_cash_reconciliation, superseded_by_cash_flow): no new ones are made.
- SQLite, files, process and thread locks: store calls and locked sections are atomic steps; a confirmation's account locks appear only as the set of accounts it must contain.
- SHA-256 and JSON text: payloads are compared themselves.
- Crash in the middle of a confirmation, and failure to record the compensation task.
- Receipts enqueued by the effect service, scan runs, digests, warnings, operator context and the event log apart from deferred sources.
- Holding fields other than record id and quantity, and events below one cent.
- Compensation tasks of other kinds and unsupported payloads; a task is kept on its version, which is the newest one while compensation is pending.
- Backup, integrity checks, initialization of fingerprints, FX confirmation.
- Pagination of reads: a repeated page token or an empty non-final page raises; the loop adds only an easy fact.
- Price fields of a cached price and the parsing of its expiry text; the order of get_all.
- Trading holidays, fund update times.
