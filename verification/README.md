# Revenue plugin state machines, modelled and proved

A Dafny model of the parts of the Rust revenue plugin whose correctness is a matter of state and
arithmetic, with proofs over every input, every run and every reachable state.

- **Fee store** (`FeeStore`, `FeeStoreRuns`, `SeedVerdict`, `Quarantine`, `RebalanceRail`, `RetentionSweep`):
  the transactional tables of `fee_runway.rs`, several deciders interleaved, a fault at any statement.
- **Budget rail** (`Normal`, `BudgetRail`, `BudgetRuns`, `BudgetStatus`): reserve, settle, release and sweep
  over four tables, and the cap on their sum.
- **Flow filter** (`Matrix`, `Kalman`, `KalmanRuns`): the two-state Kalman filter and its 300 s gate.
- **JSON writers** (`JsonText`, `JsonRoundTrip`, `CanonicalJson`, `JsonWriters`): three writers and one parser
  that undoes them.
- **Decision matcher** (`TimeClusters`, `KeyBags`, `DecisionMatcher`, `ChannelMatcher`): time clustering and
  two-pass multiset matching.
- **Capital allocator** (`Capex`, `CapexEnvelope`), **loop health** (`BoundedText`, `LoopHealth`,
  `LoopHealthRuns`), **frozen-window replay** (`FrozenWindow`, `FrozenReplay`).
- `Outcomes`, `Numbers` and `MapSums` hold the shared result types, arithmetic and table sums.

## How the source is represented

A SQL table is a map or a sequence of rows in a field of a class; a row id is a position. A transaction saves
the tables, runs its statements and puts them back on an error. A fault is a number `failAt`, the position of
the first statement of the call that the disk refuses; since a call stops at its first error this covers every
pattern of faults. An `f64` is a `real` and `as i64` truncates it. An `i64` is an `int`, with the checked
additions and conversions of the source written out. A `HashMap` or JSON object is a `map`. Each imperative
routine is a method whose postcondition ties the new state to a function of the old one; the lemmas are about
those functions and about runs of them.

Where the code and its own comments disagree the code is followed:

- `load_latest_state` is documented as returning the rows at the current generation; it also returns rows
  that older generations wrote last (`FeeStoreRuns.OldRowsAreReturned`; `FeeStoreRuns.RowsAreCurrentIff` says
  when the documentation is right).
- `reserve_spend` is documented as leaving no reservation on an error. A failing COMMIT leaves the
  transaction open and the hold visible on that connection (`BudgetRuns.FailedCommitShowsHold`); when
  it does hold is `BudgetRuns.ErrorLeavesNoNewHold`, and the exact tables are in
  `BudgetRuns.ReserveErrorIsAtomicUnlessCommitFails`.
- A settlement is meant to happen once for an id. Each table keeps that, but the two tables are not compared:
  an id in both is answered settled twice (`BudgetRuns.OneIdSettledTwice`, `BudgetRuns.SettledTwiceExactly`).
- The rebalance ledger pairs an unresolved attempt with an active hold, but its schema accepts a settlement
  that names the status 'active' (`RebalanceRail.CoherentIffNoneNamedActive`).
- An update is meant to shrink both variances; the repair floors raise one that started below its floor
  (`KalmanRuns.FloorRaisesVariance`; `KalmanRuns.UpdateKeepsPositive` states exactly when).

## Model

| member | source | states |
|---|---|---|
| `FeeStore.Store.CommitFeeCycle` | crates/revops-db/src/fee_runway.rs:685-875 | with the n-th statement refused, for any n, the commit lands exactly when its rows are admissible and every statement ran; then the tables are the committed ones, otherwise they are untouched |
| `FeeStore.Store.CommitFeeCycleGuarded` | crates/revops-db/src/fee_runway.rs:976-1005 | compare-and-set: lands exactly when the generation is the expected one, the rows are admissible and nothing failed; a conflict is reported exactly when the generations differ, and writes nothing |
| `FeeStore.Store.CycleExistsWithGeneration` | crates/revops-db/src/fee_runway.rs:944-954 | existence flag and generation describe one state |
| `FeeStore.Store.RecordSeedRefusal` | crates/revops-db/src/fee_runway.rs:1351-1361 | appends an unbound row, for refusals only |
| `FeeStoreRuns.StoreRefinesLog` | crates/revops-db/src/fee_runway.rs:699-875 | in every state reachable by plain and guarded commits, reads and refusals of any number of deciders, the tables are what the log of landed commits says: cycle rows, request counts, last writers |
| `FeeStoreRuns.GenerationsAreContiguous` | crates/revops-db/src/fee_runway.rs:699-728 | cycle rows carry the generations 1..g, each exactly once |
| `FeeStoreRuns.LoadIsFoldOfLog` | crates/revops-db/src/fee_runway.rs:881-911 | load_latest_state returns for every channel the last row any commit wrote, also rows of older generations, and the number of landed commits as generation |
| `FeeStoreRuns.RowsAreCurrentIff` | crates/revops-db/src/fee_runway.rs:877-911 | the documented 'rows at the current generation' holds after a run exactly when the last commit rewrote every channel an earlier one wrote |
| `FeeStoreRuns.OldRowsAreReturned` | crates/revops-db/src/fee_runway.rs:877-911 | two commits after which a row of generation 1 is returned at generation 2 |
| `FeeStoreRuns.SeenIsReadGeneration` | crates/revops-db/src/fee_runway.rs:944-954 | the generation a decider holds is the number of commits that had landed at its latest read |
| `FeeStoreRuns.NoLostUpdate` | crates/revops-db/src/fee_runway.rs:955-1005 | a guarded commit lands exactly when no commit landed since its decider's latest read, its rows are admissible and nothing failed, and then produces that generation plus one |
| `FeeStoreRuns.NoCycleCommitsTwice` | crates/revops-db/src/fee_runway.rs:699-728 | no cycle id lands twice, whatever the mix of deciders and commit forms |
| `FeeStoreRuns.LogGrows` | crates/revops-db/src/fee_runway.rs:685-697 | what has landed stays landed, in order |
| `SeedVerdict.VerdictIsAutomaton` | crates/revops-db/src/fee_runway.rs:1498-1591 | on every run the verdict computed from the rows is the state of a three-state automaton over landed commits and refusals; the duplicate, unbound and missing-cycle reasons never occur |
| `SeedVerdict.VerdictFromHistory` | crates/revops-db/src/fee_runway.rs:1399-1445 | virgin exactly until the first commit; bound, to the first commit's cycle, exactly when that commit carried the seed and no refusal came later |
| `SeedVerdict.VerdictNeverRecovers` | crates/revops-db/src/fee_runway.rs:1498-1591 | invalid is absorbing, and a bound verdict never names another cycle |
| `Quarantine.Ledger.InsertBroadcastAttempt` | crates/revops-db/src/fee_runway.rs:1744-1761 | an intent row exactly when its request id is new |
| `Quarantine.Ledger.RecordBroadcastAttemptResult` | crates/revops-db/src/fee_runway.rs:1767-1786 | writes the outcome of an existing attempt, with no guard on an earlier one |
| `Quarantine.Ledger.InsertQuarantine` | crates/revops-db/src/fee_runway.rs:1293-1308 | appends an active quarantine exactly when the cycle it names is known |
| `Quarantine.Ledger.ReconcileQuarantineOnRestart` | crates/revops-db/src/fee_runway.rs:1846-1907 | all-or-nothing under a fault at any statement; the count is the number of attempts that were open |
| `Quarantine.NothingStaysOpen` | crates/revops-db/src/fee_runway.rs:1862-1907 | after success no attempt lacks an outcome, none is lost or reordered, and recorded outcomes are kept |
| `Quarantine.OpenImpliesQuarantined` | crates/revops-db/src/fee_runway.rs:1862-1907 | a non-zero count leaves an active quarantine; one already active, or a zero count, leaves that table as it was |
| `Quarantine.ReconcileIsIdempotent` | crates/revops-db/src/fee_runway.rs:1846-1907 | a second call changes nothing, whenever it runs |
| `Quarantine.QuarantinePersists` | crates/revops-db/src/fee_runway.rs:1313-1334 | an active quarantine is still active in every later state of every run |
| `Quarantine.RestartDeniesForever` | crates/revops-db/src/fee_runway.rs:1846-1907 | a restart that found an open intent and succeeded leaves execution denied for good |
| `Quarantine.RequestsStayUnique` | crates/revops-db/src/fee_runway.rs:1744-1761 | no request id is ever under two intents |
| `Quarantine.OutcomeFollowsHistory` | crates/revops-db/src/fee_runway.rs:1767-1907 | on every run an attempt's outcome is the last report's that reached it, or Ambiguous from a restart that found it open |
| `Quarantine.OutcomeSurvivesExactly` | crates/revops-db/src/fee_runway.rs:1767-1786 | a recorded outcome survives a run exactly when the last report that reached the attempt afterwards, if any, repeats it |
| `Quarantine.SecondReportOverwrites` | crates/revops-db/src/fee_runway.rs:1767-1786 | counterexample to exactly-once: a later report replaces an earlier outcome |
| `RebalanceRail.Rail.InsertRebalanceAttempt` | crates/revops-db/src/fee_runway.rs:2123-2153 | attempt and reservation are written together or not at all |
| `RebalanceRail.Rail.SettleRebalanceAttempt` | crates/revops-db/src/fee_runway.rs:2158-2201 | settles the open attempt and its active hold together, and fails when nothing is open |
| `RebalanceRail.RailFollowsHistory` | crates/revops-db/src/fee_runway.rs:2123-2201 | on every run attempts and reservations are in one-to-one correspondence and each row shows exactly the settlement that landed for it |
| `RebalanceRail.SettledAtMostOnce` | crates/revops-db/src/fee_runway.rs:2158-2201 | each request is settled at most once, and is settled exactly when it has no open attempt |
| `RebalanceRail.CoherentIffNoneNamedActive` | crates/revops-db/src/fee_runway.rs:2158-2201 | an attempt is unresolved iff its reservation is active, exactly on the runs where no landed settlement named the status 'active' |
| `RebalanceRail.ActiveSettleBreaksCoherence` | crates/revops-db/src/fee_runway.rs:2158-2201 | two calls that leave a resolved attempt with an active hold |
| `RebalanceRail.HeldSatsConserved` | crates/revops-db/src/fee_runway.rs:2236-2245 | after every run the held sats are the amounts of the attempts the history has not released |
| `RetentionSweep.Db.SweepOneBatch` | crates/revops-db/src/fee_runway.rs:1999-2036 | deletes the oldest eligible rows of one table, at most 500, or nothing when its transaction fails |
| `RetentionSweep.Db.RunRetentionSweep` | crates/revops-db/src/fee_runway.rs:2044-2070 | fails exactly when it takes the turn whose transaction is refused; prunes only what the policy allows, keeps every row inside the horizon and the newest 90 snapshots, and on success reports the batches, deletions and cursor of the round robin on counts |
| `RetentionSweep.SweepIsExact` | crates/revops-db/src/fee_runway.rs:2044-2070 | uses min(8, sum of ceil(eligible/500)) non-empty batches, and leaves nothing eligible when it was not truncated |
| `RetentionSweep.SweepTurnsAreBounded` | crates/revops-db/src/fee_runway.rs:2044-2070 | a sweep ends within 36 turns: three empty tables at most between two batches, four to end |
| `RetentionSweep.SweepIsFair` | crates/revops-db/src/fee_runway.rs:2044-2070 | two tables that still hold eligible rows got batch counts at most one apart |
| `RetentionSweep.ChainIsExact` | crates/revops-db/src/fee_runway.rs:2044-2070 | any number of chained sweeps use the batches the tables need, or eight a sweep |
| `RetentionSweep.ChainIsFair` | crates/revops-db/src/retention.rs:91-103 | after any number of truncated sweeps two tables that still hold rows got batch counts at most one apart over all of them |
| `RetentionSweep.ChainIsOneRoundRobin` | crates/revops-db/src/retention.rs:91-103 | truncated sweeps chained by the cursor are one round robin with as many times the bound |
| `BudgetRail.BudgetDb.Evaluate` | crates/revops-db/src/budget.rs:677-790 | the scan over four tables decides as the specification does: terminal guard, replaced amount, daily and weekly caps |
| `BudgetRail.BudgetDb.ReserveSpend` | crates/revops-db/src/budget.rs:249-295 | rejects before BEGIN, then one transaction whose COMMIT alone is not rolled back |
| `BudgetRail.BudgetDb.RecordEventOn` | crates/revops-db/src/budget.rs:878-923 | rejected, written after at most three tries, or an error with nothing written, also when the metadata cannot be serialised |
| `BudgetRail.BudgetDb.MarkSpendReservationSpent` | crates/revops-db/src/budget.rs:309-352 | the flip and its event together; a rejected or lost event takes the flip back |
| `BudgetRail.BudgetDb.ReleaseSpendReservation` | crates/revops-db/src/budget.rs:297-307 | releases an active hold under that exact id, and says whether there was one |
| `BudgetRail.BudgetDb.ReleaseBudgetReservation` | crates/revops-db/src/budget.rs:574-584 | unified table first, the legacy one only when that released nothing |
| `BudgetRail.BudgetDb.MarkBudgetSpent` | crates/revops-db/src/budget.rs:591-601 | settles without an event in the unified table, else flips the legacy row |
| `BudgetRail.BudgetDb.CleanupStaleReservations` | crates/revops-db/src/budget.rs:456-482 | releases stale holds of both tables except those of parked rebalances, tolerating a failure of the second update |
| `BudgetRail.BudgetDb.CleanupStaleSpendReservations` | crates/revops-db/src/budget.rs:487-511 | releases the stale active holds of one category, or of all but the on-chain ones |
| `BudgetRail.BudgetDb.ClearAllReservations` | crates/revops-db/src/budget.rs:1060-1081 | releases every legacy hold and reports their count and sum, or changes nothing |
| `BudgetRuns.ReserveAccountingIsExact` | crates/revops-db/src/budget.rs:677-803 | a budgeted grant answers the non-negative smaller of cap minus total, daily and weekly, recomputed from the new tables; a refusal changes nothing |
| `BudgetRuns.GrantedIffItFits` | crates/revops-db/src/budget.rs:687-790 | granted exactly when not terminal and the total with the new amount in place of the old stays within every cap |
| `BudgetRuns.SettleMovesTotal` | crates/revops-db/src/budget.rs:808-872 | the exact change of the total: the hold leaves, the charge enters its window, a replaced event leaves |
| `BudgetRuns.BudgetNeverOvershoots` | crates/revops-db/src/budget.rs:677-803 | with one cap and window, budgeted reserves, charges within the hold and no outside writers, a total that starts under the cap stays under it in every reachable state, visible and durable, whatever fails |
| `BudgetRuns.RunAdvances` | crates/revops-db/src/budget.rs:808-872 | on every run durable rows only go from active to spent or released, terminal rows never change and no event disappears |
| `BudgetRuns.SettledAtMostOnce` | crates/revops-db/src/budget.rs:309-352 | no unified reservation is settled twice, by either settle path |
| `BudgetRuns.LegacySettledAtMostOnce` | crates/revops-db/src/budget.rs:591-601 | no legacy row is settled twice, except one with a blank id inside a transaction that is then lost |
| `BudgetRuns.LostLegacySettleRepeats` | crates/revops-db/src/budget.rs:591-601 | and there it is: what a lost transaction settled is settled by the same call again |
| `BudgetRuns.SettledTwiceExactly` | crates/revops-db/src/budget.rs:586-601 | over any run an id, as its caller writes it, is answered settled twice exactly when it was settled once in each table |
| `BudgetRuns.SettledAgainExactly` | crates/revops-db/src/budget.rs:586-601 | after the unified row was settled mark_budget_spent answers settled again exactly when a legacy row of that id is still active, and the other way round |
| `BudgetRuns.OneIdSettledTwice` | crates/revops-db/src/budget.rs:591-601 | a reserve and two calls of mark_budget_spent that both answer settled for one id |
| `BudgetRuns.SettlementEventStays` | crates/revops-db/src/budget.rs:842-872 | a settlement that asked for an event left `resv:{rid}` in the durable tables for good |
| `BudgetRuns.OnChainHoldOutlivesSweeps` | crates/revops-db/src/budget.rs:456-511 | a channel_open, channel_close or boltz hold outlives every run of sweeps, clears and lost settlements unchanged |
| `BudgetRuns.ReserveErrorIsAtomicUnlessCommitFails` | crates/revops-db/src/budget.rs:262-294 | an error leaves the durable tables alone always; the visible ones show the reservation exactly when a grant's COMMIT was refused and are otherwise unchanged; a transaction stays open exactly when a COMMIT was refused |
| `BudgetRuns.ErrorLeavesNoNewHold` | crates/revops-db/src/budget.rs:283-294 | 'an error means no reservation' holds of the visible tables exactly when it was not a grant's COMMIT that failed |
| `BudgetRuns.FailedCommitShowsHold` | crates/revops-db/src/budget.rs:273-279 | a grant whose COMMIT fails is reported as an error, yet the connection goes on showing an active hold the file does not have |
| `BudgetRuns.OpenTransactionSticks` | crates/revops-db/src/budget.rs:262-294 | until the connection is reopened nothing any call does becomes durable |
| `BudgetRuns.OpenTransactionRefuses` | crates/revops-db/src/budget.rs:262-352 | and every call that opens a transaction is refused and leaves what the connection shows |
| `BudgetStatus.ReadBudgetStatus` | crates/revops-db/src/budget_status.rs:48-122 | answers the three sums of one snapshot, and an error exactly when a statement is refused or a sum or a checked addition leaves the 64-bit range |
| `BudgetStatus.StatusNeverExceedsTotal` | crates/revops-db/src/budget_status.rs:48-122 | at the same window start the reported position never exceeds the total that gates reserves |
| `Normal.SettlementIdIsTrimmed` | crates/revops-db/src/budget.rs:853-856 | a settlement's event id survives the event writer's trim |
| `Normal.CategoryIsStable` | crates/revops-db/src/budget.rs:258-261 | normalising a category twice is normalising it once |
| `Kalman.KalmanFlowFilter.EnsurePositiveDefinite` | crates/revops-analytics/src/kalman.rs:218-227 | floors both variances and caps the covariance when the determinant is not positive |
| `Kalman.KalmanFlowFilter.Predict` | crates/revops-analytics/src/kalman.rs:233-280 | the written-out predict step, for any elapsed time |
| `Kalman.KalmanFlowFilter.Update` | crates/revops-analytics/src/kalman.rs:288-351 | the written-out update step, returning the innovation |
| `Kalman.ApplyKalmanFilter` | crates/revops-analytics/src/flow.rs:390-450 | the gate, then predict, then update or the clock alone |
| `Kalman.Volatility` | crates/revops-analytics/src/kalman.rs:403-424 | the process-noise multiplier is always within [0.5, 2], and 1 under three buckets |
| `KalmanRuns.SpreadIsTransition` | crates/revops-analytics/src/kalman.rs:262-277 | the expanded predict covariance is F P F' + Q |
| `KalmanRuns.NarrowedIsJoseph` | crates/revops-analytics/src/kalman.rs:315-327 | for any gain the expanded update covariance is the Joseph form |
| `KalmanRuns.NarrowedIsStandard` | crates/revops-analytics/src/kalman.rs:302-327 | at the Kalman gain it is (I-KH) P, and the determinant is r/(p00+r) times the old one |
| `KalmanRuns.PredictKeepsPositive` | crates/revops-analytics/src/kalman.rs:233-280 | for any dt > 0 predicting keeps the matrix positive definite and never needs the covariance cap |
| `KalmanRuns.UpdateKeepsPositive` | crates/revops-analytics/src/kalman.rs:288-333 | from a positive definite state neither the floor on s nor the covariance cap fires, and each variance does not grow exactly when it already met its floor |
| `KalmanRuns.NoiseIsPositive` | crates/revops-analytics/src/kalman.rs:250-272 | the process noise is positive definite for any dt > 0 |
| `KalmanRuns.EveryRunIsHealthy` | crates/revops-analytics/src/flow.rs:390-450 | on every run from the default state: positive definite, variances at their floors or above, ratio in [-1,1], velocity in its bounds, innovation variance at least 0.001 |
| `KalmanRuns.ObservationsNeverWiden` | crates/revops-analytics/src/flow.rs:423-427 | on every run an observation never grows either variance the prediction left |
| `KalmanRuns.ObservedRunsAreSure` | crates/revops-analytics/src/flow.rs:423-427 | on every run an observed call leaves the ratio variance at most the observation's noise, or the floor |
| `KalmanRuns.FloorRaisesVariance` | crates/revops-analytics/src/kalman.rs:218-227 | a positive definite state one of whose variances an update raises to its floor |
| `KalmanRuns.RunIsOfTouchingCalls` | crates/revops-analytics/src/flow.rs:400-421 | gated calls drop out: a run is the run of its touching calls alone |
| `KalmanRuns.CorrectionIsWeightedMean` | crates/revops-analytics/src/kalman.rs:302-313 | the corrected ratio is the variance-weighted mean of prediction and observation, and the velocity moves with it as the covariance says |
| `KalmanRuns.RepairBranchIsDead` | crates/revops-analytics/src/kalman.rs:221-226 | no run depends on what the square root returns: its branch is never reached |
| `KalmanRuns.TouchesAreSpaced` | crates/revops-analytics/src/flow.rs:400-421 | once a positive clock was consumed, successive touching calls are at least 300 s apart, summed over every touch in between |
| `Matrix.PositiveForm` | crates/revops-analytics/src/kalman.rs:218-227 | the determinant test is the right one: the quadratic form is positive off the origin |
| `JsonText.UnicodeComesBack` | crates/revops-analytics/src/telemetry.rs:160-170 | every code point survives its escape, surrogate pairs included (section 2.1 of RFC 2781) |
| `JsonText.CharComesBack` | crates/revops-analytics/src/telemetry.rs:142-158 | every character survives the string writer, in both styles (section 7 of RFC 8259) |
| `JsonText.IntComesBack` | crates/revops-core/src/canonical.rs:44-51 | a decimal integer is read back, up to whatever non-digit follows |
| `JsonRoundTrip.DocComesBack` | crates/revops-db/src/budget.rs:963-1041 | the parser returns the written document and exactly the text that followed it, for the writers that refuse floats |
| `JsonRoundTrip.TextIsInjective` | crates/revops-db/src/budget.rs:963-1041 | equal texts mean equal documents, key order included |
| `JsonRoundTrip.PythonTextIsPrintable` | crates/revops-db/src/budget.rs:1011-1041 | the ensure_ascii writers emit printable ASCII only |
| `CanonicalJson.SortKeys` | crates/revops-core/src/canonical.rs:65-80 | visits the keys of an object once each in ascending order |
| `CanonicalJson.SortedKeysAscend` | crates/revops-core/src/canonical.rs:65-80 | that order is strictly ascending by code points |
| `CanonicalJson.CanonComesBack` | crates/revops-core/src/canonical.rs:39-85 | nothing is lost by sorting: the value comes back from its canonical document |
| `CanonicalJson.FirstFloatIsFirst` | crates/revops-core/src/canonical.rs:39-85 | the position reported is a float and none comes before it in sorted-key order |
| `JsonWriters.JsonWriter.WriteValue` | crates/revops-core/src/canonical.rs:39-85 | the recursive writer appends the canonical text and restores its path stack, or reports the first float |
| `JsonWriters.JsonWriter.WriteString` | crates/revops-core/src/canonical.rs:101-117 | appends the escaped string |
| `JsonWriters.JsonWriter.WriteDoc` | crates/revops-analytics/src/telemetry.rs:97-133 | the ordered writer appends the text of a document without floats |
| `JsonWriters.CanonicalText` | crates/revops-core/src/canonical.rs:23-28 | canonical_json's answer and text |
| `JsonWriters.FailsExactlyOnFloat` | crates/revops-core/src/canonical.rs:23-99 | an error exactly when a float occurs anywhere, with the path of the first in sorted-key order |
| `JsonWriters.CanonicalComesBack` | crates/revops-core/src/canonical.rs:23-99 | parsing a canonical text followed by anything gives the value and what followed |
| `JsonWriters.CanonicalIsInjective` | crates/revops-core/src/canonical.rs:23-99 | canonical texts are equal exactly when the values are, objects as maps |
| `JsonWriters.MetadataJson` | crates/revops-db/src/budget.rs:947-958 | null exactly for absent or empty, an error for a non-object or a float, else printable text that reads back |
| `JsonWriters.DatastoreEnvelope` | crates/revops-analytics/src/telemetry.rs:333-352 | rejects a reserved key and an oversized text exactly; what is sent fits, is printable and reads back as the stamped payload |
| `TimeClusters.ClusterByTime` | tools/diff-harness/diff_fee_decisions.py:307-325 | tags the events, sorted by time with equal times in their given order, with the number of long gaps before them |
| `TimeClusters.ShareClusterIffNoLongGap` | tools/diff-harness/diff_fee_decisions.py:307-325 | two events share a cluster iff every consecutive gap between them is at most 120 s |
| `DecisionMatcher.GroupByKey` | tools/diff-harness/diff_fee_decisions.py:395-400 | a dict from content to its rows in order; the keys are in the order of their first row |
| `DecisionMatcher.PassOne` | tools/diff-harness/diff_fee_decisions.py:394-412 | pairs distinct rows of equal content, as a multiset the intersection of both sides |
| `DecisionMatcher.PassOneIsMaximal` | tools/diff-harness/diff_fee_decisions.py:394-412 | no pairing by content pairs more rows |
| `DecisionMatcher.MatchCluster` | tools/diff-harness/diff_fee_decisions.py:389-426 | exact pairs first, then what is left of both sides in time order, then the surplus; every row of the cluster is in exactly one finding; at tolerance 0 no mismatch iff the content multisets are equal |
| `DecisionMatcher.WindowIsCleanIff` | tools/diff-harness/diff_fee_decisions.py:389-426 | at any tolerance a window is clean exactly when what exact matching leaves on both sides, in time order, is within tolerance row by row |
| `DecisionMatcher.ExactPassSpoilsTolerance` | tools/diff-harness/diff_fee_decisions.py:389-426 | a window at tolerance 1 whose rows pair off within tolerance, yet with a mismatch: the exact pass took a row the other needed |
| `ChannelMatcher.Buckets` | tools/diff-harness/diff_fee_decisions.py:380-387 | each cluster lists its rows of both sides in time order |
| `ChannelMatcher.MatchChannel` | tools/diff-harness/diff_fee_decisions.py:354-426 | every row of either side is in exactly one finding; at tolerance 0 no mismatch iff in every cluster both sides have equal multisets of (old, new, reason) |
| `Capex.EfficiencyMultiplier` | crates/revops-capital/src/capex.rs:334-362 | zero exactly for dead capital without gateway value, else within [0.25, 1.5] |
| `Capex.ComputeChannelBudget` | crates/revops-capital/src/capex.rs:429-523 | never negative; nothing for zombies, hard bleeders, blocked tiers and dead capital without gateway value |
| `Capex.Gather` | crates/revops-capital/src/capex.rs:548-584 | the accumulator loop computes every channel's budget, the 30-day fees, the hard-bleeder count and capacities, and the depleted flag |
| `Capex.EnforceEnvelope` | crates/revops-capital/src/capex.rs:649-656 | the in-place rescale is the specified one |
| `Capex.ComputeAllocations` | crates/revops-capital/src/capex.rs:533-686 | the whole allocation: shares enforced under the envelope, priority class, tallies |
| `CapexEnvelope.EnforcedFits` | crates/revops-capital/src/capex.rs:649-656 | shares stay non-negative and sum to at most the envelope, unscaled when they fit, and a scaled sum falls short by less than one msat per share |
| `CapexEnvelope.EnforcedKeepsOrder` | crates/revops-capital/src/capex.rs:649-656 | no share grows, and the larger of any two shares, channel, exploration or tactical, stays the larger |
| `CapexEnvelope.SpendNeverRaisesBudget` | crates/revops-capital/src/capex.rs:429-523 | money already spent on a channel never raises its budget and never changes its tier |
| `CapexEnvelope.RawBudgetIsFunded` | crates/revops-capital/src/capex.rs:470-508 | before the multipliers, budget and spend together stay within the reinvested contribution or the bootstrap share, whichever the tier draws on |
| `CapexEnvelope.CapsAreRespected` | crates/revops-capital/src/capex.rs:629-656 | every configured cap bounds the whole allocation; with none configured everyone gets what was asked |
| `CapexEnvelope.DegradedAllocatesNothing` | crates/revops-capital/src/capex.rs:620-627 | a failed spend read zeroes every share |
| `CapexEnvelope.TalliesAddUp` | crates/revops-capital/src/capex.rs:658-674 | the four priority totals are the allocation less growth-class channel budgets, and the defensive one is always zero |
| `LoopHealth.HealthTable.RegisterLoop` | crates/revops-db/src/loop_health.rs:238-248 | a fresh row, or new wiring that reactivates exactly when ready; nothing when refused |
| `LoopHealth.HealthTable.BeginLoopPass` | crates/revops-db/src/loop_health.rs:250-281 | a new generation exactly for a ready and active loop, atomically |
| `LoopHealth.HealthTable.FinishLoopPass` | crates/revops-db/src/loop_health.rs:283-337 | lands exactly for the newest generation without a terminal, else changes nothing |
| `LoopHealth.HealthTable.FailLoopPass` | crates/revops-db/src/loop_health.rs:293-337 | the same, storing the longest whole-character prefix of the error that fits |
| `LoopHealth.HealthTable.IncrementLoopBackpressure` | crates/revops-db/src/loop_health.rs:339-354 | adds to both counters of a registered loop |
| `LoopHealth.HealthTable.SuspendLoop` | crates/revops-db/src/loop_health.rs:356-365 | suspends a registered loop with the longest prefix of the reason that fits |
| `LoopHealth.HealthTable.ReconcileIncompleteOnRestart` | crates/revops-db/src/loop_health.rs:367-372 | closes every generation in flight as an error and counts them |
| `BoundedText.Bounded` | crates/revops-db/src/loop_health.rs:446-455 | the longest whole-character prefix within 512 bytes; at most three bytes are wasted |
| `LoopHealthRuns.LastIsLatest` | crates/revops-db/src/loop_health.rs:250-337 | the position the history names is that of a call with the effect, and no later call had it |
| `LoopHealthRuns.VerdictIsHistory` | crates/revops-db/src/loop_health.rs:495-519 | on every run the verdict for any boot is the one the order of past effects gives |
| `LoopHealthRuns.PassedExactly` | crates/revops-db/src/loop_health.rs:495-519 | Passed exactly when the loop is ready and active and the last terminal write was a finish by this boot for the newest generation |
| `LoopHealthRuns.ErrorExactly` | crates/revops-db/src/loop_health.rs:495-519 | Error exactly when the loop is ready, active and has nothing in flight, this boot recorded the last finish or fail, and the last terminal write was a fail or a restart reconcile |
| `LoopHealthRuns.ErrorIsOwnExactly` | crates/revops-db/src/loop_health.rs:367-372 | that Error is the boot's own failure exactly when the last terminal write is a fail, and a restart's otherwise |
| `LoopHealthRuns.GenerationsNeverFall` | crates/revops-db/src/loop_health.rs:250-337 | neither generation ever falls and the terminal one never passes the other |
| `LoopHealthRuns.TerminalsAscend` | crates/revops-db/src/loop_health.rs:311-337 | each generation gets at most one terminal: two that land close different generations, in order |
| `LoopHealthRuns.StaleTerminalIsInert` | crates/revops-db/src/loop_health.rs:311-337 | a finish or fail for a closed or older generation changes nothing |
| `LoopHealthRuns.GenerationCountsBegins` | crates/revops-db/src/loop_health.rs:250-281 | the n-th pass that begins is generation n |
| `LoopHealthRuns.FreshBootInheritsNothing` | crates/revops-db/src/loop_health.rs:461-519 | a boot that no call names is never Passed, Error or Incomplete |
| `LoopHealthRuns.ReconcileSettles` | crates/revops-db/src/loop_health.rs:367-372 | nothing is in flight afterwards and doing it again changes nothing |
| `LoopHealthRuns.ErrorWithoutOwnFailure` | crates/revops-db/src/loop_health.rs:367-372 | a run in which a boot is judged Error though it never failed |
| `FrozenWindow.CheckAttempt` | tools/replay_fee_capture_window.py:193-252 | accepts exactly the sound attempts: completed, eligible, canonical id, matching capture and counts |
| `FrozenWindow.CountAdjustments` | tools/replay_fee_capture_window.py:231-243 | counts the adjustments and rejects exactly on a malformed outcome |
| `FrozenWindow.RangeIsConsecutive` | tools/replay_fee_capture_window.py:256-261 | comparing with a range is consecutiveness |
| `FrozenWindow.Preflight` | tools/replay_fee_capture_window.py:155-290 | accepts exactly the closed, drained, lossless windows of consecutive sound captures under the byte limit, and returns them in order with their sums |
| `FrozenReplay.FrozenFilesAreDistinct` | tools/replay_fee_capture_window.py:201-261 | consecutive numbers and the per-file number check force the captures to be distinct files |
| `FrozenReplay.SetCheckNeverFails` | tools/replay_fee_capture_window.py:353-374 | equal count, membership and no duplicate already give equality of the file sets |
| `FrozenReplay.CheckResult` | tools/replay_fee_capture_window.py:377-438 | one result is accepted exactly when its counts match and its status, mismatch count and error agree |
| `FrozenReplay.ValidateChildResults` | tools/replay_fee_capture_window.py:347-443 | accepts exactly a right result for every capture, once each, with the mismatches counted |
| `FrozenReplay.ValidateChildVerdict` | tools/replay_fee_capture_window.py:446-488 | accepts exactly the verdicts whose summary, results and exit code agree with the window |
| `FrozenReplay.Run` | tools/replay_fee_capture_window.py:491-575 | exit code 0, a mismatch and an insufficient window are each answered exactly under their conditions; everything else is the input code |
| `FrozenReplay.ExactReplayCoversWindow` | tools/replay_fee_capture_window.py:347-488 | an accepted exact replay has one exact result for each capture and no other, and the totals it claims are the sums of its own results |
| `FrozenReplay.MismatchNamesACapture` | tools/replay_fee_capture_window.py:434-443 | a mismatch verdict names at least one capture and its total counts them |

## Left out

- SQLite, WAL, busy timeouts and retry sleeps: only "a statement may fail" and "a transaction is atomic" are kept; ROLLBACK itself is taken to succeed.
- Tables of `fee_runway.rs` no modelled operation decides on (mempool samples, trigger journal, restart markers, snapshots' contents, nonces): rows that are only appended.
- A refused COMMIT is taken to leave its transaction open, as sqlite does when the file is busy; failures on which sqlite itself rolls back are not told apart.
- Schema creation and migration, and everything the actor, ssh, subprocess and command-line layers do.
- Error wording: an error is one value, except the path of the first float, the size in a telemetry rejection and a generation conflict.
- Row order of `load_latest_state` (ORDER BY channel_id): the rows are a map.
- 64-bit overflow of generations, sums and amounts, other than the checked additions of the budget status and the conversions of loop-health arguments.
- IEEE-754: NaN, infinities and the filter's NaN reset, rounding and compensated summation; the square root is an arbitrary function.
- `calculate_confidence`, `calculate_adaptive_decay`, `calculate_ema_flow`, depletion hours and the temporal profile: powers, logarithms or single formulas.
- FeeStore.Store.CycleExistsWithGeneration: does not model the read transaction that a refused COMMIT would leave open, because the source ignores that answer and nothing was written; every later commit on that connection then fails at BEGIN until it is reopened.
- BudgetStatus.ReadBudgetStatus: does not model a SUM that overflows half way and would come back into range, because rows have no order here.
- Normal.CategoryIsStable: does not model letters outside ASCII, because case folding tables are not part of this model.
- Kalman.ApplyKalmanFilter: does not model the NaN-recovery count, which is about values a real cannot take.
- JsonWriters.DatastoreEnvelope: requires a payload without floats, because `py_repr` is not modelled.
- JsonWriters.JsonWriter.WriteDoc: requires a document without floats, for the same reason.
- Budget metadata reaches the reserve already serialised; the writer itself is `JsonWriters.MetadataJson`.
- The budget queries `get_category_spend_sats`, `get_spend_reservation_states` and `count_stale_reservations`: read-only views.
- The diff tool's transport, its skip, manual and non-comparable information rows, the report text and its exit code.
- Fields of the allocator's result that nothing is decided on: ids, success rates, multipliers, and the conversions to sats; `attribute_boltz_cost`.
- Loop health's boot-session table, row listing order and the parsing of stored enumerations.
- Quarantine.Ledger.RecordBroadcastAttemptResult: does not promise exactly-once, because the source has no guard on an earlier outcome.
- The frozen window's filesystem is a fixed map from names to files; argument parsing, stream decoding and the emitted verdict's other fields.
