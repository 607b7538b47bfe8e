# The provenance pipeline before publication, modelled and proved

This project models the evidence protocol under `scripts/`: provider records are ingested as
append-only observations, resolved into star, location and scope facts, swept for duplicate
candidates, reviewed by humans, and judged by an eleven-condition gate that decides whether a
property may be published. An approval can be withdrawn. The claims that matter are about whole
runs, so they are proved over every interleaving, every batch sequence and every input list.

Three kinds of member appear.

* Code that changes tables or walks lists in place is a `class` or a `method` with loops, proved
  against a specification function or against a declarative statement.
* Code made of expressions is a function.
* Everything the source promises about either is a lemma.

One committed transaction is one atomic step and an aborted one is no step. A table is a map keyed
by its unique constraint. A hash is a parameter where its value is compared and the hashed content
itself elsewhere. Row ids, clocks and query orders are inputs.

| file | component |
|---|---|
| `Prelude`, `Text`, `Sequences` | options, string order and stable sort, filter / map / distinct |
| `Dates`, `Lifecycle`, `LifecycleMeaning` | calendar dates as strings, the lifecycle outcome |
| `Gate`, `GateMeaning`, `GateVerdicts`, `Checklist` | the eleven conditions, what PASS and readiness mean, every reason and FAIL over the input's fields |
| `GateFingerprint`, `EvidenceReadback`, `FingerprintMeaning`, `JoinedText`, `KeyMeaning` | the fingerprint payload, what it forgets and what it pins, and what the joined keys separate |
| `Review`, `ReviewHistory`, `ReviewRuns`, `ReviewReplay`, `ApprovalEffect`, `ApprovalWitness` | approvals: the step, its invariant, runs of steps, replay, and the gate afterwards |
| `Withdrawal`, `ReviewBrake` | revocation, the revocation pack, and what the brake guarantees |
| `ReviewRules`, `ReviewAcceptance`, `ReviewBinding`, `ReviewLoader`, `WithdrawalRules` | every outcome of one item over the rows alone, the rows it writes, and what a decision is bound to |
| `ReviewDatabase` | the same protocol as methods over mutable tables |
| `Discovery`, `DiscoveryMeaning`, `Queues`, `Sweep`, `SweepMeaning`, `Generation` | candidate discovery, the review queues, the candidate writer with its sync gate, and the command that joins them |
| `EntityLoader` | what the gate loads from those tables, and condition 11 after the generator ran |
| `Ingestion`, `IngestionWriter`, `IngestionMeaning` | the ingestion ledger, the chunked writer, and what its counters count |
| `CanonicalNumeric`, `Resolution`, `ResolutionMeaning`, `RevisionLedger`, `ResolutionRun`, `ResolutionRows` | decimal text, the three folds, the append-only ledger, one resolution run |
| `JsonValues`, `IssueExtraction`, `IssueMeaning`, `LifecycleStore`, `LifecycleWriter`, `LifecycleRows` | issue extraction and its snapshot writer |
| `CanonicalJson`, `JsonParser` | canonical serialisation and the parser that inverts it |
| `Clusters`, `Paginate`, `Csv` | connected components, the pagination driver, CSV print and scan |

Findings the proofs turned up, each stated with its exact condition:

* `ApprovalEffect.ApprovalPassesIff`: readiness never asks whether a canonical hotel was accepted for
  the identity, so an approval that passes readiness makes the gate pass iff none was;
  `ApprovalWitness.AcceptedHotelDefeatsReadyApproval` is such an approval.
* `GateFingerprint.IssueOrderFreeIff`: the payload forgets the provider's issue order iff equal window
  keys mean equal windows; a missing and an empty date share a key, and `GateFingerprint.SwappedRowsShow`
  is a snapshot of two such rows whose payload changes when they are read the other way round, and
  `KeyMeaning.IssueOrderFreeOverColumns` says that such a pair is the only obstacle.
* `LifecycleWriter.IssueTotalsAgreeIff` and `MismatchIffCollision`: a dry run's issue total is the
  apply's iff no two issues of a created snapshot agree on every digested column, and otherwise that
  snapshot evaluates to `issue_count_mismatch`. Two provider entries that differ only in their
  description do so.
* `ReviewAcceptance.SameDigestIff`: the receipt digest covers neither the reviewer's user id nor the pack's
  provider id, so a second manifest that differs only in the user is `already_applied` under the first one's.
* `FingerprintMeaning.SameReview`: where condition 1 prints the receipt, the receipt's columns overwrite the
  projection's reviewer, label and time, so those three of the projection are not in the fingerprint.
* `IngestionMeaning.TimesAgreeIff`: a known run id arriving with another start records a seen time its run
  never had iff some observation of the batch creates its identity, or is new for the run while the run is
  newer than the one the identity was last seen in; `IngestionMeaning.SecondStartIsStamped` is such a pair of
  batches. The run id does not exclude it, since the fingerprint leaves the start out
  (`scripts/provider-ingestion/manifest.ts:345-357`). The one adapter in the tree fixes a run's properties by
  artifact digest, and batches of that kind never do it (`IngestionMeaning.TimesAgreeOverRuns`); it takes a
  direct caller of the exported `applyIngestion`.
* `IngestionWriter.IngestionStore.PreviewIngestion`: a preview is exact (but for `lastSeenAdvanced`,
  which it does not compute) iff no provider id is repeated; `IngestionWriter.RepeatAcrossChunksOvercounts`
  is a batch the apply accepts and the preview counts twice.
* `Csv.PrintThenScanIsExactIff`: the matrix comes back unchanged iff no cell begins with a guarded
  character.
* `Paginate.PaginateAll`: the driver's last note, "did not terminate naturally", is never written.

## Model

| member | source | states |
|---|---|---|
| ReviewRuns.NoUnrevoke | scripts/human-review-revocation/revoke.ts:188-445 | over every interleaving of observing, approving, deferring and revoking: a revoked receipt and its revocation never change, and the gate passes later only on another receipt about another observation, bound by an approval step of the run |
| ReviewRuns.RunIsSafe | scripts/human-review/apply.ts:608-676 | every reachable state is coherent, and receipts and revocations only ever accumulate |
| ReviewRuns.EmptyIsCoherent | scripts/human-review-revocation/pack.ts:165-192 | empty tables are coherent, so every run from them is |
| ReviewRuns.PassCitesLiveReceipt | scripts/prepublication-preview/evaluate.ts:303-409 | a PASS for `approve_create` names the projection's own receipt, active and unrevoked, whatever the machine evidence says |
| ReviewRuns.FindBinding | scripts/human-review/apply.ts:634-676 | a receipt that becomes current during a run was bound by a committed approval of that run |
| Review.SelectedReceipt | scripts/prepublication-preview/preview.ts:90-101 | the loader picks the one receipt no other outranks: current observation first, then newest, then id |
| ReviewHistory.ApplyKeepsCoherent | scripts/human-review/apply.ts:320-679 | one review item keeps the projection equal to its receipt and one receipt per (identity, observation) |
| ReviewHistory.RevokeKeepsCoherent | scripts/human-review-revocation/revoke.ts:188-445 | one withdrawal keeps "revoked exactly when its receipt has an event" |
| ReviewHistory.ManifestIsExact | scripts/human-review/apply.ts:271-318 | refused and already-applied items change nothing; new receipts are the applied outcomes, one for one |
| ReviewReplay.ManifestReplays | scripts/human-review/apply.ts:400-477 | an immediate replay answers `already_applied` for every applied item, repeats every refusal and changes nothing |
| ReviewReplay.OneItemIsLocal | scripts/human-review/apply.ts:320-679 | an item about one identity neither reads nor writes another identity's rows |
| ReviewBinding.DecisionIsBoundToItsEvidence | scripts/human-review/apply.ts:479-502 | a human decision is bound to the evidence that human saw: with a hash that never collides, an accepted item means the date, current observation, star, scope, location, review, receipt, entity and lifecycle rows of the preview the pack quoted are those of the manifest, whatever happened in between |
| ReviewRules.ReviewByChecks | scripts/human-review/apply.ts:320-590 | any item, any tables with one receipt per observation: the outcome is the refusal of the first broken check in the order of the source, each check over rows and item alone; none broken, it is `already_applied` or written |
| ReviewAcceptance.DecisionAcceptedIff | scripts/human-review/apply.ts:320-590 | a decision is written iff scope, provider id, observation, run and payload still are what was reviewed, nothing was decided about the observation, the reviewed fingerprint is the preview run's, the machine evidence is clear, and catalogue, projection and finding allow it |
| ReviewAcceptance.DecisionWrites | scripts/human-review/apply.ts:592-734 | the receipt, finding and projection an accepted decision leaves, column by column, and nothing else |
| ReviewAcceptance.SameDigestIff | scripts/human-review/apply.ts:112-139 | with a hash that never collides two items share a receipt digest iff evidence, decision, destination, label, note, verifications and references are the same; order is forgotten |
| ReviewAcceptance.PreviewRunRefused | scripts/prepublication-preview/preview.ts:133-266 | the preview run of a manifest fails exactly without a policy, or, when some property is in scope, with an unapproved policy or a date that is no calendar day |
| ReviewAcceptance.SecondDecision | scripts/human-review/apply.ts:454-477 | against a recorded decision on the observation an item is `already_applied` iff its content hashes to the recorded one, and a conflict otherwise; nothing is written |
| ApprovalEffect.ApprovalPassesIff | scripts/human-review/apply.ts:608-676 | after an approval the gate passes iff no canonical hotel had been accepted for the identity |
| ApprovalWitness.AcceptedHotelDefeatsReadyApproval | scripts/human-review/apply.ts:479-676 | a concrete property, before any review, whose well-formed manifest is ready and accepted and whose gate then does not pass |
| ApprovalEffect.WrittenReceiptSelected | scripts/prepublication-preview/preview.ts:90-101 | the receipt an approval writes is the one the loader hands to the gate |
| ReviewLoader.NewestCurrentReceipt | scripts/prepublication-preview/preview.ts:90-101 | the receipt loaded is about the current observation before any other, then the newest, then the greatest id |
| ReviewLoader.LoadedColumns | scripts/prepublication-preview/preview.ts:60-101 | every row the gate is handed, column by column; the revocation beside a projection is the one of the receipt it names |
| ReviewLoader.LoadedCatalogue | scripts/prepublication-preview/preview.ts:82-86 | the reviewed destination and the target hotel are the catalogue's rows for the ids the review names |
| WithdrawalRules.WithdrawalByChecks | scripts/human-review-revocation/revoke.ts:188-413 | any manifest, any tables: the outcome is the refusal of the first broken check over rows and item alone; none broken, it is `already_revoked` or a withdrawal |
| WithdrawalRules.WithdrawalAcceptedIff | scripts/human-review-revocation/revoke.ts:195-413 | a withdrawal is accepted iff every pin holds, spelled out over projection, identity and receipt, and the receipt has no event |
| WithdrawalRules.PackIsExact | scripts/human-review-revocation/pack.ts:165-217 | in any tables, coherent or not, the pack emits an active approval iff some manifest could withdraw it |
| WithdrawalRules.RevocableIff | scripts/human-review-revocation/pack.ts:95-111 | what the pack demands of a row, over projection, receipt and events |
| WithdrawalRules.LabelOnly | scripts/human-review/apply.ts:296-303 | committing changes the label of a written outcome and nothing else, in both manifests |
| WithdrawalRules.WithdrawalRecords | scripts/human-review-revocation/revoke.ts:415-444 | the event an accepted withdrawal records, column by column, and the one column it moves |
| WithdrawalRules.StandingWithdrawal | scripts/human-review-revocation/revoke.ts:244-310 | aimed at an approval that stands withdrawn, a manifest is `already_revoked` iff its content hashes to the recorded event's digest, and a conflict otherwise; the reason is never rewritten |
| WithdrawalRules.OneFillingStands | scripts/human-review-revocation/revoke.ts:304-310 | with a hash that never collides, two fillings of one pack item that differ in label, user or note are never both `already_revoked` |
| WithdrawalRules.SameWithdrawalIff | scripts/human-review-revocation/revoke.ts:97-109 | two manifests share a revocation digest iff approval, person and reason are the same |
| ReviewBrake.EveryActiveApprovalIsRevocable | scripts/human-review-revocation/pack.ts:165-217 | in a coherent state every active approval is emitted, so both incoherence counts are zero |
| ReviewBrake.BrakeAlwaysWorks | scripts/human-review-revocation/revoke.ts:195-445 | the emitted item with a label and a note is accepted whatever the machine evidence, moves only the status, and replays as `already_revoked` with no write |
| ReviewBrake.PackedItemAcceptedIff | scripts/human-review-revocation/revoke.ts:188-445 | over any run from the pack to the withdrawal the filled item is accepted iff the approval it was read from is still in force: same projection, same receipt, active |
| ReviewBrake.BrakeWorksAfterDrift | scripts/human-review-revocation/pack.ts:192-236 | packed in one state and applied in a later one that only machine drift separates, the item is accepted, moves only the status and replays idly |
| ReviewBrake.BrakedGateHolds | scripts/prepublication-preview/evaluate.ts:303-305 | no drift of machine evidence makes the gate pass a revoked approval |
| ReviewBrake.OldRevocationCannotTouchNewApproval | scripts/human-review-revocation/revoke.ts:240-312 | replaying a withdrawal after a fresh approval is refused and the approval stays |
| ReviewBrake.IncoherenceRefusalsAreUnreachable | scripts/human-review-revocation/revoke.ts:275-413 | in every state a run reaches, `revocation_state_incoherent` and `review_projection_receipt_mismatch` are never the refusal, whatever the manifest |
| ReviewRuns.RunKeepsApprovals | scripts/human-review/apply.ts:634-676 | every projection a run reaches is an `approve_create` |
| ReviewBrake.OtherDecisionsMeetTheRefusal | scripts/human-review-revocation/revoke.ts:275-286 | for any located projection, exactly when `revocation_state_incoherent` is the ruling: an active pointer at a receipt that has an event |
| ReviewBrake.RevokedApprovalIsNotReapplied | scripts/human-review/apply.ts:400-452 | the original manifest, replayed after the brake, is refused and writes nothing |
| ReviewBrake.EmissionFilterAgreesWithGate | scripts/source-publication/pack.ts:174-299 | the publication pack's second filter never rejects an `approve_create` the gate passed |
| ReviewDatabase.ValidateReviewedItem | scripts/human-review/apply.ts:142-227 | an item is accepted iff it is well formed, and otherwise refused with the code of the first rule it breaks |
| ShapeRules.ShapeByChecks | scripts/human-review/apply.ts:142-227 | the shape rules over the item's own fields: a defer's two checks; for an approval its destination, the first broken check of the first verification that breaks one, the six dimensions as a set, and the first broken reference |
| ShapeRules.RevocationShapeByChecks | scripts/human-review-revocation/revoke.ts:112-133 | a withdrawal item is refused for the first of four shape checks it breaks |
| ShapeRules.PackedColumns | scripts/human-review-revocation/pack.ts:192-221 | an emitted item pins the rows it was read from, leaves the human's fields empty, and its context quotes the projection |
| ReviewDatabase.Database.ApplyOne | scripts/human-review/apply.ts:320-679 | the statement sequence produces exactly the specified tables and outcome; a refusal leaves the tables as they were |
| ReviewHistory.WrittenShape | scripts/human-review/apply.ts:608-734 | what one decision writes: one receipt stating the item's pins, the projection only for an approval, nothing else touched |
| ReviewDatabase.Database.ApplyReviewedManifest | scripts/human-review/apply.ts:271-318 | a dry run reports the apply's outcomes up to the label and writes nothing; the first malformed item, or a failing preview, aborts with its own error |
| ReviewDatabase.ReviewManifestIsAStep | scripts/human-review/apply.ts:271-318 | what one call of the method leaves, its row ids being new, is a step of the runs every safety theorem quantifies over |
| ReviewDatabase.RevocationManifestIsAStep | scripts/human-review-revocation/revoke.ts:157-186 | the same for the withdrawal manifest, whatever its ids |
| ReviewDatabase.Database.RevokeOne | scripts/human-review-revocation/revoke.ts:188-445 | pins, idempotency before state, then one event and one moved column |
| ReviewDatabase.Database.ApplyRevocationManifest | scripts/human-review-revocation/revoke.ts:157-186 | the withdrawal manifest with the same dry-run contract |
| ReviewDatabase.Database.BuildRevocationPack | scripts/human-review-revocation/pack.ts:151-236 | the active approvals asked for, in row order: an item with its context iff the row is revocable, every other row counted under its own fault, and no fault at all in a coherent state |
| GateMeaning.PassMeansFullAuthorization | scripts/prepublication-preview/evaluate.ts:250-891 | overall PASS for `approve_create` is an explicit conjunction over receipt, scope, star, location, snapshot and destination, all citing the current observation |
| GateMeaning.AllPass | scripts/prepublication-preview/evaluate.ts:843-887 | condition 5 is derived: the eleven pass iff the other ten do |
| GateMeaning.ElevenPassIsOverallPass | scripts/source-publication/pack.ts:174-178 | "every condition passes" and "overall PASS" agree on every preview |
| GateMeaning.ReadyMeansMachineEvidenceClear | scripts/human-review/readiness.ts:48-77 | readiness is the machine half of PASS: no review, destination, target hotel or receipt affects it |
| GateMeaning.ReadinessOf | scripts/human-review/readiness.ts:48-77 | the verdict and its blockers are exactly the non-review conditions that do not pass |
| GateMeaning.ContradictionMeaning | scripts/prepublication-preview/evaluate.ts:252-264 | accepted candidates contradict iff two hotels differ, or a hotel stands beside a new property |
| GateMeaning.NoConflictMeaning | scripts/prepublication-preview/evaluate.ts:252-270 | the no-conflict test holds iff the sweep is in sync, nothing is pending or anomalous, no accepted decisions contradict, and there is a current observation |
| GateVerdicts.IdentityOfApproval | scripts/prepublication-preview/evaluate.ts:410-520 | condition 1 of an approval passes iff ten checks over review, receipt and entity hold, and is held for the reason of the first one broken |
| GateVerdicts.DestinationOfApproval | scripts/prepublication-preview/evaluate.ts:522-631 | the same for condition 2 and its seven checks |
| GateVerdicts.IdentityOfMatch | scripts/prepublication-preview/evaluate.ts:410-520 | condition 1 of a match: clear evidence and one accepted hotel that is the target, else the first reason |
| GateVerdicts.DestinationOfMatch | scripts/prepublication-preview/evaluate.ts:522-631 | condition 2 of a match: the target hotel is loaded and a reviewed destination is its own |
| GateVerdicts.MatchPassesIff | scripts/prepublication-preview/evaluate.ts:250-893 | overall PASS of a match is an explicit conjunction too |
| GateVerdicts.OnlyApprovalsPass | scripts/prepublication-preview/evaluate.ts:410-520 | nothing passes without an approval |
| GateVerdicts.FailMeansAuthoritativeFact | scripts/prepublication-preview/evaluate.ts:843-893 | overall FAIL iff the review rejects, a current scope is not a hotel, a known closure holds the day, or a current star is outside V1; everything else short of PASS is UNRESOLVED |
| GateVerdicts.ScopeCriticalInputs | scripts/prepublication-preview/evaluate.ts:843-887 | condition 5 prints seven conditions, fails iff one fails and passes iff all pass |
| GateVerdicts.StarReasons | scripts/prepublication-preview/evaluate.ts:712-745 | each reason of condition 6 holds exactly on its own rows |
| GateVerdicts.StarProvenanceReasons | scripts/prepublication-preview/evaluate.ts:747-769 | each reason of condition 7 holds exactly on its own rows, and it never fails by itself |
| GateVerdicts.ScopeReasons | scripts/prepublication-preview/evaluate.ts:633-678 | each reason of condition 3 holds exactly on its own rows |
| GateVerdicts.LocationReasons | scripts/prepublication-preview/evaluate.ts:771-821 | conditions 8, 9 and 10 pass exactly on a current, conflict-free, resolved point with their own columns |
| GateVerdicts.LifecycleReasons | scripts/prepublication-preview/evaluate.ts:680-710 | condition 4 fails iff a readable mapped window of the current snapshot holds the day |
| GateVerdicts.ConflictReasons | scripts/prepublication-preview/evaluate.ts:823-841 | condition 11 is held for contradiction, then open conflict, then sync, each exactly |
| FingerprintMeaning.FingerprintsAgreeIff | scripts/prepublication-preview/evaluate.ts:225-248 | with a hash that never collides two previews share a fingerprint iff identity, date and the eleven conditions agree |
| FingerprintMeaning.FingerprintPinsEvidence | scripts/prepublication-preview/evaluate.ts:894-910 | equal fingerprints mean the same review, receipt, entity, scope, star, location and lifecycle rows, as far as the gate looks at each |
| FingerprintMeaning.DifferingRowShows | scripts/prepublication-preview/evaluate.ts:894-910 | one differing current star, scope, point, receipt, review, target hotel, candidate or identity changes the fingerprint |
| FingerprintMeaning.PreviewHeader | scripts/prepublication-preview/evaluate.ts:894-910 | a preview names its identity and date, is FAIL iff a condition fails and PASS iff all pass |
| EvidenceReadback.ReceiptReadsBack | scripts/prepublication-preview/evaluate.ts:356-409 | the receipt reads back by key from any evidence object that shows it |
| EvidenceReadback.ReviewReadsBack | scripts/prepublication-preview/evaluate.ts:279-280 | the review reads back by key from any evidence object that shows it |
| EvidenceReadback.StarReadsBack | scripts/prepublication-preview/evaluate.ts:712-745 | the star row reads back by key |
| EvidenceReadback.ScopeReadsBack | scripts/prepublication-preview/evaluate.ts:633-678 | the scope row reads back by key |
| EvidenceReadback.LocationReadsBack | scripts/prepublication-preview/evaluate.ts:771-821 | the location row reads back by key |
| EvidenceReadback.EntityReadsBack | scripts/prepublication-preview/evaluate.ts:271-278 | the entity evidence reads back, each list in its printed order |
| EvidenceReadback.LifecycleReadsBack | scripts/prepublication-preview/evaluate.ts:208-223 | the lifecycle verdict reads back, each list in its printed order |
| GateFingerprint.PayloadOrderFree | scripts/prepublication-preview/evaluate.ts:208-248 | reading evidence lists in another order leaves the fingerprint payload unchanged when sort keys separate |
| GateFingerprint.IssueOrderFreeIff | scripts/prepublication-preview/evaluate.ts:208-223 | for the provider's issues the separating-keys condition is exact |
| GateFingerprint.MissingAndEmptyDatesCollide | scripts/prepublication-preview/evaluate.ts:209-212 | a window with no start date and one with an empty start date share a sort key |
| GateFingerprint.SwappedRowsShow | scripts/prepublication-preview/evaluate.ts:209-223 | on any date, one concrete snapshot of two such windows has two payloads, one for each reading order |
| KeyMeaning.IssueKeyMeaning | scripts/prepublication-preview/evaluate.ts:208-216 | on texts without a bar two windows share a sort key iff they are the same up to a missing date standing for an empty one |
| KeyMeaning.IssueOrderFreeOverColumns | scripts/prepublication-preview/evaluate.ts:208-223 | so the payload forgets the provider's issue order iff no two windows it reads differ only in such a date |
| KeyMeaning.CandidateKeysSeparate | scripts/prepublication-preview/evaluate.ts:253-258 | row ids being unique, candidate keys always separate |
| Text.SortOrderFreeIff | scripts/prepublication-preview/evaluate.ts:204-206 | a stable keyed sort forgets the input order iff equal keys mean equal elements |
| Dates.ValidIffRealDate | scripts/lifecycle/policy.ts:158-163 | accepted strings are exactly the real dates of the form (sections 5.6 and 5.7 of RFC 3339) |
| Dates.GregorianCount | scripts/lifecycle/policy.ts:158-163 | the day count is the Gregorian one, in closed form: 365 a year, one more every fourth, none every hundredth, one every four-hundredth |
| Dates.MonthCount | scripts/lifecycle/policy.ts:158-163 | and so are the days before each month |
| Dates.StringOrderIsDayOrder | scripts/lifecycle/policy.ts:166-176 | string order is day-number order (section 5.1 of RFC 3339) |
| Dates.CoversDateIsDayContainment | scripts/lifecycle/policy.ts:177-179 | a window covers a date iff its days enclose it, endpoints included |
| Lifecycle.OutcomeMeaning | scripts/lifecycle/policy.ts:198-362 | the three outcomes, over calendar days: `known_closed` iff accounted for, all mapped windows readable, one containing the day |
| Lifecycle.OutcomeIgnoresUnmappedAndOrder | scripts/lifecycle/policy.ts:283-362 | unmapped issues, repetitions and issue order never change the outcome |
| Lifecycle.CollectUnresolvedReasons | scripts/lifecycle/policy.ts:309-335 | one defect per unreadable window, in order, and none iff every range is readable |
| LifecycleMeaning.DefectByChecks | scripts/lifecycle/policy.ts:309-335 | the one defect of a window is its first broken check: a date missing, not a day of the calendar, or a range whose days are inverted |
| LifecycleMeaning.EvaluationColumns | scripts/lifecycle/policy.ts:198-362 | an evaluation quotes its policy, date, observation and snapshot, lists exactly the reviewed issues, and prints exactly the windows that hold the day |
| Lifecycle.MappedMeansApprovedPair | scripts/lifecycle/policy.ts:285-308 | on NUL-free codes the joined key names exactly the reviewed pair |
| Discovery.DiscoverCandidates | scripts/entity-resolution/candidates.ts:157-288 | pairs, clusters, collisions, incomplete geography and the per-reason counts are exactly what the buckets of the surviving identities say |
| Discovery.GroupByKey | scripts/entity-resolution/candidates.ts:179-187 | one pass fills the three groupings with exactly the identities of each class, in order |
| Discovery.DecideVeto | scripts/entity-resolution/candidates.ts:202-207 | a key is vetoed iff it occurs in two known destinations |
| Discovery.ExpandScoped | scripts/entity-resolution/candidates.ts:209-243 | a bucket yields a pair iff it holds exactly two and its key is not vetoed |
| Discovery.ReportUnknown | scripts/entity-resolution/candidates.ts:246-255 | keys without geography are reported, never paired |
| Discovery.ReportCollisions | scripts/entity-resolution/candidates.ts:257-265 | every vetoed key is reported with all its identities in order and all its destinations once each |
| Discovery.CollectPairs | scripts/entity-resolution/candidates.ts:268-280 | the pair list is strictly ascending with reasons in the fixed order, and each reason's count is the pairs that carry it |
| Discovery.JoinOrder | scripts/entity-resolution/candidates.ts:236-241 | ordering joined ids is ordering by left then right identity |
| DiscoveryMeaning.PairsOverColumns | scripts/entity-resolution/candidates.ts:128-137 | a pair carries `exact_domain`, `exact_phone` or `exact_name_in_destination` iff some known destination holds one domain, phone or name key in exactly those two and no other known destination holds it |
| DiscoveryMeaning.NoFindingOverColumns | scripts/entity-resolution/queues.ts:51-85 | no machine finding iff alone on its domain, on its phone and on its name, each over its own column |
| DiscoveryMeaning.FindingsOverColumns | scripts/entity-resolution/candidates.ts:209-265 | clusters, collisions and unknown-geography findings, each over its own column, members included |
| DiscoveryMeaning.FindingsAreOnce | scripts/entity-resolution/candidates.ts:209-265 | no cluster and no unknown-geography finding is reported twice |
| Queues.PairCarriesReason | scripts/entity-resolution/candidates.ts:209-243 | a listed pair carries a reason iff some known destination's bucket is exactly those two and the key occurs in no other |
| Queues.NoMachineFindingMeaning | scripts/entity-resolution/queues.ts:51-85 | of what discovery returns: an identity has no machine finding iff on every reason its key is null, or it is alone in its scope's bucket and the key spans at most one known destination |
| Queues.DiscoveryOrderFree | scripts/entity-resolution/candidates.ts:157-288 | of what discovery returns on unique ids: permuting the input changes neither the pairs, nor the counts, nor any finding set |
| Queues.PartitionForReview | scripts/entity-resolution/queues.ts:51-85 | the queues partition the identities by what surfaced them |
| Sweep.CandidateTable.VisitPair | scripts/entity-resolution/writer.ts:265-364 | insert, else reactivate, else refresh, else leave the row to whoever owns it, with its counter |
| SweepMeaning.SweptColumns | scripts/entity-resolution/writer.ts:265-395 | every row of a swept table, column by column: opened, reopened with its machine reason and resolution cleared, refreshed, stood down, or left as it was |
| SweepMeaning.SweepKeepsShape | supabase/migrations/0030_entity_resolution_idempotency.sql:126-133 | a machine reason stands only on a superseded row and no resolution on an open one, after every sweep |
| SweepMeaning.MethodNames | scripts/entity-resolution/candidates.ts:290-292 | the method is the reasons' names in alphabetical order behind the machine prefix |
| SweepMeaning.CountersCount | scripts/entity-resolution/writer.ts:265-364 | each counter of a sweep is the number of pairs it names: opened, reopened, refreshed, decided, manual |
| SweepMeaning.PreparedColumns | scripts/entity-resolution/writer.ts:240-244 | each prepared pair holds its ids, the method its reasons name and the comparison of the two, left first |
| SweepMeaning.PairTextIsUnordered | scripts/entity-resolution/queues.ts:134-137 | the sync gate compares pairs whichever way round they are written |
| Sweep.SweptAfterStandDown | scripts/entity-resolution/writer.ts:366-401 | standing down the stale rows after the visits completes the pair-by-pair specification |
| Sweep.CandidateTable.GenerateCandidates | scripts/entity-resolution/writer.ts:224-414 | the sweep takes the table to its pair-by-pair specification |
| Sweep.SweepIsIdempotent | scripts/entity-resolution/writer.ts:263-401 | a second sweep creates, refreshes, reactivates and supersedes nothing |
| Sweep.SweepKeepsHumanRows | scripts/entity-resolution/writer.ts:263-401 | accepted, rejected, human-superseded and manual rows are untouched |
| Sweep.RunKeepsRows | scripts/entity-resolution/writer.ts:366-401 | over any run of sweeps and human work no row is deleted |
| Sweep.DiscoverySweepConverges | scripts/entity-resolution/queues.ts:190-211 | sweeping what discovery found into any table the schema can hold leaves the gate in sync, nothing missing and nothing stale |
| Sweep.SweepReachesSync | scripts/entity-resolution/queues.ts:190-211 | over arbitrary tables, the exact condition: no discovered pair's row is one the writer may neither revive nor count |
| Generation.GenerateCandidates | scripts/entity-resolution/writer.ts:224-414 | discover, partition, compare, tally and sweep: every reported number is what the tables and findings say |
| Generation.PreparePairs | scripts/entity-resolution/writer.ts:240-256 | each discovered pair with its evidence, the identities in some pair, and the evidence tallies |
| Generation.AgreeingDimensionsCount | scripts/entity-resolution/writer.ts:244-256 | the tally key is the number of the five dimensions that agree |
| Generation.GeneratedTableIsInSync | scripts/prepublication-preview/preview.ts:180-200 | the gate's own loader and comparator accept what the command leaves |
| Sweep.InSyncMeaning | scripts/entity-resolution/queues.ts:190-211 | in sync iff every discovered pair is persisted or accounted for and every persisted machine pair is discovered |
| Sweep.DiscoveryPrepares | scripts/entity-resolution/writer.ts:236-247 | discovered pairs are oriented, distinct and machine-named, as the sweep requires |
| EntityLoader.ConflictAfterGeneration | scripts/prepublication-preview/preview.ts:145-264 | after the generator ran, condition 11 holds iff there is a current observation, every discovered pair of the identity was settled before, no manual pair or other candidate is open, it is in no cluster, collision or unknown-geography bucket, and what was accepted agrees; the gate is always in sync |
| EntityLoader.PendingAfterSweep | scripts/prepublication-preview/preview.ts:204-206 | the sweep leaves an identity an open pair iff one was discovered for it and not settled, or a person left one open |
| EntityLoader.NoFindingLeavesTheHumanHalf | scripts/prepublication-preview/evaluate.ts:252-270 | for a record of the no-finding queue condition 11 turns only on its observation and on what people left open or accepted |
| EntityLoader.ComposedColumns | scripts/prepublication-preview/preview.ts:204-246 | the accepted candidates, open ids and anomaly names the gate is handed, each exactly |
| Ingestion.IngestKeepsAgreement | scripts/provider-ingestion/writer.ts:174-362 | every batch keeps `observation_count` equal to the identity's rows and `last_seen` at its greatest run, and never moves `first_seen` |
| Ingestion.LedgerAgrees | scripts/provider-ingestion/writer.ts:174-362 | so over any sequence of batches |
| Ingestion.ReplayWritesNothing | scripts/provider-ingestion/writer.ts:347-362 | a replayed batch is the identity on the whole store |
| IngestionWriter.Chunk | scripts/provider-ingestion/writer.ts:51-55 | the chunks, flattened, are the items |
| IngestionWriter.AssertAttributesBounded | scripts/provider-ingestion/writer.ts:78-92 | refuses iff some payload is over the bound, naming the first |
| IngestionWriter.UniqueIsUniquePerChunk | scripts/provider-ingestion/writer.ts:242-274 | unique ids never trip the one-touch-per-row rule, whatever the chunk size |
| IngestionWriter.UpsertsAppend | scripts/provider-ingestion/writer.ts:242-274 | identity upserts fold over concatenation |
| IngestionWriter.ObservesAppend | scripts/provider-ingestion/writer.ts:280-332 | observation inserts fold over concatenation |
| IngestionWriter.AdvanceAppend | scripts/provider-ingestion/writer.ts:351-362 | pointer moves and their count fold over disjoint chunks |
| IngestionWriter.IngestionStore.ApplyIngestion | scripts/provider-ingestion/writer.ts:174-377 | state and counters do not depend on the chunk size; an error leaves the store as it was; it fails iff a payload is too large or one chunk repeats an id |
| IngestionWriter.IngestionStore.PreviewIngestion | scripts/provider-ingestion/writer.ts:95-128 | predicts every apply counter except `lastSeenAdvanced` iff ids are unique |
| IngestionWriter.RepeatAcrossChunksOvercounts | scripts/provider-ingestion/writer.ts:110-128 | one id twice, a chunk each: the apply is accepted and creates one observation, the preview reports two |
| IngestionMeaning.CountersAreGrowth | scripts/provider-ingestion/writer.ts:275-345 | every creation counter is the growth of its table |
| IngestionMeaning.AdvancedCountsMovedPointers | scripts/provider-ingestion/writer.ts:351-362 | `lastSeenAdvanced` is the number of identities whose pointer moved |
| IngestionMeaning.TimesAgreeIff | scripts/provider-ingestion/writer.ts:246-257 | first and last seen times stay the starts of the runs they name iff the batch states its run's recorded start, or no observation of it creates its identity or is a new observation of a run recorded as newer |
| IngestionMeaning.SecondStartIsStamped | scripts/provider-ingestion/writer.ts:242-261 | from the empty store, an empty batch and then one observation under the same run id and another start: the counters agree, and the identity's first seen time is not its run's start |
| IngestionMeaning.TimesAgreeOverRuns | scripts/provider-ingestion/adapters/hotelbeds-cached.ts:264-293 | over any batches whose shared run ids share the start or bring no new property, every recorded time is its run's start |
| IngestionMeaning.UrlIsFirstSupplied | scripts/provider-ingestion/writer.ts:262-269 | the first url ever supplied is kept |
| IngestionMeaning.RowsHoldTheirInput | scripts/provider-ingestion/writer.ts:324-330 | a new row holds its own input; an existing row is never rewritten |
| CanonicalNumeric.EqualTextIffEqualValue | scripts/provider-resolution/resolver.ts:96-109 | on plain decimals outputs are equal iff the denoted rationals are |
| CanonicalNumeric.PlainDecimalGrammar | scripts/provider-resolution/resolver.ts:99 | the accepted texts are exactly the pattern: an optional sign, digits and a point, with at least one digit |
| CanonicalNumeric.TrimDropsWhiteSpace | scripts/provider-resolution/resolver.ts:98 | trimming drops white space at both ends and nothing else |
| CanonicalNumeric.BlankIsTrimmedAway | scripts/human-review/apply.ts:144 | a blank text is exactly one that trims to nothing |
| CanonicalNumeric.CanonicalKeepsValue | scripts/provider-resolution/resolver.ts:96-109 | the output is a plain decimal of the same value; anything else is only trimmed, so it never meets a decimal |
| CanonicalNumeric.CanonicalIsIdempotent | scripts/provider-resolution/resolver.ts:96-109 | canonicalising twice changes nothing |
| CanonicalNumeric.SameCoordinateMeaning | scripts/provider-resolution/resolver.ts:112-114 | coordinates are the same iff both absent, equal as numbers, or equal non-decimal text |
| Resolution.FirstDecidesMeaning | scripts/provider-resolution/resolver.ts:187-203 | the first usable observation decides, and the first later disagreement (if any) is the conflict |
| Resolution.ResolveStarFromObservations | scripts/provider-resolution/resolver.ts:180-239 | the loop computes the star fold |
| ResolutionMeaning.StarOverMappings | scripts/provider-classification/policy.ts:54-60 | the star conclusion over the mapping table: the first row whose exact code the table gives a meaning decides, the first row given another meaning is the conflict, and with none the last row is cited as unresolved |
| ResolutionMeaning.UnreviewedCodeSaysNothing | scripts/provider-classification/policy.ts:36-60 | a code the table does not hold neither resolves, unsets nor conflicts |
| ResolutionMeaning.LocationOverColumns | scripts/provider-resolution/resolver.ts:249-317 | the location conclusion, whole: the first usable point, and the first later one that is another place |
| ResolutionMeaning.ScopeOverMappings | scripts/provider-scope/policy.ts:54-60 | the scope conclusion over the mapping table: the last row given a meaning, else the last row as unresolved |
| Resolution.StarFoldRefinesReconcile | scripts/provider-classification/policy.ts:91-104 | the star fold is folding `reconcile`, conflicts keeping the existing value and the first incoming one |
| Resolution.StarConflictIff | scripts/provider-resolution/resolver.ts:180-239 | a star conflict is recorded iff two mapped readings disagree |
| Resolution.StarRestatesItsEvidence | scripts/provider-resolution/resolver.ts:205-238 | the conclusion quotes the observation it cites: the first mapped one, or the last |
| Resolution.ResolveLocationFromObservations | scripts/provider-resolution/resolver.ts:249-317 | the loop computes the location fold |
| Resolution.LocationConflictIff | scripts/provider-resolution/resolver.ts:249-317 | a location conflict is recorded iff two usable points differ as numbers |
| Resolution.LocationRestatesItsEvidence | scripts/provider-resolution/resolver.ts:276-316 | coordinates are the cited row's own; otherwise the reason is read off the latest row |
| Resolution.ResolveScopeFromObservations | scripts/provider-resolution/resolver.ts:346-374 | the loop computes the scope fold |
| Resolution.ScopeRestatesItsEvidence | scripts/provider-resolution/resolver.ts:352-373 | the latest mapped reading stands, or the latest row is cited as unresolved |
| RevisionLedger.Ledger.AppendRevision | scripts/provider-resolution/resolver.ts:522-581 | insert once per (identity, conclusion), else find it; move the head only when it differs |
| RevisionLedger.Ledger.AppendConclusions | scripts/provider-resolution/resolver.ts:653-727 | one dimension of a run against the heads read at the start |
| RevisionLedger.RunIsSound | scripts/provider-resolution/resolver.ts:522-581 | revisions are only appended, each (identity, conclusion) once, and every head names its identity's conclusion |
| RevisionLedger.SoundMeaning | supabase/migrations/0028_prepublication_resolution.sql:355-365 | one revision per identity and conclusion, every head and every link within its identity, over the rows' own columns |
| RevisionLedger.Ancestors | scripts/provider-resolution/resolver.ts:534-546 | chains of `supersedes` stay within the identity, point backwards and end |
| RevisionLedger.LineageIsTheOldHead | scripts/provider-resolution/resolver.ts:655-678 | a new revision cites the head it replaced |
| RevisionLedger.ReplayIsIdle | scripts/provider-resolution/resolver.ts:583-589 | a replay appends nothing and moves no head |
| RevisionLedger.RunsAreSound | scripts/provider-resolution/resolver.ts:522-581 | over any sequence of runs from a sound ledger it stays sound, and earlier revisions are a prefix of later ones |
| RevisionLedger.LedgerFromEmpty | scripts/provider-resolution/resolver.ts:522-581 | so a ledger that started empty is sound after any runs and has only ever grown |
| RevisionLedger.HeadIsTheLastConclusion | scripts/provider-resolution/resolver.ts:570-580 | each head names the conclusion of the last run that concluded anything about its identity |
| RevisionLedger.MovesCountChangedHeads | scripts/provider-resolution/resolver.ts:570-580 | the pointer counter is the number of identities whose head changed |
| ResolutionRun.LoadObservations | scripts/provider-resolution/resolver.ts:414-443 | grouping keeps first-seen identity order and row order |
| ResolutionRun.ResolutionTables.ResolveDestination | scripts/provider-resolution/resolver.ts:590-738 | an apply appends exactly the folds' conclusions, both modes report the conclusions' own tallies, and without apply, or without a reviewed policy, nothing changes |
| ResolutionRows.LoadedMeaning | scripts/provider-resolution/resolver.ts:414-443 | the rows loaded are exactly those of the source, the environment and the destination asked for |
| ResolutionRows.StarHeadAfterRun | scripts/provider-resolution/resolver.ts:659-682 | after a run the star head of a loaded identity says what the mapping table says of its first row with a meaning, flags a conflict iff two rows are given different meanings, and is unresolved when none is given one |
| ResolutionRows.LocationHeadAfterRun | scripts/provider-resolution/resolver.ts:684-706 | the location head holds the first usable point of the identity's rows, in conflict iff a later usable point is another place |
| ResolutionRows.ScopeHeadAfterRun | scripts/provider-resolution/resolver.ts:708-727 | the scope head says what the mapping table says of the identity's last row with a meaning |
| ResolutionRun.StarHeadsRestateTheFold | scripts/provider-resolution/resolver.ts:659-682 | after apply each loaded identity's star head states the fold of its observations |
| ResolutionRun.LocationHeadsRestateTheFold | scripts/provider-resolution/resolver.ts:684-706 | the same for location |
| ResolutionRun.ScopeHeadsRestateTheFold | scripts/provider-resolution/resolver.ts:708-727 | the same for scope |
| ResolutionRun.HeadsRestateEveryObservation | scripts/provider-resolution/resolver.ts:590-738 | with `destinationId` null, after a run the three heads of an identity state the folds of all its observations |
| ResolutionRun.StarConclusionsAreAdmissible | supabase/migrations/0028_prepublication_resolution.sql:333-352 | every star conclusion meets the revision table's own value and conflict checks |
| IssueExtraction.ExtractIssuesFromRecord | scripts/lifecycle/extract.ts:197-280 | all or nothing: a snapshot iff every entry is readable, then one row per entry; a failure names the first unreadable entry |
| IssueMeaning.ReadIssueMeaning | scripts/lifecycle/extract.ts:102-174 | an entry becomes the row that says what its JSON says, column by column, or is refused for the first of five checks it breaks, quoting its order |
| IssueMeaning.ReadableMeaning | scripts/lifecycle/extract.ts:197-263 | a record is readable iff it is an object with an id, an issue list or none, and no entry breaks a check |
| IssueMeaning.FailureMeaning | scripts/lifecycle/extract.ts:197-263 | a failure names the record's first broken check, or the first listed entry that breaks one, at its index |
| IssueExtraction.ReadIssueIsVerbatim | scripts/lifecycle/extract.ts:132-174 | string codes and dates are kept byte for byte in their own columns |
| IssueExtraction.ExtractDestinationIssues | scripts/lifecycle/extract.ts:305-320 | one snapshot per provider id, from its first readable record; one failure per unreadable record, in order, describing that record |
| IssueExtraction.DigestForgetsKeyOrder | scripts/provider-ingestion/digest.ts:23-39 | two records carry one digest iff they are equal up to object key order |
| LifecycleStore.CollapseByObservation | scripts/lifecycle/store.ts:101-125 | refuses iff two inputs for one observation disagree, counting the variants; otherwise one plan item each |
| LifecycleStore.PlanIsDistinct | scripts/lifecycle/store.ts:84-125 | an uncontradicted plan is the set of distinct inputs |
| LifecycleStore.RowCountIff | supabase/migrations/0031_prepublication_lifecycle_evidence.sql:370-390 | every issue becomes a row iff no two share the digested columns |
| KeyMeaning.EvidenceTextMeaning | supabase/migrations/0031_prepublication_lifecycle_evidence.sql:372-381 | on texts without a bar two issues share a digest iff code, type, both dates, order and alternative agree |
| KeyMeaning.CollidesOverColumns | supabase/migrations/0031_prepublication_lifecycle_evidence.sql:372-381 | so issues collide iff two of one snapshot differ in nothing but their description |
| LifecycleWriter.MatchSnapshots | scripts/lifecycle/store.ts:237-257 | each input is matched by run, provider id and record, or reported |
| LifecycleWriter.MatchedOrReported | scripts/lifecycle/store.ts:239-257 | never both, never dropped, and with the right reason |
| LifecycleRows.BoundToItsOwnRun | scripts/lifecycle/store.ts:127-181 | a record binds to the observation its own run ingested from it, whatever else carries the same content, and is reported otherwise |
| LifecycleRows.StoredColumns | scripts/lifecycle/store.ts:302-354 | the snapshot row of a missing observation and the evidence read back from it, column by column |
| LifecycleWriter.IssueStore.PersistIssueEvidence | scripts/lifecycle/store.ts:222-362 | a contradictory batch writes nothing; both modes count the same plan, the apply against the tables its transaction finds after any concurrent writer |
| LifecycleWriter.DryRunIsTheApply | scripts/lifecycle/store.ts:259-298 | with no concurrent writer the created and present counts agree, and the issue counts agree iff no created snapshot has colliding rows |
| LifecycleWriter.InsertAllMeaning | scripts/lifecycle/store.ts:302-354 | old snapshots are untouched and each missing observation gains exactly one |
| LifecycleWriter.IssueTotalsAgreeIff | scripts/lifecycle/store.ts:280-352 | issue totals of the two modes agree iff no created snapshot has colliding rows |
| LifecycleWriter.InputOrderDecidesNothing | scripts/lifecycle/store.ts:84-125 | verdict, counters and tables are the same for any order of the inputs |
| LifecycleWriter.ReplayIsIdle | scripts/lifecycle/store.ts:214-221 | replaying an applied plan creates and changes nothing |
| LifecycleWriter.InsertAllKeepsExtracted | scripts/lifecycle/store.ts:302-354 | every stored snapshot is one complete extraction and its rows |
| LifecycleWriter.MismatchIffCollision | scripts/lifecycle/policy.ts:264-283 | a snapshot written here evaluates to `issue_count_mismatch` iff its rows collide |
| LifecycleWriter.DescriptionDoesNotSeparate | supabase/migrations/0031_prepublication_lifecycle_evidence.sql:370-383 | two entries that differ only in description become one row |
| CanonicalJson.CanonEqualIffSame | scripts/provider-ingestion/digest.ts:23-30 | canonical values are equal iff the values are equal up to object key order |
| CanonicalJson.CanonicalIsPrintedCanon | scripts/provider-ingestion/digest.ts:23-30 | the text is the canonical value printed in its order |
| CanonicalJson.EscapeTable | scripts/provider-ingestion/digest.ts:24-29 | the escapes of section 7 of RFC 8259 as `JSON.stringify` chooses them: seven of two characters, every other control of six, nothing else escaped |
| CanonicalJson.StableIsCanonical | scripts/prepublication-preview/evaluate.ts:195-202 | on undefined-free values the gate's serialiser gives the same text |
| JsonParser.ParseCharsReads | scripts/provider-ingestion/digest.ts:24-29 | an escaped string reads back, every escape of section 7 of RFC 8259 included |
| JsonParser.ParseInvertsCanonical | scripts/provider-ingestion/digest.ts:23-30 | parsing the canonical text gives back the canonical value and nothing is left over |
| JsonParser.EqualTextIffSame | scripts/provider-ingestion/digest.ts:11-30 | two values serialise equally iff they are equal up to object key order |
| Clusters.BuildClusters | scripts/provider-evaluation/overlap.ts:209-269 | isolated edges and connected components, disjoint, covering every record; the worklist terminates |
| Clusters.WalkComponent | scripts/provider-evaluation/overlap.ts:240-256 | the worklist computes exactly the component of its root |
| Clusters.EveryPairIsPlaced | scripts/provider-evaluation/overlap.ts:227-266 | every pair is an isolated one-to-one edge or lies inside one cluster |
| Clusters.ClusterIsAComponent | scripts/provider-evaluation/overlap.ts:240-266 | every cluster is connected, closed under evidence and larger than one edge |
| Clusters.ClustersAreApart | scripts/provider-evaluation/overlap.ts:225-258 | two clusters share no record on either side |
| Clusters.IsolatedEdgesAreApart | scripts/provider-evaluation/overlap.ts:233-238 | no one-to-one edge touches a cluster |
| Paginate.PaginateAll | scripts/provider-evaluation/paginate.ts:39-142 | at most `maxRequests` fetches; records are the pages in order; exhaustion is proven iff no risk is recorded iff some clean walk meets every demand; every risk is recorded exactly when its fact holds of the pages walked |
| Paginate.ExhaustiveIsWhereItStops | scripts/provider-evaluation/paginate.ts:56-88 | if any walk is exhaustive the driver stops exactly at its end |
| Csv.RenderMatchesCsv | scripts/import-hotelbeds/csv.ts:31-58 | header and one line per match, in column order |
| Csv.ScanText | scripts/photos/plan.ts:65-106 | the character loop computes the scanner's state machine |
| Csv.PrintThenScan | scripts/photos/plan.ts:65-106 | printing then scanning returns the matrix up to the leading-apostrophe guard (section 2 of RFC 4180) |
| Csv.PrintThenScanIsExactIff | scripts/import-hotelbeds/csv.ts:25-29 | unchanged iff no cell begins with a guarded character |
| Csv.ReviewFileReadsBack | scripts/photos/plan.ts:107-115 | the review file parses to one record per match, in order, each field under its own column name |
| Csv.PrintedCellsAreInert | scripts/import-hotelbeds/csv.ts:25-29 | every cell read back is its value, behind an apostrophe iff that value starts with one of the six formula characters, so none starts like a formula |

## Left out

- Discovery.DiscoverCandidates: identity and destination ids carry no space, as UUIDs do not; with spaces the joined ids are ambiguous.
- ReviewDatabase.Database.BuildRevocationPack: the provider name shown beside an item, which nothing reads; row order is the query's, an input.
- EntityLoader.ConflictAfterGeneration: candidate rows of other kinds, row ids and the evidence columns the gate copies are inputs; the generator and the gate read the same identities.
- IngestionWriter.Chunk: the chunk size is positive; with zero the source's loop would not end.
- LifecycleWriter.MatchSnapshots: lookup keys are triples of strings, not space-joined text; run ids and digests hold no space.
- Resolution.ResolveStarFromObservations: a provider code equal to a member of JavaScript's `Object.prototype`; policies are maps.
- IssueExtraction.ExtractIssuesFromRecord: a number that prints with an exponent is not read as an integer order; the database column could not hold it.
- JsonParser.EqualTextIffSame: strings are sequences of Unicode scalar values, so lone surrogates and their escapes are not represented.
- Paginate.PaginateAll: a fetch that throws; the provider always answers.
- Clusters.BuildClusters: the reason text of a cluster.
- Generation.GenerateCandidates: loading the current observations and comparing two records; both are inputs.
- Discovery.CollectPairs: `localeCompare` on ids is modelled as character order, which is the same order on UUIDs.
- Connections, command lines, console output, file reading and environment checks.
- SQL text, isolation levels and retries: a committed transaction is one step and an abort is none.
- SHA-256, MD5 and UUID bit masks: a digest is the text it hashes, or a parameter where it is compared.
- Column limits of the database (text sizes, integer ranges), foreign keys and cascades.
- `normalize.ts` and `evidence.ts`: blocking keys and pair evidence are inputs.
- Haversine distances, the provisional overlap heuristic and the rest of overlap analysis.
- `selectMatches`, image ranking and the remaining photo planning.
- `publish.ts`, `src/lib` and the remaining migrations are not part of this model.
