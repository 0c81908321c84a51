# A verified model of the campaign assistant's write paths

This project models, in Dafny, the parts of a tabletop-campaign assistant that turn
model output into durable changes of an Obsidian Vault, and proves what those parts
are for. Everything is proved for all inputs, all runs and all points of failure;
nothing is bounded.

- **ChangeSet lifecycle** (`OperationIds`, `Domain`, `FactLines`, `Repository`,
  `RepositoryEffects`, `Preflight`, `PreflightIssues`, `Apply`, `Status`, `Lifecycle`,
  `Recovery`). A proposal is preflighted over projected revisions, applied operation by
  operation to a revision-guarded repository (intent record, entity write, committed
  record), recorded as an attempt, and gated against being applied again. A mutation may
  be stopped by an error or a crash at every point; the point is an argument
  (`Disturbance`). `Lifecycle` runs any number of ChangeSets, other writers and repairs in
  any order and never relies on the repository's own duplicate-id guard (`guarded` may be
  false).
- **Producers** (`Ordering`, `Binding`, `Canonical`, `CanonicalPlaces`, `Bootstrap`,
  `BootstrapFates`, `Convergence`, `SessionExtraction`, `ExtractionRules`, `PostSession`,
  `PostSessionCreates`, `PostSessionFates`, `Proposed`, `TrustedMentions`, `Recap`, `RecapFates`,
  `Evidence`). Untrusted extractions become proposals through exact name and alias
  indexes, id allocation, collision rules and revision bookkeeping; the player recap
  depends on nothing players may not see.
- **Post-session ledger and processor** (`AttemptState`, `AttemptConflicts`, `Ledger`,
  `LedgerFates`, `Integrity`, `Processor`, `ProcessorResults`, `ProcessorReports`,
  `ProcessorLedger`). An append-only ledger of text lines, its fold to the state of an
  attempt, the processor as a transition system with a program counter per invocation,
  and the proof that its events are what the text reads as, however store calls overlap.
- **Bounded derivations** (`Batching`, `SourceFates`, `CampaignSource`, `CampaignFates`,
  `Materialization`, `MaterializationStatuses`). Greedy packing of model input, session
  selection, and rendered files with a manifest.

Code that changes state step by step is modelled by classes and methods with loops,
each proved equal to a specification function; the properties are lemmas about those
functions. What becomes of every single candidate, claim, source, event and store, with
the reason of each refusal, is stated once more beside each component, by predicates
over its inputs and outputs (the modules named after fates, effects, rules, results
and statuses). Normalization, id allocation, hashes, case folding, record codecs and
renderers are function parameters: the theorems hold for every choice of them, under the
assumptions their `requires` clauses name.

## Where the code does less than one might expect

- **Bootstrap does not always converge.** `_append_fact_to_body` keeps a lone carriage
  return as line ending, while `_body_contains_fact` splits at line feeds only. After an
  append to a body that ends in a lone carriage return the fact is not found, and every
  further round appends it again. `Convergence.BootstrapConverges` gives the exact
  condition on the Vault and the proposal of the first round,
  `Convergence.LoneCrNeverSettles` a concrete Vault.
- **A failure can be recorded twice.** In step 9 of the processor `record_failure` is
  called inside the `try` whose last handler calls it again. If the proposal store reads
  back a proposal with another id or fingerprint than the created one, and the first
  record lands but raises, the attempt gets two terminal events.
  `Processor.EveryLedgerFolds` proves run by run that this is the only way for a ledger
  not to fold, `Processor.UnfaithfulStoreBreaksTheFold` that every attempt can get there,
  `ProcessorLedger.EveryReadableFileFolds` the first of the ledger file.
- **The attempt-record checks do not bound the failure index**: for every ChangeSet a
  record whose failure index equals the number of operations is accepted
  (`Status.IndexPastTheEndIsAccepted`), and no other index out of range is
  (`Status.IndexIsInRangeUnless`).
- **A second mention with an already listed trusted id** is looked up by its text again, so
  a claim whose mentions are all trusted to one entity need not be appended.
  `TrustedMentions.TrustedClaimIsAppendedIff` says exactly when it is,
  `TrustedMentions.TrustedClaimIsDropped` gives an extraction.
- **An attempt id may end in a line feed**: the pattern of the check ends in `$`. Such a
  call goes through while nothing is proposed and fails at the ChangeSet id otherwise
  (`PostSession.OnlyForeignInputIsRefused`; `PostSession.LineFeedIdGoesThrough` and
  `PostSession.LineFeedIdFails` give an extraction of each kind).

## Model

| member | source | states |
|---|---|---|
| OperationIds.ParseFormat | src/dnd_assistant/application/changeset_recovery.py:65-102 | every formatted operation id is parsed back to the same ChangeSet id and index, whatever colons the id contains |
| OperationIds.FormatParse | src/dnd_assistant/application/changeset_recovery.py:78-102 | only formatted ids are accepted: what parses to a pair is the one spelling of that pair, and the ChangeSet id is non-empty |
| OperationIds.FormatInjective | src/dnd_assistant/application/changeset_recovery.py:65-67 | two ChangeSets never share an operation id, even when one id is a prefix of the other |
| FactLines.AppendAddsExactly | src/dnd_assistant/storage/vault_repository.py:183-232 | on a body that does not end in a lone carriage return an appended fact is found afterwards, every other fact is found exactly if it was before, and the new body does not end in one either |
| FactLines.AppendAfterLoneCrAddsNothing | src/dnd_assistant/storage/vault_repository.py:183-232 | after a lone carriage return an append makes no fact findable, the appended one included |
| FactLines.AppendedFactIsFound | src/dnd_assistant/application/bootstrap_changeset.py:124-130 | the producers' lookup finds a fact the repository has just appended if and only if the body did not end in a lone carriage return |
| Repository.VaultRepository.CheckAuditHealth | src/dnd_assistant/storage/vault_repository.py:936-957 | a mutation is refused with a storage error on an unreadable log and with a conflict on a used operation id, and otherwise admitted |
| Repository.VaultRepository.ListEntities | src/dnd_assistant/storage/vault_repository.py:884-909 | the listing shows every entity of the Vault once and nothing else |
| Repository.VaultRepository.CommitMutation | src/dnd_assistant/storage/vault_repository.py:597-790 | intent record, second check, entity write, read-back and committed record in this order, with the exact state left by a stop at each point |
| Repository.VaultRepository.Perform | src/dnd_assistant/storage/vault_repository.py:960-1340 | one mutation: health, revision guard, then the commit path; the whole new state and outcome under every disturbance |
| RepositoryEffects.EffectIff | src/dnd_assistant/storage/vault_repository.py:960-1379 | a create is refused exactly for a taken id, a change exactly for a missing entity or another revision, each with its own error; what is admitted gives the document the operation asks for, field by field |
| RepositoryEffects.AppendKeepsText | src/dnd_assistant/storage/vault_repository.py:183-232 | an append keeps the text before it and adds one bullet with the fact, between line endings of the kind the text has |
| RepositoryEffects.MutationEnds | src/dnd_assistant/storage/vault_repository.py:597-790 | under every disturbance a mutation writes what the guard admits and nothing else, and its error is that of the refusal, that of the check that raised, or a storage error |
| RepositoryEffects.RecordsSay | src/dnd_assistant/storage/vault_repository.py:597-790 | every log record carries operation kind, entity, session, source and time of its operation |
| Preflight.ValidateChangeSet | src/dnd_assistant/application/changeset_validation.py:211-243 | the loop computes the projection's issues; they are in ascending operation order, at most one per operation |
| Preflight.BaseIsVault | src/dnd_assistant/application/changeset_validation.py:125-133 | the projection starts from the Vault's revisions whatever the listing order |
| Preflight.PreflightTracksExecution | src/dnd_assistant/application/changeset_validation.py:136-208 | after every prefix the projection has no issue exactly when the revision-guarded repository accepts the prefix, with equal revisions; otherwise its first issue names the first refused operation |
| Preflight.PreflightRefinesExecution | src/dnd_assistant/application/changeset_validation.py:211-243 | valid if and only if undisturbed execution accepts the whole batch, with the projected revisions as the final ones; the first issue index is the first refused operation |
| PreflightIssues.EveryIssueIsFound | src/dnd_assistant/application/changeset_validation.py:136-208 | for every operation of every batch: a second create of an id, a first create of an existing entity, a change of an entity neither there nor soundly created, and a change that expects another revision than the Vault's and the sound writes before it make are each reported with their own code, and nothing else is |
| Preflight.CreatesThenAppendsPass | src/dnd_assistant/application/changeset_validation.py:136-208 | a batch of creates of new distinct ids followed by appends that each expect one revision more than the last always passes |
| Apply.ApplyChangeSet | src/dnd_assistant/application/changeset_apply.py:349-426 | approval binding, fresh preflight with refusal before any write, then the operations in order up to the first fault, with the exact final Vault and result |
| Apply.MutateShape | src/dnd_assistant/application/changeset_apply.py:126-161 | one mutation leaves no record, an intent, or intent and committed; it writes only after its intent, succeeds only with both records and the write, and a non-storage failure never wrote |
| Apply.ApplyFromLeaves | src/dnd_assistant/application/changeset_apply.py:394-426 | from operation i on the writes are the consecutive operations i, i+1, ..., every id's phases are tidy, written operations have an intent, and a returned result tells the truth about log and writes |
| Apply.ApplyIsTruthful | src/dnd_assistant/application/changeset_apply.py:126-161 | in every Vault and under every disturbance: a refusal changes nothing, the applied indices are a prefix of operations committed in the log, not-written means nothing beyond it was written, unconfirmed at most one |
| Apply.ValidIffApplied | src/dnd_assistant/application/changeset_apply.py:387-426 | with unused operation ids and no disturbance, the result is applied if and only if the ChangeSet is authorized and valid; final revisions equal the projection; otherwise the loop stops at the first issue's operation |
| Apply.ResultNamesFailure | src/dnd_assistant/application/changeset_apply.py:321-426 | of every apply: it is refused exactly without authorization or a valid batch; a returned result reports unconfirmed if and only if the operation that stopped it failed with a storage error and not-written if and only if it failed otherwise, and names index, category and entity of that operation |
| Status.ValidateSingleIff | src/dnd_assistant/application/changeset_status.py:210-288 | the record checks accept exactly two shapes, everything applied or stopped at k with applied 0..k-1 and remaining k+1..; k equal to the operation count is not excluded |
| Status.IndexPastTheEndIsAccepted | src/dnd_assistant/application/changeset_status.py:246-288 | for every ChangeSet a record that says everything was applied and yet names a failure behind the last operation passes the checks |
| Status.IndexIsInRangeUnless | src/dnd_assistant/application/changeset_status.py:246-288 | apart from such records, with everything applied, the failure index of an accepted record names one of the operations |
| Status.ValidateAttemptHistory | src/dnd_assistant/application/changeset_status.py:291-317 | accepts exactly the histories of valid records in which only the last may be applied or partial |
| Status.AttemptStore.RecordApplyAttempt | src/dnd_assistant/application/changeset_status.py:320-373 | appends one record or refuses a damaged, contradictory or terminal history; the whole new store under every append outcome |
| Status.RecordIff | src/dnd_assistant/application/changeset_status.py:320-373 | a damaged file refuses with a storage error, a history that takes no more with a conflict, both without a change; otherwise exactly this ChangeSet's file gains the result, as far as the append lands |
| Status.CorrelateAudit | src/dnd_assistant/application/changeset_status.py:379-409 | the dictionary pass equals the per-operation phase sequences of the log, and the first impossible sequence is the one reported |
| Status.CorrelateAt | src/dnd_assistant/application/changeset_status.py:396-409 | correlation succeeds if and only if every operation's phases are none, intent, or intent then committed, and each state is read off its own phases |
| Status.StatesAre | src/dnd_assistant/application/changeset_status.py:396-409 | correlation succeeds if and only if every operation's phases are tidy; an intent-only or a committed operation is reported if and only if some operation has exactly those phases |
| Status.CorrelateIgnoresOthers | src/dnd_assistant/application/changeset_status.py:388-395 | correlation depends only on the records whose id parses to one of the ChangeSet's own operations, wherever they stand |
| Status.OthersAreNotOwn | src/dnd_assistant/application/changeset_status.py:388-395 | no record of another ChangeSet counts as an own record |
| Status.GateIff | src/dnd_assistant/application/changeset_status.py:415-473 | the gate opens if and only if the history is valid, its last record if any is a failure with nothing written, and the log has no record of any own operation |
| Status.GateRefusesFor | src/dnd_assistant/application/changeset_status.py:415-473 | a refusal names the first check that fails, each check spelled out on history and log |
| Status.RetryIffNothingHappened | src/dnd_assistant/application/changeset_apply.py:332-343 | after an apply through an open gate whose result was recorded the gate is open again if and only if the apply stopped at its first operation, for another reason than a storage error, before that operation left a record |
| Status.StopBeforeIntentIsRetried | src/dnd_assistant/application/changeset_apply.py:332-343 | an apply stopped at its first operation before the intent, for another reason than a storage error, changes nothing, reports not-written, and once recorded leaves the gate open |
| Status.RefusedForGood | src/dnd_assistant/application/changeset_status.py:415-473 | one own record in the log and the gate refuses for every attempt history and every longer log |
| Status.ResultsAreRecordable | src/dnd_assistant/application/changeset_apply.py:397-426 | every result the applier can return passes the attempt-record checks |
| Status.GatedApplyIsRecorded | src/dnd_assistant/application/changeset_status.py:320-373 | after an open gate the record of the apply is never refused: it is appended unless the store itself fails |
| Lifecycle.RunsAreSafe | src/dnd_assistant/application/changeset_status.py:379-473 | in every state reachable by gate, apply and record cycles with crashes and faults anywhere, other writers and repairs: own writes are 0,1,2,... once each, phases are tidy, the history is failures-with-nothing-written then at most one other record, and a barring record tells the truth |
| Lifecycle.StepIsSafe | src/dnd_assistant/application/changeset_status.py:415-473 | each cycle, foreign write or repair keeps that invariant for every ChangeSet |
| Lifecycle.AtMostOnce | src/dnd_assistant/application/changeset_status.py:379-473 | over every run the first k operations of a ChangeSet have been written exactly once and the others never |
| Lifecycle.SoundCycleApplies | src/dnd_assistant/application/changeset_apply.py:349-426 | a faultless cycle of an authorized valid ChangeSet through an open gate leaves what undisturbed execution gives, writes each operation once, logs intent and commit of each, and records it as applied |
| Lifecycle.AuditGrows | src/dnd_assistant/application/changeset_apply.py:394-426 | no step removes or changes a log record |
| Lifecycle.NeverAgain | src/dnd_assistant/application/changeset_status.py:415-473 | once a record of one of its operations exists, the gate refuses the ChangeSet in every later state and another apply cycle changes nothing |
| Lifecycle.EvidenceIsComplete | src/dnd_assistant/application/changeset_status.py:23-33 | in every reachable state the correlation is free of contradictions and no written operation shows as not attempted |
| Recovery.OwnedIff | src/dnd_assistant/application/changeset_recovery.py:128-188 | an issue is owned if and only if its id is the canonical id of an operation of a proposal stored under its own id, of the issue's session, announced once and never committed, by a record that fits the operation |
| Recovery.OwnedNamesOperation | src/dnd_assistant/application/changeset_recovery.py:148-173 | an owned issue always names a stored proposal and one of its operations |
| Recovery.DelegationIsSafe | src/dnd_assistant/application/changeset_recovery.py:128-188 | the owner of a delegated intent is refused by the gate for every attempt history and every extension of the log |
| Recovery.LeftIntentIsOwned | src/dnd_assistant/application/changeset_recovery.py:128-188 | whatever stops an apply that started from an unused log, an intent it leaves unresolved is recognized as the ChangeSet's own |
| Recovery.Partition | src/dnd_assistant/application/changeset_recovery.py:216-237 | the two lists are the issues routed by ownership; an unreadable log makes every issue blocking |
| Recovery.PartitionKeepsEveryIssue | src/dnd_assistant/application/changeset_recovery.py:216-237 | the two lists together hold every issue exactly once, each behind the earlier issues that went the same way |
| Binding.BuildIndex | src/dnd_assistant/application/bootstrap_binding.py:57-92 | the dictionaries answer all four questions as the linear scan does, the typed ones from the bindable documents only |
| Binding.AddRow | src/dnd_assistant/application/post_session_binding.py:83-94 | one more document adds its id, once, to exactly the buckets of its name and aliases |
| Binding.AnyTypeMatches | src/dnd_assistant/application/bootstrap_binding.py:113-128 | the merged name and alias buckets equal the any-type scan over bindable and conflicting identities |
| Binding.ScanIsExact | src/dnd_assistant/application/bootstrap_binding.py:51-54 | a bucket lists exactly the ids of the answering documents, each once |
| Binding.MatchesAreExact | src/dnd_assistant/application/bootstrap_binding.py:113-128 | nothing matches if and only if no identity carries the text as name or alias |
| Binding.ResolvesIff | src/dnd_assistant/application/bootstrap_binding.py:95-110 | a reference binds to an id if and only if that id alone has the name in its type, or no one has it and that id alone has the alias |
| Canonical.GroupCandidates | src/dnd_assistant/application/bootstrap_canonical.py:152-164 | the grouping loop gives ids in first-occurrence order, the candidates of each id in order, and one issue per unidentified candidate |
| Canonical.SplitGroup | src/dnd_assistant/application/bootstrap_canonical.py:169-198 | a group of several becomes conflicts only; a single candidate becomes bindable or a directory conflict |
| Canonical.BuildCanonicalSnapshot | src/dnd_assistant/application/bootstrap_canonical.py:143-209 | the three lists are, as multisets, the bindable, conflicting and unidentified candidates, each in path order |
| Canonical.BindablesAreSound | src/dnd_assistant/application/bootstrap_canonical.py:180-198 | bindable ids are pairwise distinct and every view agrees with its document |
| Canonical.EveryCandidateIsPlaced | src/dnd_assistant/application/bootstrap_canonical.py:143-209 | path by path, as multisets, the bindable, conflicting and unidentified lists together are the candidates |
| CanonicalPlaces.EveryCandidateGoesToItsPlace | src/dnd_assistant/application/bootstrap_canonical.py:143-209 | bindable are exactly the parsed candidates in the right directory that have their id to themselves, with their own revision, name and aliases; conflicts exactly the other parsed ones, each with its reason; issues exactly the unparsed ones |
| Canonical.SplitIsSound | src/dnd_assistant/application/bootstrap_canonical.py:143-209 | every projection the builder can return is sound, and the paths of its three lists are, as multisets, those of the candidates |
| Bootstrap.BuildCreates | src/dnd_assistant/application/bootstrap_changeset.py:272-422 | the loop with its allocation dictionaries computes the verdict of every candidate in order, with the operation or diagnostic it leads to |
| Bootstrap.BuildAppends | src/dnd_assistant/application/bootstrap_changeset.py:425-577 | the loop over the claims computes targets, revisions, duplicates and diagnostics of every claim in order |
| Bootstrap.ProduceBootstrapChangeSet | src/dnd_assistant/application/bootstrap_changeset.py:182-269 | the proposal or no-changes result of creates then appends; the preflight-failed branch is unreachable on every sound projection |
| Bootstrap.CreatedIffCreatable | src/dnd_assistant/application/bootstrap_changeset.py:297-402 | with distinct candidate ids a candidate becomes a create if and only if no other candidate shares its name or allocated id and no identity carries that id or that name |
| BootstrapFates.EveryCandidateIsDecided | src/dnd_assistant/application/bootstrap_changeset.py:272-422 | every candidate becomes one create, field by field, exactly if nothing stands against it, and otherwise one diagnostic with the reason of the first check that failed and the entities it names |
| BootstrapFates.EveryClaimIsDecided | src/dnd_assistant/application/bootstrap_changeset.py:425-577 | every claim becomes one append, exactly if its kind is appendable, its conflict group is its own, its references all resolve to one entity that is no system entity, and the fact is new to body and proposal; otherwise its diagnostics end with the reason of the first check that failed |
| BootstrapFates.ResultIsDecided | src/dnd_assistant/application/bootstrap_changeset.py:182-269 | the result is made of all candidates and then all claims decided in turn; no diagnostic is dropped, nothing else is proposed, and there is no proposal exactly if there is no operation |
| Bootstrap.CreatesAreFresh | src/dnd_assistant/application/bootstrap_changeset.py:329-402 | created ids are new to the projection and pairwise distinct, for every allocation of ids and every extraction |
| Bootstrap.AppendsAreStacked | src/dnd_assistant/application/bootstrap_changeset.py:558-567 | every append targets a bindable entity and expects its revision plus the number of earlier appends to it |
| Bootstrap.PreflightPasses | src/dnd_assistant/application/bootstrap_changeset.py:243-249 | every proposal passes its own preflight on every sound projection, whatever the extraction |
| Bootstrap.RecognizedSnapshotsPass | src/dnd_assistant/application/bootstrap_changeset.py:243-249 | in particular on every projection split from recognized candidates |
| Bootstrap.CreatesAreTraced | src/dnd_assistant/application/bootstrap_changeset.py:403-422 | every create carries name, type and evidence of one candidate, which its provenance names; every candidate became one create or one diagnostic |
| Bootstrap.AppendsAreTraced | src/dnd_assistant/application/bootstrap_changeset.py:558-577 | every append carries the text of one claim, which its provenance names |
| Convergence.EveryRoundApplies | src/dnd_assistant/application/bootstrap_changeset.py:243-249 | what is produced from a projection of the Vault is accepted by the Vault in full |
| Convergence.CreatedNamesAreNew | src/dnd_assistant/application/bootstrap_changeset.py:371-402 | a created entity carries a name that no identity of the projection carried as name or alias |
| Convergence.ResolvedReferencesStay | src/dnd_assistant/application/bootstrap_binding.py:95-128 | a reference bound before a round is bound to the same entity after it |
| Convergence.AimStays | src/dnd_assistant/application/bootstrap_binding.py:95-110 | across a round with creates a claim is aimed at an entity of the old Vault afterwards exactly when it was before |
| Convergence.NextRoundCreatesNothing | src/dnd_assistant/application/bootstrap_changeset.py:272-422 | after a round has been applied, the next one with the same extraction creates nothing |
| Convergence.AppendsAreWanted | src/dnd_assistant/application/bootstrap_changeset.py:544-577 | the appends propose a fact for an entity if and only if some claim with that text is aimed at it and its body lacks the fact |
| Convergence.BodiesFollow | src/dnd_assistant/storage/vault_repository.py:183-232 | after a sequence of appends a body has exactly its old facts and the appended ones, unless it ended in a lone carriage return |
| Convergence.QuietRoundsConverge | src/dnd_assistant/application/bootstrap_changeset.py:544-577 | the round after one without creates has nothing to do if and only if that one appended to no body ending in a lone carriage return |
| Convergence.SeenInRoundOne | src/dnd_assistant/application/bootstrap_changeset.py:182-269 | round two appends after a lone carriage return if and only if round one did |
| Convergence.BootstrapConverges | src/dnd_assistant/application/bootstrap_changeset.py:182-269 | produce and apply twice: round two creates nothing, and round three is no-changes if and only if round one appends to no body of the first Vault that ends in a lone carriage return, which is so exactly when round two meets none; always when the Vault has none |
| Convergence.LoneCrNeverSettles | src/dnd_assistant/application/bootstrap_changeset.py:544-577 | a concrete Vault and claim for which round three still has operations |
| SessionExtraction.ValidateTotalSize | src/dnd_assistant/application/post_session_extraction.py:331-360 | the running, early-stopping checks reject exactly when the total text or the number of mentions is over its bound |
| SessionExtraction.ValidateExtraction | src/dnd_assistant/application/post_session_extraction.py:436-552 | the nested loops accept or fail with the first violation, sanitize every mention and list resolved and missed ones |
| SessionExtraction.CandidatesAreDistinct | src/dnd_assistant/application/post_session_extraction.py:518-540 | accepted candidates have distinct ids and keep names and types |
| ExtractionRules.ValidateIff | src/dnd_assistant/application/post_session_extraction.py:436-552 | accepted exactly if schema, size, distinct ids, known evidence and the mention bound are all kept, refused for the first violation; what is kept is every element, its evidence once, guesses only where bound, each miss with its reason |
| PostSession.BuildCreates | src/dnd_assistant/application/post_session_changeset.py:399-494 | the loop computes collision, conflict and duplicate-name verdicts of every candidate in order |
| PostSession.ResolveMentions | src/dnd_assistant/application/post_session_changeset.py:528-557 | trusted targets first, then name and alias lookup; a repeated trusted target falls through to the lookup |
| PostSession.BuildAppends | src/dnd_assistant/application/post_session_changeset.py:497-653 | the loop over the claims computes targets, staleness, revisions, duplicates and diagnostics in order |
| PostSession.ProducePostSessionChangeset | src/dnd_assistant/application/post_session_changeset.py:299-396 | refused for a bad attempt id, a foreign extraction, a bad ChangeSet id or a failing preflight, in this order, and otherwise the plan, named cs_<session>_<attempt>; the preflight branch is unreachable when both reads show the same Vault and candidate ids differ |
| PostSession.BindingMismatches | src/dnd_assistant/application/post_session_provenance.py:29-55 | the differing fields, each once, in order; none exactly when the extraction belongs to the prepared input |
| PostSession.OnlyForeignInputIsRefused | src/dnd_assistant/application/post_session_changeset.py:299-396 | with a validated extraction and an undisturbed Vault the call succeeds if and only if the extraction belongs to the input and the attempt id is well-formed, or has one line feed behind it and nothing is proposed |
| PostSession.LineFeedIdGoesThrough | src/dnd_assistant/application/post_session_changeset.py:316-361 | for every well-formed attempt id with a line feed behind it and every Vault, an accepted extraction without claims and candidates goes through |
| PostSession.LineFeedIdFails | src/dnd_assistant/application/post_session_changeset.py:316-373 | for every such id, an accepted extraction with one candidate on an empty Vault is refused at the ChangeSet id, and goes through under the id itself |
| PostSession.ProposalIdsAreDistinct | src/dnd_assistant/application/post_session_changeset.py:363-368 | two proposals share an id only if they share session and attempt |
| PostSession.CreatesAreOwn | src/dnd_assistant/application/post_session_changeset.py:399-494 | created ids are new to the Vault, pairwise distinct, and each belongs to a candidate with an allocation of its own |
| PostSessionCreates.CreatedIffCreatable | src/dnd_assistant/application/post_session_changeset.py:230-280 | with distinct candidate ids a candidate becomes a create if and only if no other one is allocated its id, no document has that id, no document of any type carries its normalized name as name or alias, and no earlier create has that name; otherwise one diagnostic gives the reason of the first check that failed |
| PostSessionCreates.CreatesAreTraced | src/dnd_assistant/application/post_session_changeset.py:399-494 | each create carries id, name, type and evidence of one candidate, the defaults, and the session in both session fields; creates and diagnostics together are as many as the candidates |
| PostSessionCreates.MatchesAreNamed | src/dnd_assistant/application/post_session_changeset.py:261-270 | the any-type lookup finds exactly the documents that carry the name as name or alias |
| PostSessionFates.EveryClaimIsDecided | src/dnd_assistant/application/post_session_changeset.py:497-653 | every claim becomes one append, exactly if its kind is appendable, its mentions all point to one entity, that one is prepared, unchanged and no system entity, and the fact is new to body and proposal; otherwise its diagnostics end with the reason of the first check that failed |
| PostSessionFates.PlanIsDecided | src/dnd_assistant/application/post_session_changeset.py:299-396 | the plan is made of all candidates and then all claims decided in turn; no diagnostic is dropped, nothing else is proposed, and there is no proposal exactly if there is no operation |
| PostSession.TargetIsCurrent | src/dnd_assistant/application/post_session_changeset.py:597-641 | an append goes only to a current, non-system entity that still equals its prepared projection |
| PostSession.PreflightPasses | src/dnd_assistant/application/post_session_changeset.py:283-293 | every proposal passes its own preflight when the repository shows the same Vault twice |
| PostSession.AcceptedExtractionsPass | src/dnd_assistant/application/post_session_changeset.py:299-396 | so does every proposal from an extraction that passed validation |
| TrustedMentions.TrustedIsCandidate | src/dnd_assistant/application/post_session_extraction.py:363-433 | in an accepted extraction the trusted binding of a mention is exactly the candidate id it was left with |
| TrustedMentions.TrustedTargetIff | src/dnd_assistant/application/post_session_changeset.py:528-557 | a claim whose mentions are all trusted to one entity has that entity as its only target, without a miss, if and only if the text of every mention after the first resolves to that entity alone |
| TrustedMentions.TrustedClaimIsTargetedIff | src/dnd_assistant/application/post_session_changeset.py:517-641 | such a claim gets a document to append to if and only if in addition its kind is appendable and the entity is prepared, unchanged since and not a system entity |
| TrustedMentions.TrustedClaimIsAppendedIff | src/dnd_assistant/application/post_session_changeset.py:497-653 | a claim of an accepted extraction whose mentions are all bound to one entity adds an append to exactly this entity or nothing; it adds one if and only if the target conditions hold and the fact is new to body and proposal |
| TrustedMentions.TrustedClaimIsDropped | src/dnd_assistant/application/post_session_changeset.py:528-592 | a concrete accepted extraction with two mentions of one prepared entity, one by name and one by pronoun, whose claim yields no append although kind, entity and fact allow it |
| Recap.ProjectRecap | src/dnd_assistant/application/post_session_visibility.py:221-301 | the loop over the claims computes inclusions, exclusion reasons and the entities in first-use order |
| Recap.ClaimIsRecorded | src/dnd_assistant/application/post_session_extraction.py:363-433 | validation records for a claim exactly its bound mentions in order, and a miss exactly if one is unbound |
| Recap.RecapTellsPlayersOnly | src/dnd_assistant/application/post_session_visibility.py:221-301 | claims and entities of the recap of a validated extraction are computed from the raw claims and the player entities alone |
| Recap.ToldAreSafe | src/dnd_assistant/application/post_session_visibility.py:235-285 | a claim is told if and only if it has the player hint, at least one mention, and all mentions bound to player entities of the declared type |
| RecapFates.EveryClaimIsDecided | src/dnd_assistant/application/post_session_visibility.py:221-301 | every claim of an accepted extraction is told, word for word, exactly if it has the player hint and a mention and every mention names a prepared player entity of its type; otherwise the first failing check is its reason; entities are listed once, by their prepared names |
| Recap.HiddenEntitiesDoNotMatter | src/dnd_assistant/application/post_session_visibility.py:221-301 | changing, adding or removing entities players may not see changes neither the told claims and entities nor whether the extraction is accepted |
| Ledger.ParseLedgerText | src/dnd_assistant/application/post_session_ledger.py:92-157 | the strict parse: an unterminated tail, an unreadable line or a second payload under one id fails, repeated events fold to the first |
| Ledger.ProcessingStore.RecordLedgerEvent | src/dnd_assistant/application/post_session_ledger.py:213-286 | check, append and read-back with other writers in between: the whole new text and the outcome |
| Ledger.MoreTextMoreEvents | src/dnd_assistant/application/post_session_ledger.py:92-157 | whole lines added to a readable ledger only add events at the end, every id once |
| Ledger.AppendedLine | src/dnd_assistant/application/post_session_ledger.py:92-157 | an appended event is added once, changes nothing if it is there, and is refused under another payload's id |
| Ledger.RepeatedLineIsInvisible | src/dnd_assistant/application/post_session_ledger.py:143-155 | physically repeating the line of a known event never changes what is read |
| Ledger.CreatedMeansOnce | src/dnd_assistant/application/post_session_ledger.py:213-286 | created: the old text is a prefix, the old events too, and the event is read exactly once, among concurrent writers of whole lines |
| Ledger.UndisturbedAppendSucceeds | src/dnd_assistant/application/post_session_ledger.py:213-286 | an append of a new event without a fault always reports created while the ledger stays readable |
| LedgerFates.ReadIs | src/dnd_assistant/application/post_session_ledger.py:92-157 | a file is read exactly if its last line is terminated, every line is an event and lines of one id agree; then the first line of each id is read, in order; otherwise the torn tail or the first offending line is the fault |
| LedgerFates.RecordingIs | src/dnd_assistant/application/post_session_ledger.py:213-290 | every recording: an event that is there, a taken id, an unreadable file, a failed append and the read-back each have their own outcome and leave their own text |
| Ledger.NoWriteWhenPresent | src/dnd_assistant/application/post_session_ledger.py:238-246 | already-present and conflict write nothing, and already-present means the very event is there |
| Ledger.RetriesWriteNothing | src/dnd_assistant/application/post_session_ledger.py:238-246 | any number of retries of a recorded event leaves the text unchanged |
| AttemptState.FoldAttemptState | src/dnd_assistant/application/post_session_attempt_state.py:101-188 | the loop computes the fold of the attempt's events, with the first conflict as the reason |
| AttemptState.FoldIff | src/dnd_assistant/application/post_session_attempt_state.py:101-188 | the fold accepts exactly the histories with one start first, distinct artifact slots, at most one proposal, at most one terminal event and nothing after it, one session; and keeps those events |
| AttemptConflicts.ConflictIff | src/dnd_assistant/application/post_session_attempt_state.py:101-188 | a refused history is refused for the reason of its first event that does not fit those before it, and an accepted one has no such event |
| AttemptConflicts.StateIs | src/dnd_assistant/application/post_session_attempt_state.py:101-188 | the state is not started without events and otherwise completed, failed or superseded exactly if such an event is in the history, and started if none is |
| AttemptState.FoldAppend | src/dnd_assistant/application/post_session_attempt_state.py:132-171 | one more event keeps an accepted history accepted if and only if it fits all earlier ones |
| AttemptState.OthersDoNotMatter | src/dnd_assistant/application/post_session_attempt_state.py:112-114 | events of other attempts never change the fold |
| Processor.EveryStepKeeps | src/dnd_assistant/application/post_session_processor.py:170-547 | every step of an invocation, whatever the proposal store reads back, keeps its attempt's history orderly or one second failure record past it, its evidence whole and its program counter true, and is silent once another invocation owns the attempt |
| Processor.CompletedIsWhole | src/dnd_assistant/application/post_session_integrity.py:95-194 | the evidence of an attempt that went through all steps passes every terminal-integrity check |
| Integrity.IntegrityIff | src/dnd_assistant/application/post_session_integrity.py:95-194 | a completed attempt passes if and only if every artifact is recorded, there, of its hash and at its path, the workflow file is its own, and ledger, store and workflow agree on the proposal or on there being none; otherwise the reason is that of the first piece missing |
| Integrity.RerunIff | src/dnd_assistant/application/post_session_processor.py:185-213 | a rerun of a completed attempt reports it as already terminal if and only if the input is the same and the evidence whole, and otherwise ends as failed; either way nothing durable changes |
| Integrity.RoutesAre | src/dnd_assistant/application/post_session_processor.py:172-237 | an unreadable or contradictory ledger and a failed attempt end as failed, a started or superseded one as interrupted, and only an attempt not started goes on |
| ProcessorResults.OutputsAreReturned | src/dnd_assistant/application/post_session_processor.py:328-523 | over every run: the stored summary and recap are the two texts the owner's rendering move returned, the workflow names input and proposal, the proposal has the operations the producing move returned, and every ledger event was recorded by an owner's move and tells path, hash, id, outcome, or phase and category of the move that failed |
| ProcessorResults.ActsOnce | src/dnd_assistant/application/post_session_processor.py:239-560 | no invocation passes a point of its work twice, so the rendering and the producing move are single |
| ProcessorResults.UndisturbedRunCompletes | src/dnd_assistant/application/post_session_processor.py:127-560 | for every attempt, input and model output, with or without operations, a run without faults reports completion |
| ProcessorResults.FaultsStop | src/dnd_assistant/application/post_session_processor.py:275-500 | a fault never lets the work go on |
| ProcessorReports.ReportIff | src/dnd_assistant/application/post_session_processor.py:239-560 | past its first read an invocation ends with a status exactly when that status is due: completed, failed, interrupted or crashed, each spelled out on ledger, claim and fault |
| Processor.EveryLedgerFolds | src/dnd_assistant/application/post_session_processor.py:170-547 | over all runs of crashing, repeated, interleaved invocations: the ledger folds for an attempt if and only if the run did not record its failure twice, first in the try by an append that landed and raised, then in the last handler; the model is called at most once per attempt, and a completed attempt has whole evidence |
| Processor.ReadBackDiffered | src/dnd_assistant/application/post_session_processor.py:470-496 | an invocation stands in the handler inside the try only after a proposal step that stored the plan and read back something else |
| Processor.FaithfulNeverFailsTwice | src/dnd_assistant/application/post_session_processor.py:470-526 | with a proposal store that reads back what it created no run records a failure twice |
| Processor.CompletionIsDurable | src/dnd_assistant/application/post_session_processor.py:528-560 | a run that reported completion left a completed attempt |
| Processor.RerunIsReadOnly | src/dnd_assistant/application/post_session_processor.py:183-207 | running a completed attempt again with unchanged input reports it as already terminal and changes no ledger, artifact, proposal, claim or call count |
| Processor.MismatchCanFailTwice | src/dnd_assistant/application/post_session_processor.py:468-526 | from a proposal step that reads back a proposal with another id or fingerprint, a failure record that landed but raised is written a second time |
| Processor.UnfaithfulStoreBreaksTheFold | src/dnd_assistant/application/post_session_processor.py:468-526 | with a store that may read back another proposal, for every attempt, input, event ids and model output with something to propose there is a run from the start that leaves a readable ledger which does not fold |
| Processor.LedgersFoldIffStoreIsFaithful | src/dnd_assistant/application/post_session_processor.py:468-526 | for each attempt, and for all together: every readable ledger of every run folds if and only if the proposal store always reads back what it created |
| ProcessorLedger.CallIsRecordEvent | src/dnd_assistant/application/post_session_ledger.py:213-286 | a call taken apart into check, line and read-back, with other calls in between, is the store's recording with those writers before and behind its line |
| ProcessorLedger.AppendRefines | src/dnd_assistant/application/post_session_ledger.py:213-286 | one append of the processor model is one recording by the store on the text, whatever other calls wrote or tore since its check; it is refused exactly if the check found a torn ledger |
| ProcessorLedger.BrokenStays | src/dnd_assistant/application/post_session_ledger.py:92-157 | no line or part of a line that an overlapping call still writes makes a torn ledger readable again, as long as no record is read with the beginning of another one before it on its line |
| ProcessorLedger.RunsRepresent | src/dnd_assistant/application/post_session_ledger.py:213-286 | over every run with new event ids, with calls of different invocations overlapping in any way, the text of the store reads as the events of the processor model, or is torn with them |
| ProcessorLedger.CallersSeeTheSame | src/dnd_assistant/application/post_session_ledger.py:248-286 | in such a run a caller is told created in the store in the same calls as in the model, and after an append that raised nothing exactly if the ledger still reads at the read-back |
| ProcessorLedger.EveryReadableFileFolds | src/dnd_assistant/application/post_session_attempt_state.py:101-188 | a ledger file left by any run, if it can be read, folds for an attempt if and only if the run did not record its failure twice |
| Batching.PackOne | src/dnd_assistant/application/bootstrap_input.py:255-309 | one source: unread, too large, batch limit, or packed with flush before and after |
| Batching.PrepareBatches | src/dnd_assistant/application/bootstrap_input.py:198-328 | the loop over the sorted eligible sources computes the packing; the final sort finds the projections in order |
| Batching.BatchesAreGood | src/dnd_assistant/application/bootstrap_input.py:206-328 | at most 16 batches within the bound, separators included; their sources are the included ones in order, once each; all eligible sources are listed; no batch had room for the start of the next; nothing is included after the first batch-limit drop |
| Batching.SourcesAreSentWhole | src/dnd_assistant/application/bootstrap_input.py:255-328 | with the real rendering every source in a batch was read, and its whole content stands in the text of the batch, which stays within the bound |
| Batching.FewBlocksAreNeverLimited | src/dnd_assistant/application/bootstrap_input.py:274-309 | if the sources that fit alone total at most 8 x (200000 + 2) characters, one separator each, none is dropped for the batch limit |
| SourceFates.EverySourceHasItsFate | src/dnd_assistant/application/bootstrap_input.py:255-311 | every eligible source: skipped with the reason of its status if and only if it was not read, as too large if and only if it was and its block alone exceeds the bound, and otherwise included or dropped for the batch limit; the first one dropped has no room in the last of sixteen closed batches, and every later one is skipped |
| SourceFates.FewBlocksAreAllIncluded | src/dnd_assistant/application/bootstrap_input.py:255-311 | under the weight bound the included sources are exactly those that were read and fit alone |
| SourceFates.SourcesAreInOrder | src/dnd_assistant/application/bootstrap_input.py:136-141 | the sources are listed by class, case-folded path and path |
| SourceFates.EligibleAre | src/dnd_assistant/application/bootstrap_input.py:206-209 | every eligible entry is packed as often as it was discovered, and no other is |
| SourceFates.BatchesCiteTheIncluded | src/dnd_assistant/application/bootstrap_input.py:217-231 | batches are numbered from zero and not empty, and their refs in a row are those of the included sources |
| CampaignSource.CollectCompletedSessions | src/dnd_assistant/application/campaign_state_source.py:224-247 | the loop collects every completed session validated, skips active ones, and fails on the first malformed or unknown one |
| CampaignFates.CollectedIff | src/dnd_assistant/application/campaign_state_source.py:172-247 | a listing is collected if and only if every session is active or soundly completed; the sources are then the completed sessions in order, with times, revision and touched ids; otherwise the first unsound session gives the reason |
| CampaignSource.OrderedByRecency | src/dnd_assistant/application/campaign_state_source.py:257-269 | the two stable sorts order by finish time descending, then id ascending, and lose nothing |
| CampaignSource.SelectionIsMostRecent | src/dnd_assistant/application/campaign_state_source.py:257-269 | the selection has the limit or all sessions, and nothing left out comes before something selected |
| CampaignSource.SelectionIgnoresListingOrder | src/dnd_assistant/application/campaign_state_source.py:224-269 | any permutation of the listing gives the same selection and the same union |
| CampaignSource.UnionTouched | src/dnd_assistant/application/campaign_state_source.py:272-296 | the dictionary of session sets, sorted, is the union; more than 500 entities fail |
| CampaignSource.UnionIsExact | src/dnd_assistant/application/campaign_state_source.py:272-296 | every touched entity has one entry, no other has any, and its provenance is exactly the ascending set of selected sessions touching it |
| CampaignSource.SelectSessions | src/dnd_assistant/application/campaign_state_source.py:405-412 | limit, sessions and entities in this order, with the first failure |
| CampaignFates.SelectionAnswers | src/dnd_assistant/application/campaign_state_source.py:385-425 | every answer: a bad limit, a listing that cannot be collected, more than five hundred touched entities, or else the latest sessions, ties by id, with every touched entity and exactly the sessions that touched it |
| CampaignSource.OutcomeIgnoresListingOrder | src/dnd_assistant/application/campaign_state_source.py:405-412 | the whole outcome is the same for every order of a listing that can be collected |
| Materialization.DerivedStateStore.ReadAndValidateStored | src/dnd_assistant/application/campaign_state_materialization.py:174-228 | missing, outdated, corrupt or a structurally valid generation, in the order of the checks |
| Materialization.DerivedStateStore.VerifyMaterialized | src/dnd_assistant/application/campaign_state_materialization.py:231-259 | the status of the stored generation against a derivation |
| Materialization.DerivedStateStore.RebuildCampaignState | src/dnd_assistant/application/campaign_state_materialization.py:265-344 | both gates, the current check, then artifacts in order and the manifest last, stopped anywhere: the whole new store and outcome |
| Materialization.CurrentIffExact | src/dnd_assistant/application/campaign_state_materialization.py:231-246 | current is reported if and only if the derivation succeeds and every stored artifact is the render of the fresh state under its manifest |
| MaterializationStatuses.StatusIff | src/dnd_assistant/application/campaign_state_materialization.py:174-262 | each of missing, outdated, corrupt, unverifiable, stale and current is reported exactly on its own stores, spelled out on manifest, paths, hashes, fingerprint and renders |
| MaterializationStatuses.RebuildIs | src/dnd_assistant/application/campaign_state_materialization.py:265-347 | the first failing gate ends a rebuild with nothing written; otherwise the world state is written first, the touched list second and the manifest third, and a fault leaves a cut of these writes |
| Materialization.RebuildsHeal | src/dnd_assistant/application/campaign_state_materialization.py:298-344 | from any store, torn or edited by hand: a finished rebuild inspects current, a second writes nothing, differing derivations write nothing |
| Materialization.TornPublicationIsCurrentIff | src/dnd_assistant/application/campaign_state_materialization.py:298-344 | a publication stopped before its manifest is reported current if and only if the old manifest is the new one already and every artifact it did not reach holds its render |
| Evidence.ValidateBootstrapEvidence | src/dnd_assistant/application/bootstrap_evidence_validation.py:281-357 | an issue is reported exactly if it is warranted, each code with its own condition, and there is none if and only if the record is bound to proposal and campaign, refs are distinct, descriptors agree while the fingerprint does, and every operation and diagnostic is accounted for |
| Evidence.AllOperationIssues | src/dnd_assistant/application/bootstrap_evidence_validation.py:156-278 | every repeated index, a wrong set of indices, and each misfit of an operation is reported with its own code, nothing else is, and no issue if and only if there is one piece of evidence per operation, numbered 0 to N-1, of the right kind, origin and sources |
| Evidence.SourceIssues | src/dnd_assistant/application/bootstrap_evidence_validation.py:104-153 | a differing set or each differing descriptor is reported, nothing else is, and no issue if and only if the fresh refs are distinct and the descriptors by ref are equal |
| Evidence.BuiltEvidenceIsSound | src/dnd_assistant/application/bootstrap_evidence.py:186-252 | the record built for any produced proposal validates without an issue and is fresh |
| Evidence.NothingIsHidden | src/dnd_assistant/application/bootstrap_mapping.py:85-126 | the record holds one diagnostic for each one of the producer, each conflict, each unusable file and each source not sent, and no other, and one numbered piece of evidence per operation with the provenance the producer gave it |
| Evidence.PreparedRefsAreDistinct | src/dnd_assistant/application/bootstrap_input.py:118-121 | distinct paths and an injective naming give the prepared input distinct source refs |
| Evidence.PreparedEvidenceIsSound | src/dnd_assistant/application/bootstrap_evidence.py:186-252 | from discovered files with distinct paths, packed, described and cited only as far as they were sent: the record of any produced proposal validates without an issue and is fresh |
| Ordering.StableSortKeepsOrder | src/dnd_assistant/application/campaign_state_source.py:267-268 | a stable sort of an already sorted list orders lexicographically by both keys |

## Left out

- One apply at a time: gate and apply are separate reads, so two concurrent invocations of `apply` on one ChangeSet are not covered; other commands may change entities between cycles, not inside one.
- Python's limit on the number of digits `int()` accepts: operation-id suffixes of any length parse here.
- The text form of the attempt log, and its splitting at U+0085, U+2028 and U+2029: attempt files are sequences of records with a mark for damage.
- JSON, SHA-256, clocks and random ids: codecs and hashes are parameters or constructors, event ids are given with each append and taken as new. Where store calls overlap, `Sealed` assumes of the record codec that a record is not read with the beginning of another one before it on its line, as no two JSON objects are.
- Unicode normalization, alias extraction and case folding: arbitrary functions or already extracted lists.
- Parsing of Markdown and frontmatter, paths, locking, symlinks and directory handling of the concrete stores; the audit path checks and the environment re-checks between intent and write appear only as a point where a mutation may stop.
- Diagnostic texts, model profiles and prompt versions; the order of the diagnostics in an evidence record, which sorts by those texts.
- The rest of the recovery preflight and the session-recovery detector: issues are given.
- The rendering of Summary and Recap, the Summary projection, and the workflow artifact's nested provenance: rendered texts are arbitrary, the workflow evidence keeps what the integrity checks read.
- Eligibility and prepared-input assembly of the processor: a fault of the first step, with the fingerprint of the prepared input given at launch.
- Proposals under an attempt's own id are created by that attempt only; the processor model keeps one such slot per attempt.
- Canonical coverage, the completion and readiness checks of bootstrap apply, batch scoping and merging of extractions: the merged extraction is given.
- Binding of touched entities to Vault documents, world time and calendar arithmetic of the campaign state: they enter as the derived state.
- Review, approval persistence, command line and terminal interface: they add only simple members.
- Preflight.ValidateChangeSet: keeps codes, indices and ids of issues, not their messages.
- Processor.VerifyTerminalIntegrity: visits the recorded artifacts as summary, recap, workflow, the order in which the processor records them; if several of them are wrong in a ledger with another order, the source reports the first in that order.
