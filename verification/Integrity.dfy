/** What terminal integrity demands of a completed attempt, and where a rerun ends when it is not met. */
module Integrity {
  import opened Wrappers
  import opened AttemptState
  import opened Processor
  import Domain

  // Folds

  /** A completed fold of a history: the events it kept are of their kinds. */
  ghost predicate CompletedFold(history: seq<LedgerEvent>, fold: Fold) {
    FoldRelevant(history) == Ok(fold) && fold.state == HasCompleted
  }

  lemma CompletedIsTyped(history: seq<LedgerEvent>, fold: Fold)
    requires CompletedFold(history, fold)
    ensures fold.started.Some? && fold.started.value.body.Started? && fold.terminal.Some? && fold.terminal.value.body.Completed?
    ensures forall slot :: slot in fold.artifacts ==> HasSlot(fold.artifacts[slot], slot)
    ensures fold.proposal.Some? ==> fold.proposal.value.body.ProposalPersisted?
  {
    FoldIff(history);
  }

  // Whole evidence, piece by piece

  /** The ledger records the artifact, the file is there, and path and hash are the recorded ones. */
  ghost predicate ArtifactIsWhole(cfg: Config, attempt: string, fold: Fold, artifacts: map<Slot, Content>, slot: Slot) {
    && slot in fold.artifacts && slot in artifacts
    && fold.artifacts[slot].body == ArtifactPersisted(slot, cfg.path(attempt, slot), cfg.hash(artifacts[slot]))
  }

  /** The workflow file is evidence of this attempt, this input and this outcome. */
  ghost predicate WorkflowIsOwn(attempt: string, started: LedgerEvent, outcome: Outcome, content: Content)
    requires started.body.Started?
  {
    && content.Evidence?
    && content.evidence.session == started.sessionRef && content.evidence.attempt == attempt
    && content.evidence.fingerprint == started.body.fingerprint && (content.evidence.produced <==> outcome == Produced)
  }

  /** Ledger, proposal store and workflow file name the same proposal, by id and fingerprint. */
  ghost predicate ProposalIsWhole(cfg: Config, fold: Fold, stored: Option<Domain.ChangeSet>, workflow: WorkflowEvidence) {
    && fold.proposal.Some? && stored.Some?
    && fold.proposal.value.body == ProposalPersisted(stored.value.id, cfg.changesetHash(stored.value))
    && workflow.changesetId == Some(stored.value.id) && workflow.changesetFingerprint == Some(cfg.changesetHash(stored.value))
  }

  /** Everything a completed attempt must have. */
  ghost predicate Whole(cfg: Config, attempt: string, fold: Fold, artifacts: map<Slot, Content>, stored: Option<Domain.ChangeSet>) {
    && fold.started.Some? && fold.started.value.body.Started? && fold.terminal.Some? && fold.terminal.value.body.Completed?
    && (forall slot: Slot :: ArtifactIsWhole(cfg, attempt, fold, artifacts, slot))
    && Workflow in artifacts && WorkflowIsOwn(attempt, fold.started.value, fold.terminal.value.body.outcome, artifacts[Workflow])
    && (fold.terminal.value.body.outcome == Produced ==> ProposalIsWhole(cfg, fold, stored, artifacts[Workflow].evidence))
    && (fold.terminal.value.body.outcome == NoChanges ==> fold.proposal == None && stored == None)
  }

  // The reasons

  /** What is wrong with one recorded artifact, if anything. */
  ghost predicate ArtifactIsWrong(cfg: Config, attempt: string, fold: Fold, artifacts: map<Slot, Content>, slot: Slot, reason: IntegrityReason)
    requires slot in fold.artifacts && HasSlot(fold.artifacts[slot], slot)
  {
    var body := fold.artifacts[slot].body;
    if slot !in artifacts then reason == ArtifactMissing
    else if body.hash != cfg.hash(artifacts[slot]) then reason == HashMismatch
    else body.path != cfg.path(attempt, slot) && reason == PathMismatch
  }

  /** The first artifact, of summary, recap and workflow, that is not whole. */
  ghost predicate FirstWrong(cfg: Config, attempt: string, fold: Fold, artifacts: map<Slot, Content>, slot: Slot) {
    && !ArtifactIsWhole(cfg, attempt, fold, artifacts, slot)
    && (slot != Summary ==> ArtifactIsWhole(cfg, attempt, fold, artifacts, Summary))
    && (slot == Workflow ==> ArtifactIsWhole(cfg, attempt, fold, artifacts, Recap))
  }

  /** The reason of the first piece that is missing, of a typed completed fold. */
  ghost predicate FirstFault(cfg: Config, attempt: string, fold: Fold, artifacts: map<Slot, Content>, stored: Option<Domain.ChangeSet>, reason: IntegrityReason)
    requires fold.started.Some? && fold.started.value.body.Started? && fold.terminal.Some? && fold.terminal.value.body.Completed?
    requires forall slot :: slot in fold.artifacts ==> HasSlot(fold.artifacts[slot], slot)
  {
    if exists slot: Slot :: slot !in fold.artifacts then reason == EvidenceIncomplete
    else if exists slot: Slot :: !ArtifactIsWhole(cfg, attempt, fold, artifacts, slot) then
      exists slot: Slot :: FirstWrong(cfg, attempt, fold, artifacts, slot) && ArtifactIsWrong(cfg, attempt, fold, artifacts, slot, reason)
    else if Workflow !in artifacts || !artifacts[Workflow].Evidence? then reason == WorkflowInvalid
    else if !WorkflowIsOwn(attempt, fold.started.value, fold.terminal.value.body.outcome, artifacts[Workflow]) then reason == WorkflowInconsistent
    else if fold.terminal.value.body.outcome == NoChanges then reason == UnexpectedProposal
    else if fold.proposal == None then reason == EvidenceIncomplete
    else if stored == None then reason == ProposalMissing
    else if fold.proposal.value.body != ProposalPersisted(stored.value.id, cfg.changesetHash(stored.value)) then reason == ProposalMismatch
    else reason == WorkflowInconsistent
  }

  lemma RecordedIff(fold: Fold)
    ensures AllRecorded(fold) <==> forall slot: Slot :: slot in fold.artifacts
  {
    assert SLOTS[0] == Summary && SLOTS[1] == Recap && SLOTS[2] == Workflow;
    forall slot: Slot | AllRecorded(fold)
      ensures slot in fold.artifacts
    {
      assert slot == SLOTS[0] || slot == SLOTS[1] || slot == SLOTS[2];
      assert slot in SLOTS;
    }
  }

  /** The loop over the artifacts stops at the first that is not whole. */
  lemma {:induction false} ArtifactFaultIs(cfg: Config, attempt: string, fold: Fold, artifacts: map<Slot, Content>)
    requires AllRecorded(fold) && forall slot :: slot in fold.artifacts ==> HasSlot(fold.artifacts[slot], slot)
    ensures var fault := ArtifactFault(cfg, attempt, fold, artifacts, SLOTS);
            && (fault == None <==> forall slot: Slot :: ArtifactIsWhole(cfg, attempt, fold, artifacts, slot))
            && (fault.Some? ==> exists slot: Slot :: FirstWrong(cfg, attempt, fold, artifacts, slot)
                                                     && ArtifactIsWrong(cfg, attempt, fold, artifacts, slot, fault.value))
  {
    RecordedIff(fold);
    assert SLOTS == [Summary, Recap, Workflow] && SLOTS[1..] == [Recap, Workflow] && SLOTS[1..][1..] == [Workflow] && SLOTS[1..][1..][1..] == [];
    FromSlot(cfg, attempt, fold, artifacts, SLOTS);
    FromSlot(cfg, attempt, fold, artifacts, SLOTS[1..]);
    FromSlot(cfg, attempt, fold, artifacts, SLOTS[1..][1..]);
    var fault := ArtifactFault(cfg, attempt, fold, artifacts, SLOTS);
    if !ArtifactIsWhole(cfg, attempt, fold, artifacts, Summary) {
      assert FirstWrong(cfg, attempt, fold, artifacts, Summary);
    } else if !ArtifactIsWhole(cfg, attempt, fold, artifacts, Recap) {
      assert FirstWrong(cfg, attempt, fold, artifacts, Recap);
    } else if !ArtifactIsWhole(cfg, attempt, fold, artifacts, Workflow) {
      assert FirstWrong(cfg, attempt, fold, artifacts, Workflow);
    } else {
      forall slot: Slot
        ensures ArtifactIsWhole(cfg, attempt, fold, artifacts, slot)
      {
        assert slot == Summary || slot == Recap || slot == Workflow;
      }
    }
  }

  lemma {:induction false} FromSlot(cfg: Config, attempt: string, fold: Fold, artifacts: map<Slot, Content>, slots: seq<Slot>)
    requires slots != [] && (forall slot :: slot in slots ==> slot in fold.artifacts) && HasSlot(fold.artifacts[slots[0]], slots[0])
    ensures forall slot :: slot in slots[1..] ==> slot in fold.artifacts
    ensures var fault := ArtifactFault(cfg, attempt, fold, artifacts, slots);
            if ArtifactIsWhole(cfg, attempt, fold, artifacts, slots[0]) then fault == ArtifactFault(cfg, attempt, fold, artifacts, slots[1..])
            else fault.Some? && ArtifactIsWrong(cfg, attempt, fold, artifacts, slots[0], fault.value)
  {
  }

  /**
   A completed attempt passes exactly if its evidence is whole: every artifact
   recorded and unchanged at its path, the workflow file its own, and ledger,
   store and workflow agreeing on the proposal or on there being none.
   Otherwise the reason is that of the first piece missing.
   */
  lemma IntegrityIff(cfg: Config, attempt: string, history: seq<LedgerEvent>, fold: Fold, artifacts: map<Slot, Content>, stored: Option<Domain.ChangeSet>)
    requires CompletedFold(history, fold)
    ensures fold.started.Some? && fold.started.value.body.Started? && fold.terminal.Some? && fold.terminal.value.body.Completed?
    ensures forall slot :: slot in fold.artifacts ==> HasSlot(fold.artifacts[slot], slot)
    ensures var answer := VerifyTerminalIntegrity(cfg, attempt, fold, artifacts, stored);
            && (answer == None <==> Whole(cfg, attempt, fold, artifacts, stored))
            && (answer.Some? ==> FirstFault(cfg, attempt, fold, artifacts, stored, answer.value))
  {
    CompletedIsTyped(history, fold);
    RecordedIff(fold);
    if AllRecorded(fold) {
      ArtifactFaultIs(cfg, attempt, fold, artifacts);
    } else {
      var slot: Slot :| slot !in fold.artifacts;
      assert !ArtifactIsWhole(cfg, attempt, fold, artifacts, slot);
    }
  }

  // Where a run with an existing history ends

  /** Reading the ledger leaves everything as it was and sends the invocation to one place. */
  ghost predicate GoesTo(cfg: Config, sys: System, pid: nat, choice: Choice, pc: Pc)
    requires pid in sys.invocations
  {
    var after := Next(cfg, sys, Advance(pid, choice));
    && after.ledger == sys.ledger && after.torn == sys.torn
    && (forall attempt :: DataOf(after, attempt) == DataOf(sys, attempt))
    && after.invocations == sys.invocations[pid := sys.invocations[pid].(pc := pc)]
  }

  /**
   A rerun of a completed attempt is reported as already terminal exactly if the
   input is the same and the evidence whole; an edited, deleted or foreign piece of
   evidence, or another input, ends it as failed.
   */
  lemma RerunIff(cfg: Config, sys: System, pid: nat, choice: Choice, fold: Fold)
    requires pid in sys.invocations && sys.invocations[pid].pc == Reading && choice.fault == None && !sys.torn
    requires CompletedFold(HistoryOf(sys, sys.invocations[pid].attempt), fold)
    ensures var inv := sys.invocations[pid];
            var data := DataOf(sys, inv.attempt);
            && fold.started.Some?
            && GoesTo(cfg, sys, pid, choice,
                      if fold.started.value.body == Started(inv.fingerprint) && Whole(cfg, inv.attempt, fold, data.artifacts, data.proposal)
                      then Finished(AlreadyTerminal) else Finished(StatusFailed))
  {
    var inv := sys.invocations[pid];
    var data := DataOf(sys, inv.attempt);
    IntegrityIff(cfg, inv.attempt, HistoryOf(sys, inv.attempt), fold, data.artifacts, data.proposal);
    assert sys.ledger + [] == sys.ledger;
  }

  /** Every other state of the ledger: unreadable, in conflict, failed, interrupted, superseded or not started. */
  lemma RoutesAre(cfg: Config, sys: System, pid: nat, choice: Choice)
    requires pid in sys.invocations && sys.invocations[pid].pc == Reading
    ensures var fold := FoldOf(sys.ledger, sys.invocations[pid].attempt);
            && (choice.fault.Some? || sys.torn || fold.Err? ==> GoesTo(cfg, sys, pid, choice, Finished(StatusFailed)))
            && (choice.fault == None && !sys.torn && fold.Ok? ==>
                  && (fold.value.state == HasFailed ==> GoesTo(cfg, sys, pid, choice, Finished(StatusFailed)))
                  && (fold.value.state == HasStarted || fold.value.state == WasSuperseded ==> GoesTo(cfg, sys, pid, choice, Finished(Interrupted)))
                  && (fold.value.state == NotStarted ==> GoesTo(cfg, sys, pid, choice, Claiming)))
  {
    assert sys.ledger + [] == sys.ledger;
  }
}
