/**
 What the processor's durable outputs say about the moves that made them, over every
 run: the moves of an invocation, what it carries from them, what it stores and records,
 that it passes each point of its work once, and that a run without faults completes.
 */
module ProcessorResults {
  import opened Wrappers
  import opened AttemptState
  import opened Processor
  import Domain
  import ProcessorLedger

  // The moves of a run

  /** Move `i` advances an invocation of the attempt at a certain point of its work. */
  ghost predicate Acts(cfg: Config, moves: seq<Move>, i: nat, pid: nat, attempt: string, pc: Pc) {
    && i < |moves| && moves[i].Advance? && moves[i].pid == pid
    && var sys := Run(cfg, moves[..i]);
    && pid in sys.invocations && sys.invocations[pid].attempt == attempt && sys.invocations[pid].pc == pc
  }

  ghost predicate Launched(moves: seq<Move>, pid: nat, attempt: string, fingerprint: string) {
    exists i: nat :: i < |moves| && moves[i] == Launch(pid, attempt, fingerprint)
  }

  /** The rendering move of an invocation returned these two texts. */
  ghost predicate RendersAt(cfg: Config, moves: seq<Move>, i: nat, pid: nat, attempt: string, summary: string, recap: string) {
    && Acts(cfg, moves, i, pid, attempt, Pc.Rendering)
    && moves[i].choice.fault == None && moves[i].choice.summary == summary && moves[i].choice.recap == recap
  }

  ghost predicate Rendered(cfg: Config, moves: seq<Move>, pid: nat, attempt: string, summary: string, recap: string) {
    exists i: nat :: RendersAt(cfg, moves, i, pid, attempt, summary, recap)
  }

  /** The producing move of an invocation returned these operations. */
  ghost predicate ProducesAt(cfg: Config, moves: seq<Move>, i: nat, pid: nat, attempt: string, operations: seq<Domain.Operation>) {
    && Acts(cfg, moves, i, pid, attempt, Producing)
    && moves[i].choice.fault == None && moves[i].choice.operations == operations
  }

  ghost predicate ProducedBy(cfg: Config, moves: seq<Move>, pid: nat, attempt: string, operations: seq<Domain.Operation>) {
    exists i: nat :: ProducesAt(cfg, moves, i, pid, attempt, operations)
  }

  /** The proposal of an attempt with these operations. */
  function ProposalWith(cfg: Config, attempt: string, operations: seq<Domain.Operation>): Domain.ChangeSet {
    Domain.ChangeSet("cs_" + cfg.session + "_" + attempt, Domain.ModelInference, Some(cfg.session), operations)
  }

  /** The workflow evidence of an attempt on this input with these operations. */
  function WorkflowOf(cfg: Config, attempt: string, fingerprint: string, operations: seq<Domain.Operation>): Content {
    if operations == [] then Evidence(WorkflowEvidence(cfg.session, attempt, fingerprint, false, None, None))
    else
      var proposal := ProposalWith(cfg, attempt, operations);
      Evidence(WorkflowEvidence(cfg.session, attempt, fingerprint, true, Some(proposal.id), Some(cfg.changesetHash(proposal))))
  }

  /** The append of a step failed: the ledger was torn, or it raised. */
  predicate AppendFails(torn: bool, choice: Choice) {
    torn || choice.fate != AppendOk
  }

  /** At this point of the work, with this choice, the attempt fails in this phase for this reason. */
  predicate FailsWith(cfg: Config, torn: bool, data: Data, pc: Pc, plan: Option<Domain.ChangeSet>, choice: Choice,
                      phase: Phase, category: FailureCategory)
  {
    match pc
    case Extracting => phase == Extraction && choice.fault == Some(category)
    case Producing => phase == Validation && choice.fault == Some(category)
    case Rendering => phase == Phase.Rendering && choice.fault == Some(category)
    case Persisting(slot) =>
      phase == Persistence && (choice.fault == Some(category) || (choice.fault == None && category == ArtifactConflict && slot in data.artifacts))
    case Announcing(_) => phase == Persistence && category == StorageFailure && AppendFails(torn, choice)
    case Proposing =>
      && phase == Persistence
      && (choice.fault == Some(category) || (choice.fault == None && category == ProposalConflict && data.proposal.Some? && data.proposal != plan))
    case AnnouncingProposal => phase == Persistence && category == StorageFailure && AppendFails(torn, choice)
    case FailingInTry => phase == Persistence && category == InternalError && AppendFails(torn, choice)
    case _ => false
  }

  ghost predicate FailsAt(cfg: Config, moves: seq<Move>, i: nat, pid: nat, attempt: string, phase: Phase, category: FailureCategory) {
    && i < |moves| && moves[i].Advance? && moves[i].pid == pid
    && var sys := Run(cfg, moves[..i]);
    && pid in sys.invocations && sys.invocations[pid].attempt == attempt
    && FailsWith(cfg, sys.torn, DataOf(sys, attempt), sys.invocations[pid].pc, sys.invocations[pid].plan, moves[i].choice, phase, category)
  }

  /** A move of the invocation failed so, or read back a proposal that is not the one it stored. */
  ghost predicate FailedSo(cfg: Config, moves: seq<Move>, pid: nat, attempt: string, phase: Phase, category: FailureCategory) {
    || (exists i: nat :: FailsAt(cfg, moves, i, pid, attempt, phase, category))
    || (phase == Persistence && category == ProposalConflict && exists i: nat :: MismatchAt(cfg, moves, i, pid))
  }

  ghost predicate MismatchAt(cfg: Config, moves: seq<Move>, i: nat, pid: nat) {
    i < |moves| && ReadsBackOther(cfg, moves, i, pid)
  }

  // What one invocation carries

  predicate HasPlan(pc: Pc) {
    pc == Pc.Rendering || HasTexts(pc)
  }

  predicate HasTexts(pc: Pc) {
    pc.Persisting? || pc.Announcing? || pc.Proposing? || pc.AnnouncingProposal? || pc.FailingInTry? || pc.Completing?
  }

  /** Input, plan and texts of an invocation are those of its own moves. */
  ghost predicate Carries(cfg: Config, moves: seq<Move>, pid: nat, inv: Invocation) {
    && Launched(moves, pid, inv.attempt, inv.fingerprint)
    && PlanIsTold(cfg, moves, pid, inv)
    && TextsAreTold(cfg, moves, pid, inv)
    && (inv.pc.Failing? ==> FailedSo(cfg, moves, pid, inv.attempt, inv.pc.phase, inv.pc.category))
    && (inv.pc.FailingInTry? ==> exists i: nat :: MismatchAt(cfg, moves, i, pid))
  }

  ghost predicate PlanIsTold(cfg: Config, moves: seq<Move>, pid: nat, inv: Invocation) {
    && (inv.plan.Some? ==> inv.plan.value.operations != [] && inv.plan.value == ProposalWith(cfg, inv.attempt, inv.plan.value.operations)
                           && ProducedBy(cfg, moves, pid, inv.attempt, inv.plan.value.operations))
    && (inv.plan.None? && HasPlan(inv.pc) ==> ProducedBy(cfg, moves, pid, inv.attempt, []))
  }

  ghost predicate TextsAreTold(cfg: Config, moves: seq<Move>, pid: nat, inv: Invocation) {
    && (HasTexts(inv.pc) ==> inv.contents != map[])
    && (inv.contents != map[] ==>
          && inv.contents.Keys == {Summary, Recap} && inv.contents[Summary].Prose? && inv.contents[Recap].Prose?
          && Rendered(cfg, moves, pid, inv.attempt, inv.contents[Summary].text, inv.contents[Recap].text))
  }

  lemma MarksRemain(cfg: Config, moves: seq<Move>, move: Move, i: nat)
    requires i < |moves|
    ensures (moves + [move])[..i] == moves[..i] && (moves + [move])[i] == moves[i]
  {
  }

  lemma CarriesLater(cfg: Config, moves: seq<Move>, move: Move, pid: nat, inv: Invocation)
    requires Carries(cfg, moves, pid, inv)
    ensures Carries(cfg, moves + [move], pid, inv)
  {
    var longer := moves + [move];
    var l: nat :| l < |moves| && moves[l] == Launch(pid, inv.attempt, inv.fingerprint);
    assert longer[l] == Launch(pid, inv.attempt, inv.fingerprint);
    if inv.plan.Some? {
      ProducedLater(cfg, moves, move, pid, inv.attempt, inv.plan.value.operations);
    }
    if inv.plan.None? && HasPlan(inv.pc) {
      ProducedLater(cfg, moves, move, pid, inv.attempt, []);
    }
    if inv.contents != map[] {
      RenderedLater(cfg, moves, move, pid, inv.attempt, inv.contents[Summary].text, inv.contents[Recap].text);
    }
    if inv.pc.Failing? {
      FailedLater(cfg, moves, move, pid, inv.attempt, inv.pc.phase, inv.pc.category);
    }
    if inv.pc.FailingInTry? {
      MismatchLater(cfg, moves, move, pid);
    }
  }

  lemma ProducedLater(cfg: Config, moves: seq<Move>, move: Move, pid: nat, attempt: string, operations: seq<Domain.Operation>)
    requires ProducedBy(cfg, moves, pid, attempt, operations)
    ensures ProducedBy(cfg, moves + [move], pid, attempt, operations)
  {
    var i: nat :| ProducesAt(cfg, moves, i, pid, attempt, operations);
    MarksRemain(cfg, moves, move, i);
    assert ProducesAt(cfg, moves + [move], i, pid, attempt, operations);
  }

  lemma RenderedLater(cfg: Config, moves: seq<Move>, move: Move, pid: nat, attempt: string, summary: string, recap: string)
    requires Rendered(cfg, moves, pid, attempt, summary, recap)
    ensures Rendered(cfg, moves + [move], pid, attempt, summary, recap)
  {
    var i: nat :| RendersAt(cfg, moves, i, pid, attempt, summary, recap);
    MarksRemain(cfg, moves, move, i);
    assert RendersAt(cfg, moves + [move], i, pid, attempt, summary, recap);
  }

  lemma MismatchLater(cfg: Config, moves: seq<Move>, move: Move, pid: nat)
    requires exists i: nat :: MismatchAt(cfg, moves, i, pid)
    ensures exists i: nat :: MismatchAt(cfg, moves + [move], i, pid)
  {
    var i: nat :| MismatchAt(cfg, moves, i, pid);
    MarksRemain(cfg, moves, move, i);
    assert MismatchAt(cfg, moves + [move], i, pid);
  }

  lemma FailedLater(cfg: Config, moves: seq<Move>, move: Move, pid: nat, attempt: string, phase: Phase, category: FailureCategory)
    requires FailedSo(cfg, moves, pid, attempt, phase, category)
    ensures FailedSo(cfg, moves + [move], pid, attempt, phase, category)
  {
    if i: nat :| FailsAt(cfg, moves, i, pid, attempt, phase, category) {
      MarksRemain(cfg, moves, move, i);
      assert FailsAt(cfg, moves + [move], i, pid, attempt, phase, category);
    } else {
      MismatchLater(cfg, moves, move, pid);
    }
  }

  // One step of an invocation

  /** What a step takes over from the models: the operations at the producing point, the two texts at the rendering point. */
  lemma StepTakes(cfg: Config, pid: nat, torn: bool, history: seq<LedgerEvent>, data: Data, inv: Invocation, choice: Choice)
    ensures var effect := LocalStep(cfg, pid, torn, history, data, inv, choice);
            && (if inv.pc == Producing && choice.fault == None
                then effect.plan == if choice.operations == [] then None else Some(ProposalWith(cfg, inv.attempt, choice.operations))
                else effect.plan == inv.plan)
            && (if inv.pc == Pc.Rendering && choice.fault == None
                then effect.contents == map[Summary := Prose(choice.summary), Recap := Prose(choice.recap)]
                else effect.contents == inv.contents)
  {
  }

  /** Where a step leads, as far as plan, texts and failures are concerned. */
  lemma StepLeads(cfg: Config, pid: nat, torn: bool, history: seq<LedgerEvent>, data: Data, inv: Invocation, choice: Choice)
    ensures var pc := LocalStep(cfg, pid, torn, history, data, inv, choice).pc;
            && (HasPlan(pc) ==> HasPlan(inv.pc) || (inv.pc == Producing && choice.fault == None))
            && (HasTexts(pc) ==> HasTexts(inv.pc) || (inv.pc == Pc.Rendering && choice.fault == None))
            && (pc.FailingInTry? ==> inv.pc == Proposing && choice.fault == None && !cfg.faithful && !ReadsBack(cfg, inv.plan, choice.readBack))
  {
  }

  lemma StepFails(cfg: Config, pid: nat, torn: bool, history: seq<LedgerEvent>, data: Data, inv: Invocation, choice: Choice)
    requires inv.pc.AnnouncingProposal? ==> inv.plan.Some?
    ensures var pc := LocalStep(cfg, pid, torn, history, data, inv, choice).pc;
            pc.Failing? ==> FailsWith(cfg, torn, data, inv.pc, inv.plan, choice, pc.phase, pc.category)
  {
  }

  /** A fault never lets the work go on. */
  lemma FaultsStop(cfg: Config, pid: nat, torn: bool, history: seq<LedgerEvent>, data: Data, inv: Invocation, choice: Choice)
    requires choice.fault.Some?
    requires !inv.pc.Starting? && !inv.pc.Announcing? && !inv.pc.AnnouncingProposal? && !inv.pc.FailingInTry? && !inv.pc.Failing? && !inv.pc.Completing?
    ensures var pc := LocalStep(cfg, pid, torn, history, data, inv, choice).pc;
            pc.Failing? || pc.Finished?
  {
  }

  // The durable data of an attempt

  /** The owner has not come to its texts yet. */
  predicate BeforeTexts(pc: Pc) {
    pc.Starting? || pc.Confirming? || pc.Extracting? || pc.Producing? || pc == Pc.Rendering
  }

  function TextFor(cfg: Config, inv: Invocation, slot: Slot): Content {
    if slot == Workflow then WorkflowOf(cfg, inv.attempt, inv.fingerprint, if inv.plan.Some? then inv.plan.value.operations else [])
    else if slot in inv.contents then inv.contents[slot] else Prose("")
  }

  /** Artifacts and proposal are what the owner carries. */
  ghost predicate StoredBy(cfg: Config, moves: seq<Move>, data: Data, pid: nat, inv: Invocation) {
    && (BeforeTexts(inv.pc) ==> data.artifacts == map[] && data.proposal == None)
    && (data.proposal.Some? ==> data.proposal == inv.plan)
    && (data.artifacts != map[] ==> inv.contents != map[] && (inv.plan.None? ==> ProducedBy(cfg, moves, pid, inv.attempt, [])))
    && (forall slot :: slot in data.artifacts ==> data.artifacts[slot] == TextFor(cfg, inv, slot))
  }

  ghost predicate DataIsOwn(cfg: Config, moves: seq<Move>, sys: System, attempt: string) {
    var data := DataOf(sys, attempt);
    data.owner.Some? ==>
      && data.owner.value in sys.invocations && sys.invocations[data.owner.value].attempt == attempt
      && StoredBy(cfg, moves, data, data.owner.value, sys.invocations[data.owner.value])
  }

  lemma CarriedWorkflow(cfg: Config, moves: seq<Move>, pid: nat, inv: Invocation, slot: Slot)
    requires PlanIsTold(cfg, moves, pid, inv)
    ensures ContentOf(cfg, inv, slot) == TextFor(cfg, inv, slot)
  {
  }

  /** What a step does to the stored data. */
  lemma StepStores(cfg: Config, pid: nat, torn: bool, history: seq<LedgerEvent>, data: Data, inv: Invocation, choice: Choice)
    ensures var after := LocalStep(cfg, pid, torn, history, data, inv, choice).data;
            && (after.artifacts == data.artifacts
                || (inv.pc.Persisting? && (inv.pc.slot in data.artifacts ==> data.artifacts[inv.pc.slot] == ContentOf(cfg, inv, inv.pc.slot))
                    && after.artifacts == data.artifacts[inv.pc.slot := ContentOf(cfg, inv, inv.pc.slot)]))
            && (after.proposal == data.proposal || (inv.pc.Proposing? && after.proposal == inv.plan))
  {
  }

  lemma StepEntersTexts(cfg: Config, pid: nat, torn: bool, history: seq<LedgerEvent>, data: Data, inv: Invocation, choice: Choice)
    ensures var pc := LocalStep(cfg, pid, torn, history, data, inv, choice).pc;
            BeforeTexts(pc) ==> BeforeTexts(inv.pc) || (inv.pc.Claiming? && data.owner.None?)
  {
  }

  // One event

  /** What an event says, and the moves of the owner behind it. */
  ghost predicate BodyTold(cfg: Config, moves: seq<Move>, pid: nat, attempt: string, data: Data, body: Body) {
    match body
    case Started(fingerprint) => Launched(moves, pid, attempt, fingerprint)
    case ArtifactPersisted(slot, path, hash) => slot in data.artifacts && hash == cfg.hash(data.artifacts[slot]) && path == cfg.path(attempt, slot)
    case ProposalPersisted(changesetId, fingerprint) =>
      data.proposal.Some? && changesetId == data.proposal.value.id && fingerprint == cfg.changesetHash(data.proposal.value)
    case Completed(outcome) => exists operations :: ProducedBy(cfg, moves, pid, attempt, operations) && (outcome == Produced <==> operations != [])
    case Failed(phase, category) => FailedSo(cfg, moves, pid, attempt, phase, category)
    case Superseded => false
  }

  /** The move that recorded an event gave it its id and time. */
  ghost predicate RecordedAt(cfg: Config, moves: seq<Move>, i: nat, pid: nat, event: LedgerEvent) {
    && i < |moves| && moves[i].Advance? && moves[i].pid == pid
    && event.eventId == moves[i].choice.eventId && event.realTime == moves[i].choice.realTime
  }

  ghost predicate EventTold(cfg: Config, moves: seq<Move>, attempt: string, data: Data, event: LedgerEvent) {
    && data.owner.Some? && event.attemptId == attempt && event.sessionRef == cfg.session
    && BodyTold(cfg, moves, data.owner.value, attempt, data, event.body)
    && exists i: nat :: RecordedAt(cfg, moves, i, data.owner.value, event)
  }

  /** The stored data only gains. */
  ghost predicate Gains(data: Data, after: Data) {
    && (data.owner.Some? ==> after.owner == data.owner)
    && (forall slot :: slot in data.artifacts ==> slot in after.artifacts && after.artifacts[slot] == data.artifacts[slot])
    && (data.proposal.Some? ==> after.proposal == data.proposal)
  }

  lemma BodyToldLater(cfg: Config, moves: seq<Move>, move: Move, pid: nat, attempt: string, data: Data, after: Data, body: Body)
    requires BodyTold(cfg, moves, pid, attempt, data, body) && Gains(data, after)
    ensures BodyTold(cfg, moves + [move], pid, attempt, after, body)
  {
    var longer := moves + [move];
    match body
    case Started(fingerprint) =>
      var l: nat :| l < |moves| && moves[l] == Launch(pid, attempt, fingerprint);
      assert longer[l] == Launch(pid, attempt, fingerprint);
    case Completed(outcome) =>
      var operations :| ProducedBy(cfg, moves, pid, attempt, operations) && (outcome == Produced <==> operations != []);
      ProducedLater(cfg, moves, move, pid, attempt, operations);
    case Failed(phase, category) => FailedLater(cfg, moves, move, pid, attempt, phase, category);
    case _ =>
  }

  lemma EventToldLater(cfg: Config, moves: seq<Move>, move: Move, attempt: string, data: Data, after: Data, event: LedgerEvent)
    requires EventTold(cfg, moves, attempt, data, event) && Gains(data, after)
    ensures EventTold(cfg, moves + [move], attempt, after, event)
  {
    BodyToldLater(cfg, moves, move, data.owner.value, attempt, data, after, event.body);
    var i: nat :| RecordedAt(cfg, moves, i, data.owner.value, event);
    assert RecordedAt(cfg, moves + [move], i, data.owner.value, event);
  }

  /** What an invocation would record is what its moves told. */
  lemma BodyIsTold(cfg: Config, moves: seq<Move>, pid: nat, history: seq<LedgerEvent>, data: Data, inv: Invocation, body: Body)
    requires Carries(cfg, moves, pid, inv) && Fits(cfg, inv, data, history) && ProcessorLedger.BodyFor(cfg, inv) == Some(body)
    ensures BodyTold(cfg, moves, pid, inv.attempt, data, body)
  {
    match inv.pc
    case Completing => assert ProducedBy(cfg, moves, pid, inv.attempt, if inv.plan.Some? then inv.plan.value.operations else []);
    case _ =>
  }

  // Every run

  ghost predicate Told(cfg: Config, moves: seq<Move>, sys: System) {
    && (forall pid :: pid in sys.invocations ==> Carries(cfg, moves, pid, sys.invocations[pid]))
    && (forall attempt :: AttemptTold(cfg, moves, sys, attempt))
  }

  ghost predicate AttemptTold(cfg: Config, moves: seq<Move>, sys: System, attempt: string) {
    DataIsOwn(cfg, moves, sys, attempt) && HistoryTold(cfg, moves, attempt, DataOf(sys, attempt), HistoryOf(sys, attempt))
  }

  ghost predicate HistoryTold(cfg: Config, moves: seq<Move>, attempt: string, data: Data, history: seq<LedgerEvent>) {
    forall k :: 0 <= k < |history| ==> EventTold(cfg, moves, attempt, data, history[k])
  }

  lemma HistoryToldLater(cfg: Config, moves: seq<Move>, move: Move, attempt: string, data: Data, after: Data, history: seq<LedgerEvent>)
    requires HistoryTold(cfg, moves, attempt, data, history) && Gains(data, after)
    ensures HistoryTold(cfg, moves + [move], attempt, after, history)
  {
    forall k | 0 <= k < |history|
      ensures EventTold(cfg, moves + [move], attempt, after, history[k])
    {
      EventToldLater(cfg, moves, move, attempt, data, after, history[k]);
    }
  }

  lemma StoredLater(cfg: Config, moves: seq<Move>, move: Move, data: Data, pid: nat, inv: Invocation)
    requires StoredBy(cfg, moves, data, pid, inv)
    ensures StoredBy(cfg, moves + [move], data, pid, inv)
  {
    if data.artifacts != map[] && inv.plan.None? {
      ProducedLater(cfg, moves, move, pid, inv.attempt, []);
    }
  }

  lemma {:induction false} ActsNow(cfg: Config, moves: seq<Move>, pid: nat, choice: Choice)
    requires pid in Run(cfg, moves).invocations
    ensures var inv := Run(cfg, moves).invocations[pid];
            && Acts(cfg, moves + [Advance(pid, choice)], |moves|, pid, inv.attempt, inv.pc)
            && (moves + [Advance(pid, choice)])[..|moves|] == moves && (moves + [Advance(pid, choice)])[|moves|] == Advance(pid, choice)
  {
    assert (moves + [Advance(pid, choice)])[..|moves|] == moves;
  }

  lemma StepKeepsPlan(cfg: Config, moves: seq<Move>, pid: nat, torn: bool, history: seq<LedgerEvent>, data: Data, inv: Invocation, choice: Choice)
    requires PlanIsTold(cfg, moves, pid, inv)
    requires inv.pc == Producing && choice.fault == None ==> ProducedBy(cfg, moves, pid, inv.attempt, choice.operations)
    ensures PlanIsTold(cfg, moves, pid, Stepped(inv, LocalStep(cfg, pid, torn, history, data, inv, choice)))
  {
    StepTakes(cfg, pid, torn, history, data, inv, choice);
    StepLeads(cfg, pid, torn, history, data, inv, choice);
  }

  lemma StepKeepsTexts(cfg: Config, moves: seq<Move>, pid: nat, torn: bool, history: seq<LedgerEvent>, data: Data, inv: Invocation, choice: Choice)
    requires TextsAreTold(cfg, moves, pid, inv)
    requires inv.pc == Pc.Rendering && choice.fault == None ==> Rendered(cfg, moves, pid, inv.attempt, choice.summary, choice.recap)
    ensures TextsAreTold(cfg, moves, pid, Stepped(inv, LocalStep(cfg, pid, torn, history, data, inv, choice)))
  {
    StepTakes(cfg, pid, torn, history, data, inv, choice);
    StepLeads(cfg, pid, torn, history, data, inv, choice);
    assert Summary in map[Summary := Prose(choice.summary), Recap := Prose(choice.recap)];
  }

  lemma {:induction false} AdvanceTells(cfg: Config, moves: seq<Move>, pid: nat, choice: Choice)
    requires pid in Run(cfg, moves).invocations
    ensures var inv, longer := Run(cfg, moves).invocations[pid], moves + [Advance(pid, choice)];
            && (inv.pc == Producing && choice.fault == None ==> ProducedBy(cfg, longer, pid, inv.attempt, choice.operations))
            && (inv.pc == Pc.Rendering && choice.fault == None ==> Rendered(cfg, longer, pid, inv.attempt, choice.summary, choice.recap))
  {
    var inv, longer := Run(cfg, moves).invocations[pid], moves + [Advance(pid, choice)];
    ActsNow(cfg, moves, pid, choice);
    if inv.pc == Producing && choice.fault == None {
      assert ProducesAt(cfg, longer, |moves|, pid, inv.attempt, choice.operations);
    }
    if inv.pc == Pc.Rendering && choice.fault == None {
      assert RendersAt(cfg, longer, |moves|, pid, inv.attempt, choice.summary, choice.recap);
    }
  }

  lemma {:induction false} AdvanceTellsFailure(cfg: Config, moves: seq<Move>, sys: System, pid: nat, choice: Choice, history: seq<LedgerEvent>, data: Data, inv: Invocation)
    requires sys == Run(cfg, moves) && pid in sys.invocations && inv == sys.invocations[pid] && data == DataOf(sys, inv.attempt)
    requires Fits(cfg, inv, data, history)
    ensures var pc, longer := LocalStep(cfg, pid, sys.torn, history, data, inv, choice).pc, moves + [Advance(pid, choice)];
            && (pc.Failing? ==> FailedSo(cfg, longer, pid, inv.attempt, pc.phase, pc.category))
            && (pc.FailingInTry? ==> exists i: nat :: MismatchAt(cfg, longer, i, pid))
  {
    var pc, longer := LocalStep(cfg, pid, sys.torn, history, data, inv, choice).pc, moves + [Advance(pid, choice)];
    ActsNow(cfg, moves, pid, choice);
    StepLeads(cfg, pid, sys.torn, history, data, inv, choice);
    if pc.Failing? {
      StepFails(cfg, pid, sys.torn, history, data, inv, choice);
      assert FailsAt(cfg, longer, |moves|, pid, inv.attempt, pc.phase, pc.category);
    }
    if pc.FailingInTry? {
      assert MismatchAt(cfg, longer, |moves|, pid);
    }
  }

  /** The advanced invocation carries what its moves told. */
  lemma {:induction false} StepCarries(cfg: Config, moves: seq<Move>, sys: System, pid: nat, choice: Choice, history: seq<LedgerEvent>, data: Data, inv: Invocation)
    requires sys == Run(cfg, moves) && pid in sys.invocations && inv == sys.invocations[pid] && data == DataOf(sys, inv.attempt)
    requires Carries(cfg, moves, pid, inv) && Fits(cfg, inv, data, history)
    ensures Carries(cfg, moves + [Advance(pid, choice)], pid, Stepped(inv, LocalStep(cfg, pid, sys.torn, history, data, inv, choice)))
  {
    var longer := moves + [Advance(pid, choice)];
    CarriesLater(cfg, moves, Advance(pid, choice), pid, inv);
    AdvanceTells(cfg, moves, pid, choice);
    StepKeepsPlan(cfg, longer, pid, sys.torn, history, data, inv, choice);
    StepKeepsTexts(cfg, longer, pid, sys.torn, history, data, inv, choice);
    AdvanceTellsFailure(cfg, moves, sys, pid, choice, history, data, inv);
  }

  lemma StepGains(cfg: Config, pid: nat, torn: bool, history: seq<LedgerEvent>, data: Data, inv: Invocation, choice: Choice)
    requires Ready(cfg, pid, history, data, inv)
    ensures Gains(data, LocalStep(cfg, pid, torn, history, data, inv, choice).data)
  {
    StepStores(cfg, pid, torn, history, data, inv, choice);
    EveryStepKeeps(cfg, pid, torn, history, data, inv, choice);
  }

  /** What the owner has stored after its own step. */
  lemma OwnerStores(cfg: Config, moves: seq<Move>, pid: nat, torn: bool, history: seq<LedgerEvent>, data: Data, inv: Invocation, choice: Choice)
    requires Ready(cfg, pid, history, data, inv) && StoredBy(cfg, moves, data, pid, inv) && Owning(inv.pc)
    requires Carries(cfg, moves, pid, inv)
    requires inv.pc == Producing && choice.fault == None ==> ProducedBy(cfg, moves, pid, inv.attempt, choice.operations)
    ensures var effect := LocalStep(cfg, pid, torn, history, data, inv, choice);
            StoredBy(cfg, moves, effect.data, pid, Stepped(inv, effect))
  {
    var effect := LocalStep(cfg, pid, torn, history, data, inv, choice);
    StepTakes(cfg, pid, torn, history, data, inv, choice);
    StepStores(cfg, pid, torn, history, data, inv, choice);
    StepEntersTexts(cfg, pid, torn, history, data, inv, choice);
    if !BeforeTexts(inv.pc) {
      SameCarrierStores(cfg, moves, pid, inv, Stepped(inv, effect), data, effect.data);
    }
  }

  /** An invocation that keeps plan and texts has stored what it carries. */
  lemma SameCarrierStores(cfg: Config, moves: seq<Move>, pid: nat, inv: Invocation, now: Invocation, data: Data, after: Data)
    requires StoredBy(cfg, moves, data, pid, inv) && Carries(cfg, moves, pid, inv) && !BeforeTexts(now.pc)
    requires now == inv.(pc := now.pc)
    requires || after.artifacts == data.artifacts
             || (inv.pc.Persisting? && after.artifacts == data.artifacts[inv.pc.slot := ContentOf(cfg, inv, inv.pc.slot)])
    requires after.proposal == data.proposal || after.proposal == inv.plan
    ensures StoredBy(cfg, moves, after, pid, now)
  {
    if inv.pc.Persisting? {
      CarriedWorkflow(cfg, moves, pid, inv, inv.pc.slot);
    }
  }

  lemma ClaimStores(cfg: Config, moves: seq<Move>, pid: nat, torn: bool, history: seq<LedgerEvent>, data: Data, inv: Invocation, choice: Choice)
    requires Ready(cfg, pid, history, data, inv) && data.owner.None?
    ensures var effect := LocalStep(cfg, pid, torn, history, data, inv, choice);
            && effect.appending.added == []
            && (effect.data.owner.Some? ==> effect.data.owner == Some(pid) && StoredBy(cfg, moves, effect.data, pid, Stepped(inv, effect)))
  {
    ReadsAddNothing(cfg, pid, torn, history, data, inv, choice);
  }

  /** Without an owner nothing is owned, and a step that owns nothing stores nothing. */
  lemma ReadsAddNothing(cfg: Config, pid: nat, torn: bool, history: seq<LedgerEvent>, data: Data, inv: Invocation, choice: Choice)
    requires !Owning(inv.pc)
    ensures var effect := LocalStep(cfg, pid, torn, history, data, inv, choice);
            effect.appending.added == [] && effect.data.artifacts == data.artifacts && effect.data.proposal == data.proposal
  {
  }

  /** A step of somebody else than the owner. */
  lemma IdleKeepsStored(cfg: Config, moves: seq<Move>, pid: nat, torn: bool, history: seq<LedgerEvent>, data: Data, inv: Invocation, choice: Choice)
    requires Ready(cfg, pid, history, data, inv) && data.owner.Some? && !Owning(inv.pc)
    ensures var effect := LocalStep(cfg, pid, torn, history, data, inv, choice);
            effect.appending.added == [] && effect.data == data
    ensures data.owner == Some(pid) && StoredBy(cfg, moves, data, pid, inv) ==>
              StoredBy(cfg, moves, data, pid, Stepped(inv, LocalStep(cfg, pid, torn, history, data, inv, choice)))
  {
    EveryStepKeeps(cfg, pid, torn, history, data, inv, choice);
    StepTakes(cfg, pid, torn, history, data, inv, choice);
    StepEntersTexts(cfg, pid, torn, history, data, inv, choice);
  }

  /** The event a step adds is told by the moves up to it. */
  lemma AddedIsTold(cfg: Config, moves: seq<Move>, pid: nat, torn: bool, history: seq<LedgerEvent>, data: Data, inv: Invocation, choice: Choice)
    requires Ready(cfg, pid, history, data, inv) && Carries(cfg, moves, pid, inv) && Owning(inv.pc)
    ensures var effect, longer := LocalStep(cfg, pid, torn, history, data, inv, choice), moves + [Advance(pid, choice)];
            HistoryTold(cfg, longer, inv.attempt, effect.data, effect.appending.added)
  {
    var effect := LocalStep(cfg, pid, torn, history, data, inv, choice);
    var body := ProcessorLedger.BodyFor(cfg, inv);
    ProcessorLedger.StepsRecord(cfg, pid, torn, history, data, inv, choice);
    StepGains(cfg, pid, torn, history, data, inv, choice);
    if body.Some? {
      AppendIsTold(cfg, moves, pid, torn, history, data, effect.data, inv, choice, body.value, effect.appending.added);
    }
  }

  lemma AppendIsTold(cfg: Config, moves: seq<Move>, pid: nat, torn: bool, history: seq<LedgerEvent>, data: Data, after: Data,
                     inv: Invocation, choice: Choice, body: Body, added: seq<LedgerEvent>)
    requires Carries(cfg, moves, pid, inv) && Fits(cfg, inv, data, history) && ProcessorLedger.BodyFor(cfg, inv) == Some(body)
    requires data.owner == Some(pid) && Gains(data, after)
    requires added == Append(torn, EventOf(cfg, inv, choice, body), choice.fate).added
    ensures HistoryTold(cfg, moves + [Advance(pid, choice)], inv.attempt, after, added)
  {
    BodyIsTold(cfg, moves, pid, history, data, inv, body);
    BodyToldLater(cfg, moves, Advance(pid, choice), pid, inv.attempt, data, after, body);
    NewEventIsTold(cfg, moves, pid, inv, choice, after, body);
    AppendMarks(history, torn, EventOf(cfg, inv, choice, body), choice.fate);
  }

  lemma NewEventIsTold(cfg: Config, moves: seq<Move>, pid: nat, inv: Invocation, choice: Choice, data: Data, body: Body)
    requires data.owner == Some(pid) && BodyTold(cfg, moves + [Advance(pid, choice)], pid, inv.attempt, data, body)
    ensures EventTold(cfg, moves + [Advance(pid, choice)], inv.attempt, data, EventOf(cfg, inv, choice, body))
  {
    var longer := moves + [Advance(pid, choice)];
    assert longer[|moves|] == Advance(pid, choice);
    assert RecordedAt(cfg, longer, |moves|, pid, EventOf(cfg, inv, choice, body));
  }

  lemma ToldConcat(cfg: Config, moves: seq<Move>, attempt: string, data: Data, a: seq<LedgerEvent>, b: seq<LedgerEvent>)
    requires HistoryTold(cfg, moves, attempt, data, a) && HistoryTold(cfg, moves, attempt, data, b)
    ensures HistoryTold(cfg, moves, attempt, data, a + b)
  {
  }

  /** The attempt of the advanced invocation, on plain values. */
  lemma {:induction false} OwnAttemptStaysTold(cfg: Config, moves: seq<Move>, sys: System, pid: nat, choice: Choice, history: seq<LedgerEvent>, data: Data, inv: Invocation)
    requires sys == Run(cfg, moves) && pid in sys.invocations && inv == sys.invocations[pid] && data == DataOf(sys, inv.attempt)
    requires history == HistoryOf(sys, inv.attempt) && Ready(cfg, pid, history, data, inv)
    requires Carries(cfg, moves, pid, inv) && AttemptTold(cfg, moves, sys, inv.attempt)
    ensures var effect, longer := LocalStep(cfg, pid, sys.torn, history, data, inv, choice), moves + [Advance(pid, choice)];
            && HistoryTold(cfg, longer, inv.attempt, effect.data, history + effect.appending.added)
            && (effect.data.owner == Some(pid) ==> StoredBy(cfg, longer, effect.data, pid, Stepped(inv, effect)))
            && (effect.data.owner != Some(pid) ==> effect.data == data)
  {
    var move, effect := Advance(pid, choice), LocalStep(cfg, pid, sys.torn, history, data, inv, choice);
    var longer := moves + [move];
    StepGains(cfg, pid, sys.torn, history, data, inv, choice);
    HistoryToldLater(cfg, moves, move, inv.attempt, data, effect.data, history);
    if data.owner == Some(pid) {
      StoredLater(cfg, moves, move, data, pid, inv);
    }
    if Owning(inv.pc) {
      AddedIsTold(cfg, moves, pid, sys.torn, history, data, inv, choice);
      CarriesLater(cfg, moves, move, pid, inv);
      AdvanceTells(cfg, moves, pid, choice);
      OwnerStores(cfg, longer, pid, sys.torn, history, data, inv, choice);
    } else if data.owner.Some? {
      IdleKeepsStored(cfg, longer, pid, sys.torn, history, data, inv, choice);
    } else {
      ClaimStores(cfg, longer, pid, sys.torn, history, data, inv, choice);
      EveryStepKeeps(cfg, pid, sys.torn, history, data, inv, choice);
    }
    ToldConcat(cfg, longer, inv.attempt, effect.data, history, effect.appending.added);
  }

  lemma {:induction false} AdvanceKeepsTold(cfg: Config, moves: seq<Move>, sys: System, pid: nat, choice: Choice, attempt: string)
    requires sys == Run(cfg, moves) && Invariant(cfg, sys) && Told(cfg, moves, sys) && pid in sys.invocations
    ensures AttemptTold(cfg, moves + [Advance(pid, choice)], AdvanceSystem(cfg, sys, pid, choice), attempt)
  {
    var inv := sys.invocations[pid];
    var history, data := HistoryOf(sys, inv.attempt), DataOf(sys, inv.attempt);
    var effect, after := LocalStep(cfg, pid, sys.torn, history, data, inv, choice), AdvanceSystem(cfg, sys, pid, choice);
    assert InvocationFits(cfg, sys, pid, inv) && Carries(cfg, moves, pid, inv);
    assert AttemptTold(cfg, moves, sys, attempt) && AttemptTold(cfg, moves, sys, inv.attempt);
    EveryStepKeeps(cfg, pid, sys.torn, history, data, inv, choice);
    HistoriesAfter(sys, effect.appending.added, inv.attempt, attempt);
    if attempt == inv.attempt {
      OwnAttemptStaysTold(cfg, moves, sys, pid, choice, history, data, inv);
      if data.owner.Some? && data.owner != Some(pid) {
        StoredLater(cfg, moves, Advance(pid, choice), data, data.owner.value, sys.invocations[data.owner.value]);
      }
    } else {
      assert HistoryOf(sys, attempt) + [] == HistoryOf(sys, attempt);
      OtherAttemptStaysTold(cfg, moves, sys, after, pid, Advance(pid, choice), attempt);
    }
  }

  /** An attempt that a move leaves alone, apart from the invocations of other attempts. */
  lemma OtherAttemptStaysTold(cfg: Config, moves: seq<Move>, sys: System, after: System, pid: nat, move: Move, attempt: string)
    requires AttemptTold(cfg, moves, sys, attempt)
    requires HistoryOf(after, attempt) == HistoryOf(sys, attempt) && DataOf(after, attempt) == DataOf(sys, attempt)
    requires forall other :: other in sys.invocations && other != pid ==> other in after.invocations && after.invocations[other] == sys.invocations[other]
    requires pid in sys.invocations ==> sys.invocations[pid].attempt != attempt
    ensures AttemptTold(cfg, moves + [move], after, attempt)
  {
    var data := DataOf(sys, attempt);
    HistoryToldLater(cfg, moves, move, attempt, data, data, HistoryOf(sys, attempt));
    if data.owner.Some? {
      StoredLater(cfg, moves, move, data, data.owner.value, sys.invocations[data.owner.value]);
    }
  }

  lemma {:induction false} AdvanceIsTold(cfg: Config, moves: seq<Move>, sys: System, pid: nat, choice: Choice)
    requires sys == Run(cfg, moves) && Invariant(cfg, sys) && Told(cfg, moves, sys) && pid in sys.invocations
    ensures Told(cfg, moves + [Advance(pid, choice)], AdvanceSystem(cfg, sys, pid, choice))
  {
    var longer, after := moves + [Advance(pid, choice)], AdvanceSystem(cfg, sys, pid, choice);
    forall other | other in after.invocations
      ensures Carries(cfg, longer, other, after.invocations[other])
    {
      var inv := sys.invocations[other];
      assert Carries(cfg, moves, other, inv) && InvocationFits(cfg, sys, other, inv);
      if other == pid {
        StepCarries(cfg, moves, sys, pid, choice, HistoryOf(sys, inv.attempt), DataOf(sys, inv.attempt), inv);
      } else {
        CarriesLater(cfg, moves, Advance(pid, choice), other, inv);
      }
    }
    forall attempt
      ensures AttemptTold(cfg, longer, after, attempt)
    {
      AdvanceKeepsTold(cfg, moves, sys, pid, choice, attempt);
    }
  }

  /** A launch or a crash touches one invocation, and of that nothing but its point of work. */
  ghost predicate OnlyStops(before: Invocation, after: Invocation) {
    after == before || after == before.(pc := Finished(Crashed))
  }

  lemma QuietCarries(cfg: Config, moves: seq<Move>, move: Move, pid: nat, inv: Invocation, now: Invocation)
    requires Carries(cfg, moves, pid, inv) && OnlyStops(inv, now)
    ensures Carries(cfg, moves + [move], pid, now)
  {
    CarriesLater(cfg, moves, move, pid, inv);
  }

  lemma QuietAttempt(cfg: Config, moves: seq<Move>, sys: System, move: Move, after: System, attempt: string)
    requires AttemptTold(cfg, moves, sys, attempt) && after.ledger == sys.ledger && after.attempts == sys.attempts
    requires forall pid :: pid in sys.invocations ==> pid in after.invocations && OnlyStops(sys.invocations[pid], after.invocations[pid])
    ensures AttemptTold(cfg, moves + [move], after, attempt)
  {
    assert HistoryOf(after, attempt) == HistoryOf(sys, attempt) && DataOf(after, attempt) == DataOf(sys, attempt);
    var data := DataOf(sys, attempt);
    HistoryToldLater(cfg, moves, move, attempt, data, data, HistoryOf(sys, attempt));
    if data.owner.Some? {
      StoredLater(cfg, moves, move, data, data.owner.value, sys.invocations[data.owner.value]);
    }
  }

  lemma QuietNext(cfg: Config, sys: System, move: Move)
    requires move.Advance? ==> move.pid !in sys.invocations
    ensures var after := Next(cfg, sys, move);
            && after.ledger == sys.ledger && after.attempts == sys.attempts
            && (forall pid :: pid in sys.invocations ==> pid in after.invocations && OnlyStops(sys.invocations[pid], after.invocations[pid]))
            && (forall pid :: pid in after.invocations && pid !in sys.invocations ==>
                  move.Launch? && pid == move.pid && after.invocations[pid] == Invocation(move.attempt, move.fingerprint, Reading, None, map[]))
  {
  }

  /** A launch, a crash, or a move of nobody: the durable state stays, and one entry may change. */
  lemma {:induction false} QuietMoveIsTold(cfg: Config, moves: seq<Move>, sys: System, move: Move)
    requires sys == Run(cfg, moves) && Told(cfg, moves, sys) && (move.Advance? ==> move.pid !in sys.invocations)
    ensures Told(cfg, moves + [move], Next(cfg, sys, move))
  {
    var longer, after := moves + [move], Next(cfg, sys, move);
    QuietNext(cfg, sys, move);
    forall pid | pid in after.invocations
      ensures Carries(cfg, longer, pid, after.invocations[pid])
    {
      if pid in sys.invocations {
        QuietCarries(cfg, moves, move, pid, sys.invocations[pid], after.invocations[pid]);
      } else {
        assert longer[|moves|] == move;
      }
    }
    forall attempt
      ensures AttemptTold(cfg, longer, after, attempt)
    {
      QuietAttempt(cfg, moves, sys, move, after, attempt);
    }
  }

  lemma {:induction false} RunsAreTold(cfg: Config, moves: seq<Move>)
    ensures Told(cfg, moves, Run(cfg, moves))
  {
    if moves == [] {
      NothingIsTold(cfg);
    } else {
      var front, last := moves[..|moves| - 1], moves[|moves| - 1];
      RunsAreTold(cfg, front);
      RunsKeepInvariant(cfg, front);
      assert front + [last] == moves;
      if last.Advance? && last.pid in Run(cfg, front).invocations {
        AdvanceIsTold(cfg, front, Run(cfg, front), last.pid, last.choice);
      } else {
        QuietMoveIsTold(cfg, front, Run(cfg, front), last);
      }
    }
  }

  lemma NothingIsTold(cfg: Config)
    ensures Told(cfg, [], INITIAL)
  {
    forall attempt
      ensures AttemptTold(cfg, [], INITIAL, attempt)
    {
      assert HistoryOf(INITIAL, attempt) == [] && DataOf(INITIAL, attempt) == UNTOUCHED;
    }
  }

  // What the outputs are

  /** The two texts of the attempt are those its owner's rendering move returned, each under its own name. */
  ghost predicate TextsAre(cfg: Config, moves: seq<Move>, attempt: string, pid: nat, artifacts: map<Slot, Content>) {
    artifacts != map[] ==>
      exists summary, recap ::
        && Rendered(cfg, moves, pid, attempt, summary, recap)
        && (Summary in artifacts ==> artifacts[Summary] == Prose(summary))
        && (Recap in artifacts ==> artifacts[Recap] == Prose(recap))
  }

  /** The workflow file says what was read and what was produced. */
  ghost predicate WorkflowIs(cfg: Config, moves: seq<Move>, attempt: string, pid: nat, artifacts: map<Slot, Content>) {
    Workflow in artifacts ==>
      exists fingerprint, operations ::
        && Launched(moves, pid, attempt, fingerprint) && ProducedBy(cfg, moves, pid, attempt, operations)
        && artifacts[Workflow] == WorkflowOf(cfg, attempt, fingerprint, operations)
  }

  /** The stored proposal has the attempt's own id, no other origin than the model, and the produced operations. */
  ghost predicate ProposalIs(cfg: Config, moves: seq<Move>, attempt: string, pid: nat, proposal: Option<Domain.ChangeSet>) {
    proposal.Some? ==>
      exists operations ::
        && operations != [] && ProducedBy(cfg, moves, pid, attempt, operations)
        && proposal == Some(Domain.ChangeSet("cs_" + cfg.session + "_" + attempt, Domain.ModelInference, Some(cfg.session), operations))
  }

  /**
   Over every run the artifacts and the proposal of an attempt are what its
   owner's moves returned: the summary is the summary, the recap the recap, the
   workflow names input and proposal, the proposal has the produced operations.
   Every ledger event of the attempt was recorded by a move of the owner, and what
   it says about path, hash, id, outcome or failure is so.
   */
  lemma {:induction false} OutputsAreReturned(cfg: Config, moves: seq<Move>, attempt: string)
    ensures var sys := Run(cfg, moves);
            var data := DataOf(sys, attempt);
            && (data.owner.None? ==> data.artifacts == map[] && data.proposal == None && HistoryOf(sys, attempt) == [])
            && (data.owner.Some? ==>
                  && TextsAre(cfg, moves, attempt, data.owner.value, data.artifacts)
                  && WorkflowIs(cfg, moves, attempt, data.owner.value, data.artifacts)
                  && ProposalIs(cfg, moves, attempt, data.owner.value, data.proposal))
            && forall k :: 0 <= k < |HistoryOf(sys, attempt)| ==> EventTold(cfg, moves, attempt, data, HistoryOf(sys, attempt)[k])
  {
    RunsAreTold(cfg, moves);
    RunsKeepInvariant(cfg, moves);
    var sys := Run(cfg, moves);
    var data := DataOf(sys, attempt);
    assert AttemptTold(cfg, moves, sys, attempt) && Durable(cfg, attempt, HistoryOf(sys, attempt), data);
    if data.owner.Some? {
      var pid := data.owner.value;
      assert Carries(cfg, moves, pid, sys.invocations[pid]);
      StoredIsReturned(cfg, moves, pid, sys.invocations[pid], data);
    }
  }

  lemma StoredIsReturned(cfg: Config, moves: seq<Move>, pid: nat, inv: Invocation, data: Data)
    requires Carries(cfg, moves, pid, inv) && StoredBy(cfg, moves, data, pid, inv)
    ensures TextsAre(cfg, moves, inv.attempt, pid, data.artifacts)
    ensures WorkflowIs(cfg, moves, inv.attempt, pid, data.artifacts)
    ensures ProposalIs(cfg, moves, inv.attempt, pid, data.proposal)
  {
    if data.artifacts != map[] {
      var summary, recap := inv.contents[Summary].text, inv.contents[Recap].text;
      assert Rendered(cfg, moves, pid, inv.attempt, summary, recap);
    }
    if Workflow in data.artifacts {
      var operations := if inv.plan.Some? then inv.plan.value.operations else [];
      assert ProducedBy(cfg, moves, pid, inv.attempt, operations);
    }
  }

  // Each point of the work is passed once

  /** How far an invocation has come. */
  function Stage(pc: Pc): nat {
    match pc
    case Reading => 0
    case Claiming => 1
    case Starting => 2
    case Confirming(_) => 3
    case Extracting => 4
    case Producing => 5
    case Rendering => 6
    case Persisting(slot) => 5 + 2 * SlotRank(slot)
    case Announcing(slot) => 6 + 2 * SlotRank(slot)
    case Proposing => 13
    case AnnouncingProposal => 14
    case FailingInTry => 15
    case Failing(_, _) => 16
    case Completing => 16
    case Reloading => 17
    case Finished(_) => 18
  }

  lemma BeginningAdvances(cfg: Config, pid: nat, torn: bool, history: seq<LedgerEvent>, data: Data, inv: Invocation, choice: Choice)
    requires inv.pc.Reading? || inv.pc.Claiming? || inv.pc.Starting? || inv.pc.Confirming?
    ensures Stage(LocalStep(cfg, pid, torn, history, data, inv, choice).pc) > Stage(inv.pc)
  {
  }

  lemma ModelsAdvance(cfg: Config, pid: nat, torn: bool, history: seq<LedgerEvent>, data: Data, inv: Invocation, choice: Choice)
    requires inv.pc.Extracting? || inv.pc.Producing? || inv.pc == Pc.Rendering
    ensures Stage(LocalStep(cfg, pid, torn, history, data, inv, choice).pc) > Stage(inv.pc)
  {
  }

  lemma SlotsAdvance(cfg: Config, pid: nat, torn: bool, history: seq<LedgerEvent>, data: Data, inv: Invocation, choice: Choice)
    requires inv.pc.Persisting? || inv.pc.Announcing?
    ensures Stage(LocalStep(cfg, pid, torn, history, data, inv, choice).pc) > Stage(inv.pc)
  {
  }

  lemma ProposalAdvances(cfg: Config, pid: nat, torn: bool, history: seq<LedgerEvent>, data: Data, inv: Invocation, choice: Choice)
    requires inv.pc.Proposing? || inv.pc.AnnouncingProposal? || inv.pc.FailingInTry?
    ensures Stage(LocalStep(cfg, pid, torn, history, data, inv, choice).pc) > Stage(inv.pc)
  {
  }

  lemma EndAdvances(cfg: Config, pid: nat, torn: bool, history: seq<LedgerEvent>, data: Data, inv: Invocation, choice: Choice)
    requires inv.pc.Failing? || inv.pc.Completing? || inv.pc.Reloading?
    ensures Stage(LocalStep(cfg, pid, torn, history, data, inv, choice).pc) > Stage(inv.pc)
  {
  }

  lemma StepAdvances(cfg: Config, pid: nat, torn: bool, history: seq<LedgerEvent>, data: Data, inv: Invocation, choice: Choice)
    ensures var pc := LocalStep(cfg, pid, torn, history, data, inv, choice).pc;
            Stage(pc) > Stage(inv.pc) || (inv.pc.Finished? && pc == inv.pc)
  {
    if inv.pc.Reading? || inv.pc.Claiming? || inv.pc.Starting? || inv.pc.Confirming? {
      BeginningAdvances(cfg, pid, torn, history, data, inv, choice);
    } else if inv.pc.Extracting? || inv.pc.Producing? || inv.pc == Pc.Rendering {
      ModelsAdvance(cfg, pid, torn, history, data, inv, choice);
    } else if inv.pc.Persisting? || inv.pc.Announcing? {
      SlotsAdvance(cfg, pid, torn, history, data, inv, choice);
    } else if inv.pc.Proposing? || inv.pc.AnnouncingProposal? || inv.pc.FailingInTry? {
      ProposalAdvances(cfg, pid, torn, history, data, inv, choice);
    } else if !inv.pc.Finished? {
      EndAdvances(cfg, pid, torn, history, data, inv, choice);
    }
  }

  lemma NextAdvances(cfg: Config, sys: System, move: Move, pid: nat)
    requires pid in sys.invocations
    ensures var after := Next(cfg, sys, move);
            && pid in after.invocations && after.invocations[pid].attempt == sys.invocations[pid].attempt
            && Stage(after.invocations[pid].pc) >= Stage(sys.invocations[pid].pc)
            && (move.Advance? && move.pid == pid && !sys.invocations[pid].pc.Finished? ==>
                  Stage(after.invocations[pid].pc) > Stage(sys.invocations[pid].pc))
  {
    if move.Advance? && move.pid == pid {
      var inv := sys.invocations[pid];
      StepAdvances(cfg, pid, sys.torn, HistoryOf(sys, inv.attempt), DataOf(sys, inv.attempt), inv, move.choice);
    }
  }

  lemma {:induction false} StagesGrow(cfg: Config, moves: seq<Move>, i: nat, j: nat, pid: nat)
    requires i <= j <= |moves| && pid in Run(cfg, moves[..i]).invocations
    ensures pid in Run(cfg, moves[..j]).invocations
    ensures Stage(Run(cfg, moves[..j]).invocations[pid].pc) >= Stage(Run(cfg, moves[..i]).invocations[pid].pc)
  {
    if i < j {
      StagesGrow(cfg, moves, i, j - 1, pid);
      NextAdvances(cfg, Run(cfg, moves[..j - 1]), moves[j - 1], pid);
      assert moves[..j][..j - 1] == moves[..j - 1];
    }
  }

  /** No invocation acts twice at one point of its work: the move that produced, or rendered, is the only one. */
  lemma ActsOnce(cfg: Config, moves: seq<Move>, i: nat, j: nat, pid: nat, attempt: string, other: string, pc: Pc)
    requires Acts(cfg, moves, i, pid, attempt, pc) && Acts(cfg, moves, j, pid, other, pc) && !pc.Finished?
    ensures i == j
  {
    if i < j {
      LaterActs(cfg, moves, i, j, pid);
    } else if j < i {
      LaterActs(cfg, moves, j, i, pid);
    }
  }

  lemma {:induction false} LaterActs(cfg: Config, moves: seq<Move>, i: nat, j: nat, pid: nat)
    requires i < j < |moves| && moves[i].Advance? && moves[i].pid == pid
    requires pid in Run(cfg, moves[..i]).invocations && !Run(cfg, moves[..i]).invocations[pid].pc.Finished?
    ensures pid in Run(cfg, moves[..j]).invocations
    ensures Stage(Run(cfg, moves[..j]).invocations[pid].pc) > Stage(Run(cfg, moves[..i]).invocations[pid].pc)
  {
    NextAdvances(cfg, Run(cfg, moves[..i]), moves[i], pid);
    assert moves[..i + 1][..i] == moves[..i];
    StagesGrow(cfg, moves, i + 1, j, pid);
  }

  // Nothing but a fault stops the work

  /** From the launch to the last artifact, and through the proposal if there is one. */
  lemma ReachCompleting(cfg: Config, attempt: string, fingerprint: string, fine: Choice, ids: nat -> string)
    returns (moves: seq<Move>, ledger: seq<LedgerEvent>, data: Data, inv: Invocation)
    requires FaultFree(fine)
    ensures RanTo(cfg, moves, ledger, data, inv) && inv.attempt == attempt && inv.pc == Completing
  {
    moves, ledger, data, inv := ReachLastSlot(cfg, attempt, fingerprint, fine, ids);
    if inv.plan.Some? {
      assert ledger + [] == ledger;
      var stored := WithId(fine, ids, 4).(readBack := inv.plan.value);
      OneMore(cfg, moves, ledger, data, inv, stored);
      var effect := LocalStep(cfg, 0, false, ledger, data, inv, stored);
      moves, data, inv := moves + [Advance(0, stored)], effect.data, Stepped(inv, effect);
      OneMore(cfg, moves, ledger, data, inv, stored);
      var last := LocalStep(cfg, 0, false, ledger, data, inv, stored);
      moves, ledger, inv := moves + [Advance(0, stored)], ledger + last.appending.added, Stepped(inv, last);
    }
  }

  lemma ReachReloading(cfg: Config, attempt: string, fingerprint: string, fine: Choice, ids: nat -> string)
    returns (moves: seq<Move>, ledger: seq<LedgerEvent>, data: Data, inv: Invocation)
    requires FaultFree(fine)
    ensures RanTo(cfg, moves, ledger, data, inv) && inv.attempt == attempt && inv.pc == Reloading
  {
    moves, ledger, data, inv := ReachCompleting(cfg, attempt, fingerprint, fine, ids);
    var done := WithId(fine, ids, 5);
    OneMore(cfg, moves, ledger, data, inv, done);
    var effect := LocalStep(cfg, 0, false, ledger, data, inv, done);
    moves, ledger, inv := moves + [Advance(0, done)], ledger + effect.appending.added, Stepped(inv, effect);
  }

  lemma DurableFolds(cfg: Config, attempt: string, history: seq<LedgerEvent>, data: Data)
    requires Durable(cfg, attempt, history, data) && EndsCompleted(history)
    ensures FoldRelevant(history).Ok?
  {
  }

  lemma ReloadingEndsCompleted(cfg: Config, sys: System, pid: nat)
    requires Invariant(cfg, sys) && pid in sys.invocations && sys.invocations[pid].pc == Reloading
    ensures var attempt := sys.invocations[pid].attempt;
            EndsCompleted(HistoryOf(sys, attempt)) && Durable(cfg, attempt, HistoryOf(sys, attempt), DataOf(sys, attempt))
  {
    assert InvocationFits(cfg, sys, pid, sys.invocations[pid]);
  }

  lemma ReloadedFolds(cfg: Config, moves: seq<Move>, ledger: seq<LedgerEvent>, data: Data, inv: Invocation)
    requires RanTo(cfg, moves, ledger, data, inv) && inv.pc == Reloading
    ensures FoldRelevant(ledger).Ok?
  {
    RunsKeepInvariant(cfg, moves);
    RelevantAll(ledger, inv.attempt, inv.attempt);
    ReloadingEndsCompleted(cfg, Run(cfg, moves), 0);
    DurableFolds(cfg, inv.attempt, ledger, DataOf(Run(cfg, moves), inv.attempt));
  }

  /** For every attempt, input and model output, with or without something to propose, a run without faults reports completion. */
  lemma UndisturbedRunCompletes(cfg: Config, attempt: string, fingerprint: string, fine: Choice, ids: nat -> string) returns (moves: seq<Move>)
    requires FaultFree(fine)
    ensures var sys := Run(cfg, moves);
            && 0 in sys.invocations && sys.invocations[0].attempt == attempt && sys.invocations[0].pc == Finished(StatusCompleted)
            && !sys.torn && FoldOf(sys.ledger, attempt).Ok? && FoldOf(sys.ledger, attempt).value.state == HasCompleted
  {
    var ledger, data, inv;
    moves, ledger, data, inv := ReachReloading(cfg, attempt, fingerprint, fine, ids);
    ReloadedFolds(cfg, moves, ledger, data, inv);
    OneMore(cfg, moves, ledger, data, inv, fine);
    moves := moves + [Advance(0, fine)];
    CompletionIsDurable(cfg, moves, 0);
  }
}
