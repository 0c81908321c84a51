/**
 The post-session processor as a transition system: any number of invocations,
 each a program counter over claim, ledger, artifact and proposal writes, that
 interleave, repeat and crash anywhere.  One step is one call of a store or a
 model; how the call ends is given with the step.
 */
module Processor {
  import opened Wrappers
  import opened AttemptState
  import Domain

  /** What the workflow artifact records about its attempt. */
  datatype WorkflowEvidence = WorkflowEvidence(
    session: string, attempt: string, fingerprint: string,
    produced: bool, changesetId: Option<string>, changesetFingerprint: Option<string>)

  datatype Content = Prose(text: string) | Evidence(evidence: WorkflowEvidence)

  /** The session, arbitrary hash functions, the artifact paths, and whether the proposal store reads back what it created. */
  datatype Config = Config(
    session: string, hash: Content -> string, path: (string, Slot) -> string,
    changesetHash: Domain.ChangeSet -> string, faithful: bool)

  datatype Status = StatusCompleted | AlreadyTerminal | Interrupted | StatusFailed | Crashed

  /** The next thing an invocation does. */
  datatype Pc =
    | Reading | Claiming | Starting | Confirming(startedId: string)
    | Extracting | Producing | Rendering
    | Persisting(slot: Slot) | Announcing(slot: Slot)
    | Proposing | AnnouncingProposal
    | FailingInTry | Failing(phase: Phase, category: FailureCategory)
    | Completing | Reloading | Finished(status: Status)

  datatype Invocation = Invocation(
    attempt: string, fingerprint: string, pc: Pc,
    plan: Option<Domain.ChangeSet>, contents: map<Slot, Content>)

  /** Everything durable that belongs to one attempt, apart from the ledger. */
  datatype Data = Data(owner: Option<nat>, artifacts: map<Slot, Content>, proposal: Option<Domain.ChangeSet>, extractions: nat)

  datatype System = System(
    ledger: seq<LedgerEvent>, torn: bool, attempts: map<string, Data>, invocations: map<nat, Invocation>)

  const UNTOUCHED := Data(None, map[], None, 0)

  function DataOf(sys: System, attempt: string): Data {
    if attempt in sys.attempts then sys.attempts[attempt] else UNTOUCHED
  }

  function HistoryOf(sys: System, attempt: string): seq<LedgerEvent> {
    Relevant(sys.ledger, attempt)
  }

  // What the surroundings decide

  datatype Landing = Whole | Part | Nothing

  datatype AppendFate = AppendOk | AppendRaises(landing: Landing)

  /**
   The outcome of one step: a fault of the called store or model, how a ledger
   append ends, the id and time of the event, whatever the models returned, and
   the proposal read back; one that is absent or cannot be read is a fault.
   */
  datatype Choice = Choice(
    fault: Option<FailureCategory>, faultLanded: bool, fate: AppendFate, eventId: string, realTime: int,
    operations: seq<Domain.Operation>, summary: string, recap: string, readBack: Domain.ChangeSet)

  // One append

  /** The ledger after one append, what it added, and whether the caller saw success. */
  datatype Appending = Appending(added: seq<LedgerEvent>, torn: bool, ok: bool)

  function Append(torn: bool, event: LedgerEvent, fate: AppendFate): Appending {
    if torn then Appending([], true, false)
    else
      match fate
      case AppendOk => Appending([event], false, true)
      case AppendRaises(Whole) => Appending([event], false, false)
      case AppendRaises(Part) => Appending([], true, false)
      case AppendRaises(Nothing) => Appending([], false, false)
  }

  function EventOf(cfg: Config, inv: Invocation, choice: Choice, body: Body): LedgerEvent {
    LedgerEvent(choice.eventId, inv.attempt, cfg.session, choice.realTime, body)
  }

  function ProposalIdOf(cfg: Config, attempt: string): string {
    Domain.PostSessionProposalId(cfg.session, attempt)
  }

  function PlanOf(cfg: Config, attempt: string, operations: seq<Domain.Operation>): Option<Domain.ChangeSet> {
    if operations == [] then None
    else Some(Domain.ChangeSet(ProposalIdOf(cfg, attempt), Domain.ModelInference, Some(cfg.session), operations))
  }

  function WorkflowContent(cfg: Config, inv: Invocation): Content {
    Evidence(WorkflowEvidence(
      cfg.session, inv.attempt, inv.fingerprint, inv.plan.Some?,
      if inv.plan.Some? then Some(inv.plan.value.id) else None,
      if inv.plan.Some? then Some(cfg.changesetHash(inv.plan.value)) else None))
  }

  function ContentOf(cfg: Config, inv: Invocation, slot: Slot): Content {
    if slot == Workflow then WorkflowContent(cfg, inv)
    else if slot in inv.contents then inv.contents[slot] else Prose("")
  }

  function ArtifactBody(cfg: Config, inv: Invocation, slot: Slot): Body {
    ArtifactPersisted(slot, cfg.path(inv.attempt, slot), cfg.hash(ContentOf(cfg, inv, slot)))
  }

  function ProposalBody(cfg: Config, plan: Domain.ChangeSet): Body {
    ProposalPersisted(plan.id, cfg.changesetHash(plan))
  }

  function NextSlot(slot: Slot): Option<Slot> {
    match slot
    case Summary => Some(Recap)
    case Recap => Some(Workflow)
    case Workflow => None
  }

  // Terminal integrity

  datatype IntegrityReason =
    | EvidenceIncomplete | ArtifactMissing | HashMismatch | PathMismatch | ProposalMissing
    | ProposalMismatch | UnexpectedProposal | WorkflowInvalid | WorkflowInconsistent

  const SLOTS: seq<Slot> := [Summary, Recap, Workflow]

  predicate AllRecorded(fold: Fold) {
    forall slot :: slot in SLOTS ==> slot in fold.artifacts
  }

  /** The checks of the recorded artifacts, slot by slot. */
  function ArtifactFault(cfg: Config, attempt: string, fold: Fold, artifacts: map<Slot, Content>, slots: seq<Slot>): Option<IntegrityReason>
    requires forall slot :: slot in slots ==> slot in fold.artifacts
  {
    if slots == [] then None
    else
      var slot := slots[0];
      var body := fold.artifacts[slot].body;
      if slot !in artifacts then Some(ArtifactMissing)
      else if !body.ArtifactPersisted? || cfg.hash(artifacts[slot]) != body.hash then Some(HashMismatch)
      else if body.path != cfg.path(attempt, slot) then Some(PathMismatch)
      else ArtifactFault(cfg, attempt, fold, artifacts, slots[1..])
  }

  function ProposalFault(cfg: Config, fold: Fold, stored: Option<Domain.ChangeSet>, workflow: WorkflowEvidence): Option<IntegrityReason> {
    if fold.proposal.None? || !fold.proposal.value.body.ProposalPersisted? then Some(EvidenceIncomplete)
    else
      var recorded := fold.proposal.value.body;
      if stored.None? then Some(ProposalMissing)
      else if stored.value.id != recorded.changesetId || cfg.changesetHash(stored.value) != recorded.changesetFingerprint then
        Some(ProposalMismatch)
      else if workflow.changesetId != Some(recorded.changesetId)
           || workflow.changesetFingerprint != Some(cfg.changesetHash(stored.value)) then Some(WorkflowInconsistent)
      else None
  }

  /** `None` when the durable evidence of a completed attempt is whole. */
  function VerifyTerminalIntegrity(cfg: Config, attempt: string, fold: Fold, artifacts: map<Slot, Content>, stored: Option<Domain.ChangeSet>): Option<IntegrityReason> {
    if fold.state != HasCompleted then None
    else if fold.terminal.None? || !fold.terminal.value.body.Completed? || fold.started.None? || !fold.started.value.body.Started? then
      Some(EvidenceIncomplete)
    else if !AllRecorded(fold) then Some(EvidenceIncomplete)
    else
      var fault := ArtifactFault(cfg, attempt, fold, artifacts, SLOTS);
      if fault.Some? then fault
      else if Workflow !in artifacts || !artifacts[Workflow].Evidence? then Some(WorkflowInvalid)
      else WorkflowFault(cfg, attempt, fold, fold.started.value, fold.terminal.value.body.outcome, artifacts[Workflow].evidence, stored)
  }

  /** The workflow evidence against the start and the outcome, then the proposal. */
  function WorkflowFault(cfg: Config, attempt: string, fold: Fold, started: LedgerEvent, outcome: Outcome, workflow: WorkflowEvidence,
                         stored: Option<Domain.ChangeSet>): Option<IntegrityReason>
    requires started.body.Started?
  {
    var produced := outcome == Produced;
    if workflow.session != started.sessionRef || workflow.attempt != attempt
       || workflow.fingerprint != started.body.fingerprint || workflow.produced != produced then
      Some(WorkflowInconsistent)
    else if produced then ProposalFault(cfg, fold, stored, workflow)
    else if fold.proposal.Some? || stored.Some? then Some(UnexpectedProposal)
    else None
  }

  // One step of an invocation

  /** What a step makes of the invocation, its attempt's data and the ledger. */
  datatype Effect = Effect(pc: Pc, plan: Option<Domain.ChangeSet>, contents: map<Slot, Content>, data: Data, appending: Appending)

  function Quiet(inv: Invocation, data: Data, torn: bool, pc: Pc): Effect {
    Effect(pc, inv.plan, inv.contents, data, Appending([], torn, true))
  }

  /** Routing by the folded ledger; only an attempt not started goes on. */
  function Route(cfg: Config, torn: bool, history: seq<LedgerEvent>, data: Data, inv: Invocation): Pc {
    if torn then Finished(StatusFailed)
    else
      match FoldRelevant(history)
      case Err(_) => Finished(StatusFailed)
      case Ok(fold) =>
        match fold.state
        case NotStarted => Claiming
        case HasStarted => Finished(Interrupted)
        case WasSuperseded => Finished(Interrupted)
        case HasFailed => Finished(StatusFailed)
        case HasCompleted =>
          if fold.started.value.body != Started(inv.fingerprint) then Finished(StatusFailed)
          else if VerifyTerminalIntegrity(cfg, inv.attempt, fold, data.artifacts, data.proposal).Some? then Finished(StatusFailed)
          else Finished(AlreadyTerminal)
  }

  function AfterAppend(inv: Invocation, data: Data, appending: Appending, pc: Pc, otherwise: Pc): Effect {
    Effect(if appending.ok then pc else otherwise, inv.plan, inv.contents, data, appending)
  }

  function StartedIsMine(history: seq<LedgerEvent>, startedId: string): bool {
    var fold := FoldRelevant(history);
    fold.Ok? && fold.value.state == HasStarted && fold.value.started.Some? && fold.value.started.value.eventId == startedId
  }

  function AfterSlots(inv: Invocation): Pc {
    if inv.plan.Some? then Proposing else Completing
  }

  /** The check after the proposal was stored: the loaded one has its id and its fingerprint. */
  predicate ReadsBack(cfg: Config, plan: Option<Domain.ChangeSet>, loaded: Domain.ChangeSet) {
    plan.Some? && loaded.id == plan.value.id && cfg.changesetHash(loaded) == cfg.changesetHash(plan.value)
  }

  function LocalStep(cfg: Config, pid: nat, torn: bool, history: seq<LedgerEvent>, data: Data, inv: Invocation, choice: Choice): Effect {
    match inv.pc
    case Reading => Quiet(inv, data, torn, if choice.fault.Some? then Finished(StatusFailed) else Route(cfg, torn, history, data, inv))
    case Claiming =>
      if choice.fault.Some? then
        Quiet(inv, if choice.faultLanded && data.owner.None? then data.(owner := Some(pid)) else data, torn, Finished(StatusFailed))
      else if data.owner.Some? then Quiet(inv, data, torn, Finished(Interrupted))
      else Quiet(inv, data.(owner := Some(pid)), torn, Starting)
    case Starting =>
      var a := Append(torn, EventOf(cfg, inv, choice, Started(inv.fingerprint)), choice.fate);
      AfterAppend(inv, data, a, Confirming(choice.eventId), Finished(Interrupted))
    case Confirming(startedId) =>
      Quiet(inv, data, torn, if choice.fault.Some? || torn || !StartedIsMine(history, startedId) then Finished(Interrupted) else Extracting)
    case Extracting =>
      Quiet(inv, data.(extractions := data.extractions + 1), torn,
            if choice.fault.Some? then Failing(Extraction, choice.fault.value) else Producing)
    case Producing =>
      if choice.fault.Some? then Quiet(inv, data, torn, Failing(Validation, choice.fault.value))
      else Quiet(inv, data, torn, Pc.Rendering).(plan := PlanOf(cfg, inv.attempt, choice.operations))
    case Rendering =>
      if choice.fault.Some? then Quiet(inv, data, torn, Failing(Phase.Rendering, choice.fault.value))
      else Quiet(inv, data, torn, Persisting(Summary)).(contents := map[Summary := Prose(choice.summary), Recap := Prose(choice.recap)])
    case Persisting(slot) =>
      var content := ContentOf(cfg, inv, slot);
      if choice.fault.Some? then
        Quiet(inv, if choice.faultLanded && slot !in data.artifacts then data.(artifacts := data.artifacts[slot := content]) else data, torn,
              Failing(Persistence, choice.fault.value))
      else if slot in data.artifacts && data.artifacts[slot] != content then Quiet(inv, data, torn, Failing(Persistence, ArtifactConflict))
      else Quiet(inv, data.(artifacts := data.artifacts[slot := content]), torn, Announcing(slot))
    case Announcing(slot) =>
      var a := Append(torn, EventOf(cfg, inv, choice, ArtifactBody(cfg, inv, slot)), choice.fate);
      AfterAppend(inv, data, a, if NextSlot(slot).Some? then Persisting(NextSlot(slot).value) else AfterSlots(inv),
                  Failing(Persistence, StorageFailure))
    case Proposing =>
      if choice.fault.Some? then
        Quiet(inv, if choice.faultLanded && data.proposal.None? then data.(proposal := inv.plan) else data, torn, Failing(Persistence, choice.fault.value))
      else if data.proposal.Some? && data.proposal != inv.plan then Quiet(inv, data, torn, Failing(Persistence, ProposalConflict))
      else
        Quiet(inv, data.(proposal := inv.plan), torn,
              if cfg.faithful || ReadsBack(cfg, inv.plan, choice.readBack) then AnnouncingProposal else FailingInTry)
    case AnnouncingProposal =>
      if inv.plan.None? then Quiet(inv, data, torn, Failing(Persistence, InternalError))
      else
        var a := Append(torn, EventOf(cfg, inv, choice, ProposalBody(cfg, inv.plan.value)), choice.fate);
        AfterAppend(inv, data, a, Completing, Failing(Persistence, StorageFailure))
    case FailingInTry =>
      var a := Append(torn, EventOf(cfg, inv, choice, Failed(Persistence, ProposalConflict)), choice.fate);
      AfterAppend(inv, data, a, Finished(StatusFailed), Failing(Persistence, InternalError))
    case Failing(phase, category) =>
      var a := Append(torn, EventOf(cfg, inv, choice, Failed(phase, category)), choice.fate);
      AfterAppend(inv, data, a, Finished(StatusFailed), Finished(Crashed))
    case Completing =>
      var event := EventOf(cfg, inv, choice, Completed(if inv.plan.Some? then Produced else NoChanges));
      var a := Append(torn, event, choice.fate);
      AfterAppend(inv, data, a, Reloading, if choice.fault.None? && !a.torn && a.added == [event] then Reloading else Finished(StatusFailed))
    case Reloading =>
      Quiet(inv, data, torn, if choice.fault.Some? || torn || FoldRelevant(history).Err? then Finished(Interrupted) else Finished(StatusCompleted))
    case Finished(_) => Quiet(inv, data, torn, inv.pc)
  }

  // The system

  datatype Move =
    | Launch(pid: nat, attempt: string, fingerprint: string)
    | Advance(pid: nat, choice: Choice)
    | Crash(pid: nat)

  function AdvanceSystem(cfg: Config, sys: System, pid: nat, choice: Choice): System
    requires pid in sys.invocations
  {
    var inv := sys.invocations[pid];
    var effect := LocalStep(cfg, pid, sys.torn, HistoryOf(sys, inv.attempt), DataOf(sys, inv.attempt), inv, choice);
    System(sys.ledger + effect.appending.added, effect.appending.torn,
           sys.attempts[inv.attempt := effect.data],
           sys.invocations[pid := inv.(pc := effect.pc, plan := effect.plan, contents := effect.contents)])
  }

  function Next(cfg: Config, sys: System, move: Move): System {
    match move
    case Launch(pid, attempt, fingerprint) =>
      if pid in sys.invocations then sys
      else sys.(invocations := sys.invocations[pid := Invocation(attempt, fingerprint, Reading, None, map[])])
    case Advance(pid, choice) => if pid !in sys.invocations then sys else AdvanceSystem(cfg, sys, pid, choice)
    case Crash(pid) =>
      if pid !in sys.invocations || sys.invocations[pid].pc.Finished? then sys
      else sys.(invocations := sys.invocations[pid := sys.invocations[pid].(pc := Finished(Crashed))])
  }

  const INITIAL := System([], false, map[], map[])

  function Run(cfg: Config, moves: seq<Move>): System {
    if moves == [] then INITIAL else Next(cfg, Run(cfg, moves[..|moves| - 1]), moves[|moves| - 1])
  }

  // The invariant of one attempt

  predicate HasTerminal(history: seq<LedgerEvent>) {
    exists k :: 0 <= k < |history| && IsTerminal(history[k].body)
  }

  predicate EndsCompleted(history: seq<LedgerEvent>) {
    history != [] && history[|history| - 1].body.Completed?
  }

  function SlotRank(slot: Slot): nat {
    match slot
    case Summary => 1
    case Recap => 2
    case Workflow => 3
  }

  /**
   The history of an attempt that has gone well so far: the start, then `n` of
   summary, recap, workflow and proposal, each recorded as it was stored.
   */
  ghost predicate Smooth(cfg: Config, inv: Invocation, data: Data, history: seq<LedgerEvent>, n: nat) {
    && |history| == n + 1 && n <= 4
    && history[0].body == Started(inv.fingerprint)
    && (n >= 1 ==> SlotDone(cfg, inv, data, history[1], Summary))
    && (n >= 2 ==> SlotDone(cfg, inv, data, history[2], Recap))
    && (n >= 3 ==> SlotDone(cfg, inv, data, history[3], Workflow))
    && (n >= 4 ==> inv.plan.Some? && history[4].body == ProposalBody(cfg, inv.plan.value))
  }

  ghost predicate SlotDone(cfg: Config, inv: Invocation, data: Data, event: LedgerEvent, slot: Slot) {
    event.body == ArtifactBody(cfg, inv, slot) && slot in data.artifacts && data.artifacts[slot] == ContentOf(cfg, inv, slot)
  }

  /** What the owner's program counter says about the attempt. */
  ghost predicate Fits(cfg: Config, inv: Invocation, data: Data, history: seq<LedgerEvent>) {
    match inv.pc
    case Reading => true
    case Claiming => true
    case Starting => history == [] && data.extractions == 0 && data.proposal == None
    case Confirming(_) => Smooth(cfg, inv, data, history, 0) && data.extractions == 0 && data.proposal == None
    case Extracting => Smooth(cfg, inv, data, history, 0) && data.extractions == 0 && data.proposal == None
    case Producing => Smooth(cfg, inv, data, history, 0) && data.proposal == None
    case Rendering => Smooth(cfg, inv, data, history, 0) && data.proposal == None && PlanIsOwn(cfg, inv)
    case Persisting(slot) => Smooth(cfg, inv, data, history, SlotRank(slot) - 1) && data.proposal == None && PlanIsOwn(cfg, inv)
    case Announcing(slot) =>
      && Smooth(cfg, inv, data, history, SlotRank(slot) - 1) && data.proposal == None && PlanIsOwn(cfg, inv)
      && slot in data.artifacts && data.artifacts[slot] == ContentOf(cfg, inv, slot)
    case Proposing => Smooth(cfg, inv, data, history, 3) && data.proposal == None && PlanIsOwn(cfg, inv) && inv.plan.Some?
    case AnnouncingProposal => Smooth(cfg, inv, data, history, 3) && data.proposal == inv.plan && PlanIsOwn(cfg, inv) && inv.plan.Some?
    case FailingInTry => !cfg.faithful && history != [] && !HasTerminal(history)
    case Failing(_, _) => history != [] && !EndsCompleted(history)
    case Completing =>
      Smooth(cfg, inv, data, history, if inv.plan.Some? then 4 else 3) && data.proposal == inv.plan && PlanIsOwn(cfg, inv)
    case Reloading => EndsCompleted(history)
    case Finished(status) => status == StatusCompleted ==> EndsCompleted(history)
  }

  ghost predicate PlanIsOwn(cfg: Config, inv: Invocation) {
    inv.plan.Some? ==> inv.plan.value.id == ProposalIdOf(cfg, inv.attempt)
  }

  predicate Owning(pc: Pc) {
    !pc.Reading? && !pc.Claiming? && !pc.Finished?
  }

  /** An owner that may still write stands before an orderly history of its own attempt. */
  ghost predicate Owns(pid: nat, pc: Pc, data: Data, history: seq<LedgerEvent>) {
    Owning(pc) ==> data.owner == Some(pid) && Orderly(history)
  }

  /** A second failure record stands after a terminal one; before it all was orderly. */
  ghost predicate FailedTwice(history: seq<LedgerEvent>) {
    && |history| >= 2 && Orderly(history[..|history| - 1])
    && IsTerminal(history[|history| - 2].body) && history[|history| - 1].body.Failed?
  }

  ghost predicate OneSession(cfg: Config, attempt: string, history: seq<LedgerEvent>) {
    forall e :: e in history ==> e.sessionRef == cfg.session && e.attemptId == attempt
  }

  /** The durable side: an orderly history or one second failure record, at most one model call, and whole evidence once completed. */
  ghost predicate Durable(cfg: Config, attempt: string, history: seq<LedgerEvent>, data: Data) {
    && OneSession(cfg, attempt, history)
    && (data.owner.None? ==> history == [] && data == UNTOUCHED)
    && data.extractions <= 1
    && (Orderly(history) || FailedTwice(history))
    && (EndsCompleted(history) ==> WholeEvidence(cfg, attempt, history, data))
  }

  ghost predicate WholeEvidence(cfg: Config, attempt: string, history: seq<LedgerEvent>, data: Data) {
    var fold := FoldRelevant(history);
    fold.Ok? && VerifyTerminalIntegrity(cfg, attempt, fold.value, data.artifacts, data.proposal) == None
  }

  // One step keeps it

  /** The invocation after a step. */
  function Stepped(inv: Invocation, effect: Effect): Invocation {
    inv.(pc := effect.pc, plan := effect.plan, contents := effect.contents)
  }

  /** A step keeps its own attempt durable and its program counter true, and is silent where it must be. */
  ghost predicate StepKeeps(cfg: Config, pid: nat, history: seq<LedgerEvent>, data: Data, inv: Invocation, effect: Effect) {
    var after := history + effect.appending.added;
    && Durable(cfg, inv.attempt, after, effect.data)
    && Fits(cfg, Stepped(inv, effect), effect.data, after)
    && Owns(pid, effect.pc, effect.data, after)
    && (data.owner.Some? ==> effect.data.owner == data.owner)
    && (EndsCompleted(history) ==> effect.appending.added == [])
    && (!Owning(inv.pc) && data.owner.Some? ==> effect.data == data && effect.appending.added == [])
    && OneSession(cfg, inv.attempt, effect.appending.added)
  }

  lemma OrderlyAppend(history: seq<LedgerEvent>, event: LedgerEvent)
    requires Orderly(history) && history != [] && !event.body.Started?
    requires forall e :: e in history ==> Compatible(e, event)
    ensures Orderly(history + [event])
  {
    var after := history + [event];
    forall i, j | 0 <= i < j < |after|
      ensures Compatible(after[i], after[j])
    {
      if j == |history| {
        assert history[i] in history;
      }
    }
  }

  /** A history that has gone well has no terminal event yet. */
  lemma SmoothIsOpen(cfg: Config, inv: Invocation, data: Data, history: seq<LedgerEvent>, n: nat)
    requires Smooth(cfg, inv, data, history, n)
    ensures !HasTerminal(history) && !EndsCompleted(history) && history != []
  {
    forall k | 0 <= k < |history|
      ensures !IsTerminal(history[k].body)
    {
      assert k == 0 || k == 1 || k == 2 || k == 3 || k == 4;
    }
  }

  lemma SmoothTakes(cfg: Config, inv: Invocation, data: Data, history: seq<LedgerEvent>, n: nat, event: LedgerEvent)
    requires Smooth(cfg, inv, data, history, n) && OneSession(cfg, inv.attempt, history) && event.sessionRef == cfg.session
    requires || IsTerminal(event.body)
             || (event.body.ArtifactPersisted? && n < SlotRank(event.body.slot))
             || (event.body.ProposalPersisted? && n <= 3)
    ensures forall e :: e in history ==> Compatible(e, event)
  {
    forall e | e in history
      ensures Compatible(e, event)
    {
      var k :| 0 <= k < |history| && history[k] == e;
      assert k == 0 || k == 1 || k == 2 || k == 3 || k == 4;
    }
  }

  lemma OpenTakesFailure(cfg: Config, attempt: string, history: seq<LedgerEvent>, event: LedgerEvent)
    requires history != [] && !HasTerminal(history) && OneSession(cfg, attempt, history) && event.sessionRef == cfg.session && IsTerminal(event.body)
    ensures forall e :: e in history ==> Compatible(e, event)
  {
  }

  ghost predicate SlotWhole(cfg: Config, attempt: string, fold: Fold, artifacts: map<Slot, Content>, slot: Slot) {
    && slot in fold.artifacts && slot in artifacts
    && fold.artifacts[slot].body == ArtifactPersisted(slot, cfg.path(attempt, slot), cfg.hash(artifacts[slot]))
  }

  lemma {:induction false} SlotsAreWhole(cfg: Config, attempt: string, fold: Fold, artifacts: map<Slot, Content>, slots: seq<Slot>)
    requires forall slot :: slot in slots ==> SlotWhole(cfg, attempt, fold, artifacts, slot)
    ensures forall slot :: slot in slots ==> slot in fold.artifacts
    ensures ArtifactFault(cfg, attempt, fold, artifacts, slots) == None
  {
    if slots != [] {
      assert SlotWhole(cfg, attempt, fold, artifacts, slots[0]);
      SlotsAreWhole(cfg, attempt, fold, artifacts, slots[1..]);
    }
  }

  lemma SmoothSlotsAreWhole(cfg: Config, inv: Invocation, data: Data, history: seq<LedgerEvent>, n: nat, fold: Fold, after: seq<LedgerEvent>)
    requires Smooth(cfg, inv, data, history, n) && n >= 3
    requires |after| == |history| + 1 && after[..|history|] == history && after[|history|].body.Completed?
    requires KeptSlots(after, fold.artifacts)
    ensures forall slot :: SlotWhole(cfg, inv.attempt, fold, data.artifacts, slot)
  {
    forall slot
      ensures SlotWhole(cfg, inv.attempt, fold, data.artifacts, slot)
    {
      assert after[SlotRank(slot)] in after && after[SlotRank(slot)] == history[SlotRank(slot)];
      var k :| 0 <= k < |after| && after[k] == fold.artifacts[slot];
      assert k < |history| ==> after[k] == history[k];
      assert k == 0 || k == 1 || k == 2 || k == 3 || k == 4 || k == 5;
    }
  }

  lemma SmoothProposal(cfg: Config, inv: Invocation, data: Data, history: seq<LedgerEvent>, n: nat, fold: Fold, after: seq<LedgerEvent>)
    requires Smooth(cfg, inv, data, history, n) && n >= 3
    requires |after| == |history| + 1 && after[..|history|] == history && after[|history|].body.Completed?
    requires KeptProposal(after, fold.proposal)
    ensures if n == 4 then fold.proposal.Some? && fold.proposal.value.body == ProposalBody(cfg, inv.plan.value) else fold.proposal == None
  {
    if n == 4 {
      assert after[4] in after && after[4] == history[4];
    }
    if fold.proposal.Some? {
      var k :| 0 <= k < |after| && after[k] == fold.proposal.value;
      assert k < |history| ==> after[k] == history[k];
      assert k == 0 || k == 1 || k == 2 || k == 3 || k == 4 || k == 5;
    }
  }

  lemma CompletedFold(history: seq<LedgerEvent>, event: LedgerEvent) returns (fold: Fold)
    requires history != [] && event.body.Completed? && Orderly(history + [event])
    ensures FoldRelevant(history + [event]) == Ok(fold)
    ensures fold.state == HasCompleted && fold.terminal == Some(event) && fold.started == Some(history[0])
    ensures KeptSlots(history + [event], fold.artifacts) && KeptProposal(history + [event], fold.proposal)
  {
    var after := history + [event];
    FoldIff(after);
    fold := FoldRelevant(after).value;
    assert event in after && after[|after| - 1] == event;
  }

  /** The evidence of an attempt that went well to the end is whole. */
  lemma CompletedIsWhole(cfg: Config, inv: Invocation, data: Data, history: seq<LedgerEvent>, event: LedgerEvent)
    requires Smooth(cfg, inv, data, history, if inv.plan.Some? then 4 else 3) && OneSession(cfg, inv.attempt, history)
    requires data.proposal == inv.plan && PlanIsOwn(cfg, inv)
    requires event.body == Completed(if inv.plan.Some? then Produced else NoChanges)
    requires Orderly(history + [event])
    ensures WholeEvidence(cfg, inv.attempt, history + [event], data)
  {
    var n := if inv.plan.Some? then 4 else 3;
    var fold := CompletedFold(history, event);
    SmoothSlotsAreWhole(cfg, inv, data, history, n, fold, history + [event]);
    SlotsAreWhole(cfg, inv.attempt, fold, data.artifacts, SLOTS);
    WorkflowIsWhole(cfg, inv, data, history, event, fold);
    SmoothWorkflow(cfg, inv, data, history, n);
    NoFaultIsWhole(cfg, inv.attempt, fold, data.artifacts, data.proposal);
  }

  lemma {:induction false} NoFaultIsWhole(cfg: Config, attempt: string, fold: Fold, artifacts: map<Slot, Content>, stored: Option<Domain.ChangeSet>)
    requires fold.state == HasCompleted && fold.terminal.Some? && fold.terminal.value.body.Completed?
    requires fold.started.Some? && fold.started.value.body.Started?
    requires AllRecorded(fold)
    requires ArtifactFault(cfg, attempt, fold, artifacts, SLOTS) == None && Workflow in artifacts && artifacts[Workflow].Evidence?
    requires WorkflowFault(cfg, attempt, fold, fold.started.value, fold.terminal.value.body.outcome, artifacts[Workflow].evidence, stored) == None
    ensures VerifyTerminalIntegrity(cfg, attempt, fold, artifacts, stored) == None
  {
  }

  lemma SmoothWorkflow(cfg: Config, inv: Invocation, data: Data, history: seq<LedgerEvent>, n: nat)
    requires Smooth(cfg, inv, data, history, n) && n >= 3
    ensures Workflow in data.artifacts && data.artifacts[Workflow] == WorkflowContent(cfg, inv)
  {
  }

  lemma WorkflowIsWhole(cfg: Config, inv: Invocation, data: Data, history: seq<LedgerEvent>, event: LedgerEvent, fold: Fold)
    requires Smooth(cfg, inv, data, history, if inv.plan.Some? then 4 else 3) && OneSession(cfg, inv.attempt, history)
    requires data.proposal == inv.plan && PlanIsOwn(cfg, inv) && event.body.Completed?
    requires KeptProposal(history + [event], fold.proposal)
    ensures WorkflowFault(cfg, inv.attempt, fold, history[0], if inv.plan.Some? then Produced else NoChanges,
                          WorkflowContent(cfg, inv).evidence, data.proposal) == None
  {
    SmoothProposal(cfg, inv, data, history, if inv.plan.Some? then 4 else 3, fold, history + [event]);
    assert history[0] in history;
  }

  ghost predicate Ready(cfg: Config, pid: nat, history: seq<LedgerEvent>, data: Data, inv: Invocation) {
    && Durable(cfg, inv.attempt, history, data)
    && Fits(cfg, inv, data, history)
    && Owns(pid, inv.pc, data, history)
  }

  lemma ReadLedger(cfg: Config, pid: nat, torn: bool, history: seq<LedgerEvent>, data: Data, inv: Invocation, choice: Choice)
    requires Ready(cfg, pid, history, data, inv)
    requires inv.pc.Reading? || inv.pc.Confirming? || inv.pc.Finished? || inv.pc.Reloading?
    ensures StepKeeps(cfg, pid, history, data, inv, LocalStep(cfg, pid, torn, history, data, inv, choice))
  {
    var effect := LocalStep(cfg, pid, torn, history, data, inv, choice);
    assert history + [] == history;
    if inv.pc.Confirming? {
      SameContents(cfg, inv, Stepped(inv, effect), data, history, 0);
    }
    ReadChangesNothing(cfg, pid, torn, history, data, inv, choice);
  }

  lemma ReadChangesNothing(cfg: Config, pid: nat, torn: bool, history: seq<LedgerEvent>, data: Data, inv: Invocation, choice: Choice)
    requires inv.pc.Reading? || inv.pc.Confirming? || inv.pc.Finished? || inv.pc.Reloading?
    ensures var effect := LocalStep(cfg, pid, torn, history, data, inv, choice);
            && effect.data == data && effect.appending.added == []
            && (inv.pc.Reading? ==> effect.pc == Claiming || (effect.pc.Finished? && effect.pc != Finished(StatusCompleted)))
            && (inv.pc.Finished? ==> effect.pc == inv.pc)
  {
  }

  /** Only the attempt, the fingerprint, the plan and the contents matter to a smooth history. */
  lemma SameContents(cfg: Config, inv: Invocation, later: Invocation, data: Data, history: seq<LedgerEvent>, n: nat)
    requires Smooth(cfg, inv, data, history, n)
    requires later.attempt == inv.attempt && later.fingerprint == inv.fingerprint && later.plan == inv.plan && later.contents == inv.contents
    ensures Smooth(cfg, later, data, history, n)
  {
  }

  lemma ClaimAttempt(cfg: Config, pid: nat, torn: bool, history: seq<LedgerEvent>, data: Data, inv: Invocation, choice: Choice)
    requires Ready(cfg, pid, history, data, inv) && inv.pc.Claiming?
    ensures StepKeeps(cfg, pid, history, data, inv, LocalStep(cfg, pid, torn, history, data, inv, choice))
  {
    assert history + [] == history;
    if data.owner.None? {
      ClaimedIsDurable(cfg, inv.attempt, history, data, pid);
    }
  }

  lemma ClaimedIsDurable(cfg: Config, attempt: string, history: seq<LedgerEvent>, data: Data, pid: nat)
    requires Durable(cfg, attempt, history, data) && data.owner.None?
    ensures history == [] && data == UNTOUCHED && Durable(cfg, attempt, history, data.(owner := Some(pid)))
  {
  }

  /** A step of the owner that appends nothing while the history is open. */
  lemma QuietStep(cfg: Config, pid: nat, history: seq<LedgerEvent>, data: Data, inv: Invocation, effect: Effect)
    requires Durable(cfg, inv.attempt, history, data) && Owning(inv.pc) && Owns(pid, inv.pc, data, history) && !EndsCompleted(history)
    requires effect.appending.added == [] && effect.data.owner == data.owner && effect.data.extractions <= 1
    requires Fits(cfg, Stepped(inv, effect), effect.data, history)
    ensures StepKeeps(cfg, pid, history, data, inv, effect)
  {
    assert history + [] == history;
  }

  lemma CallModels(cfg: Config, pid: nat, torn: bool, history: seq<LedgerEvent>, data: Data, inv: Invocation, choice: Choice)
    requires Ready(cfg, pid, history, data, inv)
    requires inv.pc.Extracting? || inv.pc.Producing? || inv.pc.Rendering?
    ensures StepKeeps(cfg, pid, history, data, inv, LocalStep(cfg, pid, torn, history, data, inv, choice))
  {
    var effect := LocalStep(cfg, pid, torn, history, data, inv, choice);
    SmoothIsOpen(cfg, inv, data, history, 0);
    StartedFits(cfg, inv, Stepped(inv, effect), data, effect.data, history);
    QuietStep(cfg, pid, history, data, inv, effect);
  }

  /** A history with the start alone fits any invocation of the same attempt and input. */
  lemma StartedFits(cfg: Config, inv: Invocation, later: Invocation, data: Data, data': Data, history: seq<LedgerEvent>)
    requires Smooth(cfg, inv, data, history, 0) && later.fingerprint == inv.fingerprint
    ensures Smooth(cfg, later, data', history, 0)
  {
  }

  lemma KeepArtifact(cfg: Config, pid: nat, torn: bool, history: seq<LedgerEvent>, data: Data, inv: Invocation, choice: Choice)
    requires Ready(cfg, pid, history, data, inv) && inv.pc.Persisting?
    ensures StepKeeps(cfg, pid, history, data, inv, LocalStep(cfg, pid, torn, history, data, inv, choice))
  {
    var n := SlotRank(inv.pc.slot) - 1;
    var effect := LocalStep(cfg, pid, torn, history, data, inv, choice);
    SmoothIsOpen(cfg, inv, data, history, n);
    ArtifactEffect(cfg, pid, torn, history, data, inv, choice);
    if effect.pc.Announcing? {
      SmoothWithArtifact(cfg, inv, data, history, n, inv.pc.slot);
      SameContents(cfg, inv, Stepped(inv, effect), effect.data, history, n);
    }
    QuietStep(cfg, pid, history, data, inv, effect);
  }

  lemma ArtifactEffect(cfg: Config, pid: nat, torn: bool, history: seq<LedgerEvent>, data: Data, inv: Invocation, choice: Choice)
    requires inv.pc.Persisting?
    ensures var slot, effect := inv.pc.slot, LocalStep(cfg, pid, torn, history, data, inv, choice);
            && effect.appending.added == [] && effect.plan == inv.plan && effect.contents == inv.contents
            && effect.data.owner == data.owner && effect.data.extractions == data.extractions && effect.data.proposal == data.proposal
            && (effect.pc == Announcing(slot) || effect.pc.Failing?)
            && (effect.pc.Announcing? ==> effect.data == data.(artifacts := data.artifacts[slot := ContentOf(cfg, inv, slot)]))
  {
  }

  lemma SmoothWithArtifact(cfg: Config, inv: Invocation, data: Data, history: seq<LedgerEvent>, n: nat, slot: Slot)
    requires Smooth(cfg, inv, data, history, n)
    ensures Smooth(cfg, inv, data.(artifacts := data.artifacts[slot := ContentOf(cfg, inv, slot)]), history, n)
  {
  }

  lemma KeepProposal(cfg: Config, pid: nat, torn: bool, history: seq<LedgerEvent>, data: Data, inv: Invocation, choice: Choice)
    requires Ready(cfg, pid, history, data, inv) && inv.pc.Proposing?
    ensures StepKeeps(cfg, pid, history, data, inv, LocalStep(cfg, pid, torn, history, data, inv, choice))
  {
    var effect := LocalStep(cfg, pid, torn, history, data, inv, choice);
    SmoothIsOpen(cfg, inv, data, history, 3);
    ProposalEffect(cfg, pid, torn, history, data, inv, choice);
    SameStored(cfg, inv, Stepped(inv, effect), data, effect.data, history, 3);
    QuietStep(cfg, pid, history, data, inv, effect);
  }

  lemma ProposalEffect(cfg: Config, pid: nat, torn: bool, history: seq<LedgerEvent>, data: Data, inv: Invocation, choice: Choice)
    requires inv.pc.Proposing?
    ensures var effect := LocalStep(cfg, pid, torn, history, data, inv, choice);
            && effect.appending.added == [] && effect.plan == inv.plan && effect.contents == inv.contents
            && effect.data == data.(proposal := effect.data.proposal)
            && (effect.pc == AnnouncingProposal || effect.pc == FailingInTry || effect.pc.Failing?)
            && (effect.pc == AnnouncingProposal ==> effect.data.proposal == inv.plan)
            && (effect.pc == FailingInTry ==> !cfg.faithful)
  {
  }

  /** A smooth history looks at the artifacts only. */
  lemma SameStored(cfg: Config, inv: Invocation, later: Invocation, data: Data, data': Data, history: seq<LedgerEvent>, n: nat)
    requires Smooth(cfg, inv, data, history, n) && data'.artifacts == data.artifacts
    requires later.attempt == inv.attempt && later.fingerprint == inv.fingerprint && later.plan == inv.plan && later.contents == inv.contents
    ensures Smooth(cfg, later, data', history, n)
  {
  }

  /** Whatever becomes of an append, the history stays durable if the event fits it. */
  lemma AppendKeeps(cfg: Config, attempt: string, torn: bool, history: seq<LedgerEvent>, data: Data, event: LedgerEvent, fate: AppendFate)
    requires Durable(cfg, attempt, history, data) && Orderly(history) && data.owner.Some? && !EndsCompleted(history)
    requires event.sessionRef == cfg.session && event.attemptId == attempt
    requires if history == [] then event.body.Started? else !event.body.Started? && forall e :: e in history ==> Compatible(e, event)
    requires EndsCompleted(history + [event]) ==> WholeEvidence(cfg, attempt, history + [event], data)
    ensures var a := Append(torn, event, fate);
            && (a.added == [] || a.added == [event]) && (a.ok ==> a.added == [event])
            && Durable(cfg, attempt, history + a.added, data) && Orderly(history + a.added) && OneSession(cfg, attempt, a.added)
  {
    assert history + [] == history;
    if history != [] {
      OrderlyAppend(history, event);
    } else {
      assert history + [event] == [event];
    }
  }

  lemma StartAttempt(cfg: Config, pid: nat, torn: bool, history: seq<LedgerEvent>, data: Data, inv: Invocation, choice: Choice)
    requires Ready(cfg, pid, history, data, inv) && inv.pc.Starting?
    ensures StepKeeps(cfg, pid, history, data, inv, LocalStep(cfg, pid, torn, history, data, inv, choice))
  {
    AppendKeeps(cfg, inv.attempt, torn, history, data, EventOf(cfg, inv, choice, Started(inv.fingerprint)), choice.fate);
  }

  lemma AnnounceArtifact(cfg: Config, pid: nat, torn: bool, history: seq<LedgerEvent>, data: Data, inv: Invocation, choice: Choice)
    requires Ready(cfg, pid, history, data, inv) && inv.pc.Announcing?
    ensures StepKeeps(cfg, pid, history, data, inv, LocalStep(cfg, pid, torn, history, data, inv, choice))
  {
    var n, event := SlotRank(inv.pc.slot) - 1, EventOf(cfg, inv, choice, ArtifactBody(cfg, inv, inv.pc.slot));
    SmoothIsOpen(cfg, inv, data, history, n);
    SmoothTakes(cfg, inv, data, history, n, event);
    AppendKeeps(cfg, inv.attempt, torn, history, data, event, choice.fate);
    var a := Append(torn, event, choice.fate);
    AddedIsOpen(history, a.added, event);
    if a.ok {
      SmoothGrows(cfg, inv, data, history, n, event);
    }
  }

  lemma AddedIsOpen(history: seq<LedgerEvent>, added: seq<LedgerEvent>, event: LedgerEvent)
    requires history != [] && !HasTerminal(history) && (added == [] || added == [event]) && !IsTerminal(event.body)
    ensures history + added != [] && !HasTerminal(history + added) && !EndsCompleted(history + added)
  {
  }

  lemma SmoothGrows(cfg: Config, inv: Invocation, data: Data, history: seq<LedgerEvent>, n: nat, event: LedgerEvent)
    requires Smooth(cfg, inv, data, history, n) && n < 4
    requires n == 0 ==> SlotDone(cfg, inv, data, event, Summary)
    requires n == 1 ==> SlotDone(cfg, inv, data, event, Recap)
    requires n == 2 ==> SlotDone(cfg, inv, data, event, Workflow)
    requires n == 3 ==> inv.plan.Some? && event.body == ProposalBody(cfg, inv.plan.value)
    ensures Smooth(cfg, inv, data, history + [event], n + 1)
  {
  }

  lemma AnnounceProposal(cfg: Config, pid: nat, torn: bool, history: seq<LedgerEvent>, data: Data, inv: Invocation, choice: Choice)
    requires Ready(cfg, pid, history, data, inv) && inv.pc.AnnouncingProposal?
    ensures StepKeeps(cfg, pid, history, data, inv, LocalStep(cfg, pid, torn, history, data, inv, choice))
  {
    var event := EventOf(cfg, inv, choice, ProposalBody(cfg, inv.plan.value));
    SmoothIsOpen(cfg, inv, data, history, 3);
    SmoothTakes(cfg, inv, data, history, 3, event);
    AppendKeeps(cfg, inv.attempt, torn, history, data, event, choice.fate);
    var a := Append(torn, event, choice.fate);
    AddedIsOpen(history, a.added, event);
    if a.ok {
      SmoothGrows(cfg, inv, data, history, 3, event);
    }
  }

  lemma RecordFailureInTry(cfg: Config, pid: nat, torn: bool, history: seq<LedgerEvent>, data: Data, inv: Invocation, choice: Choice)
    requires Ready(cfg, pid, history, data, inv) && inv.pc.FailingInTry?
    ensures StepKeeps(cfg, pid, history, data, inv, LocalStep(cfg, pid, torn, history, data, inv, choice))
  {
    var event := EventOf(cfg, inv, choice, FailureOf(inv.pc));
    OpenTakesFailure(cfg, inv.attempt, history, event);
    AppendKeeps(cfg, inv.attempt, torn, history, data, event, choice.fate);
  }

  lemma RecordFailure(cfg: Config, pid: nat, torn: bool, history: seq<LedgerEvent>, data: Data, inv: Invocation, choice: Choice)
    requires Ready(cfg, pid, history, data, inv) && inv.pc.Failing?
    ensures StepKeeps(cfg, pid, history, data, inv, LocalStep(cfg, pid, torn, history, data, inv, choice))
  {
    var event := EventOf(cfg, inv, choice, FailureOf(inv.pc));
    if HasTerminal(history) {
      SecondFailureKeeps(cfg, inv.attempt, torn, history, data, event, choice.fate);
    } else {
      OpenTakesFailure(cfg, inv.attempt, history, event);
      AppendKeeps(cfg, inv.attempt, torn, history, data, event, choice.fate);
    }
  }

  function FailureOf(pc: Pc): Body {
    if pc.Failing? then Failed(pc.phase, pc.category) else Failed(Persistence, ProposalConflict)
  }

  lemma TerminalIsLast(history: seq<LedgerEvent>)
    requires Orderly(history) && HasTerminal(history)
    ensures IsTerminal(history[|history| - 1].body)
  {
    var k :| 0 <= k < |history| && IsTerminal(history[k].body);
    assert k < |history| - 1 ==> Compatible(history[k], history[|history| - 1]);
  }

  /** A failure record after a terminal event: nothing is added, or a second one. */
  lemma SecondFailureKeeps(cfg: Config, attempt: string, torn: bool, history: seq<LedgerEvent>, data: Data, event: LedgerEvent, fate: AppendFate)
    requires Durable(cfg, attempt, history, data) && Orderly(history) && HasTerminal(history) && data.owner.Some? && !EndsCompleted(history)
    requires event.sessionRef == cfg.session && event.attemptId == attempt && event.body.Failed?
    ensures var a := Append(torn, event, fate);
            && (a.added == [] || a.added == [event])
            && Durable(cfg, attempt, history + a.added, data) && OneSession(cfg, attempt, a.added)
            && !EndsCompleted(history + a.added)
  {
    TerminalIsLast(history);
    assert history + [] == history;
    assert (history + [event])[..|history|] == history;
  }

  lemma Complete(cfg: Config, pid: nat, torn: bool, history: seq<LedgerEvent>, data: Data, inv: Invocation, choice: Choice)
    requires Ready(cfg, pid, history, data, inv) && inv.pc.Completing?
    ensures StepKeeps(cfg, pid, history, data, inv, LocalStep(cfg, pid, torn, history, data, inv, choice))
  {
    var n := if inv.plan.Some? then 4 else 3;
    var event := EventOf(cfg, inv, choice, Completed(if inv.plan.Some? then Produced else NoChanges));
    SmoothIsOpen(cfg, inv, data, history, n);
    SmoothTakes(cfg, inv, data, history, n, event);
    OrderlyAppend(history, event);
    CompletedIsWhole(cfg, inv, data, history, event);
    AppendKeeps(cfg, inv.attempt, torn, history, data, event, choice.fate);
  }

  lemma EveryStepKeeps(cfg: Config, pid: nat, torn: bool, history: seq<LedgerEvent>, data: Data, inv: Invocation, choice: Choice)
    requires Ready(cfg, pid, history, data, inv)
    ensures StepKeeps(cfg, pid, history, data, inv, LocalStep(cfg, pid, torn, history, data, inv, choice))
  {
    match inv.pc
    case Reading => ReadLedger(cfg, pid, torn, history, data, inv, choice);
    case Claiming => ClaimAttempt(cfg, pid, torn, history, data, inv, choice);
    case Starting => StartAttempt(cfg, pid, torn, history, data, inv, choice);
    case Confirming(_) => ReadLedger(cfg, pid, torn, history, data, inv, choice);
    case Extracting => CallModels(cfg, pid, torn, history, data, inv, choice);
    case Producing => CallModels(cfg, pid, torn, history, data, inv, choice);
    case Rendering => CallModels(cfg, pid, torn, history, data, inv, choice);
    case Persisting(_) => KeepArtifact(cfg, pid, torn, history, data, inv, choice);
    case Announcing(_) => AnnounceArtifact(cfg, pid, torn, history, data, inv, choice);
    case Proposing => KeepProposal(cfg, pid, torn, history, data, inv, choice);
    case AnnouncingProposal => AnnounceProposal(cfg, pid, torn, history, data, inv, choice);
    case FailingInTry => RecordFailureInTry(cfg, pid, torn, history, data, inv, choice);
    case Failing(_, _) => RecordFailure(cfg, pid, torn, history, data, inv, choice);
    case Completing => Complete(cfg, pid, torn, history, data, inv, choice);
    case Reloading => ReadLedger(cfg, pid, torn, history, data, inv, choice);
    case Finished(_) => ReadLedger(cfg, pid, torn, history, data, inv, choice);
  }

  // Every reachable state

  ghost predicate Invariant(cfg: Config, sys: System) {
    && (forall attempt :: Durable(cfg, attempt, HistoryOf(sys, attempt), DataOf(sys, attempt)))
    && (forall pid :: pid in sys.invocations ==> InvocationFits(cfg, sys, pid, sys.invocations[pid]))
  }

  ghost predicate InvocationFits(cfg: Config, sys: System, pid: nat, inv: Invocation) {
    && Fits(cfg, inv, DataOf(sys, inv.attempt), HistoryOf(sys, inv.attempt))
    && Owns(pid, inv.pc, DataOf(sys, inv.attempt), HistoryOf(sys, inv.attempt))
  }

  lemma {:induction false} RelevantAll(events: seq<LedgerEvent>, attempt: string, other: string)
    requires forall e :: e in events ==> e.attemptId == attempt
    ensures Relevant(events, other) == if other == attempt then events else []
  {
    if events != [] {
      RelevantAll(events[..|events| - 1], attempt, other);
      assert events == events[..|events| - 1] + [events[|events| - 1]];
    }
  }

  /** The histories after a step that only added events of its own attempt. */
  lemma {:induction false} HistoriesAfter(sys: System, added: seq<LedgerEvent>, attempt: string, other: string)
    requires forall e :: e in added ==> e.attemptId == attempt
    ensures Relevant(sys.ledger + added, other) == HistoryOf(sys, other) + (if other == attempt then added else [])
  {
    RelevantConcat(sys.ledger, added, other);
    RelevantAll(added, attempt, other);
  }

  lemma OthersStillFit(cfg: Config, sys: System, pid: nat, choice: Choice, other: nat)
    requires Invariant(cfg, sys) && pid in sys.invocations && other in sys.invocations && other != pid
    ensures InvocationFits(cfg, AdvanceSystem(cfg, sys, pid, choice), other, sys.invocations[other])
  {
    var inv, theirs := sys.invocations[pid], sys.invocations[other];
    var history, data := HistoryOf(sys, inv.attempt), DataOf(sys, inv.attempt);
    assert InvocationFits(cfg, sys, pid, inv) && InvocationFits(cfg, sys, other, theirs);
    EveryStepKeeps(cfg, pid, sys.torn, history, data, inv, choice);
    var effect := LocalStep(cfg, pid, sys.torn, history, data, inv, choice);
    HistoriesAfter(sys, effect.appending.added, inv.attempt, theirs.attempt);
    var after := AdvanceSystem(cfg, sys, pid, choice);
    if theirs.attempt != inv.attempt {
      assert HistoryOf(sys, theirs.attempt) + [] == HistoryOf(sys, theirs.attempt);
      assert HistoryOf(after, theirs.attempt) == HistoryOf(sys, theirs.attempt) && DataOf(after, theirs.attempt) == DataOf(sys, theirs.attempt);
    } else {
      OwnerAloneMoves(cfg, pid, other, history, data, inv, theirs, effect);
    }
  }

  /** Within one attempt the step of another invocation leaves an owner, and a completed history, as they are. */
  lemma OwnerAloneMoves(cfg: Config, pid: nat, other: nat, history: seq<LedgerEvent>, data: Data, inv: Invocation, theirs: Invocation, effect: Effect)
    requires StepKeeps(cfg, pid, history, data, inv, effect) && pid != other
    requires Owns(pid, inv.pc, data, history) && Owns(other, theirs.pc, data, history)
    requires Fits(cfg, theirs, data, history)
    ensures Fits(cfg, theirs, effect.data, history + effect.appending.added)
    ensures Owns(other, theirs.pc, effect.data, history + effect.appending.added)
  {
    assert history + [] == history;
    if Owning(theirs.pc) {
      assert effect.data == data && effect.appending.added == [];
    }
  }

  lemma AdvanceKeepsDurable(cfg: Config, sys: System, pid: nat, choice: Choice, attempt: string)
    requires Invariant(cfg, sys) && pid in sys.invocations
    ensures var after := AdvanceSystem(cfg, sys, pid, choice);
            Durable(cfg, attempt, HistoryOf(after, attempt), DataOf(after, attempt))
  {
    var inv := sys.invocations[pid];
    var history, data := HistoryOf(sys, inv.attempt), DataOf(sys, inv.attempt);
    var effect := LocalStep(cfg, pid, sys.torn, history, data, inv, choice);
    assert InvocationFits(cfg, sys, pid, inv);
    EveryStepKeeps(cfg, pid, sys.torn, history, data, inv, choice);
    HistoriesAfter(sys, effect.appending.added, inv.attempt, attempt);
    assert HistoryOf(sys, attempt) + [] == HistoryOf(sys, attempt);
    assert Durable(cfg, attempt, HistoryOf(sys, attempt), DataOf(sys, attempt));
  }

  lemma AdvanceFits(cfg: Config, sys: System, pid: nat, choice: Choice)
    requires Invariant(cfg, sys) && pid in sys.invocations
    ensures var after := AdvanceSystem(cfg, sys, pid, choice);
            InvocationFits(cfg, after, pid, after.invocations[pid])
  {
    var inv := sys.invocations[pid];
    var history, data := HistoryOf(sys, inv.attempt), DataOf(sys, inv.attempt);
    var effect := LocalStep(cfg, pid, sys.torn, history, data, inv, choice);
    assert InvocationFits(cfg, sys, pid, inv);
    EveryStepKeeps(cfg, pid, sys.torn, history, data, inv, choice);
    HistoriesAfter(sys, effect.appending.added, inv.attempt, inv.attempt);
  }

  lemma AdvanceKeepsInvariant(cfg: Config, sys: System, pid: nat, choice: Choice)
    requires Invariant(cfg, sys) && pid in sys.invocations
    ensures Invariant(cfg, AdvanceSystem(cfg, sys, pid, choice))
  {
    var after := AdvanceSystem(cfg, sys, pid, choice);
    forall attempt
      ensures Durable(cfg, attempt, HistoryOf(after, attempt), DataOf(after, attempt))
    {
      AdvanceKeepsDurable(cfg, sys, pid, choice, attempt);
    }
    forall other | other in after.invocations
      ensures InvocationFits(cfg, after, other, after.invocations[other])
    {
      if other == pid {
        AdvanceFits(cfg, sys, pid, choice);
      } else {
        OthersStillFit(cfg, sys, pid, choice, other);
      }
    }
  }

  lemma SameDurable(cfg: Config, sys: System, after: System)
    requires Invariant(cfg, sys) && after.ledger == sys.ledger && after.attempts == sys.attempts
    ensures forall attempt :: Durable(cfg, attempt, HistoryOf(after, attempt), DataOf(after, attempt))
  {
    forall attempt
      ensures Durable(cfg, attempt, HistoryOf(after, attempt), DataOf(after, attempt))
    {
      assert HistoryOf(after, attempt) == HistoryOf(sys, attempt) && DataOf(after, attempt) == DataOf(sys, attempt);
    }
  }

  /** Launching or crashing one invocation: only its own entry changes. */
  lemma EntryChanges(cfg: Config, sys: System, pid: nat, inv: Invocation)
    requires Invariant(cfg, sys) && (inv.pc == Reading || inv.pc == Finished(Crashed))
    ensures Invariant(cfg, sys.(invocations := sys.invocations[pid := inv]))
  {
    var after := sys.(invocations := sys.invocations[pid := inv]);
    SameDurable(cfg, sys, after);
    forall other | other in after.invocations
      ensures InvocationFits(cfg, after, other, after.invocations[other])
    {
      assert other != pid ==> InvocationFits(cfg, sys, other, sys.invocations[other]);
    }
  }

  lemma NextKeepsInvariant(cfg: Config, sys: System, move: Move)
    requires Invariant(cfg, sys)
    ensures Invariant(cfg, Next(cfg, sys, move))
  {
    match move
    case Launch(pid, attempt, fingerprint) =>
      EntryChanges(cfg, sys, pid, Invocation(attempt, fingerprint, Reading, None, map[]));
    case Advance(pid, choice) =>
      if pid in sys.invocations {
        AdvanceKeepsInvariant(cfg, sys, pid, choice);
      }
    case Crash(pid) =>
      if pid in sys.invocations {
        EntryChanges(cfg, sys, pid, sys.invocations[pid].(pc := Finished(Crashed)));
      }
  }

  lemma {:induction false} RunsKeepInvariant(cfg: Config, moves: seq<Move>)
    ensures Invariant(cfg, Run(cfg, moves))
  {
    if moves != [] {
      RunsKeepInvariant(cfg, moves[..|moves| - 1]);
      NextKeepsInvariant(cfg, Run(cfg, moves[..|moves| - 1]), moves[|moves| - 1]);
    }
  }

  // Failures recorded twice

  /** The invocation that a move advances, in the state it finds. */
  function Mover(cfg: Config, moves: seq<Move>, i: nat): Option<Invocation>
    requires i < |moves|
  {
    var sys := Run(cfg, moves[..i]);
    if moves[i].Advance? && moves[i].pid in sys.invocations && !sys.torn then Some(sys.invocations[moves[i].pid]) else None
  }

  /** The read-back differed, and the failure record of the handler inside the `try` lands while the append raises. */
  ghost predicate RaisesInTry(cfg: Config, moves: seq<Move>, i: nat, attempt: string)
    requires i < |moves|
  {
    var inv := Mover(cfg, moves, i);
    inv.Some? && inv.value.attempt == attempt && inv.value.pc == FailingInTry && moves[i].choice.fate == AppendRaises(Whole)
  }

  predicate Lands(fate: AppendFate) {
    fate == AppendOk || fate == AppendRaises(Whole)
  }

  /** The last handler's failure record lands. */
  ghost predicate RecordsFailure(cfg: Config, moves: seq<Move>, j: nat, attempt: string)
    requires j < |moves|
  {
    var inv := Mover(cfg, moves, j);
    inv.Some? && inv.value.attempt == attempt && inv.value.pc.Failing? && Lands(moves[j].choice.fate)
  }

  ghost predicate FailsTwice(cfg: Config, moves: seq<Move>, attempt: string) {
    exists i: nat, j: nat :: i < j < |moves| && RaisesInTry(cfg, moves, i, attempt) && RecordsFailure(cfg, moves, j, attempt)
  }

  ghost predicate RaisedInTry(cfg: Config, moves: seq<Move>, attempt: string) {
    exists i: nat :: i < |moves| && RaisesInTry(cfg, moves, i, attempt)
  }

  /** Where a handler stands behind a terminal event, and where a second failure record comes from. */
  ghost predicate Marked(torn: bool, history: seq<LedgerEvent>, pc: Pc, fate: AppendFate, pc': Pc, added: seq<LedgerEvent>) {
    && (pc'.Failing? && HasTerminal(history + added) ==> !torn && pc == FailingInTry && fate == AppendRaises(Whole))
    && (FailedTwice(history + added) && added != [] ==> !torn && pc.Failing? && HasTerminal(history) && Lands(fate))
  }

  predicate Appending?(pc: Pc) {
    pc.Starting? || pc.Announcing? || pc.AnnouncingProposal? || pc.FailingInTry? || pc.Failing? || pc.Completing?
  }

  lemma StepMarks(cfg: Config, pid: nat, torn: bool, history: seq<LedgerEvent>, data: Data, inv: Invocation, choice: Choice)
    requires Ready(cfg, pid, history, data, inv)
    ensures var effect := LocalStep(cfg, pid, torn, history, data, inv, choice);
            Marked(torn, history, inv.pc, choice.fate, effect.pc, effect.appending.added)
  {
    if Appending?(inv.pc) {
      AppendStepMarks(cfg, pid, torn, history, data, inv, choice);
    } else {
      var effect := LocalStep(cfg, pid, torn, history, data, inv, choice);
      QuietSteps(cfg, pid, torn, history, data, inv, choice);
      assert history + [] == history;
      if effect.pc.Failing? {
        QuietMarks(cfg, pid, history, data, inv);
      }
    }
  }

  lemma QuietSteps(cfg: Config, pid: nat, torn: bool, history: seq<LedgerEvent>, data: Data, inv: Invocation, choice: Choice)
    requires !Appending?(inv.pc)
    ensures var effect := LocalStep(cfg, pid, torn, history, data, inv, choice);
            && effect.appending.added == []
            && (effect.pc.Failing? ==> Owning(inv.pc) && !inv.pc.Reloading?)
  {
  }

  lemma AppendSteps(cfg: Config, pid: nat, torn: bool, history: seq<LedgerEvent>, data: Data, inv: Invocation, choice: Choice)
    requires Appending?(inv.pc) && (inv.pc.AnnouncingProposal? ==> inv.plan.Some?)
    ensures var effect := LocalStep(cfg, pid, torn, history, data, inv, choice);
            exists body ::
              && effect.appending == Append(torn, EventOf(cfg, inv, choice, body), choice.fate)
              && (effect.pc.Failing? ==> !effect.appending.ok)
              && (IsTerminal(body) <==> inv.pc.FailingInTry? || inv.pc.Failing? || inv.pc.Completing?)
              && (body.Failed? ==> inv.pc.FailingInTry? || inv.pc.Failing?)
  {
    var effect := LocalStep(cfg, pid, torn, history, data, inv, choice);
    match inv.pc
    case Starting => assert effect.appending == Append(torn, EventOf(cfg, inv, choice, Started(inv.fingerprint)), choice.fate);
    case Announcing(slot) => assert effect.appending == Append(torn, EventOf(cfg, inv, choice, ArtifactBody(cfg, inv, slot)), choice.fate);
    case AnnouncingProposal => assert effect.appending == Append(torn, EventOf(cfg, inv, choice, ProposalBody(cfg, inv.plan.value)), choice.fate);
    case FailingInTry => assert effect.appending == Append(torn, EventOf(cfg, inv, choice, Failed(Persistence, ProposalConflict)), choice.fate);
    case Failing(phase, category) => assert effect.appending == Append(torn, EventOf(cfg, inv, choice, Failed(phase, category)), choice.fate);
    case Completing =>
      assert effect.appending == Append(torn, EventOf(cfg, inv, choice, Completed(if inv.plan.Some? then Produced else NoChanges)), choice.fate);
  }

  lemma AppendStepMarks(cfg: Config, pid: nat, torn: bool, history: seq<LedgerEvent>, data: Data, inv: Invocation, choice: Choice)
    requires Ready(cfg, pid, history, data, inv) && Appending?(inv.pc)
    ensures var effect := LocalStep(cfg, pid, torn, history, data, inv, choice);
            Marked(torn, history, inv.pc, choice.fate, effect.pc, effect.appending.added)
  {
    AppendSteps(cfg, pid, torn, history, data, inv, choice);
    var effect := LocalStep(cfg, pid, torn, history, data, inv, choice);
    var body :| && effect.appending == Append(torn, EventOf(cfg, inv, choice, body), choice.fate)
                && (effect.pc.Failing? ==> !effect.appending.ok)
                && (IsTerminal(body) <==> inv.pc.FailingInTry? || inv.pc.Failing? || inv.pc.Completing?)
                && (body.Failed? ==> inv.pc.FailingInTry? || inv.pc.Failing?);
    AppendMarks(history, torn, EventOf(cfg, inv, choice, body), choice.fate);
    if !inv.pc.Failing? {
      QuietMarks(cfg, pid, history, data, inv);
    }
    if inv.pc.Failing? || inv.pc.Completing? || inv.pc.Starting? {
      NoHandlerAfter(cfg, pid, torn, history, data, inv, choice);
    }
  }

  lemma NoHandlerAfter(cfg: Config, pid: nat, torn: bool, history: seq<LedgerEvent>, data: Data, inv: Invocation, choice: Choice)
    requires inv.pc.Failing? || inv.pc.Completing? || inv.pc.Starting?
    ensures !LocalStep(cfg, pid, torn, history, data, inv, choice).pc.Failing?
  {
  }

  lemma QuietMarks(cfg: Config, pid: nat, history: seq<LedgerEvent>, data: Data, inv: Invocation)
    requires Ready(cfg, pid, history, data, inv) && Owning(inv.pc) && !inv.pc.Failing? && !inv.pc.Reloading?
    ensures !HasTerminal(history)
  {
    match inv.pc
    case Starting =>
    case Confirming(_) => SmoothIsOpen(cfg, inv, data, history, 0);
    case Extracting => SmoothIsOpen(cfg, inv, data, history, 0);
    case Producing => SmoothIsOpen(cfg, inv, data, history, 0);
    case Rendering => SmoothIsOpen(cfg, inv, data, history, 0);
    case Persisting(slot) => SmoothIsOpen(cfg, inv, data, history, SlotRank(slot) - 1);
    case Announcing(slot) => SmoothIsOpen(cfg, inv, data, history, SlotRank(slot) - 1);
    case Proposing => SmoothIsOpen(cfg, inv, data, history, 3);
    case AnnouncingProposal => SmoothIsOpen(cfg, inv, data, history, 3);
    case FailingInTry =>
    case Completing => SmoothIsOpen(cfg, inv, data, history, if inv.plan.Some? then 4 else 3);
  }

  lemma AppendMarks(history: seq<LedgerEvent>, torn: bool, event: LedgerEvent, fate: AppendFate)
    ensures var a := Append(torn, event, fate);
            && (a.added != [] ==> a.added == [event] && !torn && Lands(fate) && (!a.ok ==> fate == AppendRaises(Whole)))
            && (HasTerminal(history + a.added) ==> HasTerminal(history) || (IsTerminal(event.body) && a.added != []))
            && (FailedTwice(history + a.added) && a.added != [] ==> event.body.Failed? && HasTerminal(history))
  {
    var after := history + [event];
    assert history + [] == history;
    if FailedTwice(after) {
      assert after[|after| - 2] == history[|history| - 1];
    }
    assert IsTerminal(after[|history|].body) <==> IsTerminal(event.body);
    forall k | 0 <= k < |history| && IsTerminal(after[k].body)
      ensures HasTerminal(history)
    {
      assert IsTerminal(history[k].body);
    }
  }

  /** What the marks of a run explain. */
  ghost predicate Explained(cfg: Config, moves: seq<Move>, sys: System) {
    && (forall pid :: pid in sys.invocations ==> HandlerExplained(cfg, moves, sys, sys.invocations[pid]))
    && (forall attempt :: FailedTwice(HistoryOf(sys, attempt)) ==> FailsTwice(cfg, moves, attempt))
  }

  ghost predicate HandlerExplained(cfg: Config, moves: seq<Move>, sys: System, inv: Invocation) {
    inv.pc.Failing? && HasTerminal(HistoryOf(sys, inv.attempt)) ==> RaisedInTry(cfg, moves, inv.attempt)
  }

  lemma MarksStay(cfg: Config, moves: seq<Move>, move: Move, attempt: string)
    ensures RaisedInTry(cfg, moves, attempt) ==> RaisedInTry(cfg, moves + [move], attempt)
    ensures FailsTwice(cfg, moves, attempt) ==> FailsTwice(cfg, moves + [move], attempt)
  {
    var longer := moves + [move];
    assert forall i: nat :: i < |moves| ==> longer[..i] == moves[..i];
    if RaisedInTry(cfg, moves, attempt) {
      var i: nat :| i < |moves| && RaisesInTry(cfg, moves, i, attempt);
      assert RaisesInTry(cfg, longer, i, attempt);
    }
    if FailsTwice(cfg, moves, attempt) {
      var i: nat, j: nat :| i < j < |moves| && RaisesInTry(cfg, moves, i, attempt) && RecordsFailure(cfg, moves, j, attempt);
      assert RaisesInTry(cfg, longer, i, attempt) && RecordsFailure(cfg, longer, j, attempt);
    }
  }

  lemma {:induction false} MoverSnoc(cfg: Config, moves: seq<Move>, pid: nat, choice: Choice)
    requires pid in Run(cfg, moves).invocations && !Run(cfg, moves).torn
    ensures Mover(cfg, moves + [Advance(pid, choice)], |moves|) == Some(Run(cfg, moves).invocations[pid])
  {
    assert (moves + [Advance(pid, choice)])[..|moves|] == moves;
  }

  /** What one step of the advanced invocation makes of the history of its attempt. */
  lemma AdvanceIsMarked(cfg: Config, sys: System, pid: nat, choice: Choice)
    requires Invariant(cfg, sys) && pid in sys.invocations
    ensures var inv, after := sys.invocations[pid], AdvanceSystem(cfg, sys, pid, choice);
            exists added ::
              && HistoryOf(after, inv.attempt) == HistoryOf(sys, inv.attempt) + added
              && Marked(sys.torn, HistoryOf(sys, inv.attempt), inv.pc, choice.fate, after.invocations[pid].pc, added)
  {
    var inv := sys.invocations[pid];
    var history, data := HistoryOf(sys, inv.attempt), DataOf(sys, inv.attempt);
    var effect := LocalStep(cfg, pid, sys.torn, history, data, inv, choice);
    assert InvocationFits(cfg, sys, pid, inv);
    EveryStepKeeps(cfg, pid, sys.torn, history, data, inv, choice);
    StepMarks(cfg, pid, sys.torn, history, data, inv, choice);
    HistoriesAfter(sys, effect.appending.added, inv.attempt, inv.attempt);
  }

  /** The advanced invocation itself. */
  lemma {:induction false} AdvanceIsExplained(cfg: Config, moves: seq<Move>, sys: System, pid: nat, choice: Choice)
    requires sys == Run(cfg, moves) && Invariant(cfg, sys) && Explained(cfg, moves, sys) && pid in sys.invocations
    ensures var after, longer := AdvanceSystem(cfg, sys, pid, choice), moves + [Advance(pid, choice)];
            && HandlerExplained(cfg, longer, after, after.invocations[pid])
            && (FailedTwice(HistoryOf(after, sys.invocations[pid].attempt)) ==> FailsTwice(cfg, longer, sys.invocations[pid].attempt))
  {
    var inv, longer := sys.invocations[pid], moves + [Advance(pid, choice)];
    var after := AdvanceSystem(cfg, sys, pid, choice);
    var before, now := HistoryOf(sys, inv.attempt), HistoryOf(after, inv.attempt);
    AdvanceIsMarked(cfg, sys, pid, choice);
    var added :| now == before + added && Marked(sys.torn, before, inv.pc, choice.fate, after.invocations[pid].pc, added);
    if after.invocations[pid].pc.Failing? && HasTerminal(now) {
      MoverSnoc(cfg, moves, pid, choice);
      assert RaisesInTry(cfg, longer, |moves|, inv.attempt);
    }
    if FailedTwice(now) {
      if added == [] {
        assert now == before;
        MarksStay(cfg, moves, Advance(pid, choice), inv.attempt);
      } else {
        assert HandlerExplained(cfg, moves, sys, inv);
        MoverSnoc(cfg, moves, pid, choice);
        SecondRecordIsMarked(cfg, moves, pid, choice, inv.attempt);
      }
    }
  }

  lemma SecondRecordIsMarked(cfg: Config, moves: seq<Move>, pid: nat, choice: Choice, attempt: string)
    requires RaisedInTry(cfg, moves, attempt) && RecordsFailure(cfg, moves + [Advance(pid, choice)], |moves|, attempt)
    ensures FailsTwice(cfg, moves + [Advance(pid, choice)], attempt)
  {
    var longer := moves + [Advance(pid, choice)];
    var i: nat :| i < |moves| && RaisesInTry(cfg, moves, i, attempt);
    assert longer[..i] == moves[..i];
    assert RaisesInTry(cfg, longer, i, attempt);
  }

  /** Every other invocation, and every other attempt. */
  lemma {:induction false} OthersStayExplained(cfg: Config, moves: seq<Move>, sys: System, pid: nat, choice: Choice, other: nat)
    requires sys == Run(cfg, moves) && Invariant(cfg, sys) && Explained(cfg, moves, sys) && pid in sys.invocations
    requires other in sys.invocations && other != pid
    ensures HandlerExplained(cfg, moves + [Advance(pid, choice)], AdvanceSystem(cfg, sys, pid, choice), sys.invocations[other])
  {
    var inv, theirs := sys.invocations[pid], sys.invocations[other];
    var history, data := HistoryOf(sys, inv.attempt), DataOf(sys, inv.attempt);
    var effect := LocalStep(cfg, pid, sys.torn, history, data, inv, choice);
    assert InvocationFits(cfg, sys, pid, inv) && InvocationFits(cfg, sys, other, theirs) && HandlerExplained(cfg, moves, sys, theirs);
    EveryStepKeeps(cfg, pid, sys.torn, history, data, inv, choice);
    HistoriesAfter(sys, effect.appending.added, inv.attempt, theirs.attempt);
    MarksStay(cfg, moves, Advance(pid, choice), theirs.attempt);
    assert HistoryOf(sys, theirs.attempt) + [] == HistoryOf(sys, theirs.attempt);
  }

  lemma {:induction false} OtherAttemptsStayExplained(cfg: Config, moves: seq<Move>, sys: System, pid: nat, choice: Choice, attempt: string)
    requires sys == Run(cfg, moves) && Invariant(cfg, sys) && Explained(cfg, moves, sys) && pid in sys.invocations
    requires attempt != sys.invocations[pid].attempt && FailedTwice(HistoryOf(AdvanceSystem(cfg, sys, pid, choice), attempt))
    ensures FailsTwice(cfg, moves + [Advance(pid, choice)], attempt)
  {
    var inv := sys.invocations[pid];
    var history, data := HistoryOf(sys, inv.attempt), DataOf(sys, inv.attempt);
    var effect := LocalStep(cfg, pid, sys.torn, history, data, inv, choice);
    assert InvocationFits(cfg, sys, pid, inv);
    EveryStepKeeps(cfg, pid, sys.torn, history, data, inv, choice);
    HistoriesAfter(sys, effect.appending.added, inv.attempt, attempt);
    assert HistoryOf(sys, attempt) + [] == HistoryOf(sys, attempt);
    MarksStay(cfg, moves, Advance(pid, choice), attempt);
  }

  lemma {:induction false} NextIsExplained(cfg: Config, moves: seq<Move>, sys: System, move: Move)
    requires sys == Run(cfg, moves) && Invariant(cfg, sys) && Explained(cfg, moves, sys)
    ensures Explained(cfg, moves + [move], Next(cfg, sys, move))
  {
    var longer, after := moves + [move], Next(cfg, sys, move);
    if move.Advance? && move.pid in sys.invocations {
      forall other | other in after.invocations
        ensures HandlerExplained(cfg, longer, after, after.invocations[other])
      {
        if other == move.pid {
          AdvanceIsExplained(cfg, moves, sys, move.pid, move.choice);
        } else {
          OthersStayExplained(cfg, moves, sys, move.pid, move.choice, other);
        }
      }
      forall attempt | FailedTwice(HistoryOf(after, attempt))
        ensures FailsTwice(cfg, longer, attempt)
      {
        if attempt == sys.invocations[move.pid].attempt {
          AdvanceIsExplained(cfg, moves, sys, move.pid, move.choice);
        } else {
          OtherAttemptsStayExplained(cfg, moves, sys, move.pid, move.choice, attempt);
        }
      }
    } else {
      forall attempt
        ensures RaisedInTry(cfg, moves, attempt) ==> RaisedInTry(cfg, longer, attempt)
        ensures FailsTwice(cfg, moves, attempt) ==> FailsTwice(cfg, longer, attempt)
      {
        MarksStay(cfg, moves, move, attempt);
      }
      IdleIsExplained(cfg, moves, sys, move);
    }
  }

  /** A launch or a crash leaves the ledger alone and makes no handler. */
  lemma {:induction false} IdleIsExplained(cfg: Config, moves: seq<Move>, sys: System, move: Move)
    requires sys == Run(cfg, moves) && Explained(cfg, moves, sys)
    requires move.Advance? ==> move.pid !in sys.invocations
    requires forall attempt :: RaisedInTry(cfg, moves, attempt) ==> RaisedInTry(cfg, moves + [move], attempt)
    requires forall attempt :: FailsTwice(cfg, moves, attempt) ==> FailsTwice(cfg, moves + [move], attempt)
    ensures Explained(cfg, moves + [move], Next(cfg, sys, move))
  {
    var after := Next(cfg, sys, move);
    assert after.ledger == sys.ledger;
    forall pid | pid in after.invocations
      ensures HandlerExplained(cfg, moves + [move], after, after.invocations[pid])
    {
      if after.invocations[pid].pc.Failing? {
        assert pid in sys.invocations && after.invocations[pid] == sys.invocations[pid];
        assert HandlerExplained(cfg, moves, sys, sys.invocations[pid]);
      }
    }
    forall attempt | FailedTwice(HistoryOf(after, attempt))
      ensures FailsTwice(cfg, moves + [move], attempt)
    {
      assert FailedTwice(HistoryOf(sys, attempt));
    }
  }

  lemma {:induction false} RunsAreExplained(cfg: Config, moves: seq<Move>)
    ensures Explained(cfg, moves, Run(cfg, moves))
  {
    if moves != [] {
      var front := moves[..|moves| - 1];
      RunsAreExplained(cfg, front);
      RunsKeepInvariant(cfg, front);
      NextIsExplained(cfg, front, Run(cfg, front), moves[|moves| - 1]);
      assert front + [moves[|moves| - 1]] == moves;
    }
  }

  /** A proposal step that stored the plan and read back something else. */
  ghost predicate ReadsBackOther(cfg: Config, moves: seq<Move>, k: nat, pid: nat)
    requires k < |moves|
  {
    var sys := Run(cfg, moves[..k]);
    && moves[k].Advance? && moves[k].pid == pid && pid in sys.invocations
    && sys.invocations[pid].pc == Proposing && moves[k].choice.fault.None? && !cfg.faithful
    && !ReadsBack(cfg, sys.invocations[pid].plan, moves[k].choice.readBack)
  }

  /** An invocation is in the handler inside the `try` only after such a step. */
  lemma {:induction false} ReadBackDiffered(cfg: Config, moves: seq<Move>, pid: nat)
    requires pid in Run(cfg, moves).invocations && Run(cfg, moves).invocations[pid].pc == FailingInTry
    ensures exists k: nat :: k < |moves| && ReadsBackOther(cfg, moves, k, pid)
  {
    var last, front := |moves| - 1, moves[..|moves| - 1];
    var sys := Run(cfg, front);
    assert pid in sys.invocations;
    if sys.invocations[pid].pc == FailingInTry {
      ReadBackDiffered(cfg, front, pid);
      var k: nat :| k < |front| && ReadsBackOther(cfg, front, k, pid);
      assert front[..k] == moves[..k];
      assert ReadsBackOther(cfg, moves, k, pid);
    } else {
      assert moves[last].Advance? && moves[last].pid == pid;
      EntersTry(cfg, sys, pid, moves[last].choice);
      assert ReadsBackOther(cfg, moves, last, pid);
    }
  }

  lemma EntersTry(cfg: Config, sys: System, pid: nat, choice: Choice)
    requires pid in sys.invocations && sys.invocations[pid].pc != FailingInTry
    requires AdvanceSystem(cfg, sys, pid, choice).invocations[pid].pc == FailingInTry
    ensures sys.invocations[pid].pc == Proposing && choice.fault.None? && !cfg.faithful
            && !ReadsBack(cfg, sys.invocations[pid].plan, choice.readBack)
  {
  }

  // The ledger only grows

  ghost predicate Grows(before: seq<LedgerEvent>, after: seq<LedgerEvent>) {
    |before| <= |after| && after[..|before|] == before
  }

  lemma NextGrows(cfg: Config, sys: System, move: Move, attempt: string)
    ensures Grows(HistoryOf(sys, attempt), HistoryOf(Next(cfg, sys, move), attempt))
  {
    if move.Advance? && move.pid in sys.invocations {
      var inv := sys.invocations[move.pid];
      var effect := LocalStep(cfg, move.pid, sys.torn, HistoryOf(sys, inv.attempt), DataOf(sys, inv.attempt), inv, move.choice);
      RelevantConcat(sys.ledger, effect.appending.added, attempt);
    }
  }

  lemma {:induction false} HistoryGrows(cfg: Config, moves: seq<Move>, k: nat, attempt: string)
    requires k <= |moves|
    ensures Grows(HistoryOf(Run(cfg, moves[..k]), attempt), HistoryOf(Run(cfg, moves), attempt))
  {
    if k == |moves| {
      assert moves[..k] == moves;
    } else {
      var front := moves[..|moves| - 1];
      assert front[..k] == moves[..k];
      HistoryGrows(cfg, front, k, attempt);
      NextGrows(cfg, Run(cfg, front), moves[|moves| - 1], attempt);
    }
  }

  /** A handler whose record lands adds one terminal event to its attempt. */
  lemma {:induction false} LandedIsTerminal(cfg: Config, moves: seq<Move>, i: nat, attempt: string)
    requires i < |moves| && (RaisesInTry(cfg, moves, i, attempt) || RecordsFailure(cfg, moves, i, attempt))
    ensures var before, after := HistoryOf(Run(cfg, moves[..i]), attempt), HistoryOf(Run(cfg, moves[..i + 1]), attempt);
            |after| == |before| + 1 && IsTerminal(after[|before|].body)
  {
    assert moves[..i + 1][..i] == moves[..i];
    var sys, pid, choice := Run(cfg, moves[..i]), moves[i].pid, moves[i].choice;
    var inv := sys.invocations[pid];
    var event := EventOf(cfg, inv, choice, FailureOf(inv.pc));
    var effect := LocalStep(cfg, pid, sys.torn, HistoryOf(sys, attempt), DataOf(sys, attempt), inv, choice);
    assert effect.appending.added == [event];
    HistoriesAfter(sys, [event], attempt, attempt);
  }

  lemma TwoTerminals(history: seq<LedgerEvent>, p: nat, q: nat)
    requires p < q < |history| && IsTerminal(history[p].body)
    ensures !Orderly(history)
  {
    assert !Compatible(history[p], history[q]);
  }

  lemma {:induction false} FailingTwiceIsDisorderly(cfg: Config, moves: seq<Move>, i: nat, j: nat, attempt: string)
    requires i < j < |moves| && RaisesInTry(cfg, moves, i, attempt) && RecordsFailure(cfg, moves, j, attempt)
    ensures !Orderly(HistoryOf(Run(cfg, moves), attempt))
  {
    LandedIsTerminal(cfg, moves, i, attempt);
    LandedIsTerminal(cfg, moves, j, attempt);
    HistoryGrows(cfg, moves[..j], i + 1, attempt);
    assert moves[..j][..i + 1] == moves[..i + 1];
    HistoryGrows(cfg, moves, j + 1, attempt);
    HistoryGrows(cfg, moves, i + 1, attempt);
    TwoTerminals(HistoryOf(Run(cfg, moves), attempt), |HistoryOf(Run(cfg, moves[..i]), attempt)|, |HistoryOf(Run(cfg, moves[..j]), attempt)|);
  }

  lemma FailedTwiceIsDisorderly(history: seq<LedgerEvent>)
    requires FailedTwice(history)
    ensures !Orderly(history)
  {
    TwoTerminals(history, |history| - 2, |history| - 1);
  }

  /**
   Whatever crashes, repeats and interleaves, and whatever the proposal store
   reads back: the ledger folds for an attempt unless the handler inside the `try`
   recorded a failure while raising and the last handler recorded one again; the
   model is called at most once per attempt; a completed attempt has whole evidence.
   */
  lemma {:induction false} EveryLedgerFolds(cfg: Config, moves: seq<Move>, attempt: string)
    ensures var sys := Run(cfg, moves);
            && (FoldOf(sys.ledger, attempt).Ok? <==> !FailsTwice(cfg, moves, attempt))
            && DataOf(sys, attempt).extractions <= 1
            && (FoldOf(sys.ledger, attempt).Ok? && FoldOf(sys.ledger, attempt).value.state == HasCompleted ==>
                  VerifyTerminalIntegrity(cfg, attempt, FoldOf(sys.ledger, attempt).value,
                                          DataOf(sys, attempt).artifacts, DataOf(sys, attempt).proposal) == None)
  {
    RunsKeepInvariant(cfg, moves);
    RunsAreExplained(cfg, moves);
    var sys := Run(cfg, moves);
    var history := HistoryOf(sys, attempt);
    assert Durable(cfg, attempt, history, DataOf(sys, attempt));
    FoldIff(history);
    if FailedTwice(history) {
      FailedTwiceIsDisorderly(history);
    }
    if FailsTwice(cfg, moves, attempt) {
      var i: nat, j: nat :| i < j < |moves| && RaisesInTry(cfg, moves, i, attempt) && RecordsFailure(cfg, moves, j, attempt);
      FailingTwiceIsDisorderly(cfg, moves, i, j, attempt);
    }
  }

  /** A store that reads back what it created never gets there. */
  lemma FaithfulNeverFailsTwice(cfg: Config, moves: seq<Move>, attempt: string)
    requires cfg.faithful
    ensures !FailsTwice(cfg, moves, attempt)
  {
    forall i: nat | i < |moves|
      ensures !RaisesInTry(cfg, moves, i, attempt)
    {
      RunsKeepInvariant(cfg, moves[..i]);
      var sys := Run(cfg, moves[..i]);
      if moves[i].Advance? && moves[i].pid in sys.invocations {
        assert InvocationFits(cfg, sys, moves[i].pid, sys.invocations[moves[i].pid]);
      }
    }
  }

  /** A run that reported completion left a completed attempt, in every later state too. */
  lemma {:induction false} CompletionIsDurable(cfg: Config, moves: seq<Move>, pid: nat)
    requires var sys := Run(cfg, moves); pid in sys.invocations && sys.invocations[pid].pc == Finished(StatusCompleted)
    ensures var sys := Run(cfg, moves);
            var fold := FoldOf(sys.ledger, sys.invocations[pid].attempt);
            fold.Ok? && fold.value.state == HasCompleted
  {
    RunsKeepInvariant(cfg, moves);
    var sys := Run(cfg, moves);
    var attempt := sys.invocations[pid].attempt;
    assert InvocationFits(cfg, sys, pid, sys.invocations[pid]);
    assert Durable(cfg, attempt, HistoryOf(sys, attempt), DataOf(sys, attempt));
    var history := HistoryOf(sys, attempt);
    FoldIff(history);
    assert history[|history| - 1] in history;
  }

  /**
   Running a completed attempt again with unchanged input reports it as already
   terminal, and changes nothing but the invocation itself.
   */
  lemma {:induction false} RerunIsReadOnly(cfg: Config, moves: seq<Move>, pid: nat, choice: Choice)
    requires choice.fault.None?
    requires var sys := Run(cfg, moves);
             && !sys.torn && pid in sys.invocations && sys.invocations[pid].pc == Reading
             && FoldOf(sys.ledger, sys.invocations[pid].attempt).Ok?
             && FoldOf(sys.ledger, sys.invocations[pid].attempt).value.state == HasCompleted
             && HistoryOf(sys, sys.invocations[pid].attempt)[0].body == Started(sys.invocations[pid].fingerprint)
    ensures var sys := Run(cfg, moves);
            var after := Next(cfg, sys, Advance(pid, choice));
            && after.invocations[pid].pc == Finished(AlreadyTerminal)
            && after.ledger == sys.ledger && after.torn == sys.torn
            && forall attempt :: DataOf(after, attempt) == DataOf(sys, attempt)
  {
    var sys := Run(cfg, moves);
    var inv := sys.invocations[pid];
    EveryLedgerFolds(cfg, moves, inv.attempt);
    FoldIff(HistoryOf(sys, inv.attempt));
    assert sys.ledger + [] == sys.ledger;
  }

  // Without the read-back guarantee

  /** A system with one invocation. */
  function Solo(ledger: seq<LedgerEvent>, data: Data, inv: Invocation): System {
    System(ledger, false, map[inv.attempt := data], map[0 := inv])
  }

  lemma SoloStep(cfg: Config, ledger: seq<LedgerEvent>, data: Data, inv: Invocation, choice: Choice)
    requires forall e :: e in ledger ==> e.attemptId == inv.attempt
    requires !LocalStep(cfg, 0, false, ledger, data, inv, choice).appending.torn
    ensures var effect := LocalStep(cfg, 0, false, ledger, data, inv, choice);
            Next(cfg, Solo(ledger, data, inv), Advance(0, choice)) == Solo(ledger + effect.appending.added, effect.data, Stepped(inv, effect))
  {
    RelevantAll(ledger, inv.attempt, inv.attempt);
  }

  /**
   From a proposal step whose read-back differs, a failure record that lands but
   reports an error is written a second time: two terminal events.
   */
  lemma MismatchCanFailTwice(cfg: Config, ledger: seq<LedgerEvent>, data: Data, inv: Invocation, choice: Choice, again: string)
    requires !cfg.faithful && inv.pc == Proposing && inv.plan.Some? && data.proposal == None
    requires forall e :: e in ledger ==> e.attemptId == inv.attempt
    requires choice.fault.None? && !ReadsBack(cfg, inv.plan, choice.readBack)
    ensures var s1 := Next(cfg, Solo(ledger, data, inv), Advance(0, choice));
            var s2 := Next(cfg, s1, Advance(0, choice.(fate := AppendRaises(Whole))));
            var s3 := Next(cfg, s2, Advance(0, choice.(eventId := again, fate := AppendOk)));
            !s3.torn && FoldOf(s3.ledger, inv.attempt).Err?
  {
    var once, twice := choice.(fate := AppendRaises(Whole)), choice.(eventId := again, fate := AppendOk);
    SoloStep(cfg, ledger, data, inv, choice);
    var e1 := LocalStep(cfg, 0, false, ledger, data, inv, choice);
    var inv1 := Stepped(inv, e1);
    assert inv1.pc == FailingInTry && ledger + e1.appending.added == ledger;
    SoloStep(cfg, ledger, e1.data, inv1, once);
    var e2 := LocalStep(cfg, 0, false, ledger, e1.data, inv1, once);
    var inv2, ledger2 := Stepped(inv1, e2), ledger + e2.appending.added;
    assert inv2.pc == Failing(Persistence, InternalError) && |ledger2| == |ledger| + 1 && IsTerminal(ledger2[|ledger|].body);
    SoloStep(cfg, ledger2, e2.data, inv2, twice);
    var e3 := LocalStep(cfg, 0, false, ledger2, e2.data, inv2, twice);
    var ledger3 := ledger2 + e3.appending.added;
    RelevantAll(ledger3, inv.attempt, inv.attempt);
    FoldIff(ledger3);
    assert !Compatible(ledger3[|ledger|], ledger3[|ledger| + 1]);
  }

  /** A choice without faults. */
  predicate FaultFree(fine: Choice) {
    fine.fault.None? && fine.fate == AppendOk
  }

  /** The `n`-th event id of a run. */
  function WithId(fine: Choice, ids: nat -> string, n: nat): Choice {
    fine.(eventId := ids(n))
  }

  /** A run so far, of one invocation. */
  ghost predicate RanTo(cfg: Config, moves: seq<Move>, ledger: seq<LedgerEvent>, data: Data, inv: Invocation) {
    && Run(cfg, moves) == Solo(ledger, data, inv)
    && (forall e :: e in ledger ==> e.attemptId == inv.attempt)
  }

  lemma OneMore(cfg: Config, moves: seq<Move>, ledger: seq<LedgerEvent>, data: Data, inv: Invocation, choice: Choice)
    requires RanTo(cfg, moves, ledger, data, inv) && !LocalStep(cfg, 0, false, ledger, data, inv, choice).appending.torn
    requires forall e :: e in LocalStep(cfg, 0, false, ledger, data, inv, choice).appending.added ==> e.attemptId == inv.attempt
    ensures var effect := LocalStep(cfg, 0, false, ledger, data, inv, choice);
            RanTo(cfg, moves + [Advance(0, choice)], ledger + effect.appending.added, effect.data, Stepped(inv, effect))
  {
    var longer := moves + [Advance(0, choice)];
    assert longer[..|longer| - 1] == moves;
    SoloStep(cfg, ledger, data, inv, choice);
  }

  lemma ReachStarted(cfg: Config, attempt: string, fingerprint: string, fine: Choice, ids: nat -> string)
    returns (moves: seq<Move>, ledger: seq<LedgerEvent>, data: Data, inv: Invocation)
    requires FaultFree(fine)
    ensures RanTo(cfg, moves, ledger, data, inv) && inv.attempt == attempt
    ensures inv.pc == Confirming(ids(0)) && data == UNTOUCHED.(owner := Some(0))
    ensures ledger == [EventOf(cfg, inv, WithId(fine, ids, 0), Started(inv.fingerprint))]
  {
    var inv0 := Invocation(attempt, fingerprint, Reading, None, map[]);
    var launched := [Launch(0, attempt, fingerprint)];
    assert launched[..0] == [];
    assert Run(cfg, launched) == System([], false, map[], map[0 := inv0]);
    moves := launched + [Advance(0, fine)];
    assert moves[..1] == launched && Relevant([], attempt) == [];
    inv := inv0.(pc := Claiming);
    assert Run(cfg, moves) == Solo([], UNTOUCHED, inv);
    OneMore(cfg, moves, [], UNTOUCHED, inv, fine);
    moves, data, inv := moves + [Advance(0, fine)], UNTOUCHED.(owner := Some(0)), inv.(pc := Starting);
    OneMore(cfg, moves, [], data, inv, WithId(fine, ids, 0));
    moves, inv := moves + [Advance(0, WithId(fine, ids, 0))], inv.(pc := Confirming(ids(0)));
    ledger := [] + [EventOf(cfg, inv, WithId(fine, ids, 0), Started(inv.fingerprint))];
  }

  lemma OwnStartConfirms(event: LedgerEvent)
    requires event.body.Started?
    ensures StartedIsMine([event], event.eventId)
  {
    assert ProgressUpTo([event], 0) == Ok(Progress(map[], None, None));
    assert ProgressUpTo([event], 1) == Ok(Progress(map[], None, None));
  }

  lemma ReachExtracting(cfg: Config, attempt: string, fingerprint: string, fine: Choice, ids: nat -> string)
    returns (moves: seq<Move>, ledger: seq<LedgerEvent>, data: Data, inv: Invocation)
    requires FaultFree(fine)
    ensures RanTo(cfg, moves, ledger, data, inv) && inv.attempt == attempt
    ensures inv.pc == Extracting && data.artifacts == map[] && data.proposal == None
  {
    moves, ledger, data, inv := ReachStarted(cfg, attempt, fingerprint, fine, ids);
    OwnStartConfirms(ledger[0]);
    assert ledger + [] == ledger;
    OneMore(cfg, moves, ledger, data, inv, fine);
    moves, inv := moves + [Advance(0, fine)], inv.(pc := Extracting);
  }

  lemma ReachRendered(cfg: Config, attempt: string, fingerprint: string, fine: Choice, ids: nat -> string)
    returns (moves: seq<Move>, ledger: seq<LedgerEvent>, data: Data, inv: Invocation)
    requires FaultFree(fine)
    ensures RanTo(cfg, moves, ledger, data, inv) && inv.attempt == attempt
    ensures inv.pc == Persisting(Summary) && data.artifacts == map[] && data.proposal == None && inv.plan == PlanOf(cfg, attempt, fine.operations)
  {
    moves, ledger, data, inv := ReachExtracting(cfg, attempt, fingerprint, fine, ids);
    assert ledger + [] == ledger;
    OneMore(cfg, moves, ledger, data, inv, fine);
    moves, data, inv := moves + [Advance(0, fine)], data.(extractions := data.extractions + 1), inv.(pc := Producing);
    OneMore(cfg, moves, ledger, data, inv, fine);
    moves, inv := moves + [Advance(0, fine)], inv.(pc := Pc.Rendering, plan := PlanOf(cfg, inv.attempt, fine.operations));
    OneMore(cfg, moves, ledger, data, inv, fine);
    moves, inv := moves + [Advance(0, fine)], inv.(pc := Persisting(Summary), contents := map[Summary := Prose(fine.summary), Recap := Prose(fine.recap)]);
  }

  lemma ReachSlot(cfg: Config, moves: seq<Move>, ledger: seq<LedgerEvent>, data: Data, inv: Invocation, fine: Choice, eventId: string)
    returns (moves': seq<Move>, ledger': seq<LedgerEvent>, data': Data, inv': Invocation)
    requires RanTo(cfg, moves, ledger, data, inv) && FaultFree(fine) && inv.pc.Persisting? && inv.pc.slot !in data.artifacts && data.proposal == None
    ensures RanTo(cfg, moves', ledger', data', inv') && inv'.attempt == inv.attempt
    ensures data'.artifacts.Keys == data.artifacts.Keys + {inv.pc.slot} && data'.proposal == None && inv'.plan == inv.plan
    ensures inv'.pc == if NextSlot(inv.pc.slot).Some? then Persisting(NextSlot(inv.pc.slot).value) else AfterSlots(inv)
  {
    assert ledger + [] == ledger;
    OneMore(cfg, moves, ledger, data, inv, fine);
    var effect := LocalStep(cfg, 0, false, ledger, data, inv, fine);
    moves', data', inv' := moves + [Advance(0, fine)], effect.data, Stepped(inv, effect);
    OneMore(cfg, moves', ledger, data', inv', fine.(eventId := eventId));
    var last := LocalStep(cfg, 0, false, ledger, data', inv', fine.(eventId := eventId));
    moves', ledger', inv' := moves' + [Advance(0, fine.(eventId := eventId))], ledger + last.appending.added, Stepped(inv', last);
  }

  lemma ReachLastSlot(cfg: Config, attempt: string, fingerprint: string, fine: Choice, ids: nat -> string)
    returns (moves: seq<Move>, ledger: seq<LedgerEvent>, data: Data, inv: Invocation)
    requires FaultFree(fine)
    ensures RanTo(cfg, moves, ledger, data, inv) && inv.attempt == attempt
    ensures inv.pc == AfterSlots(inv) && inv.plan == PlanOf(cfg, attempt, fine.operations) && data.proposal == None
  {
    moves, ledger, data, inv := ReachRendered(cfg, attempt, fingerprint, fine, ids);
    moves, ledger, data, inv := ReachSlot(cfg, moves, ledger, data, inv, fine, ids(1));
    moves, ledger, data, inv := ReachSlot(cfg, moves, ledger, data, inv, fine, ids(2));
    moves, ledger, data, inv := ReachSlot(cfg, moves, ledger, data, inv, fine, ids(3));
  }

  lemma {:induction false} RunSnoc(cfg: Config, moves: seq<Move>, move: Move)
    ensures Run(cfg, moves + [move]) == Next(cfg, Run(cfg, moves), move)
  {
    assert (moves + [move])[..|moves|] == moves;
  }

  /**
   With a store that may read back something else every attempt can get there, on
   any input, with any event ids, and whatever the models return and propose.
   */
  lemma UnfaithfulStoreBreaksTheFold(cfg: Config, attempt: string, fingerprint: string, fine: Choice, ids: nat -> string)
    returns (moves: seq<Move>)
    requires !cfg.faithful && FaultFree(fine) && fine.operations != []
    ensures !Run(cfg, moves).torn && FoldOf(Run(cfg, moves).ledger, attempt).Err?
  {
    var ledger, data, inv;
    moves, ledger, data, inv := ReachLastSlot(cfg, attempt, fingerprint, fine, ids);
    var plan := inv.plan.value;
    var choice := WithId(fine, ids, 4).(readBack := plan.(id := plan.id + "_other"));
    MismatchCanFailTwice(cfg, ledger, data, inv, choice, ids(5));
    var a, b, c := Advance(0, choice), Advance(0, choice.(fate := AppendRaises(Whole))), Advance(0, choice.(eventId := ids(5), fate := AppendOk));
    RunSnoc(cfg, moves, a);
    RunSnoc(cfg, moves + [a], b);
    RunSnoc(cfg, moves + [a] + [b], c);
    moves := moves + [a] + [b] + [c];
  }

  /** A call of the surroundings without faults that proposes one append. */
  function SampleChoice(): Choice {
    var ops := [Domain.AppendFact("npc_mira", 1, "Mira lives here")];
    Choice(None, false, AppendOk, SampleId(0), 0, ops, "# Summary", "# Recap", Domain.ChangeSet("cs_other", Domain.ModelInference, None, ops))
  }

  function SampleId(n: nat): string {
    "le_" + seq(31, _ => '0') + ["0123456789"[n % 10]]
  }

  /**
   The processor keeps every readable ledger foldable, over all runs, if and only
   if the proposal store reads back what it created; for each attempt alike.
   */
  lemma {:induction false} LedgersFoldIffStoreIsFaithful(cfg: Config, attempt: string)
    ensures cfg.faithful <==> forall moves :: !Run(cfg, moves).torn ==> FoldOf(Run(cfg, moves).ledger, attempt).Ok?
    ensures cfg.faithful <==> forall moves, other :: !Run(cfg, moves).torn ==> FoldOf(Run(cfg, moves).ledger, other).Ok?
  {
    if cfg.faithful {
      forall moves, other | !Run(cfg, moves).torn
        ensures FoldOf(Run(cfg, moves).ledger, other).Ok?
      {
        EveryLedgerFolds(cfg, moves, other);
        FaithfulNeverFailsTwice(cfg, moves, other);
      }
    } else {
      var moves := UnfaithfulStoreBreaksTheFold(cfg, attempt, seq(64, _ => '0'), SampleChoice(), SampleId);
    }
  }
}
