/** The fold of the processing ledger to the state of one attempt. */
module AttemptState {
  import opened Wrappers

  datatype Slot = Summary | Recap | Workflow

  datatype Outcome = Produced | NoChanges

  datatype Phase = Extraction | Validation | Rendering | Persistence

  datatype FailureCategory =
    | ModelUnavailable | ModelTimeout | InvalidOutput | FingerprintMismatch
    | StorageFailure | ArtifactConflict | ProposalConflict | InternalError

  datatype Body =
    | Started(fingerprint: string)
    | ArtifactPersisted(slot: Slot, path: string, hash: string)
    | ProposalPersisted(changesetId: string, changesetFingerprint: string)
    | Completed(outcome: Outcome)
    | Failed(phase: Phase, category: FailureCategory)
    | Superseded

  datatype LedgerEvent = LedgerEvent(eventId: string, attemptId: string, sessionRef: string, realTime: int, body: Body)

  datatype ConflictReason =
    | EventBeforeStart | MultipleStarted | DuplicateArtifactSlot | MultipleProposalEvents
    | MultipleTerminal | EventAfterTerminal | SessionRefMismatch

  datatype State = NotStarted | HasStarted | HasCompleted | HasFailed | WasSuperseded

  /** The bounded view of one attempt. */
  datatype Fold = Fold(state: State, started: Option<LedgerEvent>, artifacts: map<Slot, LedgerEvent>,
                       proposal: Option<LedgerEvent>, terminal: Option<LedgerEvent>)

  predicate IsTerminal(body: Body) {
    body.Completed? || body.Failed? || body.Superseded?
  }

  /** The events of one attempt, in ledger order. */
  function Relevant(events: seq<LedgerEvent>, attemptId: string): seq<LedgerEvent> {
    if events == [] then []
    else
      var last := events[|events| - 1];
      Relevant(events[..|events| - 1], attemptId) + (if last.attemptId == attemptId then [last] else [])
  }

  datatype Progress = Progress(artifacts: map<Slot, LedgerEvent>, proposal: Option<LedgerEvent>, terminal: Option<LedgerEvent>)

  function Step(st: Progress, event: LedgerEvent, started: LedgerEvent, first: bool): Result<Progress, ConflictReason> {
    if !first && event.body.Started? then Err(MultipleStarted)
    else if event.sessionRef != started.sessionRef then Err(SessionRefMismatch)
    else if st.terminal.Some? && !IsTerminal(event.body) then Err(EventAfterTerminal)
    else if event.body.ArtifactPersisted? then
      if event.body.slot in st.artifacts then Err(DuplicateArtifactSlot)
      else Ok(st.(artifacts := st.artifacts[event.body.slot := event]))
    else if event.body.ProposalPersisted? then
      if st.proposal.Some? then Err(MultipleProposalEvents) else Ok(st.(proposal := Some(event)))
    else if IsTerminal(event.body) then
      if st.terminal.Some? then Err(MultipleTerminal) else Ok(st.(terminal := Some(event)))
    else Ok(st)
  }

  function ProgressUpTo(relevant: seq<LedgerEvent>, k: nat): Result<Progress, ConflictReason>
    requires k <= |relevant|
  {
    if k == 0 then Ok(Progress(map[], None, None))
    else
      match ProgressUpTo(relevant, k - 1)
      case Err(reason) => Err(reason)
      case Ok(st) => Step(st, relevant[k - 1], relevant[0], k == 1)
  }

  function StateOf(terminal: Option<LedgerEvent>): State {
    match terminal
    case None => HasStarted
    case Some(event) =>
      if event.body.Completed? then HasCompleted else if event.body.Failed? then HasFailed else WasSuperseded
  }

  function FoldRelevant(relevant: seq<LedgerEvent>): Result<Fold, ConflictReason> {
    if relevant == [] then Ok(Fold(NotStarted, None, map[], None, None))
    else if !relevant[0].body.Started? then Err(EventBeforeStart)
    else
      match ProgressUpTo(relevant, |relevant|)
      case Err(reason) => Err(reason)
      case Ok(st) => Ok(Fold(StateOf(st.terminal), Some(relevant[0]), st.artifacts, st.proposal, st.terminal))
  }

  function FoldOf(events: seq<LedgerEvent>, attemptId: string): Result<Fold, ConflictReason> {
    FoldRelevant(Relevant(events, attemptId))
  }

  lemma {:induction false} ProgressFails(relevant: seq<LedgerEvent>, k: nat, n: nat)
    requires k <= n <= |relevant| && ProgressUpTo(relevant, k).Err?
    ensures ProgressUpTo(relevant, n) == ProgressUpTo(relevant, k)
  {
    if k < n {
      ProgressFails(relevant, k, n - 1);
    }
  }

  method FoldAttemptState(events: seq<LedgerEvent>, attemptId: string) returns (r: Result<Fold, ConflictReason>)
    ensures r == FoldOf(events, attemptId)
  {
    var relevant: seq<LedgerEvent> := [];
    for k := 0 to |events|
      invariant relevant == Relevant(events[..k], attemptId)
    {
      assert events[..k + 1][..k] == events[..k];
      if events[k].attemptId == attemptId {
        relevant := relevant + [events[k]];
      }
    }
    assert events[..|events|] == events;
    if relevant == [] {
      return Ok(Fold(NotStarted, None, map[], None, None));
    }
    if !relevant[0].body.Started? {
      return Err(EventBeforeStart);
    }
    var st := Progress(map[], None, None);
    for k := 0 to |relevant|
      invariant ProgressUpTo(relevant, k) == Ok(st)
    {
      var next := Step(st, relevant[k], relevant[0], k == 0);
      if next.Err? {
        ProgressFails(relevant, k + 1, |relevant|);
        return Err(next.error);
      }
      st := next.value;
    }
    return Ok(Fold(StateOf(st.terminal), Some(relevant[0]), st.artifacts, st.proposal, st.terminal));
  }

  // What an accepted history looks like

  /** Neither event repeats the other: one start, one event per slot, one proposal; nothing follows a terminal event. */
  predicate Compatible(earlier: LedgerEvent, later: LedgerEvent) {
    && !later.body.Started?
    && earlier.sessionRef == later.sessionRef
    && !IsTerminal(earlier.body)
    && (earlier.body.ArtifactPersisted? && later.body.ArtifactPersisted? ==> earlier.body.slot != later.body.slot)
    && !(earlier.body.ProposalPersisted? && later.body.ProposalPersisted?)
  }

  /** The start comes first, and every two events are compatible in their order. */
  ghost predicate Orderly(relevant: seq<LedgerEvent>) {
    && (relevant != [] ==> relevant[0].body.Started?)
    && PairwiseCompatible(relevant, |relevant|)
  }

  ghost predicate PairwiseCompatible(relevant: seq<LedgerEvent>, k: nat)
    requires k <= |relevant|
  {
    forall i, j :: 0 <= i < j < k ==> Compatible(relevant[i], relevant[j])
  }

  /** What the fold has kept of the first `k` events. */
  ghost predicate Kept(relevant: seq<LedgerEvent>, k: nat, st: Progress)
    requires k <= |relevant|
  {
    && KeptSlots(relevant[..k], st.artifacts)
    && KeptProposal(relevant[..k], st.proposal)
    && KeptTerminal(relevant[..k], st.terminal)
  }

  ghost predicate KeptSlots(events: seq<LedgerEvent>, artifacts: map<Slot, LedgerEvent>) {
    && (forall event :: event in events && event.body.ArtifactPersisted? ==> event.body.slot in artifacts)
    && (forall slot :: slot in artifacts ==> artifacts[slot] in events && HasSlot(artifacts[slot], slot))
  }

  ghost predicate KeptProposal(events: seq<LedgerEvent>, proposal: Option<LedgerEvent>) {
    && (forall event :: event in events && event.body.ProposalPersisted? ==> proposal.Some?)
    && (proposal.Some? ==> proposal.value in events && proposal.value.body.ProposalPersisted?)
  }

  ghost predicate KeptTerminal(events: seq<LedgerEvent>, terminal: Option<LedgerEvent>) {
    && (forall event :: event in events && IsTerminal(event.body) ==> terminal.Some?)
    && (terminal.Some? ==> events != [] && events[|events| - 1] == terminal.value && IsTerminal(terminal.value.body))
  }

  predicate HasSlot(event: LedgerEvent, slot: Slot) {
    event.body.ArtifactPersisted? && event.body.slot == slot
  }

  lemma StepKeeps(before: seq<LedgerEvent>, st: Progress, event: LedgerEvent, started: LedgerEvent, first: bool)
    requires KeptSlots(before, st.artifacts) && KeptProposal(before, st.proposal) && KeptTerminal(before, st.terminal)
    requires Step(st, event, started, first).Ok?
    ensures var next := Step(st, event, started, first).value;
            && KeptSlots(before + [event], next.artifacts) && KeptProposal(before + [event], next.proposal)
            && KeptTerminal(before + [event], next.terminal)
  {
  }

  /** The event is compatible with every one before it. */
  ghost predicate FitsAll(before: seq<LedgerEvent>, event: LedgerEvent) {
    forall i :: 0 <= i < |before| ==> Compatible(before[i], event)
  }

  /** A step succeeds exactly when the event fits everything kept so far. */
  lemma StepIff(before: seq<LedgerEvent>, st: Progress, event: LedgerEvent)
    requires before != [] && before[0].body.Started? && forall e :: e in before ==> e.sessionRef == before[0].sessionRef
    requires KeptSlots(before, st.artifacts) && KeptProposal(before, st.proposal) && KeptTerminal(before, st.terminal)
    ensures Step(st, event, before[0], false).Ok? <==> FitsAll(before, event)
  {
    var next := Step(st, event, before[0], false);
    if next.Ok? {
      forall i | 0 <= i < |before|
        ensures Compatible(before[i], event)
      {
        assert before[i] in before;
      }
    }
    if FitsAll(before, event) {
      assert forall e :: e in before ==> Compatible(e, event);
    }
  }

  /** Compatibility of the first `k` events, in terms of the last of them. */
  lemma PairwiseSnoc(relevant: seq<LedgerEvent>, k: nat)
    requires 0 < k <= |relevant|
    ensures PairwiseCompatible(relevant, k) <==> PairwiseCompatible(relevant, k - 1) && FitsAll(relevant[..k - 1], relevant[k - 1])
  {
    if FitsAll(relevant[..k - 1], relevant[k - 1]) {
      forall i | 0 <= i < k - 1
        ensures Compatible(relevant[i], relevant[k - 1])
      {
        assert relevant[..k - 1][i] == relevant[i];
      }
    }
  }

  lemma OneSessionRef(relevant: seq<LedgerEvent>, k: nat)
    requires 0 < k <= |relevant| && PairwiseCompatible(relevant, k)
    ensures forall e :: e in relevant[..k] ==> e.sessionRef == relevant[0].sessionRef
  {
    forall e | e in relevant[..k]
      ensures e.sessionRef == relevant[0].sessionRef
    {
      var i :| 0 <= i < k && relevant[i] == e;
      assert i > 0 ==> Compatible(relevant[0], relevant[i]);
    }
  }

  lemma KeptOneMore(relevant: seq<LedgerEvent>, k: nat, st: Progress)
    requires 0 < k <= |relevant| && relevant[0].body.Started?
    requires Kept(relevant, k - 1, st) && PairwiseCompatible(relevant, k - 1)
    ensures var next := Step(st, relevant[k - 1], relevant[0], k == 1);
            && (next.Ok? <==> PairwiseCompatible(relevant, k))
            && (next.Ok? ==> Kept(relevant, k, next.value))
  {
    var before, event := relevant[..k - 1], relevant[k - 1];
    assert relevant[..k] == before + [event];
    PairwiseSnoc(relevant, k);
    if k > 1 {
      OneSessionRef(relevant, k - 1);
      StepIff(before, st, event);
    }
    if Step(st, event, relevant[0], k == 1).Ok? {
      StepKeeps(before, st, event, relevant[0], k == 1);
    }
  }

  lemma {:induction false} ProgressIff(relevant: seq<LedgerEvent>, k: nat)
    requires k <= |relevant| && (relevant != [] ==> relevant[0].body.Started?)
    ensures ProgressUpTo(relevant, k).Ok? <==> PairwiseCompatible(relevant, k)
    ensures ProgressUpTo(relevant, k).Ok? ==> Kept(relevant, k, ProgressUpTo(relevant, k).value)
  {
    if k > 0 {
      ProgressIff(relevant, k - 1);
      var before := ProgressUpTo(relevant, k - 1);
      if before.Ok? {
        KeptOneMore(relevant, k, before.value);
      }
    }
  }

  /**
   The fold accepts exactly the orderly histories: one start, first; at most one
   event per artifact slot; at most one proposal; at most one terminal event and
   nothing after it; one session throughout.
   */
  lemma FoldIff(relevant: seq<LedgerEvent>)
    ensures FoldRelevant(relevant).Ok? <==> Orderly(relevant)
    ensures FoldRelevant(relevant).Ok? && relevant != [] ==>
              var fold := FoldRelevant(relevant).value;
              && fold.started == Some(relevant[0])
              && KeptSlots(relevant, fold.artifacts) && KeptProposal(relevant, fold.proposal) && KeptTerminal(relevant, fold.terminal)
              && fold.state == StateOf(fold.terminal)
  {
    if relevant != [] && relevant[0].body.Started? {
      ProgressIff(relevant, |relevant|);
      assert relevant[..|relevant|] == relevant;
    }
  }

  lemma {:induction false} RelevantConcat(a: seq<LedgerEvent>, b: seq<LedgerEvent>, attemptId: string)
    ensures Relevant(a + b, attemptId) == Relevant(a, attemptId) + Relevant(b, attemptId)
  {
    if b == [] {
      assert a + b == a;
    } else {
      assert (a + b)[..|a + b| - 1] == a + b[..|b| - 1];
      RelevantConcat(a, b[..|b| - 1], attemptId);
    }
  }

  /** Events of other attempts never change the fold. */
  lemma OthersDoNotMatter(a: seq<LedgerEvent>, other: LedgerEvent, b: seq<LedgerEvent>, attemptId: string)
    requires other.attemptId != attemptId
    ensures FoldOf(a + [other] + b, attemptId) == FoldOf(a + b, attemptId)
  {
    RelevantConcat(a, b, attemptId);
    RelevantConcat(a, [other], attemptId);
    RelevantConcat(a + [other], b, attemptId);
    assert [other][..0] == [] && Relevant([other], attemptId) == [];
    assert Relevant(a, attemptId) + [] == Relevant(a, attemptId);
  }

  /** One more event of the attempt keeps an accepted history accepted exactly when it fits all the earlier ones. */
  lemma {:induction false} FoldAppend(events: seq<LedgerEvent>, event: LedgerEvent)
    requires FoldOf(events, event.attemptId).Ok?
    ensures FoldOf(events + [event], event.attemptId).Ok? <==>
            var relevant := Relevant(events, event.attemptId);
            if relevant == [] then event.body.Started?
            else forall i :: 0 <= i < |relevant| ==> Compatible(relevant[i], event)
  {
    var relevant := Relevant(events, event.attemptId);
    FoldIff(relevant);
    FoldIff(relevant + [event]);
    RelevantConcat(events, [event], event.attemptId);
    assert [event][..0] == [];
    assert Relevant(events + [event], event.attemptId) == relevant + [event];
    OrderlySnoc(relevant, event);
  }

  lemma OrderlySnoc(relevant: seq<LedgerEvent>, event: LedgerEvent)
    requires Orderly(relevant)
    ensures Orderly(relevant + [event]) <==>
            if relevant == [] then event.body.Started? else forall i :: 0 <= i < |relevant| ==> Compatible(relevant[i], event)
  {
    var after := relevant + [event];
    PairwiseSnoc(after, |after|);
    assert after[..|relevant|] == relevant;
  }
}
