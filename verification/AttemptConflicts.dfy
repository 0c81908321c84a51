/** The state an accepted history folds to, and the conflict a refused one is refused for. */
module AttemptConflicts {
  import opened Wrappers
  import opened AttemptState

  /** A terminal event is among the first `k`. */
  ghost predicate TerminalBefore(history: seq<LedgerEvent>, k: nat)
    requires k <= |history|
  {
    exists i :: 0 <= i < k && IsTerminal(history[i].body)
  }

  ghost predicate SlotBefore(history: seq<LedgerEvent>, k: nat, slot: Slot)
    requires k <= |history|
  {
    exists i :: 0 <= i < k && HasSlot(history[i], slot)
  }

  ghost predicate ProposalBefore(history: seq<LedgerEvent>, k: nat)
    requires k <= |history|
  {
    exists i :: 0 <= i < k && history[i].body.ProposalPersisted?
  }

  /** What is wrong with event `k` after orderly ones, by the first check it fails. */
  ghost predicate ConflictsFor(history: seq<LedgerEvent>, k: nat, reason: ConflictReason)
    requires k < |history|
  {
    var event := history[k];
    if k > 0 && event.body.Started? then reason == MultipleStarted
    else if event.sessionRef != history[0].sessionRef then reason == SessionRefMismatch
    else if TerminalBefore(history, k) then reason == if IsTerminal(event.body) then MultipleTerminal else EventAfterTerminal
    else if event.body.ArtifactPersisted? then
      SlotBefore(history, k, event.body.slot) && reason == DuplicateArtifactSlot
    else event.body.ProposalPersisted? && ProposalBefore(history, k) && reason == MultipleProposalEvents
  }

  /** The fold is refused for the first event that does not fit the ones before it. */
  ghost predicate RefusedFor(history: seq<LedgerEvent>, reason: ConflictReason) {
    history != [] &&
    if !history[0].body.Started? then reason == EventBeforeStart
    else FailsBefore(history, |history|, reason)
  }

  lemma KeptAre(history: seq<LedgerEvent>, k: nat, st: Progress)
    requires k <= |history| && Kept(history, k, st)
    ensures st.terminal.Some? <==> TerminalBefore(history, k)
    ensures st.proposal.Some? <==> ProposalBefore(history, k)
    ensures forall slot :: slot in st.artifacts <==> SlotBefore(history, k, slot)
  {
    var front := history[..k];
    assert forall i :: 0 <= i < k ==> front[i] == history[i] && front[i] in front;
    if st.terminal.Some? {
      assert front[|front| - 1] == history[k - 1];
    }
    if st.proposal.Some? {
      var i :| 0 <= i < |front| && front[i] == st.proposal.value;
      assert history[i].body.ProposalPersisted?;
    }
    forall slot
      ensures slot in st.artifacts <==> SlotBefore(history, k, slot)
    {
      if slot in st.artifacts {
        var i :| 0 <= i < |front| && front[i] == st.artifacts[slot];
        assert HasSlot(history[i], slot);
      }
      if SlotBefore(history, k, slot) {
        var i :| 0 <= i < k && HasSlot(history[i], slot);
        assert HasSlot(front[i], slot);
      }
    }
  }

  lemma StepFailsFor(history: seq<LedgerEvent>, k: nat, st: Progress)
    requires k < |history| && Kept(history, k, st)
    ensures var r := Step(st, history[k], history[0], k == 0);
            forall reason :: r == Err(reason) <==> ConflictsFor(history, k, reason)
  {
    KeptAre(history, k, st);
  }

  /** An event before `k` is the first that does not fit, and this is the reason. */
  ghost predicate FailsBefore(history: seq<LedgerEvent>, k: nat, reason: ConflictReason)
    requires k <= |history|
  {
    exists i: nat :: i < k && PairwiseCompatible(history, i) && ConflictsFor(history, i, reason)
  }

  lemma NextFails(history: seq<LedgerEvent>, k: nat)
    requires k < |history| && history[0].body.Started? && ProgressUpTo(history, k).Ok? && ProgressUpTo(history, k + 1).Err?
    ensures FailsBefore(history, k + 1, ProgressUpTo(history, k + 1).error)
  {
    ProgressIff(history, k);
    StepFailsFor(history, k, ProgressUpTo(history, k).value);
  }

  lemma {:induction false} ProgressFailsFor(history: seq<LedgerEvent>, k: nat)
    requires k <= |history| && history != [] && history[0].body.Started?
    ensures ProgressUpTo(history, k).Err? ==> FailsBefore(history, k, ProgressUpTo(history, k).error)
  {
    if k > 0 {
      if ProgressUpTo(history, k - 1).Err? {
        ProgressFailsFor(history, k - 1);
      } else if ProgressUpTo(history, k).Err? {
        NextFails(history, k - 1);
      }
    }
  }

  lemma {:induction false} FirstConflictFails(history: seq<LedgerEvent>, k: nat, reason: ConflictReason)
    requires history != [] && history[0].body.Started? && k < |history| && PairwiseCompatible(history, k) && ConflictsFor(history, k, reason)
    ensures ProgressUpTo(history, |history|) == Err(reason)
  {
    ProgressIff(history, k);
    StepFailsFor(history, k, ProgressUpTo(history, k).value);
    ProgressFails(history, k + 1, |history|);
  }

  /** The reason of a refusal, both ways. */
  lemma ConflictIff(history: seq<LedgerEvent>)
    ensures forall reason :: FoldRelevant(history) == Err(reason) <==> RefusedFor(history, reason)
  {
    if history != [] && history[0].body.Started? {
      ProgressFailsFor(history, |history|);
      forall reason | RefusedFor(history, reason)
        ensures FoldRelevant(history) == Err(reason)
      {
        var k: nat :| k < |history| && PairwiseCompatible(history, k) && ConflictsFor(history, k, reason);
        FirstConflictFails(history, k, reason);
      }
    }
  }

  lemma TerminalIsLast(history: seq<LedgerEvent>, i: nat)
    requires Orderly(history) && i < |history| && IsTerminal(history[i].body)
    ensures i == |history| - 1
  {
    assert i < |history| - 1 ==> Compatible(history[i], history[|history| - 1]);
  }

  /** The state of an accepted history: not started without events, otherwise as its terminal event says, if it has one. */
  lemma StateIs(history: seq<LedgerEvent>)
    requires FoldRelevant(history).Ok?
    ensures var state := FoldRelevant(history).value.state;
            && (state == NotStarted <==> history == [])
            && (state == HasCompleted <==> exists e :: e in history && e.body.Completed?)
            && (state == HasFailed <==> exists e :: e in history && e.body.Failed?)
            && (state == WasSuperseded <==> exists e :: e in history && e.body.Superseded?)
            && (state == HasStarted <==> history != [] && forall e :: e in history ==> !IsTerminal(e.body))
  {
    FoldIff(history);
    if history != [] {
      var fold := FoldRelevant(history).value;
      forall e | e in history && IsTerminal(e.body)
        ensures fold.terminal == Some(e)
      {
        var i :| 0 <= i < |history| && history[i] == e;
        TerminalIsLast(history, i);
      }
    }
  }
}
