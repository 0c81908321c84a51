/** Which status each step of a processing attempt reports, and when. */
module ProcessorReports {
  import opened Wrappers
  import opened AttemptState
  import opened Processor

  predicate Recorded(torn: bool, choice: Choice) {
    !torn && choice.fate == AppendOk
  }

  /** The ledger reads as an attempt that is started, by the event with this id. */
  predicate ReadsAsStartedBy(history: seq<LedgerEvent>, eventId: string) {
    match FoldRelevant(history)
    case Ok(fold) => fold.state == HasStarted && fold.started.Some? && fold.started.value.eventId == eventId
    case Err(_) => false
  }

  /** The read after the completion record went through. */
  predicate ReloadSucceeds(torn: bool, history: seq<LedgerEvent>, choice: Choice) {
    choice.fault == None && !torn && FoldRelevant(history).Ok?
  }

  /** The completion record, appended with an error, is found as it was meant when the ledger is read again. */
  predicate LandedAnyway(torn: bool, choice: Choice) {
    choice.fault == None && !torn && choice.fate == AppendRaises(Whole)
  }

  /** At this point of the work, with this choice, the invocation ends with this status. */
  predicate Reports(torn: bool, history: seq<LedgerEvent>, data: Data, pc: Pc, choice: Choice, status: Status) {
    match status
    case StatusCompleted => pc.Reloading? && ReloadSucceeds(torn, history, choice)
    case StatusFailed =>
      || (pc.Claiming? && choice.fault.Some?)
      || ((pc.Failing? || pc.FailingInTry?) && Recorded(torn, choice))
      || (pc.Completing? && !Recorded(torn, choice) && !LandedAnyway(torn, choice))
    case Interrupted =>
      || (pc.Claiming? && choice.fault == None && data.owner.Some?)
      || (pc.Starting? && !Recorded(torn, choice))
      || (pc.Confirming? && (choice.fault.Some? || torn || !ReadsAsStartedBy(history, pc.startedId)))
      || (pc.Reloading? && !ReloadSucceeds(torn, history, choice))
    case Crashed => pc.Failing? && !Recorded(torn, choice)
    case AlreadyTerminal => false
  }

  lemma AppendIs(torn: bool, event: LedgerEvent, fate: AppendFate)
    ensures var a := Append(torn, event, fate);
            && (a.ok <==> !torn && fate == AppendOk)
            && (a.added == [event] <==> !torn && (fate == AppendOk || fate == AppendRaises(Whole)))
            && (a.torn <==> torn || fate == AppendRaises(Part))
  {
  }

  lemma ClaimReports(cfg: Config, pid: nat, torn: bool, history: seq<LedgerEvent>, data: Data, inv: Invocation, choice: Choice, status: Status)
    requires inv.pc.Claiming? || inv.pc.Starting? || inv.pc.Confirming?
    ensures LocalStep(cfg, pid, torn, history, data, inv, choice).pc == Finished(status) <==> Reports(torn, history, data, inv.pc, choice, status)
  {
  }

  lemma ModelsReportNothing(cfg: Config, pid: nat, torn: bool, history: seq<LedgerEvent>, data: Data, inv: Invocation, choice: Choice, status: Status)
    requires inv.pc.Extracting? || inv.pc.Producing? || inv.pc == Pc.Rendering
    ensures LocalStep(cfg, pid, torn, history, data, inv, choice).pc == Finished(status) <==> Reports(torn, history, data, inv.pc, choice, status)
  {
  }

  lemma StoresReportNothing(cfg: Config, pid: nat, torn: bool, history: seq<LedgerEvent>, data: Data, inv: Invocation, choice: Choice, status: Status)
    requires inv.pc.Persisting? || inv.pc.Announcing? || inv.pc.Proposing? || inv.pc.AnnouncingProposal?
    ensures LocalStep(cfg, pid, torn, history, data, inv, choice).pc == Finished(status) <==> Reports(torn, history, data, inv.pc, choice, status)
  {
  }

  lemma FailuresReport(cfg: Config, pid: nat, torn: bool, history: seq<LedgerEvent>, data: Data, inv: Invocation, choice: Choice, status: Status)
    requires inv.pc.FailingInTry? || inv.pc.Failing?
    ensures LocalStep(cfg, pid, torn, history, data, inv, choice).pc == Finished(status) <==> Reports(torn, history, data, inv.pc, choice, status)
  {
  }

  lemma EndReports(cfg: Config, pid: nat, torn: bool, history: seq<LedgerEvent>, data: Data, inv: Invocation, choice: Choice, status: Status)
    requires inv.pc.Completing? || inv.pc.Reloading?
    ensures LocalStep(cfg, pid, torn, history, data, inv, choice).pc == Finished(status) <==> Reports(torn, history, data, inv.pc, choice, status)
  {
    AppendIs(torn, EventOf(cfg, inv, choice, Completed(if inv.plan.Some? then Produced else NoChanges)), choice.fate);
  }

  /** Past its first read, an invocation ends with a status exactly when that status is due. */
  lemma ReportIff(cfg: Config, pid: nat, torn: bool, history: seq<LedgerEvent>, data: Data, inv: Invocation, choice: Choice, status: Status)
    requires !inv.pc.Reading? && !inv.pc.Finished?
    ensures LocalStep(cfg, pid, torn, history, data, inv, choice).pc == Finished(status) <==> Reports(torn, history, data, inv.pc, choice, status)
  {
    if inv.pc.Claiming? || inv.pc.Starting? || inv.pc.Confirming? {
      ClaimReports(cfg, pid, torn, history, data, inv, choice, status);
    } else if inv.pc.Extracting? || inv.pc.Producing? || inv.pc == Pc.Rendering {
      ModelsReportNothing(cfg, pid, torn, history, data, inv, choice, status);
    } else if inv.pc.FailingInTry? || inv.pc.Failing? {
      FailuresReport(cfg, pid, torn, history, data, inv, choice, status);
    } else if inv.pc.Completing? || inv.pc.Reloading? {
      EndReports(cfg, pid, torn, history, data, inv, choice, status);
    } else {
      StoresReportNothing(cfg, pid, torn, history, data, inv, choice, status);
    }
  }
}
