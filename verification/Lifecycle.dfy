/** Whole runs of gate, apply and record for any number of ChangeSets, with crashes, faults, other writers and repairs anywhere. */
module Lifecycle {
  import opened Wrappers
  import opened Domain
  import opened Repository
  import opened Apply
  import opened Status
  import OperationIds
  import Preflight

  /** Everything durable: the Vault and the attempt files. */
  datatype Durable = Durable(vault: Vault, files: map<string, AttemptFile>)

  /** The immutable proposals, each stored under its own id. */
  ghost predicate ProposalStore(proposals: map<string, ChangeSet>) {
    forall id :: id in proposals ==> id != "" && proposals[id].id == id
  }

  /** The attempt append after a returned result; a crash may come first. */
  datatype Recording = CrashedFirst | Appending(fate: AppendFate)

  datatype Step =
    | Cycle(id: string, approval: Approval, context: ApplyContext, script: seq<Disturbance>, recording: Recording)
    | Others(entities: map<string, Document>, records: seq<AuditRecord>, tear: bool, writes: seq<string>)
    | RepairAudit
    | RepairAttempts(id: string)

  /** One `apply` invocation: load, gate, apply, record. */
  function CycleStep(changeset: ChangeSet, s: Durable, approval: Approval, context: ApplyContext,
                     script: seq<Disturbance>, recording: Recording): Durable
  {
    if Closed(changeset, s) then s else OpenStep(changeset, s, approval, context, script, recording)
  }

  /** A damaged file, an unreadable log or the gate keeps the apply from starting. */
  predicate Closed(changeset: ChangeSet, s: Durable) {
    var file := FileOf(s.files, changeset.id);
    file.damaged || s.vault.torn || Gate(changeset, file.records, s.vault.audit).Some?
  }

  function OpenStep(changeset: ChangeSet, s: Durable, approval: Approval, context: ApplyContext,
                    script: seq<Disturbance>, recording: Recording): Durable
  {
    var (v', ending) := ApplyAll(s.vault, changeset, approval, context, script);
    var s' := s.(vault := v');
    if !ending.Returned? || recording.CrashedFirst? then s'
    else s'.(files := Record(s.files, changeset, ending.result, context.source, context.realTime, recording.fate).0)
  }

  function Next(proposals: map<string, ChangeSet>, s: Durable, step: Step): Durable {
    match step
    case Cycle(id, approval, context, script, recording) =>
      if id !in proposals then s else CycleStep(proposals[id], s, approval, context, script, recording)
    case Others(entities, records, tear, writes) =>
      s.(vault := s.vault.(entities := entities, audit := s.vault.audit + records,
                           torn := s.vault.torn || tear, writes := s.vault.writes + writes))
    case RepairAudit => s.(vault := s.vault.(torn := false))
    case RepairAttempts(id) => s.(files := s.files[id := FileOf(s.files, id).(damaged := false)])
  }

  /** Other writers change entities as they like but use no operation id of a ChangeSet. */
  predicate Foreign(proposals: map<string, ChangeSet>, operationId: string) {
    var parsed := OperationIds.Parse(operationId);
    parsed.None? || parsed.value.changesetId !in proposals
  }

  ghost predicate Allowed(proposals: map<string, ChangeSet>, step: Step) {
    step.Others? ==>
      && (forall k :: 0 <= k < |step.records| ==> Foreign(proposals, step.records[k].operationId))
      && (forall k :: 0 <= k < |step.writes| ==> Foreign(proposals, step.writes[k]))
  }

  function Run(proposals: map<string, ChangeSet>, s: Durable, steps: seq<Step>): Durable {
    if steps == [] then s
    else Next(proposals, Run(proposals, s, steps[..|steps| - 1]), steps[|steps| - 1])
  }

  /** The operation indices of one ChangeSet among the entity writes, in the order written. */
  function Indices(id: string, writes: seq<string>): seq<int> {
    if writes == [] then []
    else
      var parsed := OperationIds.Parse(writes[|writes| - 1]);
      Indices(id, writes[..|writes| - 1])
      + (if parsed.Some? && parsed.value.changesetId == id then [parsed.value.index] else [])
  }

  predicate Retryable(attempt: Attempt) {
    attempt.outcome.NoneApplied? && attempt.commitState == Some(NotWritten)
  }

  /** Any number of failures with nothing written, then at most one other record. */
  predicate HistoryShape(attempts: seq<Attempt>, changeset: ChangeSet) {
    && (forall k :: 0 <= k < |attempts| ==> ValidateSingle(attempts[k], changeset) == None)
    && (forall k :: 0 <= k < |attempts| - 1 ==> Retryable(attempts[k]))
  }

  function ResultOf(attempt: Attempt): ApplyResult {
    ApplyResult(attempt.changesetId, attempt.outcome, attempt.applied, attempt.remaining, attempt.failure, attempt.commitState)
  }

  /**
   What holds of one ChangeSet in every reachable state: its writes are the
   operations 0, 1, ..., each once; every written operation left a record; the
   phases never contradict each other; the history has its shape; and a final
   record that bars a retry tells the truth about the log and the writes.
   */
  ghost predicate SafeFor(changeset: ChangeSet, s: Durable) {
    var records := FileOf(s.files, changeset.id).records;
    && SafeLog(changeset, s.vault)
    && HistoryShape(records, changeset)
    && (records != [] && !Retryable(records[|records| - 1]) ==>
          TrueOf(changeset, s.vault, ResultOf(records[|records| - 1])))
  }

  ghost predicate SafeLog(changeset: ChangeSet, v: Vault) {
    var indices := Indices(changeset.id, v.writes);
    && |indices| <= |changeset.operations| && indices == Range(0, |indices|)
    && TidyRecords(changeset, v.audit, 0, |indices|)
  }

  ghost predicate TrueOf(changeset: ChangeSet, v: Vault, result: ApplyResult) {
    Truthful(changeset, v.audit, 0, |Indices(changeset.id, v.writes)|, result)
  }

  ghost predicate Safe(proposals: map<string, ChangeSet>, s: Durable) {
    forall id :: id in proposals ==> SafeFor(proposals[id], s)
  }

  /** Nothing of any ChangeSet has happened yet. */
  ghost predicate Fresh(proposals: map<string, ChangeSet>, s: Durable) {
    && (forall k :: 0 <= k < |s.vault.audit| ==> Foreign(proposals, s.vault.audit[k].operationId))
    && (forall k :: 0 <= k < |s.vault.writes| ==> Foreign(proposals, s.vault.writes[k]))
    && (forall id :: id in proposals ==> FileOf(s.files, id).records == [])
  }

  lemma {:induction false} IndicesConcat(id: string, a: seq<string>, b: seq<string>)
    ensures Indices(id, a + b) == Indices(id, a) + Indices(id, b)
  {
    if b == [] {
      assert a + b == a;
    } else {
      assert (a + b)[..|a + b| - 1] == a + b[..|b| - 1];
      IndicesConcat(id, a, b[..|b| - 1]);
    }
  }

  lemma {:induction false} IndicesNone(id: string, writes: seq<string>)
    requires forall k :: 0 <= k < |writes| ==>
               var parsed := OperationIds.Parse(writes[k]);
               parsed.None? || parsed.value.changesetId != id
    ensures Indices(id, writes) == []
  {
    if writes != [] {
      IndicesNone(id, writes[..|writes| - 1]);
    }
  }

  lemma {:induction false} IndicesOfOwn(changeset: ChangeSet, id: string, k: nat)
    requires changeset.id != ""
    ensures Indices(id, OwnIds(changeset, 0, k)) == if id == changeset.id then Range(0, k) else []
  {
    if k > 0 {
      IndicesOfOwn(changeset, id, k - 1);
      OperationIds.ParseFormat(changeset.id, k - 1);
      var ids := OwnIds(changeset, 0, k);
      assert ids[..|ids| - 1] == OwnIds(changeset, 0, k - 1);
    }
  }

  /** Records that do not name the ChangeSet add no phases to it. */
  lemma SilentRecords(changeset: ChangeSet, records: seq<AuditRecord>)
    requires changeset.id != ""
    requires forall k :: 0 <= k < |records| ==>
               var parsed := OperationIds.Parse(records[k].operationId);
               parsed.None? || parsed.value.changesetId != changeset.id
    ensures forall j: nat :: PhasesAt(changeset, records, j) == []
  {
    forall j: nat
      ensures PhasesAt(changeset, records, j) == []
    {
      OperationIds.ParseFormat(changeset.id, j);
      PhasesOfNone(records, OperationId(changeset, j));
    }
  }

  lemma {:induction false} SameLog(changeset: ChangeSet, v: Vault, v': Vault, records: seq<AuditRecord>, writes: seq<string>)
    requires SafeLog(changeset, v)
    requires v'.audit == v.audit + records && v'.writes == v.writes + writes
    requires Indices(changeset.id, writes) == [] && forall j: nat :: PhasesAt(changeset, records, j) == []
    ensures SafeLog(changeset, v') && Indices(changeset.id, v'.writes) == Indices(changeset.id, v.writes)
    ensures forall j: nat :: PhasesAt(changeset, v'.audit, j) == PhasesAt(changeset, v.audit, j)
  {
    IndicesConcat(changeset.id, v.writes, writes);
    PhasesAtConcat(changeset, v.audit, records);
    assert forall j: nat :: PhasesAt(changeset, v.audit, j) + [] == PhasesAt(changeset, v.audit, j);
  }

  lemma SameTruth(changeset: ChangeSet, v: Vault, v': Vault, result: ApplyResult)
    requires TrueOf(changeset, v, result) && Indices(changeset.id, v'.writes) == Indices(changeset.id, v.writes)
    requires forall j: nat :: PhasesAt(changeset, v'.audit, j) == PhasesAt(changeset, v.audit, j)
    ensures TrueOf(changeset, v', result)
  {
  }

  /** A step that adds nothing of the ChangeSet keeps it safe. */
  lemma {:induction false} Unaffected(changeset: ChangeSet, s: Durable, s': Durable, records: seq<AuditRecord>, writes: seq<string>)
    requires SafeFor(changeset, s)
    requires s'.vault.audit == s.vault.audit + records && s'.vault.writes == s.vault.writes + writes
    requires FileOf(s'.files, changeset.id).records == FileOf(s.files, changeset.id).records
    requires Indices(changeset.id, writes) == []
    requires forall j: nat :: PhasesAt(changeset, records, j) == []
    ensures SafeFor(changeset, s')
  {
    SameLog(changeset, s.vault, s'.vault, records, writes);
    var attempts := FileOf(s.files, changeset.id).records;
    if attempts != [] && !Retryable(attempts[|attempts| - 1]) {
      SameTruth(changeset, s.vault, s'.vault, ResultOf(attempts[|attempts| - 1]));
    }
  }

  /** An open gate means that nothing of the ChangeSet has been written or announced. */
  lemma OpenGateMeansUntouched(changeset: ChangeSet, s: Durable)
    requires SafeFor(changeset, s)
    requires Gate(changeset, FileOf(s.files, changeset.id).records, s.vault.audit).None?
    ensures Indices(changeset.id, s.vault.writes) == []
    ensures forall j: nat :: j < |changeset.operations| ==> PhasesAt(changeset, s.vault.audit, j) == []
    ensures RetryableHistory(FileOf(s.files, changeset.id).records, changeset)
  {
    GateIff(changeset, FileOf(s.files, changeset.id).records, s.vault.audit);
    forall j: nat | j < |changeset.operations|
      ensures PhasesAt(changeset, s.vault.audit, j) == []
    {
      PhasesOfNone(s.vault.audit, OperationId(changeset, j));
    }
    var first: nat := 0;
    assert Indices(changeset.id, s.vault.writes) != [] ==> PhasesAt(changeset, s.vault.audit, first) != [];
  }

  /** The log and the writes after an apply that started from an untouched ChangeSet. */
  lemma AfterApply(changeset: ChangeSet, v: Vault, v': Vault, ending: ApplyEnding)
    requires changeset.id != "" && RunLeaves(changeset, v, v', 0, ending)
    requires Indices(changeset.id, v.writes) == [] && TidyRecords(changeset, v.audit, 0, 0)
    requires forall j: nat :: j < |changeset.operations| ==> PhasesAt(changeset, v.audit, j) == []
    ensures SafeLog(changeset, v')
    ensures ending.Returned? ==> TrueOf(changeset, v', ending.result)
  {
    var k := |v'.writes| - |v.writes|;
    var records := Suffix(v'.audit, v.audit);
    assert v'.audit == v.audit + records;
    WritesAfter(changeset, v.writes, v'.writes, k);
    PhasesAfter(changeset, v.audit, records);
    LeavesInLog(changeset, v.audit, v'.audit, records, k, ending);
  }

  lemma {:induction false} WritesAfter(changeset: ChangeSet, before: seq<string>, after: seq<string>, k: nat)
    requires changeset.id != "" && Indices(changeset.id, before) == []
    requires before <= after && Suffix(after, before) == OwnIds(changeset, 0, k)
    ensures Indices(changeset.id, after) == Range(0, k)
  {
    assert after == before + OwnIds(changeset, 0, k);
    IndicesConcat(changeset.id, before, OwnIds(changeset, 0, k));
    IndicesOfOwn(changeset, changeset.id, k);
  }

  lemma PhasesAfter(changeset: ChangeSet, before: seq<AuditRecord>, records: seq<AuditRecord>)
    requires OnlyFrom(changeset, records, 0)
    requires forall j: nat :: j < |changeset.operations| ==> PhasesAt(changeset, before, j) == []
    ensures forall j: nat ::
              PhasesAt(changeset, before + records, j)
              == if j < |changeset.operations| then PhasesAt(changeset, records, j) else PhasesAt(changeset, before, j)
  {
    PhasesAtConcat(changeset, before, records);
    forall j: nat | j >= |changeset.operations|
      ensures PhasesAt(changeset, records, j) == []
    {
      NothingBeyond(changeset, records, j);
    }
  }

  lemma LeavesInLog(changeset: ChangeSet, before: seq<AuditRecord>, after: seq<AuditRecord>, records: seq<AuditRecord>, k: nat, ending: ApplyEnding)
    requires k <= |changeset.operations| && Leaves(changeset, records, 0, k, ending) && TidyRecords(changeset, before, 0, 0)
    requires forall j: nat ::
               PhasesAt(changeset, after, j)
               == if j < |changeset.operations| then PhasesAt(changeset, records, j) else PhasesAt(changeset, before, j)
    ensures TidyRecords(changeset, after, 0, k)
    ensures ending.Returned? ==> Truthful(changeset, after, 0, k, ending.result)
  {
  }

  lemma NothingBeyond(changeset: ChangeSet, records: seq<AuditRecord>, j: nat)
    requires OnlyFrom(changeset, records, 0) && j >= |changeset.operations|
    ensures PhasesAt(changeset, records, j) == []
  {
    if IdUsed(records, OperationId(changeset, j)) {
      var r :| 0 <= r < |records| && records[r].operationId == OperationId(changeset, j);
      assert Own(changeset, 0, records[r].operationId);
      var m: nat :| m < |changeset.operations| && records[r].operationId == OperationId(changeset, m);
      OperationIds.FormatInjective(changeset.id, m, changeset.id, j);
    }
    PhasesOfNone(records, OperationId(changeset, j));
  }

  lemma OwnCycle(changeset: ChangeSet, s: Durable, approval: Approval, context: ApplyContext,
                 script: seq<Disturbance>, recording: Recording)
    requires changeset.id != "" && SafeFor(changeset, s)
    ensures SafeFor(changeset, CycleStep(changeset, s, approval, context, script, recording))
  {
    if !Closed(changeset, s) {
      OpenCycle(changeset, s, approval, context, script, recording);
    }
  }

  lemma OpenCycle(changeset: ChangeSet, s: Durable, approval: Approval, context: ApplyContext,
                  script: seq<Disturbance>, recording: Recording)
    requires changeset.id != "" && SafeFor(changeset, s) && !Closed(changeset, s)
    ensures SafeFor(changeset, OpenStep(changeset, s, approval, context, script, recording))
  {
    GatedApply(changeset, s, approval, context, script);
    GateIff(changeset, FileOf(s.files, changeset.id).records, s.vault.audit);
    var (v', ending) := ApplyAll(s.vault, changeset, approval, context, script);
    if ending.Returned? && recording.Appending? {
      RecordKeepsSafe(changeset, s.files, v', ending.result, context, recording.fate);
    } else {
      NoRecordKeepsSafe(changeset, s, v');
    }
  }

  lemma NoRecordKeepsSafe(changeset: ChangeSet, s: Durable, v': Vault)
    requires RetryableHistory(FileOf(s.files, changeset.id).records, changeset)
    requires HistoryShape(FileOf(s.files, changeset.id).records, changeset) && SafeLog(changeset, v')
    ensures SafeFor(changeset, s.(vault := v'))
  {
  }

  lemma GatedApply(changeset: ChangeSet, s: Durable, approval: Approval, context: ApplyContext, script: seq<Disturbance>)
    requires changeset.id != "" && SafeFor(changeset, s)
    requires Gate(changeset, FileOf(s.files, changeset.id).records, s.vault.audit).None?
    ensures var (v', ending) := ApplyAll(s.vault, changeset, approval, context, script);
            && SafeLog(changeset, v')
            && (ending.Returned? ==>
                  && TrueOf(changeset, v', ending.result)
                  && ending.result.changesetId == changeset.id
                  && ValidateSingle(AttemptOf(changeset, ending.result, context.source, context.realTime), changeset) == None)
  {
    OpenGateMeansUntouched(changeset, s);
    ApplyIsTruthful(s.vault, changeset, approval, context, script);
    var (v', ending) := ApplyAll(s.vault, changeset, approval, context, script);
    AfterApply(changeset, s.vault, v', ending);
    ReturnedShapes(s.vault, changeset, context, script, 0);
    ResultsAreRecordable(s.vault, changeset, approval, context, script);
  }

  lemma RecordKeepsSafe(changeset: ChangeSet, files: map<string, AttemptFile>, v': Vault, result: ApplyResult,
                        context: ApplyContext, fate: AppendFate)
    requires RetryableHistory(FileOf(files, changeset.id).records, changeset)
    requires ValidateSingle(AttemptOf(changeset, result, context.source, context.realTime), changeset) == None
    requires result.changesetId == changeset.id
    requires HistoryShape(FileOf(files, changeset.id).records, changeset)
    requires SafeLog(changeset, v') && TrueOf(changeset, v', result)
    ensures SafeFor(changeset, Durable(v', Record(files, changeset, result, context.source, context.realTime, fate).0))
  {
    var attempt := AttemptOf(changeset, result, context.source, context.realTime);
    assert ResultOf(attempt) == result;
    LongerHistory(FileOf(files, changeset.id).records, attempt, changeset);
    RecordedRecords(changeset, files, result, context, fate);
  }

  lemma LongerHistory(records: seq<Attempt>, attempt: Attempt, changeset: ChangeSet)
    requires RetryableHistory(records, changeset) && HistoryShape(records, changeset)
    requires ValidateSingle(attempt, changeset) == None
    ensures HistoryShape(records + [attempt], changeset)
  {
  }

  lemma RecordedRecords(changeset: ChangeSet, files: map<string, AttemptFile>, result: ApplyResult, context: ApplyContext, fate: AppendFate)
    ensures var before := FileOf(files, changeset.id).records;
            var after := FileOf(Record(files, changeset, result, context.source, context.realTime, fate).0, changeset.id).records;
            after == before || after == before + [AttemptOf(changeset, result, context.source, context.realTime)]
  {
  }

  /** The cycle of one ChangeSet does not touch another. */
  lemma OtherCycle(changeset: ChangeSet, other: ChangeSet, s: Durable, approval: Approval, context: ApplyContext,
                   script: seq<Disturbance>, recording: Recording)
    requires changeset.id != "" && other.id != "" && changeset.id != other.id && SafeFor(other, s)
    ensures SafeFor(other, CycleStep(changeset, s, approval, context, script, recording))
  {
    if !Closed(changeset, s) {
      var (v', ending) := ApplyAll(s.vault, changeset, approval, context, script);
      var s' := OpenStep(changeset, s, approval, context, script, recording);
      ApplyIsTruthful(s.vault, changeset, approval, context, script);
      OthersFilesKept(changeset, other.id, s, approval, context, script, recording);
      SilentRun(changeset, other, s.vault, v', ending);
      SilentTexts(changeset, s.vault, v', ending);
      Unaffected(other, s, s', Suffix(v'.audit, s.vault.audit), Suffix(v'.writes, s.vault.writes));
    }
  }

  lemma SilentTexts(changeset: ChangeSet, v: Vault, v': Vault, ending: ApplyEnding)
    requires RunLeaves(changeset, v, v', 0, ending)
    ensures v'.audit == v.audit + Suffix(v'.audit, v.audit) && v'.writes == v.writes + Suffix(v'.writes, v.writes)
  {
  }

  lemma OthersFilesKept(changeset: ChangeSet, id: string, s: Durable, approval: Approval, context: ApplyContext,
                        script: seq<Disturbance>, recording: Recording)
    requires changeset.id != id
    ensures FileOf(OpenStep(changeset, s, approval, context, script, recording).files, id) == FileOf(s.files, id)
  {
  }

  lemma SilentRun(changeset: ChangeSet, other: ChangeSet, v: Vault, v': Vault, ending: ApplyEnding)
    requires changeset.id != "" && other.id != "" && changeset.id != other.id && RunLeaves(changeset, v, v', 0, ending)
    ensures Indices(other.id, Suffix(v'.writes, v.writes)) == []
    ensures forall j: nat :: PhasesAt(other, Suffix(v'.audit, v.audit), j) == []
  {
    IndicesOfOwn(changeset, other.id, |v'.writes| - |v.writes|);
    SilentOwn(changeset, other, Suffix(v'.audit, v.audit));
  }

  lemma SilentOwn(changeset: ChangeSet, other: ChangeSet, records: seq<AuditRecord>)
    requires changeset.id != "" && other.id != "" && changeset.id != other.id && OnlyFrom(changeset, records, 0)
    ensures forall j: nat :: PhasesAt(other, records, j) == []
  {
    forall r | 0 <= r < |records|
      ensures var parsed := OperationIds.Parse(records[r].operationId);
              parsed.None? || parsed.value.changesetId != other.id
    {
      assert Own(changeset, 0, records[r].operationId);
      var j: nat :| j < |changeset.operations| && records[r].operationId == OperationId(changeset, j);
      OperationIds.ParseFormat(changeset.id, j);
    }
    SilentRecords(other, records);
  }

  lemma StepIsSafe(proposals: map<string, ChangeSet>, s: Durable, step: Step)
    requires ProposalStore(proposals) && Safe(proposals, s) && Allowed(proposals, step)
    ensures Safe(proposals, Next(proposals, s, step))
  {
    var s' := Next(proposals, s, step);
    forall id | id in proposals
      ensures SafeFor(proposals[id], s')
    {
      var changeset := proposals[id];
      match step
      case Cycle(mine, approval, context, script, recording) =>
        if mine == id {
          OwnCycle(changeset, s, approval, context, script, recording);
        } else if mine in proposals {
          OtherCycle(proposals[mine], changeset, s, approval, context, script, recording);
        }
      case Others(_, records, _, writes) =>
        SilentRecords(changeset, records);
        IndicesNone(id, writes);
        Unaffected(changeset, s, s', records, writes);
      case RepairAudit =>
        assert SafeFor(changeset, s);
      case RepairAttempts(_) =>
        assert FileOf(s'.files, id).records == FileOf(s.files, id).records;
    }
  }

  lemma FreshIsSafe(proposals: map<string, ChangeSet>, s: Durable)
    requires ProposalStore(proposals) && Fresh(proposals, s)
    ensures Safe(proposals, s)
  {
    forall id | id in proposals
      ensures SafeFor(proposals[id], s)
    {
      SilentRecords(proposals[id], s.vault.audit);
      IndicesNone(id, s.vault.writes);
    }
  }

  /** Every reachable state is safe for every ChangeSet. */
  lemma {:induction false} RunsAreSafe(proposals: map<string, ChangeSet>, s: Durable, steps: seq<Step>)
    requires ProposalStore(proposals) && Fresh(proposals, s)
    requires forall k :: 0 <= k < |steps| ==> Allowed(proposals, steps[k])
    ensures Safe(proposals, Run(proposals, s, steps))
  {
    if steps == [] {
      FreshIsSafe(proposals, s);
    } else {
      RunsAreSafe(proposals, s, steps[..|steps| - 1]);
      StepIsSafe(proposals, Run(proposals, s, steps[..|steps| - 1]), steps[|steps| - 1]);
    }
  }

  /** How often an operation id stands among the entity writes. */
  function WriteCount(writes: seq<string>, operationId: string): nat {
    if writes == [] then 0
    else WriteCount(writes[..|writes| - 1], operationId) + (if writes[|writes| - 1] == operationId then 1 else 0)
  }

  function IndexCount(indices: seq<int>, j: int): nat {
    if indices == [] then 0 else IndexCount(indices[..|indices| - 1], j) + (if indices[|indices| - 1] == j then 1 else 0)
  }

  lemma {:induction false} IndexCountSnoc(indices: seq<int>, i: int, j: int)
    ensures IndexCount(indices + [i], j) == IndexCount(indices, j) + (if i == j then 1 else 0)
  {
    assert (indices + [i])[..|indices|] == indices;
  }

  lemma {:induction false} WritesByIndex(changeset: ChangeSet, writes: seq<string>, j: nat)
    requires changeset.id != ""
    ensures WriteCount(writes, OperationId(changeset, j)) == IndexCount(Indices(changeset.id, writes), j)
  {
    if writes != [] {
      var front, last := writes[..|writes| - 1], writes[|writes| - 1];
      WritesByIndex(changeset, front, j);
      OperationIds.ParseFormat(changeset.id, j);
      var parsed := OperationIds.Parse(last);
      if parsed.Some? && parsed.value.changesetId == changeset.id {
        OperationIds.FormatParse(last);
        IndexCountSnoc(Indices(changeset.id, front), parsed.value.index, j);
      } else {
        assert Indices(changeset.id, front) + [] == Indices(changeset.id, front);
      }
    }
  }

  lemma {:induction false} CountInRange(k: nat, j: nat)
    ensures IndexCount(Range(0, k), j) == if j < k then 1 else 0
  {
    if k > 0 {
      CountInRange(k - 1, j);
      IndexCountSnoc(Range(0, k - 1), k - 1, j);
    }
  }

  /**
   At most once, over every run of crashing, repeated and interleaved applies:
   the first `k` operations have been written exactly once and the others never.
   */
  lemma AtMostOnce(proposals: map<string, ChangeSet>, s: Durable, steps: seq<Step>, id: string) returns (k: nat)
    requires ProposalStore(proposals) && Fresh(proposals, s) && id in proposals
    requires forall i :: 0 <= i < |steps| ==> Allowed(proposals, steps[i])
    ensures k <= |proposals[id].operations|
    ensures forall j: nat :: WriteCount(Run(proposals, s, steps).vault.writes, OperationId(proposals[id], j)) == if j < k then 1 else 0
  {
    RunsAreSafe(proposals, s, steps);
    var now := Run(proposals, s, steps);
    assert SafeFor(proposals[id], now);
    k := |Indices(id, now.vault.writes)|;
    forall j: nat
      ensures WriteCount(now.vault.writes, OperationId(proposals[id], j)) == if j < k then 1 else 0
    {
      WritesByIndex(proposals[id], now.vault.writes, j);
      CountInRange(k, j);
    }
  }

  /** The log only grows. */
  lemma {:induction false} AuditGrows(proposals: map<string, ChangeSet>, s: Durable, steps: seq<Step>)
    ensures s.vault.audit <= Run(proposals, s, steps).vault.audit
  {
    if steps != [] {
      AuditGrows(proposals, s, steps[..|steps| - 1]);
      var before, step := Run(proposals, s, steps[..|steps| - 1]), steps[|steps| - 1];
      if step.Cycle? && step.id in proposals {
        ApplyIsTruthful(before.vault, proposals[step.id], step.approval, step.context, step.script);
      }
    }
  }

  /**
   Once a record of one of its operations exists the ChangeSet is never
   applied again: after any further steps another cycle changes nothing.
   */
  lemma {:induction false} NeverAgain(proposals: map<string, ChangeSet>, s: Durable, steps: seq<Step>, id: string, j: nat,
                                      approval: Approval, context: ApplyContext, script: seq<Disturbance>, recording: Recording)
    requires id in proposals && j < |proposals[id].operations|
    requires IdUsed(s.vault.audit, OperationId(proposals[id], j))
    ensures var now := Run(proposals, s, steps);
            && Gate(proposals[id], FileOf(now.files, proposals[id].id).records, now.vault.audit).Some?
            && Next(proposals, now, Cycle(id, approval, context, script, recording)) == now
  {
    var now := Run(proposals, s, steps);
    AuditGrows(proposals, s, steps);
    RefusedForGood(proposals[id], FileOf(now.files, proposals[id].id).records, s.vault.audit, now.vault.audit, j);
  }

  /**
   In every reachable state the correlation is free of contradictions and a
   written operation shows at least its intent, so a crash is never mistaken
   for an operation that was not attempted.
   */
  lemma {:induction false} EvidenceIsComplete(proposals: map<string, ChangeSet>, s: Durable, steps: seq<Step>, id: string)
    requires ProposalStore(proposals) && Fresh(proposals, s) && id in proposals
    requires forall k :: 0 <= k < |steps| ==> Allowed(proposals, steps[k])
    ensures var now := Run(proposals, s, steps);
            var states := Correlate(proposals[id], now.vault.audit);
            && states.Ok? && |states.value| == |proposals[id].operations|
            && forall j :: 0 <= j < |Indices(id, now.vault.writes)| && j < |states.value| ==> states.value[j] != Unattempted
  {
    RunsAreSafe(proposals, s, steps);
    var now := Run(proposals, s, steps);
    CorrelateAt(proposals[id], now.vault.audit, |proposals[id].operations|);
    var states := Correlate(proposals[id], now.vault.audit);
    var indices := Indices(id, now.vault.writes);
    assert SafeFor(proposals[id], now);
    forall j | 0 <= j < |indices| && j < |states.value|
      ensures states.value[j] != Unattempted
    {
      assert PhasesAt(proposals[id], now.vault.audit, j) != [];
    }
  }

  // The gate does not keep a sound ChangeSet out

  /**
   A cycle that meets an open gate and no fault, for an authorized ChangeSet that
   is valid in the Vault as it is, applies every operation, commits each in the
   log, and leaves the record of it.
   */
  lemma {:induction false} SoundCycleApplies(changeset: ChangeSet, s: Durable, documents: seq<Document>, approval: Approval, context: ApplyContext)
    requires !Closed(changeset, s) && Lists(documents, s.vault.entities)
    requires Authorizes(approval, changeset) && Preflight.Valid(documents, changeset.operations)
    ensures var s' := CycleStep(changeset, s, approval, context, [], Appending(AppendFate.Confirmed));
            var ops, records := changeset.operations, FileOf(s'.files, changeset.id).records;
            && Preflight.Executed(s.vault.entities, ops, context.realTime, |ops|) == Ok(s'.vault.entities)
            && s.vault.audit <= s'.vault.audit && s.vault.writes <= s'.vault.writes
            && Suffix(s'.vault.writes, s.vault.writes) == OwnIds(changeset, 0, |ops|)
            && (forall j: nat :: j < |ops| ==> PhasesAt(changeset, Suffix(s'.vault.audit, s.vault.audit), j) == [Intent, Committed])
            && |records| == |FileOf(s.files, changeset.id).records| + 1 && records[..|records| - 1] == FileOf(s.files, changeset.id).records
            && RecordsResult(records[|records| - 1], changeset, FullResult(changeset), context.source, context.realTime)
  {
    GateIff(changeset, FileOf(s.files, changeset.id).records, s.vault.audit);
    ValidIffApplied(s.vault, documents, changeset, approval, context);
    Preflight.PreflightRefinesExecution(documents, s.vault.entities, changeset.operations, context.realTime);
    SmoothFrom(s.vault.entities, s.vault, changeset, context, 0);
    ApplyIsTruthful(s.vault, changeset, approval, context, []);
    GatedApplyIsRecorded(s.files, s.vault, s.vault.audit, changeset, approval, context, [], AppendFate.Confirmed);
  }
}
