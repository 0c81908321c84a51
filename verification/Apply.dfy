/** Applying an approved ChangeSet: operations in order, stop at the first fault. */
module Apply {
  import opened Wrappers
  import opened Domain
  import opened Repository
  import Preflight
  import OperationIds

  datatype ApplyOutcome = Applied | Partial | NoneApplied

  datatype CommitState = ConfirmedWritten | NotWritten | Unconfirmed | NeverAttempted

  datatype Failure = Failure(operationIndex: int, category: Category, entityId: string)

  datatype ApplyResult = ApplyResult(
    changesetId: string, outcome: ApplyOutcome, applied: seq<int>, remaining: seq<int>,
    failure: Option<Failure>, commitState: Option<CommitState>)

  /** What the caller sees: a refusal before any write, a crash, or a structured result. */
  datatype ApplyEnding = Refused | Crash | Returned(result: ApplyResult)

  datatype ApplyContext = ApplyContext(source: string, realTime: int)

  datatype Approval = Approval(changesetId: string, fingerprint: Fingerprint, approved: bool)

  predicate Authorizes(approval: Approval, changeset: ChangeSet) {
    && approval.approved
    && approval.changesetId == changeset.id
    && approval.fingerprint == ComputeFingerprint(changeset)
  }

  function Range(from: nat, to: nat): (r: seq<int>)
    ensures |r| == if from <= to then to - from else 0
    ensures forall k :: 0 <= k < |r| ==> r[k] == from + k
  {
    if from >= to then [] else Range(from, to - 1) + [to - 1]
  }

  function OperationId(changeset: ChangeSet, index: nat): string {
    OperationIds.Format(changeset.id, index)
  }

  function PerOperationAudit(changeset: ChangeSet, context: ApplyContext, index: nat): AuditContext {
    AuditContext(OperationId(changeset, index), context.realTime, context.source, changeset.sessionRef)
  }

  function CommitStateFor(category: Category): CommitState {
    if category == Storage then Unconfirmed else NotWritten
  }

  function StoppedResult(changeset: ChangeSet, index: nat, category: Category): ApplyResult
    requires index < |changeset.operations|
  {
    ApplyResult(
      changeset.id, if index > 0 then Partial else NoneApplied,
      Range(0, index), Range(index + 1, |changeset.operations|),
      Some(Failure(index, category, changeset.operations[index].entityId)),
      Some(CommitStateFor(category)))
  }

  function FullResult(changeset: ChangeSet): ApplyResult {
    ApplyResult(changeset.id, Applied, Range(0, |changeset.operations|), [], None, None)
  }

  /** The disturbance met by operation `index`; a short script is smooth from its end on. */
  function At(script: seq<Disturbance>, index: nat): Disturbance {
    if index < |script| then script[index] else Smooth
  }

  /** The write loop from operation `index` on. */
  function ApplyFrom(v: Vault, changeset: ChangeSet, context: ApplyContext, script: seq<Disturbance>, index: nat): (Vault, ApplyEnding)
    requires index <= |changeset.operations|
    decreases |changeset.operations| - index
  {
    if index == |changeset.operations| then (v, Returned(FullResult(changeset)))
    else
      var (v', outcome) := Mutate(v, changeset.operations[index],
                                  PerOperationAudit(changeset, context, index), At(script, index));
      match outcome
      case Done => ApplyFrom(v', changeset, context, script, index + 1)
      case Failed(category) => (v', Returned(StoppedResult(changeset, index, category)))
      case Died => (v', Crash)
  }

  /** Approval binding, fresh preflight, then the write loop. */
  function ApplyAll(v: Vault, changeset: ChangeSet, approval: Approval, context: ApplyContext, script: seq<Disturbance>): (Vault, ApplyEnding) {
    if !Authorizes(approval, changeset)
       || Preflight.Executed(v.entities, changeset.operations, context.realTime, |changeset.operations|).Err?
    then (v, Refused)
    else ApplyFrom(v, changeset, context, script, 0)
  }

  method ApplyChangeSet(changeset: ChangeSet, approval: Approval, repository: VaultRepository,
                        context: ApplyContext, script: seq<Disturbance>) returns (ending: ApplyEnding)
    requires WellKeyed(repository.entities)
    modifies repository
    ensures (repository.State(), ending) == ApplyAll(old(repository.State()), changeset, approval, context, script)
  {
    if !Authorizes(approval, changeset) {
      return Refused;
    }
    var documents := repository.ListEntities();
    var issues := Preflight.ValidateChangeSet(changeset, documents);
    Preflight.PreflightRefinesExecution(documents, repository.entities, changeset.operations, context.realTime);
    if issues != [] {
      return Refused;
    }
    var applied: seq<int> := [];
    for index := 0 to |changeset.operations|
      invariant applied == Range(0, index)
      invariant ApplyFrom(repository.State(), changeset, context, script, index)
             == ApplyFrom(old(repository.State()), changeset, context, script, 0)
    {
      var outcome := repository.Perform(changeset.operations[index],
                                        PerOperationAudit(changeset, context, index), At(script, index));
      match outcome {
        case Failed(category) =>
          return Returned(ApplyResult(
            changeset.id, if applied != [] then Partial else NoneApplied,
            applied, Range(index + 1, |changeset.operations|),
            Some(Failure(index, category, changeset.operations[index].entityId)),
            Some(CommitStateFor(category))));
        case Died => return Crash;
        case Done => applied := applied + [index];
      }
    }
    return Returned(ApplyResult(changeset.id, Applied, applied, [], None, None));
  }

  // What one run leaves behind

  /** The phases recorded for one operation id, in log order. */
  function PhasesOf(audit: seq<AuditRecord>, operationId: string): seq<Phase> {
    if audit == [] then []
    else
      var last := audit[|audit| - 1];
      PhasesOf(audit[..|audit| - 1], operationId)
      + (if last.operationId == operationId then [last.phase] else [])
  }

  /** The phases recorded for operation `j` of a ChangeSet. */
  function PhasesAt(changeset: ChangeSet, audit: seq<AuditRecord>, j: nat): seq<Phase> {
    PhasesOf(audit, OperationId(changeset, j))
  }

  lemma {:induction false} PhasesOfConcat(a: seq<AuditRecord>, b: seq<AuditRecord>, operationId: string)
    ensures PhasesOf(a + b, operationId) == PhasesOf(a, operationId) + PhasesOf(b, operationId)
  {
    if b == [] {
      assert a + b == a;
    } else {
      assert (a + b)[..|a + b| - 1] == a + b[..|b| - 1];
      PhasesOfConcat(a, b[..|b| - 1], operationId);
    }
  }

  lemma PhasesAtConcat(changeset: ChangeSet, a: seq<AuditRecord>, b: seq<AuditRecord>)
    ensures forall j: nat :: PhasesAt(changeset, a + b, j) == PhasesAt(changeset, a, j) + PhasesAt(changeset, b, j)
  {
    forall j: nat
      ensures PhasesAt(changeset, a + b, j) == PhasesAt(changeset, a, j) + PhasesAt(changeset, b, j)
    {
      PhasesOfConcat(a, b, OperationId(changeset, j));
    }
  }

  lemma {:induction false} PhasesOfNone(audit: seq<AuditRecord>, operationId: string)
    ensures PhasesOf(audit, operationId) == [] <==> !IdUsed(audit, operationId)
  {
    if audit != [] {
      var front := audit[..|audit| - 1];
      PhasesOfNone(front, operationId);
      if IdUsed(front, operationId) {
        var k :| 0 <= k < |front| && front[k].operationId == operationId;
        assert audit[k].operationId == operationId;
      }
    }
  }

  predicate Tidy(phases: seq<Phase>) {
    phases == [] || phases == [Intent] || phases == [Intent, Committed]
  }

  function Suffix<T>(later: seq<T>, earlier: seq<T>): seq<T>
    requires |earlier| <= |later|
  {
    later[|earlier|..]
  }

  /** The three things a mutation can leave in the log. */
  datatype Trace = Untouched | Announced | Completed

  function TraceRecords(op: Operation, context: AuditContext, trace: Trace): seq<AuditRecord> {
    match trace
    case Untouched => []
    case Announced => [RecordOf(op, context, Intent)]
    case Completed => [RecordOf(op, context, Intent), RecordOf(op, context, Committed)]
  }

  lemma TracePhases(op: Operation, context: AuditContext, trace: Trace)
    ensures var phases := PhasesOf(TraceRecords(op, context, trace), context.operationId);
            phases == match trace
                      case Untouched => []
                      case Announced => [Intent]
                      case Completed => [Intent, Committed]
  {
    var i, c, id := RecordOf(op, context, Intent), RecordOf(op, context, Committed), context.operationId;
    assert [i][..0] == [] && [i, c][..1] == [i];
    assert PhasesOf([i], id) == PhasesOf([], id) + [Intent];
    assert PhasesOf([i, c], id) == PhasesOf([i], id) + [Committed];
  }

  /** The records and the write of one mutation: a write only after the intent, success only with both records. */
  ghost predicate Shaped(v: Vault, v': Vault, op: Operation, context: AuditContext, outcome: Outcome, trace: Trace, wrote: bool) {
    && v'.audit == v.audit + TraceRecords(op, context, trace)
    && v'.writes == v.writes + (if wrote then [context.operationId] else [])
    && v'.guarded == v.guarded
    && (wrote ==> !trace.Untouched?)
    && (outcome.Done? ==> trace.Completed? && wrote)
    && (outcome.Failed? && outcome.category != Storage ==> !wrote)
  }

  lemma CommitShape(v: Vault, op: Operation, document: Document, context: AuditContext, d: Disturbance) returns (trace: Trace, wrote: bool)
    ensures var (v', outcome) := Commit(v, op, document, context, d);
            Shaped(v, v', op, context, outcome, trace, wrote)
  {
    var i, c := RecordOf(op, context, Intent), RecordOf(op, context, Committed);
    assert v.audit + [] == v.audit && v.writes + [] == v.writes;
    assert v.audit + [i] + [c] == v.audit + [i, c];
    if d.Smooth? {
      return Completed, true;
    }
    match d.stage
    case BeforeIntent => return Untouched, false;
    case IntentAppend(landing) => return if landing.Whole? then Announced else Untouched, false;
    case SecondCheck => return Announced, false;
    case EntityWrite(landed) => return Announced, landed;
    case ReadBack => return Announced, true;
    case CommitAppend(landing) => return if landing.Whole? then Completed else Announced, true;
  }

  lemma MutateShape(v: Vault, op: Operation, context: AuditContext, d: Disturbance) returns (trace: Trace, wrote: bool)
    ensures var (v', outcome) := Mutate(v, op, context, d);
            Shaped(v, v', op, context, outcome, trace, wrote)
  {
    var admitted := Admit(v, op, context);
    if (d.Stopped? && d.stage.BeforeIntent?) || admitted.Err? {
      assert v.audit + [] == v.audit && v.writes + [] == v.writes;
      return Untouched, false;
    }
    trace, wrote := CommitShape(v, op, admitted.value, context, d);
  }

  /**
   The whole loop from operation `i`: the writes are the consecutive ids
   `i, i+1, ..., k-1`, every id's records are tidy, each written operation has an
   intent, and a returned result tells the truth about them.
   */
  ghost predicate RunLeaves(changeset: ChangeSet, v: Vault, v': Vault, i: nat, ending: ApplyEnding)
    requires i <= |changeset.operations|
  {
    && v.audit <= v'.audit && v.writes <= v'.writes && v'.guarded == v.guarded
    && var k := i + |v'.writes| - |v.writes|;
    && var records := Suffix(v'.audit, v.audit);
    && k <= |changeset.operations|
    && Suffix(v'.writes, v.writes) == OwnIds(changeset, i, k)
    && Leaves(changeset, records, i, k, ending)
  }

  ghost predicate Leaves(changeset: ChangeSet, records: seq<AuditRecord>, i: nat, k: nat, ending: ApplyEnding) {
    && OnlyFrom(changeset, records, i)
    && TidyRecords(changeset, records, i, k)
    && (ending.Returned? ==> Truthful(changeset, records, i, k, ending.result))
  }

  ghost predicate TidyRecords(changeset: ChangeSet, records: seq<AuditRecord>, i: nat, k: nat) {
    forall j: nat ::
      && Tidy(PhasesAt(changeset, records, j))
      && (i <= j < k ==> PhasesAt(changeset, records, j) != [])
  }

  /** Every record belongs to some operation of the ChangeSet from `i` on. */
  ghost predicate OnlyFrom(changeset: ChangeSet, records: seq<AuditRecord>, i: nat) {
    forall r :: 0 <= r < |records| ==> Own(changeset, i, records[r].operationId)
  }

  ghost predicate Own(changeset: ChangeSet, i: nat, operationId: string) {
    exists j: nat :: i <= j < |changeset.operations| && operationId == OperationId(changeset, j)
  }

  function OwnIds(changeset: ChangeSet, from: nat, to: nat): (ids: seq<string>)
    ensures |ids| == if from <= to then to - from else 0
    ensures forall k :: 0 <= k < |ids| ==> ids[k] == OperationId(changeset, from + k)
  {
    if from >= to then [] else OwnIds(changeset, from, to - 1) + [OperationId(changeset, to - 1)]
  }

  /**
   `applied` is a prefix whose operations are all committed in the log; an
   Applied result means everything was written, NotWritten that exactly the
   prefix was, Unconfirmed that the failing operation may have been too.
   */
  ghost predicate Truthful(changeset: ChangeSet, records: seq<AuditRecord>, i: nat, k: nat, result: ApplyResult) {
    && i <= |result.applied| <= |changeset.operations|
    && result.applied == Range(0, |result.applied|)
    && (forall j: nat :: i <= j < |result.applied| ==>
          PhasesAt(changeset, records, j) == [Intent, Committed])
    && (result.outcome.Applied? <==> |result.applied| == |changeset.operations|)
    && (result.outcome.Applied? ==> k == |changeset.operations|)
    && (result.commitState == Some(NotWritten) ==> k == |result.applied|)
    && (result.commitState == Some(Unconfirmed) ==> |result.applied| <= k <= |result.applied| + 1)
    && (result.commitState == None <==> result.outcome.Applied?)
  }

  lemma {:induction false} ApplyFromLeaves(v: Vault, changeset: ChangeSet, context: ApplyContext, script: seq<Disturbance>, i: nat)
    requires i <= |changeset.operations|
    ensures var (v', ending) := ApplyFrom(v, changeset, context, script, i);
            RunLeaves(changeset, v, v', i, ending)
    decreases |changeset.operations| - i
  {
    var (v', ending) := ApplyFrom(v, changeset, context, script, i);
    if i == |changeset.operations| {
      NoRun(changeset, v, i, ending);
    } else {
      var op, audit, d := changeset.operations[i], PerOperationAudit(changeset, context, i), At(script, i);
      var trace, wrote := MutateShape(v, op, audit, d);
      var (mid, outcome) := Mutate(v, op, audit, d);
      if outcome.Done? {
        ApplyFromLeaves(mid, changeset, context, script, i + 1);
        JoinRuns(changeset, context, v, mid, v', i, ending);
      } else {
        SingleRun(changeset, context, v, mid, i, ending, trace, wrote);
      }
    }
  }

  lemma NoRun(changeset: ChangeSet, v: Vault, i: nat, ending: ApplyEnding)
    requires i <= |changeset.operations|
    requires !ending.Returned? || (ending == Returned(FullResult(changeset)) && i == |changeset.operations|)
    ensures RunLeaves(changeset, v, v, i, ending)
  {
    assert Suffix(v.audit, v.audit) == [] && Suffix(v.writes, v.writes) == [];
  }

  /** Records of operation `i` alone say nothing about the others. */
  lemma OneOperation(changeset: ChangeSet, context: ApplyContext, trace: Trace, i: nat)
    requires i < |changeset.operations|
    ensures var records := TraceRecords(changeset.operations[i], PerOperationAudit(changeset, context, i), trace);
            && OnlyFrom(changeset, records, i)
            && forall j: nat :: j != i ==> PhasesAt(changeset, records, j) == []
  {
    var records := TraceRecords(changeset.operations[i], PerOperationAudit(changeset, context, i), trace);
    assert Own(changeset, i, OperationId(changeset, i));
    assert forall r :: 0 <= r < |records| ==> records[r].operationId == OperationId(changeset, i);
    forall j: nat | j != i
      ensures PhasesAt(changeset, records, j) == []
    {
      OperationIds.FormatInjective(changeset.id, i, changeset.id, j);
      PhasesOfNone(records, OperationId(changeset, j));
    }
  }

  lemma NothingBefore(changeset: ChangeSet, records: seq<AuditRecord>, i: nat, j: nat)
    requires OnlyFrom(changeset, records, i) && j < i
    ensures PhasesAt(changeset, records, j) == []
  {
    if IdUsed(records, OperationId(changeset, j)) {
      var r :| 0 <= r < |records| && records[r].operationId == OperationId(changeset, j);
      assert Own(changeset, i, records[r].operationId);
      var m: nat :| i <= m < |changeset.operations| && records[r].operationId == OperationId(changeset, m);
      OperationIds.FormatInjective(changeset.id, m, changeset.id, j);
    }
    PhasesOfNone(records, OperationId(changeset, j));
  }

  lemma SingleRun(changeset: ChangeSet, context: ApplyContext, v: Vault, v': Vault, i: nat, ending: ApplyEnding, trace: Trace, wrote: bool)
    requires i < |changeset.operations|
    requires v'.audit == v.audit + TraceRecords(changeset.operations[i], PerOperationAudit(changeset, context, i), trace)
    requires v'.writes == v.writes + (if wrote then [OperationId(changeset, i)] else [])
    requires v'.guarded == v.guarded && (wrote ==> !trace.Untouched?)
    requires ending.Crash? || exists category :: ending == Returned(StoppedResult(changeset, i, category)) && (category != Storage ==> !wrote)
    ensures RunLeaves(changeset, v, v', i, ending)
  {
    SingleLeaves(changeset, context, i, ending, trace, wrote);
    assert Suffix(v'.audit, v.audit) == TraceRecords(changeset.operations[i], PerOperationAudit(changeset, context, i), trace);
    assert Suffix(v'.writes, v.writes) == OwnIds(changeset, i, i + |v'.writes| - |v.writes|);
  }

  lemma SingleLeaves(changeset: ChangeSet, context: ApplyContext, i: nat, ending: ApplyEnding, trace: Trace, wrote: bool)
    requires i < |changeset.operations| && (wrote ==> !trace.Untouched?)
    requires ending.Crash? || exists category :: ending == Returned(StoppedResult(changeset, i, category)) && (category != Storage ==> !wrote)
    ensures Leaves(changeset, TraceRecords(changeset.operations[i], PerOperationAudit(changeset, context, i), trace),
                   i, if wrote then i + 1 else i, ending)
  {
    OneOperation(changeset, context, trace, i);
    TracePhases(changeset.operations[i], PerOperationAudit(changeset, context, i), trace);
    if ending.Returned? {
      var category :| ending == Returned(StoppedResult(changeset, i, category)) && (category != Storage ==> !wrote);
      StoppedIsTruthful(changeset, TraceRecords(changeset.operations[i], PerOperationAudit(changeset, context, i), trace), i, category, wrote);
    }
  }

  lemma StoppedIsTruthful(changeset: ChangeSet, records: seq<AuditRecord>, i: nat, category: Category, wrote: bool)
    requires i < |changeset.operations| && (category != Storage ==> !wrote)
    ensures Truthful(changeset, records, i, if wrote then i + 1 else i, StoppedResult(changeset, i, category))
  {
  }

  lemma JoinRuns(changeset: ChangeSet, context: ApplyContext, v: Vault, mid: Vault, v': Vault, i: nat, ending: ApplyEnding)
    requires i < |changeset.operations|
    requires mid.audit == v.audit + TraceRecords(changeset.operations[i], PerOperationAudit(changeset, context, i), Completed)
    requires mid.writes == v.writes + [OperationId(changeset, i)] && mid.guarded == v.guarded
    requires RunLeaves(changeset, mid, v', i + 1, ending)
    ensures RunLeaves(changeset, v, v', i, ending)
  {
    var first := TraceRecords(changeset.operations[i], PerOperationAudit(changeset, context, i), Completed);
    var rest := Suffix(v'.audit, mid.audit);
    JoinWrites(changeset, v, mid, v', i);
    JoinLeaves(changeset, context, rest, i, i + |v'.writes| - |v.writes|, ending);
    JoinSuffixes(v.audit, first, mid.audit, v'.audit);
  }

  lemma JoinSuffixes<T>(a: seq<T>, first: seq<T>, mid: seq<T>, b: seq<T>)
    requires mid == a + first && mid <= b
    ensures a <= b && Suffix(b, a) == first + Suffix(b, mid)
  {
  }

  lemma JoinLeaves(changeset: ChangeSet, context: ApplyContext, rest: seq<AuditRecord>, i: nat, k: nat, ending: ApplyEnding)
    requires i < |changeset.operations| && i < k && Leaves(changeset, rest, i + 1, k, ending)
    ensures Leaves(changeset, TraceRecords(changeset.operations[i], PerOperationAudit(changeset, context, i), Completed) + rest, i, k, ending)
  {
    JoinRecords(changeset, context, rest, i);
    JoinPhases(changeset, context, rest, i);
  }

  lemma JoinRecords(changeset: ChangeSet, context: ApplyContext, rest: seq<AuditRecord>, i: nat)
    requires i < |changeset.operations| && OnlyFrom(changeset, rest, i + 1)
    ensures OnlyFrom(changeset, TraceRecords(changeset.operations[i], PerOperationAudit(changeset, context, i), Completed) + rest, i)
  {
    var first := TraceRecords(changeset.operations[i], PerOperationAudit(changeset, context, i), Completed);
    OneOperation(changeset, context, Completed, i);
    forall r | 0 <= r < |first + rest|
      ensures Own(changeset, i, (first + rest)[r].operationId)
    {
      if r >= |first| {
        assert Own(changeset, i + 1, rest[r - |first|].operationId);
      }
    }
  }

  /** Operation `i` is complete and the later operations are as they were. */
  lemma JoinPhases(changeset: ChangeSet, context: ApplyContext, rest: seq<AuditRecord>, i: nat)
    requires i < |changeset.operations| && OnlyFrom(changeset, rest, i + 1)
    ensures var records := TraceRecords(changeset.operations[i], PerOperationAudit(changeset, context, i), Completed) + rest;
            forall j: nat ::
              PhasesAt(changeset, records, j)
              == if j == i then [Intent, Committed] else PhasesAt(changeset, rest, j)
  {
    var first := TraceRecords(changeset.operations[i], PerOperationAudit(changeset, context, i), Completed);
    OneOperation(changeset, context, Completed, i);
    TracePhases(changeset.operations[i], PerOperationAudit(changeset, context, i), Completed);
    NothingBefore(changeset, rest, i + 1, i);
    PhasesAtConcat(changeset, first, rest);
  }

  lemma {:induction false} JoinWrites(changeset: ChangeSet, v: Vault, mid: Vault, v': Vault, i: nat)
    requires mid.writes == v.writes + [OperationId(changeset, i)] && mid.writes <= v'.writes
    requires Suffix(v'.writes, mid.writes) == OwnIds(changeset, i + 1, i + |v'.writes| - |v.writes|)
    ensures Suffix(v'.writes, v.writes) == OwnIds(changeset, i, i + |v'.writes| - |v.writes|)
  {
    assert Suffix(v'.writes, v.writes) == [OperationId(changeset, i)] + Suffix(v'.writes, mid.writes);
  }

  lemma {:induction false} NeverRefuses(v: Vault, changeset: ChangeSet, context: ApplyContext, script: seq<Disturbance>, i: nat)
    requires i <= |changeset.operations|
    ensures !ApplyFrom(v, changeset, context, script, i).1.Refused?
    decreases |changeset.operations| - i
  {
    if i < |changeset.operations| {
      var (mid, _) := Mutate(v, changeset.operations[i], PerOperationAudit(changeset, context, i), At(script, i));
      NeverRefuses(mid, changeset, context, script, i + 1);
    }
  }

  /** Every result the applier can return, in every Vault and under every disturbance, is truthful. */
  lemma ApplyIsTruthful(v: Vault, changeset: ChangeSet, approval: Approval, context: ApplyContext, script: seq<Disturbance>)
    ensures var (v', ending) := ApplyAll(v, changeset, approval, context, script);
            && (ending.Refused? ==> v' == v)
            && RunLeaves(changeset, v, v', 0, ending)
  {
    if !Authorizes(approval, changeset)
       || Preflight.Executed(v.entities, changeset.operations, context.realTime, |changeset.operations|).Err? {
      NoRun(changeset, v, 0, Refused);
    } else {
      NeverRefuses(v, changeset, context, script, 0);
      ApplyFromLeaves(v, changeset, context, script, 0);
    }
  }

  // Without disturbance

  /** No operation id of the ChangeSet from `from` on occurs in the log. */
  ghost predicate Unused(audit: seq<AuditRecord>, changeset: ChangeSet, from: nat) {
    forall j: nat {:trigger OperationId(changeset, j)} :: from <= j < |changeset.operations| ==> !IdUsed(audit, OperationId(changeset, j))
  }

  lemma {:induction false} RefusalPersists(entities: map<string, Document>, ops: seq<Operation>, realTime: int, k: nat, n: nat)
    requires k <= n <= |ops| && Preflight.Executed(entities, ops, realTime, k).Err?
    ensures Preflight.Executed(entities, ops, realTime, n) == Preflight.Executed(entities, ops, realTime, k)
  {
    if k < n {
      RefusalPersists(entities, ops, realTime, k, n - 1);
    }
  }

  lemma {:induction false} SmoothFrom(base: map<string, Document>, v: Vault, changeset: ChangeSet, context: ApplyContext, i: nat)
    requires i <= |changeset.operations| && !v.torn && Unused(v.audit, changeset, i)
    requires Preflight.Executed(base, changeset.operations, context.realTime, i) == Ok(v.entities)
    ensures var ops := changeset.operations;
            var (v', ending) := ApplyFrom(v, changeset, context, [], i);
            match Preflight.Executed(base, ops, context.realTime, |ops|)
            case Ok(now) => ending == Returned(FullResult(changeset)) && v'.entities == now
            case Err(first) =>
              ending.Returned? && !ending.result.outcome.Applied?
              && ending.result.failure.Some? && ending.result.failure.value.operationIndex == first
    decreases |changeset.operations| - i
  {
    var ops := changeset.operations;
    if i < |ops| {
      var audit := PerOperationAudit(changeset, context, i);
      var (mid, outcome) := Mutate(v, ops[i], audit, Smooth);
      if outcome.Done? {
        forall j: nat | i + 1 <= j < |ops|
          ensures !IdUsed(mid.audit, OperationId(changeset, j))
        {
          OperationIds.FormatInjective(changeset.id, i, changeset.id, j);
        }
        SmoothFrom(base, mid, changeset, context, i + 1);
      } else {
        RefusalPersists(base, ops, context.realTime, i + 1, |ops|);
      }
    }
  }

  /**
   With fresh operation ids and no disturbance the write loop applies
   everything exactly when preflight finds no issue, leaves the projected
   revisions, and otherwise stops at the operation of the first issue.
   */
  lemma {:induction false} ValidIffApplied(v: Vault, documents: seq<Document>, changeset: ChangeSet, approval: Approval, context: ApplyContext)
    requires Lists(documents, v.entities) && !v.torn && Unused(v.audit, changeset, 0)
    ensures var ops := changeset.operations;
            var (v', ending) := ApplyFrom(v, changeset, context, [], 0);
            && ending.Returned?
            && (Preflight.Valid(documents, ops) <==> ending == Returned(FullResult(changeset)))
            && (Preflight.Valid(documents, ops) ==>
                  Preflight.Revisions(v'.entities)
                  == Preflight.Projected(Preflight.BaseRevisions(documents), ops, |ops|).0.revisions)
            && (!Preflight.Valid(documents, ops) ==>
                  ending.result.failure.Some?
                  && ending.result.failure.value.operationIndex == Preflight.Issues(documents, ops)[0].operationIndex)
            && (Authorizes(approval, changeset) && Preflight.Valid(documents, ops) <==>
                ApplyAll(v, changeset, approval, context, []).1 == Returned(FullResult(changeset)))
  {
    Preflight.PreflightRefinesExecution(documents, v.entities, changeset.operations, context.realTime);
    SmoothFrom(v.entities, v, changeset, context, 0);
  }

  // What a result says of the failure

  /** The Vault after the first `k` operations, while every one of them succeeds. */
  function AfterOperations(v: Vault, changeset: ChangeSet, context: ApplyContext, script: seq<Disturbance>, k: nat): Option<Vault>
    requires k <= |changeset.operations|
  {
    if k == 0 then Some(v)
    else
      match AfterOperations(v, changeset, context, script, k - 1)
      case None => None
      case Some(mid) =>
        var (now, outcome) := Mutate(mid, changeset.operations[k - 1], PerOperationAudit(changeset, context, k - 1), At(script, k - 1));
        if outcome.Done? then Some(now) else None
  }

  /** Operation `k` is the first that does not succeed, and this is how it ends. */
  ghost predicate StopsAt(v: Vault, changeset: ChangeSet, context: ApplyContext, script: seq<Disturbance>, k: nat, now: Vault, outcome: Outcome)
    requires k < |changeset.operations|
  {
    var mid := AfterOperations(v, changeset, context, script, k);
    && mid.Some? && !outcome.Done?
    && Mutate(mid.value, changeset.operations[k], PerOperationAudit(changeset, context, k), At(script, k)) == (now, outcome)
  }

  /** The result of a run that stopped at operation `k`, field by field. */
  ghost predicate TellsFailure(changeset: ChangeSet, result: ApplyResult, k: nat, category: Category)
    requires k < |changeset.operations|
  {
    && result.changesetId == changeset.id
    && (result.outcome == NoneApplied <==> k == 0) && (result.outcome == Partial <==> k > 0)
    && |result.applied| == k && (forall i :: 0 <= i < k ==> result.applied[i] == i)
    && |result.remaining| == |changeset.operations| - k - 1
    && (forall i :: 0 <= i < |result.remaining| ==> result.remaining[i] == k + 1 + i)
    && result.failure == Some(Failure(k, category, changeset.operations[k].entityId))
    && (result.commitState == Some(Unconfirmed) <==> category == Storage)
    && (result.commitState == Some(NotWritten) <==> category != Storage)
  }

  ghost predicate TellsSuccess(changeset: ChangeSet, result: ApplyResult) {
    && result.changesetId == changeset.id && result.outcome == Applied
    && |result.applied| == |changeset.operations| && (forall i :: 0 <= i < |result.applied| ==> result.applied[i] == i)
    && result.remaining == [] && result.failure == None && result.commitState == None
  }

  /** Where the loop ends and what it answers. */
  ghost predicate EndsRightly(v: Vault, changeset: ChangeSet, context: ApplyContext, script: seq<Disturbance>, now: Vault, ending: ApplyEnding) {
    || (&& ending.Returned? && TellsSuccess(changeset, ending.result)
        && AfterOperations(v, changeset, context, script, |changeset.operations|) == Some(now))
    || exists k: nat, outcome :: k < |changeset.operations| && StopsAt(v, changeset, context, script, k, now, outcome)
                                 && EndingOf(changeset, k, outcome, ending)
  }

  ghost predicate EndingOf(changeset: ChangeSet, k: nat, outcome: Outcome, ending: ApplyEnding)
    requires k < |changeset.operations|
  {
    if outcome.Failed? then ending.Returned? && TellsFailure(changeset, ending.result, k, outcome.category) else ending == Crash
  }

  lemma {:induction false} LoopEndsRightly(v: Vault, changeset: ChangeSet, context: ApplyContext, script: seq<Disturbance>, i: nat, mid: Vault)
    requires i <= |changeset.operations| && AfterOperations(v, changeset, context, script, i) == Some(mid)
    ensures var (now, ending) := ApplyFrom(mid, changeset, context, script, i);
            EndsRightly(v, changeset, context, script, now, ending)
    decreases |changeset.operations| - i
  {
    if i < |changeset.operations| {
      var (next, outcome) := Mutate(mid, changeset.operations[i], PerOperationAudit(changeset, context, i), At(script, i));
      var (now, ending) := ApplyFrom(mid, changeset, context, script, i);
      if outcome.Done? {
        LoopEndsRightly(v, changeset, context, script, i + 1, next);
      } else {
        assert StopsAt(v, changeset, context, script, i, now, outcome) && EndingOf(changeset, i, outcome, ending);
      }
    }
  }

  /**
   An authorized, valid ChangeSet is applied up to the first operation that does
   not succeed.  The answer names that operation, its entity and the error of its
   mutation; it is unconfirmed for a storage error and not written for any other.
   */
  lemma ResultNamesFailure(v: Vault, changeset: ChangeSet, approval: Approval, context: ApplyContext, script: seq<Disturbance>)
    ensures var (now, ending) := ApplyAll(v, changeset, approval, context, script);
            && (ending.Refused? <==>
                  || !approval.approved || approval.changesetId != changeset.id || approval.fingerprint != ComputeFingerprint(changeset)
                  || Preflight.Executed(v.entities, changeset.operations, context.realTime, |changeset.operations|).Err?)
            && (!ending.Refused? ==> EndsRightly(v, changeset, context, script, now, ending))
            && (ending.Returned? ==>
                  && (ending.result.commitState == Some(Unconfirmed) <==>
                        ending.result.failure.Some? && ending.result.failure.value.category == Storage)
                  && (ending.result.commitState == Some(NotWritten) <==>
                        ending.result.failure.Some? && ending.result.failure.value.category != Storage))
  {
    LoopEndsRightly(v, changeset, context, script, 0, v);
    NeverRefuses(v, changeset, context, script, 0);
  }
}
