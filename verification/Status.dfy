/** The durable evidence of apply attempts, its correlation with the audit, and the gate before another apply. */
module Status {
  import opened Wrappers
  import opened Domain
  import opened Repository
  import opened Apply
  import OperationIds

  datatype Attempt = Attempt(
    changesetId: string, fingerprint: Fingerprint, outcome: ApplyOutcome,
    applied: seq<int>, remaining: seq<int>, failure: Option<Failure>,
    commitState: Option<CommitState>, source: string, realTime: int)

  /** Why one record cannot belong to the history of a ChangeSet; all are conflicts. */
  datatype Flaw =
    | WrongId | WrongFingerprint | OutOfRange | DuplicateIndices | OverlappingIndices
    | InconsistentApplied | NoFailure | InvalidCommitState | NonPrefix
    | FailureNotNext | InvalidRemaining | FailedWithApplied | PartialWithoutApplied

  predicate InRange(indices: seq<int>, total: nat) {
    forall k :: 0 <= k < |indices| ==> 0 <= indices[k] < total
  }

  predicate Distinct(indices: seq<int>) {
    forall j, k :: 0 <= j < k < |indices| ==> indices[j] != indices[k]
  }

  predicate Disjoint(a: seq<int>, b: seq<int>) {
    forall j, k :: 0 <= j < |a| && 0 <= k < |b| ==> a[j] != b[k]
  }

  function ValidateSingle(attempt: Attempt, changeset: ChangeSet): Option<Flaw> {
    var total := |changeset.operations|;
    var applied, remaining := attempt.applied, attempt.remaining;
    if attempt.changesetId != changeset.id then Some(WrongId)
    else if attempt.fingerprint != ComputeFingerprint(changeset) then Some(WrongFingerprint)
    else if !InRange(applied, total) || !InRange(remaining, total) then Some(OutOfRange)
    else if !Distinct(applied) || !Distinct(remaining) then Some(DuplicateIndices)
    else if !Disjoint(applied, remaining) then Some(OverlappingIndices)
    else if attempt.outcome.Applied? then
      if applied != Range(0, total) || remaining != [] || attempt.failure.Some? || attempt.commitState.Some?
      then Some(InconsistentApplied)
      else None
    else if attempt.failure.None? then Some(NoFailure)
    else if attempt.commitState != Some(NotWritten) && attempt.commitState != Some(Unconfirmed) then Some(InvalidCommitState)
    else if applied != Range(0, |applied|) then Some(NonPrefix)
    else if attempt.failure.value.operationIndex != |applied| then Some(FailureNotNext)
    else if remaining != Range(|applied| + 1, total) then Some(InvalidRemaining)
    else if attempt.outcome.NoneApplied? && applied != [] then Some(FailedWithApplied)
    else if attempt.outcome.Partial? && applied == [] then Some(PartialWithoutApplied)
    else None
  }

  /** The record of a run that stopped at operation `k`. */
  predicate StoppedAt(attempt: Attempt, total: nat, k: nat) {
    && attempt.outcome == (if k == 0 then NoneApplied else Partial)
    && attempt.applied == Range(0, k) && attempt.remaining == Range(k + 1, total)
    && attempt.failure.Some? && attempt.failure.value.operationIndex == k
    && (attempt.commitState == Some(NotWritten) || attempt.commitState == Some(Unconfirmed))
  }

  predicate FullyApplied(attempt: Attempt, total: nat) {
    && attempt.outcome == Applied && attempt.applied == Range(0, total) && attempt.remaining == []
    && attempt.failure == None && attempt.commitState == None
  }

  /**
   The record checks accept exactly the two shapes of a run: everything applied,
   or stopped at some `k`.  `k == total` slips through: nothing compares the
   failure index with the number of operations.
   */
  lemma ValidateSingleIff(attempt: Attempt, changeset: ChangeSet)
    ensures ValidateSingle(attempt, changeset) == None <==>
            && attempt.changesetId == changeset.id && attempt.fingerprint == ComputeFingerprint(changeset)
            && (FullyApplied(attempt, |changeset.operations|)
                || (|attempt.applied| <= |changeset.operations|
                    && StoppedAt(attempt, |changeset.operations|, |attempt.applied|)))
  {
    var applied := attempt.applied;
    if InRange(applied, |changeset.operations|) && applied == Range(0, |applied|) && applied != [] {
      assert applied[|applied| - 1] == |applied| - 1;
    }
  }

  /** For every ChangeSet there are such records: everything applied, and yet stopped behind the last operation. */
  lemma IndexPastTheEndIsAccepted(changeset: ChangeSet, failure: Failure, commitState: CommitState, source: string, realTime: int)
    requires failure.operationIndex == |changeset.operations| && (commitState == NotWritten || commitState == Unconfirmed)
    ensures ValidateSingle(PastTheEnd(changeset, failure, commitState, source, realTime), changeset) == None
  {
    var attempt := PastTheEnd(changeset, failure, commitState, source, realTime);
    ValidateSingleIff(attempt, changeset);
  }

  function PastTheEnd(changeset: ChangeSet, failure: Failure, commitState: CommitState, source: string, realTime: int): Attempt {
    Attempt(changeset.id, ComputeFingerprint(changeset), if changeset.operations == [] then NoneApplied else Partial,
            Range(0, |changeset.operations|), [], Some(failure), Some(commitState), source, realTime)
  }

  /** Apart from those, the failure index of an accepted record names an operation. */
  lemma IndexIsInRangeUnless(attempt: Attempt, changeset: ChangeSet)
    requires ValidateSingle(attempt, changeset) == None && attempt.failure.Some?
    ensures 0 <= attempt.failure.value.operationIndex <= |changeset.operations|
    ensures attempt.failure.value.operationIndex == |changeset.operations| <==> attempt.applied == Range(0, |changeset.operations|)
  {
    ValidateSingleIff(attempt, changeset);
  }

  predicate Terminal(attempt: Attempt) {
    !attempt.outcome.NoneApplied?
  }

  /** Every record is sound, and only the last may be terminal. */
  predicate HistoryValid(attempts: seq<Attempt>, changeset: ChangeSet) {
    && (forall k :: 0 <= k < |attempts| ==> ValidateSingle(attempts[k], changeset) == None)
    && (forall k :: 0 <= k < |attempts| - 1 ==> !Terminal(attempts[k]))
  }

  method ValidateAttemptHistory(attempts: seq<Attempt>, changeset: ChangeSet) returns (valid: bool)
    ensures valid <==> HistoryValid(attempts, changeset)
  {
    for k := 0 to |attempts|
      invariant forall j :: 0 <= j < k ==> ValidateSingle(attempts[j], changeset) == None
    {
      if ValidateSingle(attempts[k], changeset).Some? {
        return false;
      }
    }
    var front := attempts[..if attempts == [] then 0 else |attempts| - 1];
    for k := 0 to |front|
      invariant forall j :: 0 <= j < k ==> !Terminal(attempts[j])
    {
      if Terminal(front[k]) {
        return false;
      }
    }
    return true;
  }

  // Recording an attempt

  /** One attempt file; a damaged one is empty, malformed or has a partial last line. */
  datatype AttemptFile = AttemptFile(records: seq<Attempt>, damaged: bool)

  datatype RecordOutcome = Recorded | RecordConflict | RecordStorageError

  /** What an append does: how much of the line lands, and whether it reports an error. */
  datatype AppendFate = Confirmed | Uncertain(landing: Landing)

  function AttemptOf(changeset: ChangeSet, result: ApplyResult, source: string, realTime: int): Attempt {
    Attempt(changeset.id, ComputeFingerprint(changeset), result.outcome, result.applied, result.remaining,
            result.failure, result.commitState, source, realTime)
  }

  function FileOf(files: map<string, AttemptFile>, id: string): AttemptFile {
    if id in files then files[id] else AttemptFile([], false)
  }

  function AppendToFile(file: AttemptFile, attempt: Attempt, fate: AppendFate): AttemptFile {
    var landing := if fate.Confirmed? then Whole else fate.landing;
    match landing
    case Whole => file.(records := file.records + [attempt])
    case Part => file.(damaged := true)
    case Nothing => file
  }

  function Record(files: map<string, AttemptFile>, changeset: ChangeSet, result: ApplyResult,
                  source: string, realTime: int, fate: AppendFate): (map<string, AttemptFile>, RecordOutcome)
  {
    var file := FileOf(files, changeset.id);
    var attempt := AttemptOf(changeset, result, source, realTime);
    if file.damaged then (files, RecordStorageError)
    else if !HistoryValid(file.records, changeset)
         || (file.records != [] && Terminal(file.records[|file.records| - 1]))
         || ValidateSingle(attempt, changeset).Some? then (files, RecordConflict)
    else (files[changeset.id := AppendToFile(file, attempt, fate)],
          if fate.Confirmed? then Recorded else RecordStorageError)
  }

  class AttemptStore {
    var files: map<string, AttemptFile>

    constructor ()
      ensures files == map[]
    {
      files := map[];
    }

    method RecordApplyAttempt(changeset: ChangeSet, result: ApplyResult, source: string, realTime: int, fate: AppendFate)
      returns (outcome: RecordOutcome)
      modifies this
      ensures (files, outcome) == Record(old(files), changeset, result, source, realTime, fate)
    {
      var existing := FileOf(files, changeset.id);
      if existing.damaged {
        return RecordStorageError;
      }
      var valid := ValidateAttemptHistory(existing.records, changeset);
      if !valid {
        return RecordConflict;
      }
      if existing.records != [] && Terminal(existing.records[|existing.records| - 1]) {
        return RecordConflict;
      }
      var attempt := AttemptOf(changeset, result, source, realTime);
      if ValidateSingle(attempt, changeset).Some? {
        return RecordConflict;
      }
      files := files[changeset.id := AppendToFile(existing, attempt, fate)];
      return if fate.Confirmed? then Recorded else RecordStorageError;
    }
  }

  // Audit correlation

  datatype AuditState = Unattempted | IntentOnly | BothRecorded

  function StateOf(phases: seq<Phase>): Option<AuditState> {
    if phases == [] then Some(Unattempted)
    else if phases == [Intent] then Some(IntentOnly)
    else if phases == [Intent, Committed] then Some(BothRecorded)
    else None
  }

  /** The states of the first `k` operations, or the index of the first impossible phase sequence. */
  function CorrelateUpTo(changeset: ChangeSet, audit: seq<AuditRecord>, k: nat): Result<seq<AuditState>, nat> {
    if k == 0 then Ok([])
    else
      match CorrelateUpTo(changeset, audit, k - 1)
      case Err(index) => Err(index)
      case Ok(states) =>
        match StateOf(PhasesAt(changeset, audit, k - 1))
        case None => Err(k - 1)
        case Some(state) => Ok(states + [state])
  }

  function Correlate(changeset: ChangeSet, audit: seq<AuditRecord>): Result<seq<AuditState>, nat> {
    CorrelateUpTo(changeset, audit, |changeset.operations|)
  }

  predicate StartsWith(s: string, prefix: string) {
    prefix <= s
  }

  function Prefix(changeset: ChangeSet): string {
    changeset.id + [OperationIds.SEPARATOR]
  }

  /** The phases gathered under one id in the dictionary. */
  function Gathered(byId: map<string, seq<Phase>>, operationId: string): seq<Phase> {
    if operationId in byId then byId[operationId] else []
  }

  lemma {:induction false} FirstError(changeset: ChangeSet, audit: seq<AuditRecord>, k: nat, n: nat)
    requires k <= n && CorrelateUpTo(changeset, audit, k).Err?
    ensures CorrelateUpTo(changeset, audit, n) == CorrelateUpTo(changeset, audit, k)
  {
    if k < n {
      FirstError(changeset, audit, k, n - 1);
    }
  }

  /** One pass over the log into a dictionary, one pass over the operations. */
  method CorrelateAudit(changeset: ChangeSet, audit: seq<AuditRecord>) returns (r: Result<seq<AuditState>, nat>)
    ensures r == Correlate(changeset, audit)
  {
    var byId: map<string, seq<Phase>> := map[];
    for k := 0 to |audit|
      invariant forall id :: StartsWith(id, Prefix(changeset)) ==> Gathered(byId, id) == PhasesOf(audit[..k], id)
    {
      assert audit[..k + 1][..k] == audit[..k];
      if StartsWith(audit[k].operationId, Prefix(changeset)) {
        byId := byId[audit[k].operationId := Gathered(byId, audit[k].operationId) + [audit[k].phase]];
      }
    }
    assert audit[..|audit|] == audit;
    var states: seq<AuditState> := [];
    for k := 0 to |changeset.operations|
      invariant CorrelateUpTo(changeset, audit, k) == Ok(states)
    {
      var state := StateOf(Gathered(byId, OperationId(changeset, k)));
      if state.None? {
        FirstError(changeset, audit, k + 1, |changeset.operations|);
        return Err(k);
      }
      states := states + [state.value];
    }
    return Ok(states);
  }

  lemma {:induction false} CorrelateAt(changeset: ChangeSet, audit: seq<AuditRecord>, k: nat)
    ensures var r := CorrelateUpTo(changeset, audit, k);
            && (r.Ok? <==> forall j: nat :: j < k ==> Tidy(PhasesAt(changeset, audit, j)))
            && (r.Ok? ==> |r.value| == k && forall j :: 0 <= j < k ==> Some(r.value[j]) == StateOf(PhasesAt(changeset, audit, j)))
  {
    if k > 0 {
      CorrelateAt(changeset, audit, k - 1);
      assert OperationId(changeset, k - 1) == OperationId(changeset, k - 1);
    }
  }

  // Records of others

  predicate OwnRecord(changeset: ChangeSet, record: AuditRecord) {
    var parsed := OperationIds.Parse(record.operationId);
    parsed.Some? && parsed.value.changesetId == changeset.id && parsed.value.index < |changeset.operations|
  }

  /** The records whose operation id parses to one of the ChangeSet's own operations. */
  function OwnRecords(changeset: ChangeSet, audit: seq<AuditRecord>): seq<AuditRecord> {
    if audit == [] then []
    else
      var last := audit[|audit| - 1];
      OwnRecords(changeset, audit[..|audit| - 1]) + (if OwnRecord(changeset, last) then [last] else [])
  }

  lemma {:induction false} PhasesSnoc(audit: seq<AuditRecord>, record: AuditRecord, operationId: string)
    ensures PhasesOf(audit + [record], operationId)
         == PhasesOf(audit, operationId) + (if record.operationId == operationId then [record.phase] else [])
  {
    assert (audit + [record])[..|audit|] == audit;
  }

  /** A record of operation `j` is an own record; any other adds nothing to `j`. */
  lemma {:induction false} OwnSnoc(changeset: ChangeSet, front: seq<AuditRecord>, last: AuditRecord, j: nat)
    requires changeset.id != "" && j < |changeset.operations|
    ensures PhasesAt(changeset, OwnRecords(changeset, front + [last]), j)
         == PhasesAt(changeset, OwnRecords(changeset, front), j) + (if last.operationId == OperationId(changeset, j) then [last.phase] else [])
  {
    var own := OwnRecords(changeset, front);
    assert (front + [last])[..|front|] == front;
    OperationIds.ParseFormat(changeset.id, j);
    if OwnRecord(changeset, last) {
      PhasesSnoc(own, last, OperationId(changeset, j));
    } else {
      assert own + [] == own;
    }
  }

  lemma {:induction false} OwnPhases(changeset: ChangeSet, audit: seq<AuditRecord>, j: nat)
    requires changeset.id != "" && j < |changeset.operations|
    ensures PhasesAt(changeset, OwnRecords(changeset, audit), j) == PhasesAt(changeset, audit, j)
  {
    if audit != [] {
      var front, last := audit[..|audit| - 1], audit[|audit| - 1];
      OwnPhases(changeset, front, j);
      OwnSnoc(changeset, front, last, j);
      PhasesSnoc(front, last, OperationId(changeset, j));
      assert audit == front + [last];
    }
  }

  lemma {:induction false} SamePhasesSameStates(changeset: ChangeSet, a: seq<AuditRecord>, b: seq<AuditRecord>, k: nat)
    requires forall j: nat :: j < k ==> PhasesAt(changeset, a, j) == PhasesAt(changeset, b, j)
    ensures CorrelateUpTo(changeset, a, k) == CorrelateUpTo(changeset, b, k)
  {
    if k > 0 {
      SamePhasesSameStates(changeset, a, b, k - 1);
      assert OperationId(changeset, k - 1) == OperationId(changeset, k - 1);
    }
  }

  /**
   Correlation sees the ChangeSet's own records and nothing else, wherever in the
   log they stand; another ChangeSet's records do not matter, even when its id
   extends this one past a colon.
   */
  lemma {:induction false} CorrelateIgnoresOthers(changeset: ChangeSet, audit: seq<AuditRecord>)
    requires changeset.id != ""
    ensures Correlate(changeset, audit) == Correlate(changeset, OwnRecords(changeset, audit))
  {
    forall j: nat | j < |changeset.operations|
      ensures PhasesAt(changeset, audit, j) == PhasesAt(changeset, OwnRecords(changeset, audit), j)
    {
      OwnPhases(changeset, audit, j);
    }
    SamePhasesSameStates(changeset, audit, OwnRecords(changeset, audit), |changeset.operations|);
  }

  lemma OthersAreNotOwn(changeset: ChangeSet, other: ChangeSet, i: nat, record: AuditRecord)
    requires changeset.id != other.id && other.id != "" && record.operationId == OperationId(other, i)
    ensures !OwnRecord(changeset, record)
  {
    OperationIds.ParseFormat(other.id, i);
  }

  // The applicability gate

  datatype Refusal =
    | InvalidHistory | ImpossiblePhases | AlreadyApplied | UnresolvedPartial
    | UnconfirmedAttempt | UnresolvedIntent | CommittedEvidence

  function Gate(changeset: ChangeSet, attempts: seq<Attempt>, audit: seq<AuditRecord>): Option<Refusal> {
    if !HistoryValid(attempts, changeset) then Some(InvalidHistory)
    else
      match Correlate(changeset, audit)
      case Err(_) => Some(ImpossiblePhases)
      case Ok(states) =>
        if attempts != [] && attempts[|attempts| - 1].outcome.Applied? then Some(AlreadyApplied)
        else if attempts != [] && attempts[|attempts| - 1].outcome.Partial? then Some(UnresolvedPartial)
        else if attempts != [] && attempts[|attempts| - 1].commitState == Some(Unconfirmed) then Some(UnconfirmedAttempt)
        else if IntentOnly in states then Some(UnresolvedIntent)
        else if BothRecorded in states then Some(CommittedEvidence)
        else None
  }

  /** A valid history whose last record, if any, failed with nothing written. */
  predicate RetryableHistory(attempts: seq<Attempt>, changeset: ChangeSet) {
    && HistoryValid(attempts, changeset)
    && (attempts != [] ==>
          var last := attempts[|attempts| - 1];
          last.outcome.NoneApplied? && last.commitState == Some(NotWritten))
  }

  /**
   The gate opens exactly for a retryable history and a log without a single
   record of the ChangeSet's operations.
   */
  lemma GateIff(changeset: ChangeSet, attempts: seq<Attempt>, audit: seq<AuditRecord>)
    ensures Gate(changeset, attempts, audit).None? <==>
            RetryableHistory(attempts, changeset) && Unused(audit, changeset, 0)
  {
    CorrelateAt(changeset, audit, |changeset.operations|);
    var r := Correlate(changeset, audit);
    forall j: nat | j < |changeset.operations|
      ensures PhasesAt(changeset, audit, j) == [] <==> !IdUsed(audit, OperationId(changeset, j))
    {
      PhasesOfNone(audit, OperationId(changeset, j));
    }
    if r.Ok? && Unused(audit, changeset, 0) {
      forall j | 0 <= j < |r.value|
        ensures r.value[j] == Unattempted
      {
        assert PhasesAt(changeset, audit, j) == [];
      }
    }
    if Gate(changeset, attempts, audit).None? {
      forall j: nat | j < |changeset.operations|
        ensures !IdUsed(audit, OperationId(changeset, j))
      {
        assert r.value[j] in r.value;
      }
      if attempts != [] {
        ValidateSingleIff(attempts[|attempts| - 1], changeset);
      }
    }
  }

  /** One own record, and the gate refuses for every history and every longer log. */
  lemma RefusedForGood(changeset: ChangeSet, attempts: seq<Attempt>, audit: seq<AuditRecord>, later: seq<AuditRecord>, j: nat)
    requires j < |changeset.operations| && IdUsed(audit, OperationId(changeset, j)) && audit <= later
    ensures Gate(changeset, attempts, later).Some?
  {
    var k :| 0 <= k < |audit| && audit[k].operationId == OperationId(changeset, j);
    assert later[k].operationId == OperationId(changeset, j);
    GateIff(changeset, attempts, later);
  }

  // The gate against the applier

  lemma {:induction false} ReturnedShapes(v: Vault, changeset: ChangeSet, context: ApplyContext, script: seq<Disturbance>, i: nat)
    requires i <= |changeset.operations|
    ensures var ending := ApplyFrom(v, changeset, context, script, i).1;
            ending.Returned? ==>
              || ending.result == FullResult(changeset)
              || exists k: nat, category :: k < |changeset.operations| && ending.result == StoppedResult(changeset, k, category)
    decreases |changeset.operations| - i
  {
    if i < |changeset.operations| {
      var (mid, outcome) := Mutate(v, changeset.operations[i], PerOperationAudit(changeset, context, i), At(script, i));
      if outcome.Done? {
        ReturnedShapes(mid, changeset, context, script, i + 1);
      }
    }
  }

  /** Everything the applier can return passes the record checks. */
  lemma ResultsAreRecordable(v: Vault, changeset: ChangeSet, approval: Approval, context: ApplyContext, script: seq<Disturbance>)
    ensures var ending := ApplyAll(v, changeset, approval, context, script).1;
            ending.Returned? ==>
              ValidateSingle(AttemptOf(changeset, ending.result, context.source, context.realTime), changeset) == None
  {
    var ending := ApplyAll(v, changeset, approval, context, script).1;
    if ending.Returned? {
      ReturnedShapes(v, changeset, context, script, 0);
      ValidateSingleIff(AttemptOf(changeset, ending.result, context.source, context.realTime), changeset);
    }
  }

  /** After an open gate the record of the apply is never refused as a conflict. */
  lemma GatedApplyIsRecorded(files: map<string, AttemptFile>, v: Vault, audit: seq<AuditRecord>, changeset: ChangeSet,
                             approval: Approval, context: ApplyContext, script: seq<Disturbance>, fate: AppendFate)
    requires !FileOf(files, changeset.id).damaged
    requires Gate(changeset, FileOf(files, changeset.id).records, audit).None?
    ensures var ending := ApplyAll(v, changeset, approval, context, script).1;
            ending.Returned? ==>
              var (files', outcome) := Record(files, changeset, ending.result, context.source, context.realTime, fate);
              && outcome == (if fate.Confirmed? then Recorded else RecordStorageError)
              && (fate.Confirmed? ==>
                    FileOf(files', changeset.id).records
                    == FileOf(files, changeset.id).records + [AttemptOf(changeset, ending.result, context.source, context.realTime)])
  {
    GateIff(changeset, FileOf(files, changeset.id).records, audit);
    ResultsAreRecordable(v, changeset, approval, context, script);
  }

  /**
   After a gated apply whose result has been recorded the gate is open again
   exactly if the apply failed with an error other than a storage error before
   it left anything in the log.  Only the first operation can end so.
   */
  lemma RetryIffNothingHappened(files: map<string, AttemptFile>, v: Vault, changeset: ChangeSet, approval: Approval,
                                context: ApplyContext, script: seq<Disturbance>, fate: AppendFate)
    requires !FileOf(files, changeset.id).damaged
    requires Gate(changeset, FileOf(files, changeset.id).records, v.audit).None?
    requires ApplyAll(v, changeset, approval, context, script).1.Returned?
    ensures var (v', ending) := ApplyAll(v, changeset, approval, context, script);
            var (files', outcome) := Record(files, changeset, ending.result, context.source, context.realTime, fate);
            outcome == Recorded ==>
              && (Gate(changeset, FileOf(files', changeset.id).records, v'.audit).None? <==>
                    && ending.result.failure.Some? && ending.result.failure.value.category != Storage && v'.audit == v.audit)
              && (Gate(changeset, FileOf(files', changeset.id).records, v'.audit).None? ==> ending.result.failure.value.operationIndex == 0)
  {
    var (v', ending) := ApplyAll(v, changeset, approval, context, script);
    var (files', outcome) := Record(files, changeset, ending.result, context.source, context.realTime, fate);
    if outcome == Recorded {
      GatedApplyIsRecorded(files, v, v.audit, changeset, approval, context, script, fate);
      var before, after := FileOf(files, changeset.id).records, FileOf(files', changeset.id).records;
      GateIff(changeset, before, v.audit);
      GateIff(changeset, after, v'.audit);
      ApplyIsTruthful(v, changeset, approval, context, script);
      ResultNamesFailure(v, changeset, approval, context, script);
      ResultsAreRecordable(v, changeset, approval, context, script);
      NewRecords(v, v', changeset, ending);
      OneMoreAttempt(before, AttemptOf(changeset, ending.result, context.source, context.realTime), changeset);
    }
  }

  /** A conflict, say, met at the first operation before its intent: once the failure is recorded, the ChangeSet may be tried again. */
  lemma StopBeforeIntentIsRetried(files: map<string, AttemptFile>, v: Vault, changeset: ChangeSet, approval: Approval,
                                  context: ApplyContext, script: seq<Disturbance>, category: Category, fate: AppendFate)
    requires !FileOf(files, changeset.id).damaged && changeset.operations != []
    requires Gate(changeset, FileOf(files, changeset.id).records, v.audit).None?
    requires !ApplyAll(v, changeset, approval, context, script).1.Refused?
    requires script != [] && script[0] == Stopped(BeforeIntent, Raised(category)) && category != Storage
    ensures var (v', ending) := ApplyAll(v, changeset, approval, context, script);
            && v' == v && ending.Returned? && ending.result.commitState == Some(NotWritten)
            && var (files', outcome) := Record(files, changeset, ending.result, context.source, context.realTime, fate);
            outcome == Recorded ==> Gate(changeset, FileOf(files', changeset.id).records, v'.audit).None?
  {
    RetryIffNothingHappened(files, v, changeset, approval, context, script, fate);
  }

  /** The run left no record of its own exactly if it left no record. */
  lemma NewRecords(v: Vault, v': Vault, changeset: ChangeSet, ending: ApplyEnding)
    requires RunLeaves(changeset, v, v', 0, ending) && Unused(v.audit, changeset, 0) && ending.Returned?
    ensures Unused(v'.audit, changeset, 0) <==> v'.audit == v.audit
    ensures v'.audit == v.audit ==> ending.result.applied == []
  {
    var records := Suffix(v'.audit, v.audit);
    assert v'.audit == v.audit + records;
    if records != [] {
      assert Own(changeset, 0, records[0].operationId);
      var j: nat :| j < |changeset.operations| && records[0].operationId == OperationId(changeset, j);
      assert v'.audit[|v.audit|].operationId == OperationId(changeset, j);
      assert IdUsed(v'.audit, OperationId(changeset, j));
    }
    assert PhasesAt(changeset, [], 0) == [];
  }

  lemma OneMoreAttempt(attempts: seq<Attempt>, attempt: Attempt, changeset: ChangeSet)
    requires RetryableHistory(attempts, changeset) && ValidateSingle(attempt, changeset) == None
    ensures RetryableHistory(attempts + [attempt], changeset) <==> attempt.outcome.NoneApplied? && attempt.commitState == Some(NotWritten)
  {
    var more := attempts + [attempt];
    assert forall k :: 0 <= k < |attempts| ==> more[k] == attempts[k];
    assert forall k :: 0 <= k < |attempts| - 1 ==> !Terminal(attempts[k]);
    assert attempts != [] ==> !Terminal(attempts[|attempts| - 1]);
  }

  // Why the gate refuses, and what a record becomes

  /** The last record, if there is one, is of this kind. */
  predicate EndsIn(attempts: seq<Attempt>, outcome: ApplyOutcome) {
    attempts != [] && attempts[|attempts| - 1].outcome == outcome
  }

  /** Some operation has exactly these phases in the log. */
  ghost predicate SomePhases(changeset: ChangeSet, audit: seq<AuditRecord>, phases: seq<Phase>) {
    exists j: nat :: j < |changeset.operations| && PhasesAt(changeset, audit, j) == phases
  }

  ghost predicate AllTidy(changeset: ChangeSet, audit: seq<AuditRecord>) {
    forall j: nat :: j < |changeset.operations| ==> Tidy(PhasesAt(changeset, audit, j))
  }

  /** The refusal of the first check that fails. */
  ghost predicate RefusesFor(changeset: ChangeSet, attempts: seq<Attempt>, audit: seq<AuditRecord>, refusal: Refusal) {
    if !HistoryValid(attempts, changeset) then refusal == InvalidHistory
    else if !AllTidy(changeset, audit) then refusal == ImpossiblePhases
    else if EndsIn(attempts, Applied) then refusal == AlreadyApplied
    else if EndsIn(attempts, Partial) then refusal == UnresolvedPartial
    else if attempts != [] && attempts[|attempts| - 1].commitState == Some(Unconfirmed) then refusal == UnconfirmedAttempt
    else if SomePhases(changeset, audit, [Intent]) then refusal == UnresolvedIntent
    else SomePhases(changeset, audit, [Intent, Committed]) && refusal == CommittedEvidence
  }

  lemma StatesAre(changeset: ChangeSet, audit: seq<AuditRecord>)
    ensures Correlate(changeset, audit).Ok? <==> AllTidy(changeset, audit)
    ensures Correlate(changeset, audit).Ok? ==>
              && (IntentOnly in Correlate(changeset, audit).value <==> SomePhases(changeset, audit, [Intent]))
              && (BothRecorded in Correlate(changeset, audit).value <==> SomePhases(changeset, audit, [Intent, Committed]))
  {
    CorrelateAt(changeset, audit, |changeset.operations|);
    var r := Correlate(changeset, audit);
    if r.Ok? {
      forall j: nat | j < |changeset.operations|
        ensures r.value[j] == IntentOnly <==> PhasesAt(changeset, audit, j) == [Intent]
        ensures r.value[j] == BothRecorded <==> PhasesAt(changeset, audit, j) == [Intent, Committed]
      {
        assert Tidy(PhasesAt(changeset, audit, j));
      }
      if SomePhases(changeset, audit, [Intent]) {
        var j: nat :| j < |changeset.operations| && PhasesAt(changeset, audit, j) == [Intent];
        assert r.value[j] == IntentOnly;
      }
      if SomePhases(changeset, audit, [Intent, Committed]) {
        var j: nat :| j < |changeset.operations| && PhasesAt(changeset, audit, j) == [Intent, Committed];
        assert r.value[j] == BothRecorded;
      }
    }
  }

  /** The gate refuses with the reason of its first failing check, and with no other. */
  lemma GateRefusesFor(changeset: ChangeSet, attempts: seq<Attempt>, audit: seq<AuditRecord>)
    ensures forall refusal :: Gate(changeset, attempts, audit) == Some(refusal) <==> RefusesFor(changeset, attempts, audit, refusal)
  {
    StatesAre(changeset, audit);
  }

  /** A record is taken over field by field from the result, for this ChangeSet. */
  predicate RecordsResult(attempt: Attempt, changeset: ChangeSet, result: ApplyResult, source: string, realTime: int) {
    && attempt.changesetId == changeset.id && attempt.fingerprint == ComputeFingerprint(changeset)
    && attempt.outcome == result.outcome && attempt.applied == result.applied && attempt.remaining == result.remaining
    && attempt.failure == result.failure && attempt.commitState == result.commitState
    && attempt.source == source && attempt.realTime == realTime
  }

  /** The history takes no further record: it is unsound, ends for good, or the record itself is unsound. */
  predicate TakesNoMore(attempts: seq<Attempt>, attempt: Attempt, changeset: ChangeSet) {
    || (exists k :: 0 <= k < |attempts| && ValidateSingle(attempts[k], changeset).Some?)
    || (exists k :: 0 <= k < |attempts| && (attempts[k].outcome == Applied || attempts[k].outcome == Partial))
    || ValidateSingle(attempt, changeset).Some?
  }

  /**
   Recording an attempt: a damaged file refuses with a storage error, a history
   that takes no more with a conflict, and both leave the files alone.  Otherwise
   exactly this ChangeSet's file gains the record of the result, as far as the append lands.
   */
  lemma RecordIff(files: map<string, AttemptFile>, changeset: ChangeSet, result: ApplyResult, source: string, realTime: int, fate: AppendFate)
    ensures exists attempt ::
              && RecordsResult(attempt, changeset, result, source, realTime)
              && Answers(files, changeset, attempt, fate, Record(files, changeset, result, source, realTime, fate))
  {
    var attempt := AttemptOf(changeset, result, source, realTime);
    var attempts := FileOf(files, changeset.id).records;
    assert RecordsResult(attempt, changeset, result, source, realTime);
    if exists k :: 0 <= k < |attempts| && (attempts[k].outcome == Applied || attempts[k].outcome == Partial) {
      var k :| 0 <= k < |attempts| && (attempts[k].outcome == Applied || attempts[k].outcome == Partial);
      assert Terminal(attempts[k]);
    }
    assert forall k :: 0 <= k < |attempts| && Terminal(attempts[k]) ==> attempts[k].outcome == Applied || attempts[k].outcome == Partial;
    assert Answers(files, changeset, attempt, fate, Record(files, changeset, result, source, realTime, fate));
  }

  predicate Answers(files: map<string, AttemptFile>, changeset: ChangeSet, attempt: Attempt, fate: AppendFate,
                      answer: (map<string, AttemptFile>, RecordOutcome))
  {
    var file := FileOf(files, changeset.id);
    if file.damaged then answer == (files, RecordStorageError)
    else if TakesNoMore(file.records, attempt, changeset) then answer == (files, RecordConflict)
    else
      && (answer.1 == Recorded <==> fate.Confirmed?) && (answer.1 == RecordStorageError <==> !fate.Confirmed?)
      && answer.0 == files[changeset.id := FileOf(answer.0, changeset.id)]
      && FileOf(answer.0, changeset.id).records
         == file.records + (if fate.Confirmed? || fate == Uncertain(Whole) then [attempt] else [])
      && (FileOf(answer.0, changeset.id).damaged <==> fate == Uncertain(Part))
  }
}
