/** Which unresolved audit intents the ChangeSet workflow owns, so that they need not block every other mutation. */
module Recovery {
  import opened Wrappers
  import opened Domain
  import opened Repository
  import opened Apply
  import opened Status
  import OperationIds

  const UNRESOLVED_INTENT := "unresolved_audit_intent"

  datatype RecoveryIssue = RecoveryIssue(code: string, sessionId: Option<string>, operationId: Option<string>)

  /** What the proposal store finds under an id. */
  datatype ProposalFile = Unreadable | Absent | Malformed | Stored(changeset: ChangeSet)

  datatype Verdict = Owned | NotOwned | Unclear

  function Lookup(store: map<string, ProposalFile>, id: string): ProposalFile {
    if id in store then store[id] else Absent
  }

  function Matching(audit: seq<AuditRecord>, operationId: string): seq<AuditRecord> {
    if audit == [] then []
    else
      var last := audit[|audit| - 1];
      Matching(audit[..|audit| - 1], operationId) + (if last.operationId == operationId then [last] else [])
  }

  function WithPhase(records: seq<AuditRecord>, phase: Phase): seq<AuditRecord> {
    if records == [] then []
    else
      var last := records[|records| - 1];
      WithPhase(records[..|records| - 1], phase) + (if last.phase == phase then [last] else [])
  }

  function Classify(issue: RecoveryIssue, audit: seq<AuditRecord>, store: map<string, ProposalFile>): Verdict {
    if issue.code != UNRESOLVED_INTENT || issue.operationId.None? || issue.operationId.value == "" then NotOwned
    else
      match OperationIds.Parse(issue.operationId.value)
      case None => NotOwned
      case Some(parsed) =>
        match Lookup(store, parsed.changesetId)
        case Absent => NotOwned
        case Unreadable => Unclear
        case Malformed => Unclear
        case Stored(changeset) =>
          if changeset.id != parsed.changesetId || parsed.index >= |changeset.operations| then Unclear
          else if issue.sessionId.None? || changeset.sessionRef != issue.sessionId then Unclear
          else ClassifyRecords(issue, Matching(audit, issue.operationId.value), changeset.operations[parsed.index])
  }

  function ClassifyRecords(issue: RecoveryIssue, matching: seq<AuditRecord>, op: Operation): Verdict {
    var intents := WithPhase(matching, Intent);
    if |intents| != 1 || WithPhase(matching, Committed) != [] then Unclear
    else if intents[0].session != issue.sessionId then Unclear
    else if intents[0].operation != AuditOperation(op) || intents[0].entityId != op.entityId then Unclear
    else Owned
  }

  lemma {:induction false} MatchingPhases(audit: seq<AuditRecord>, operationId: string)
    ensures |PhasesOf(audit, operationId)| == |Matching(audit, operationId)|
    ensures forall k :: 0 <= k < |Matching(audit, operationId)| ==>
              && Matching(audit, operationId)[k].phase == PhasesOf(audit, operationId)[k]
              && Matching(audit, operationId)[k].operationId == operationId
              && Matching(audit, operationId)[k] in audit
  {
    if audit != [] {
      MatchingPhases(audit[..|audit| - 1], operationId);
    }
  }

  lemma {:induction false} PhaseSplit(records: seq<AuditRecord>)
    ensures |WithPhase(records, Intent)| + |WithPhase(records, Committed)| == |records|
    ensures WithPhase(records, Committed) == [] ==> WithPhase(records, Intent) == records
    ensures forall k :: 0 <= k < |records| && records[k].phase == Committed ==> WithPhase(records, Committed) != []
  {
    if records != [] {
      PhaseSplit(records[..|records| - 1]);
    }
  }

  /** The log shows the operation announced once, by a record that fits the proposal, and never committed. */
  ghost predicate AnnouncedOnly(audit: seq<AuditRecord>, changeset: ChangeSet, index: nat)
    requires index < |changeset.operations|
  {
    && PhasesAt(changeset, audit, index) == [Intent]
    && var record := Matching(audit, OperationId(changeset, index));
       && |record| == 1 && record[0].session == changeset.sessionRef
       && record[0].operation == AuditOperation(changeset.operations[index])
       && record[0].entityId == changeset.operations[index].entityId
  }

  lemma {:induction false} OneIntent(matching: seq<AuditRecord>)
    ensures |WithPhase(matching, Intent)| == 1 && WithPhase(matching, Committed) == [] <==> |matching| == 1 && matching[0].phase == Intent
    ensures |WithPhase(matching, Intent)| == 1 && WithPhase(matching, Committed) == [] ==> WithPhase(matching, Intent) == matching
  {
    PhaseSplit(matching);
    if |matching| == 1 && WithPhase(matching, Committed) != [] {
      assert matching[..0] == [];
    }
  }

  /**
   An issue is owned exactly when its operation id is the canonical id of an
   operation of a stored proposal of the issue's session, and the log shows that
   operation announced only.
   */
  lemma OwnedIff(issue: RecoveryIssue, audit: seq<AuditRecord>, store: map<string, ProposalFile>, id: string, index: nat)
    requires issue.operationId == Some(OperationIds.Format(id, index)) && id != ""
    ensures Classify(issue, audit, store) == Owned <==>
            && issue.code == "unresolved_audit_intent"
            && Lookup(store, id).Stored?
            && var changeset := Lookup(store, id).changeset;
               && changeset.id == id && index < |changeset.operations|
               && issue.sessionId.Some? && issue.sessionId == changeset.sessionRef
               && AnnouncedOnly(audit, changeset, index)
  {
    OperationIds.ParseFormat(id, index);
    MatchingPhases(audit, issue.operationId.value);
    OneIntent(Matching(audit, issue.operationId.value));
  }

  /** An owned issue names a stored proposal and one of its operations. */
  lemma OwnedNamesOperation(issue: RecoveryIssue, audit: seq<AuditRecord>, store: map<string, ProposalFile>)
    returns (id: string, index: nat)
    requires Classify(issue, audit, store) == Owned
    ensures issue.operationId == Some(OperationIds.Format(id, index)) && id != ""
    ensures Lookup(store, id).Stored? && index < |Lookup(store, id).changeset.operations|
    ensures Lookup(store, id).changeset.id == id
  {
    var parsed := OperationIds.Parse(issue.operationId.value).value;
    OperationIds.FormatParse(issue.operationId.value);
    return parsed.changesetId, parsed.index;
  }

  /**
   Delegation is safe: the gate refuses the owner of a delegated intent whatever
   its attempt history and however the log grows.
   */
  lemma DelegationIsSafe(issue: RecoveryIssue, audit: seq<AuditRecord>, store: map<string, ProposalFile>,
                         attempts: seq<Attempt>, later: seq<AuditRecord>)
    requires Classify(issue, audit, store) == Owned && audit <= later
    ensures var id := OperationIds.Parse(issue.operationId.value).value.changesetId;
            Gate(Lookup(store, id).changeset, attempts, later).Some?
  {
    var id, index := OwnedNamesOperation(issue, audit, store);
    var changeset := Lookup(store, id).changeset;
    OperationIds.ParseFormat(id, index);
    OwnedIff(issue, audit, store, id, index);
    PhasesOfNone(audit, OperationId(changeset, index));
    RefusedForGood(changeset, attempts, audit, later, index);
  }

  // Every intent the applier leaves is recognized

  /** A record the applier writes for one of the operations. */
  ghost predicate Authored(changeset: ChangeSet, context: ApplyContext, record: AuditRecord) {
    exists j: nat, phase ::
      j < |changeset.operations| && record == RecordOf(changeset.operations[j], PerOperationAudit(changeset, context, j), phase)
  }

  lemma AuthoredTrace(changeset: ChangeSet, context: ApplyContext, trace: Trace, i: nat)
    requires i < |changeset.operations|
    ensures forall record :: record in TraceRecords(changeset.operations[i], PerOperationAudit(changeset, context, i), trace) ==>
              Authored(changeset, context, record)
  {
    var op, audit := changeset.operations[i], PerOperationAudit(changeset, context, i);
    assert Authored(changeset, context, RecordOf(op, audit, Intent));
    assert Authored(changeset, context, RecordOf(op, audit, Committed));
  }

  lemma {:induction false} RunIsAuthored(v: Vault, changeset: ChangeSet, context: ApplyContext, script: seq<Disturbance>, i: nat)
    requires i <= |changeset.operations|
    ensures var audit := ApplyFrom(v, changeset, context, script, i).0.audit;
            forall record :: record in audit ==> record in v.audit || Authored(changeset, context, record)
    decreases |changeset.operations| - i
  {
    if i < |changeset.operations| {
      var op, audit := changeset.operations[i], PerOperationAudit(changeset, context, i);
      var (mid, outcome) := Mutate(v, op, audit, At(script, i));
      var trace, _ := MutateShape(v, op, audit, At(script, i));
      AuthoredTrace(changeset, context, trace, i);
      if outcome.Done? {
        RunIsAuthored(mid, changeset, context, script, i + 1);
      }
    }
  }

  /**
   Whatever stops an apply that started from an unused log, an intent it leaves
   unresolved is recognized as the ChangeSet's own.
   */
  lemma LeftIntentIsOwned(v: Vault, changeset: ChangeSet, approval: Approval, context: ApplyContext, script: seq<Disturbance>,
                          store: map<string, ProposalFile>, issue: RecoveryIssue, index: nat)
    requires changeset.id != "" && Lookup(store, changeset.id) == Stored(changeset) && Unused(v.audit, changeset, 0)
    requires index < |changeset.operations|
    requires issue == RecoveryIssue(UNRESOLVED_INTENT, changeset.sessionRef, Some(OperationId(changeset, index)))
    requires changeset.sessionRef.Some?
    ensures var after := ApplyAll(v, changeset, approval, context, script).0.audit;
            PhasesAt(changeset, after, index) == [Intent] ==> Classify(issue, after, store) == Owned
  {
    var after := ApplyAll(v, changeset, approval, context, script).0.audit;
    if PhasesAt(changeset, after, index) == [Intent] {
      RunIsAuthored(v, changeset, context, script, 0);
      OwnedIff(issue, after, store, changeset.id, index);
      MatchingPhases(after, OperationId(changeset, index));
      var record := Matching(after, OperationId(changeset, index))[0];
      assert !IdUsed(v.audit, OperationId(changeset, index));
      assert Authored(changeset, context, record);
      var j: nat, phase :| j < |changeset.operations| && record == RecordOf(changeset.operations[j], PerOperationAudit(changeset, context, j), phase);
      OperationIds.FormatInjective(changeset.id, j, changeset.id, index);
    }
  }

  // Partition of a recovery report

  predicate IsOwned(issue: RecoveryIssue, log: Option<seq<AuditRecord>>, store: map<string, ProposalFile>) {
    log.Some? && Classify(issue, log.value, store) == Owned
  }

  /** Which list the issue at each position goes to; an unreadable log owns nothing. */
  function Route(issues: seq<RecoveryIssue>, log: Option<seq<AuditRecord>>, store: map<string, ProposalFile>): seq<bool> {
    seq(|issues|, i requires 0 <= i < |issues| => IsOwned(issues[i], log, store))
  }

  /** The items among the first `k` that a route sends one way, in order. */
  function Routed<T>(items: seq<T>, route: seq<bool>, way: bool, k: nat): seq<T>
    requires k <= |items| == |route|
  {
    if k == 0 then []
    else Routed(items, route, way, k - 1) + (if route[k - 1] == way then [items[k - 1]] else [])
  }

  method Partition(issues: seq<RecoveryIssue>, log: Option<seq<AuditRecord>>, store: map<string, ProposalFile>)
    returns (blocking: seq<RecoveryIssue>, delegated: seq<RecoveryIssue>)
    ensures blocking == Routed(issues, Route(issues, log, store), false, |issues|)
    ensures delegated == Routed(issues, Route(issues, log, store), true, |issues|)
    ensures log.None? ==> blocking == issues && delegated == []
  {
    blocking, delegated := [], [];
    for k := 0 to |issues|
      invariant blocking == Routed(issues, Route(issues, log, store), false, k)
      invariant delegated == Routed(issues, Route(issues, log, store), true, k)
      invariant log.None? ==> blocking == issues[..k] && delegated == []
    {
      if log.Some? && Classify(issues[k], log.value, store) == Owned {
        delegated := delegated + [issues[k]];
      } else {
        blocking := blocking + [issues[k]];
      }
    }
  }

  /** How many of the first `k` positions go one way. */
  function Count(route: seq<bool>, way: bool, k: nat): nat
    requires k <= |route|
  {
    if k == 0 then 0 else Count(route, way, k - 1) + (if route[k - 1] == way then 1 else 0)
  }

  lemma {:induction false} CountsAddUp(route: seq<bool>, k: nat)
    requires k <= |route|
    ensures Count(route, false, k) + Count(route, true, k) == k
  {
    if k > 0 {
      CountsAddUp(route, k - 1);
    }
  }

  lemma {:induction false} RoutedLength<T>(items: seq<T>, route: seq<bool>, way: bool, n: nat)
    requires n <= |items| == |route|
    ensures |Routed(items, route, way, n)| == Count(route, way, n)
  {
    if n > 0 {
      RoutedLength(items, route, way, n - 1);
    }
  }

  ghost predicate StandsAt<T>(list: seq<T>, position: nat, item: T) {
    position < |list| && list[position] == item
  }

  lemma {:induction false} RoutedAt<T>(items: seq<T>, route: seq<bool>, n: nat, k: nat)
    requires k < n <= |items| == |route|
    ensures StandsAt(Routed(items, route, route[k], n), Count(route, route[k], k), items[k])
  {
    RoutedLength(items, route, route[k], n - 1);
    if k < n - 1 {
      RoutedAt(items, route, n - 1, k);
    }
  }

  /**
   Nothing is lost, repeated or reordered: the two lists together are as long as
   the report, and each issue stands in its list behind exactly the earlier
   issues that went the same way.
   */
  lemma {:induction false} PartitionKeepsEveryIssue(issues: seq<RecoveryIssue>, log: Option<seq<AuditRecord>>, store: map<string, ProposalFile>)
    ensures var route := Route(issues, log, store);
            var blocking, delegated := Routed(issues, route, false, |issues|), Routed(issues, route, true, |issues|);
            && |blocking| + |delegated| == |issues|
            && forall k :: 0 <= k < |issues| ==>
                 StandsAt(if route[k] then delegated else blocking, Count(route, route[k], k), issues[k])
  {
    var route := Route(issues, log, store);
    CountsAddUp(route, |issues|);
    RoutedLength(issues, route, false, |issues|);
    RoutedLength(issues, route, true, |issues|);
    forall k | 0 <= k < |issues|
      ensures StandsAt(Routed(issues, route, route[k], |issues|), Count(route, route[k], k), issues[k])
    {
      RoutedAt(issues, route, |issues|, k);
    }
  }
}
