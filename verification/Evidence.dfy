/**
 The evidence record kept beside a bootstrap proposal, and its validation against
 proposal and sources.
 */
module Evidence {
  import opened Wrappers
  import opened Domain
  import opened Canonical
  import Binding
  import Bootstrap
  import Batching
  import Ordering

  datatype SourceDescriptor = SourceDescriptor(
    sourceRef: string, path: string, cls: Batching.SourceClass, size: nat, contentHash: Option<string>, skip: Option<Batching.SkipReason>)

  /** The prepared model input: its fingerprint is an arbitrary function of what is described. */
  datatype Projection = Projection(campaign: string, fingerprint: string, sources: seq<SourceDescriptor>)

  datatype OperationEvidence = OperationEvidence(index: int, kind: string, candidateIds: seq<string>, claimIds: seq<string>, sourceRefs: seq<string>)

  datatype UnresolvedEvidence = UnresolvedEvidence(candidateId: Option<string>, claimId: Option<string>, entityIds: seq<string>, sourceRefs: seq<string>)

  datatype Record = Record(
    campaign: string, changesetId: string, proposalFingerprint: Fingerprint, inputFingerprint: string,
    sources: seq<SourceDescriptor>, operations: seq<OperationEvidence>, unresolved: seq<UnresolvedEvidence>)

  datatype Code =
    | NotBootstrapProvenance | SessionRefPresent | ChangesetIdMismatch | ProposalFingerprintMismatch | WrongCampaign
    | DuplicateSourceRef | SourceSetMismatch | SourceFieldMismatch | DuplicateOperationEvidence | OperationCountMismatch
    | OperationKindMismatch | MissingCandidate | MissingClaim | UnexpectedCandidate | UnexpectedClaim
    | UnsupportedOperationKind | MissingSource | UnknownSourceRef

  datatype Issue = Issue(code: Code, operationIndex: Option<int>, sourceRef: Option<string>)

  // Sources

  function ByRef(sources: seq<SourceDescriptor>): map<string, SourceDescriptor> {
    if sources == [] then map[]
    else ByRef(sources[..|sources| - 1])[sources[|sources| - 1].sourceRef := sources[|sources| - 1]]
  }

  ghost predicate DistinctRefs(sources: seq<SourceDescriptor>) {
    forall i, j :: 0 <= i < j < |sources| ==> sources[i].sourceRef != sources[j].sourceRef
  }

  lemma {:induction false} ByRefKeys(sources: seq<SourceDescriptor>)
    ensures forall ref :: ref in ByRef(sources) <==> exists i :: 0 <= i < |sources| && sources[i].sourceRef == ref
  {
    if sources != [] {
      ByRefKeys(sources[..|sources| - 1]);
    }
  }

  predicate Repeated(sources: seq<SourceDescriptor>, ref: string) {
    exists i, j :: 0 <= i < j < |sources| && sources[i].sourceRef == ref && sources[j].sourceRef == ref
  }

  /** The issue names a ref that two sources share. */
  predicate NamesRepeated(issue: Issue, sources: seq<SourceDescriptor>) {
    issue.code == DuplicateSourceRef && issue.operationIndex == None && issue.sourceRef.Some? && Repeated(sources, issue.sourceRef.value)
  }

  lemma RepeatedOneMore(sources: seq<SourceDescriptor>, k: nat, ref: string)
    requires k < |sources|
    ensures Repeated(sources[..k + 1], ref) <==>
              Repeated(sources[..k], ref) || (sources[k].sourceRef == ref && exists i :: 0 <= i < k && sources[i].sourceRef == ref)
  {
    if Repeated(sources[..k], ref) {
      var i, j :| 0 <= i < j < k && sources[..k][i].sourceRef == ref && sources[..k][j].sourceRef == ref;
      assert sources[..k + 1][i].sourceRef == ref && sources[..k + 1][j].sourceRef == ref;
    }
    if sources[k].sourceRef == ref && exists i :: 0 <= i < k && sources[i].sourceRef == ref {
      var i :| 0 <= i < k && sources[i].sourceRef == ref;
      assert sources[..k + 1][i].sourceRef == ref && sources[..k + 1][k].sourceRef == ref;
    }
  }

  lemma DistinctIff(sources: seq<SourceDescriptor>)
    ensures DistinctRefs(sources) <==> forall ref :: !Repeated(sources, ref)
  {
    if !DistinctRefs(sources) {
      var i, j :| 0 <= i < j < |sources| && sources[i].sourceRef == sources[j].sourceRef;
      assert Repeated(sources, sources[i].sourceRef);
    }
  }

  /** Every repeated ref is reported, and nothing else. */
  method DuplicateRefs(sources: seq<SourceDescriptor>) returns (issues: seq<Issue>)
    ensures issues == [] <==> DistinctRefs(sources)
    ensures forall issue :: issue in issues <==> NamesRepeated(issue, sources)
  {
    issues := [];
    var seen: set<string> := {};
    for k := 0 to |sources|
      invariant forall ref :: ref in seen <==> exists i :: 0 <= i < k && sources[i].sourceRef == ref
      invariant forall issue :: issue in issues <==> NamesRepeated(issue, sources[..k])
    {
      var ref := sources[k].sourceRef;
      forall r
        ensures Repeated(sources[..k + 1], r) <==> Repeated(sources[..k], r) || (r == ref && ref in seen)
      {
        RepeatedOneMore(sources, k, r);
      }
      if ref in seen {
        issues := issues + [Issue(DuplicateSourceRef, None, Some(ref))];
      } else {
        seen := seen + {ref};
      }
    }
    assert sources[..|sources|] == sources;
    DistinctIff(sources);
    if !DistinctRefs(sources) {
      var ref :| Repeated(sources, ref);
      assert NamesRepeated(Issue(DuplicateSourceRef, None, Some(ref)), sources);
    }
    assert issues != [] ==> issues[0] in issues;
  }

  /** The recorded descriptors are those of the projection. */
  ghost predicate DescriptorsAgree(recorded: seq<SourceDescriptor>, current: seq<SourceDescriptor>) {
    DistinctRefs(current) && ByRef(recorded) == ByRef(current)
  }

  /** What the comparison of the descriptors reports: the set where it differs, else each ref whose descriptor does. */
  predicate DescriptorIssue(issue: Issue, recorded: seq<SourceDescriptor>, current: seq<SourceDescriptor>) {
    issue.operationIndex == None
    && match issue.code
       case DuplicateSourceRef => issue.sourceRef == None && exists i :: 0 <= i < |current| && Repeated(current, current[i].sourceRef)
       case SourceSetMismatch => issue.sourceRef == None && ByRef(recorded).Keys != ByRef(current).Keys
       case SourceFieldMismatch =>
         issue.sourceRef.Some? && ByRef(recorded).Keys == ByRef(current).Keys && issue.sourceRef.value in ByRef(recorded)
         && ByRef(recorded)[issue.sourceRef.value] != ByRef(current)[issue.sourceRef.value]
       case _ => false
  }

  lemma SomeRepeated(sources: seq<SourceDescriptor>)
    ensures DistinctRefs(sources) <==> !exists i :: 0 <= i < |sources| && Repeated(sources, sources[i].sourceRef)
  {
    DistinctIff(sources);
    if !DistinctRefs(sources) {
      var ref :| Repeated(sources, ref);
      var i, j :| 0 <= i < j < |sources| && sources[i].sourceRef == ref && sources[j].sourceRef == ref;
      assert Repeated(sources, sources[i].sourceRef);
    }
  }

  method IndexByRef(sources: seq<SourceDescriptor>) returns (byRef: map<string, SourceDescriptor>)
    ensures byRef == ByRef(sources)
  {
    byRef := map[];
    for k := 0 to |sources|
      invariant byRef == ByRef(sources[..k])
    {
      assert sources[..k + 1][..k] == sources[..k];
      byRef := byRef[sources[k].sourceRef := sources[k]];
    }
    assert sources[..|sources|] == sources;
  }

  /** The ref of a descriptor that differs, outside `rest`. */
  predicate NamesDiffering(issue: Issue, recorded: map<string, SourceDescriptor>, current: map<string, SourceDescriptor>, rest: set<string>)
    requires recorded.Keys == current.Keys
  {
    && issue.code == SourceFieldMismatch && issue.operationIndex == None
    && issue.sourceRef.Some? && issue.sourceRef.value in recorded && issue.sourceRef.value !in rest
    && recorded[issue.sourceRef.value] != current[issue.sourceRef.value]
  }

  method DifferingRefs(recorded: map<string, SourceDescriptor>, current: map<string, SourceDescriptor>) returns (issues: seq<Issue>)
    requires recorded.Keys == current.Keys
    ensures issues == [] <==> recorded == current
    ensures forall issue :: issue in issues <==> NamesDiffering(issue, recorded, current, {})
  {
    issues := [];
    var rest := recorded.Keys;
    while rest != {}
      invariant rest <= recorded.Keys
      invariant issues == [] <==> forall ref :: ref in recorded && ref !in rest ==> recorded[ref] == current[ref]
      invariant forall issue :: issue in issues <==> NamesDiffering(issue, recorded, current, rest)
      decreases rest
    {
      var ref :| ref in rest;
      if recorded[ref] != current[ref] {
        issues := issues + [Issue(SourceFieldMismatch, None, Some(ref))];
      }
      rest := rest - {ref};
    }
    assert (forall ref :: ref in recorded ==> recorded[ref] == current[ref]) <==> recorded == current;
  }

  method SourceIssues(recorded: seq<SourceDescriptor>, current: seq<SourceDescriptor>) returns (issues: seq<Issue>)
    ensures issues == [] <==> DescriptorsAgree(recorded, current)
    ensures forall issue :: issue in issues <==> DescriptorIssue(issue, recorded, current)
  {
    var duplicates := DuplicateRefs(current);
    SomeRepeated(current);
    issues := if duplicates == [] then [] else [Issue(DuplicateSourceRef, None, None)];
    var evidence := IndexByRef(recorded);
    var projected := IndexByRef(current);
    if evidence.Keys != projected.Keys {
      return issues + [Issue(SourceSetMismatch, None, None)];
    }
    var differing := DifferingRefs(evidence, projected);
    issues := issues + differing;
  }

  // Operations

  /** The evidence fits the operation: its kind, its one kind of origin, and known sources. */
  predicate FitsOperation(evidence: OperationEvidence, op: Operation, known: set<string>) {
    && (op.CreateEntity? || op.AppendFact?)
    && evidence.kind == (if op.CreateEntity? then "create_entity" else "append_fact")
    && (op.CreateEntity? ==> evidence.candidateIds != [] && evidence.claimIds == [])
    && (op.AppendFact? ==> evidence.claimIds != [] && evidence.candidateIds == [])
    && evidence.sourceRefs != []
    && forall k :: 0 <= k < |evidence.sourceRefs| ==> evidence.sourceRefs[k] in known
  }

  /** What is wrong with the kind or the origin of one piece of evidence. */
  predicate KindIssue(issue: Issue, evidence: OperationEvidence, op: Operation, index: int) {
    && issue.operationIndex == Some(index) && issue.sourceRef == None
    && match issue.code
       case OperationKindMismatch =>
         (op.CreateEntity? && evidence.kind != "create_entity") || (op.AppendFact? && evidence.kind != "append_fact")
       case MissingCandidate => op.CreateEntity? && evidence.candidateIds == []
       case UnexpectedClaim => op.CreateEntity? && evidence.claimIds != []
       case MissingClaim => op.AppendFact? && evidence.claimIds == []
       case UnexpectedCandidate => op.AppendFact? && evidence.candidateIds != []
       case UnsupportedOperationKind => op.UpdateEntity?
       case _ => false
  }

  function KindIssues(evidence: OperationEvidence, op: Operation, index: int): (issues: seq<Issue>)
    ensures issues == [] <==>
            && (op.CreateEntity? || op.AppendFact?)
            && evidence.kind == (if op.CreateEntity? then "create_entity" else "append_fact")
            && (op.CreateEntity? ==> evidence.candidateIds != [] && evidence.claimIds == [])
            && (op.AppendFact? ==> evidence.claimIds != [] && evidence.candidateIds == [])
    ensures forall issue :: issue in issues <==> KindIssue(issue, evidence, op, index)
  {
    var at := Some(index);
    match op
    case CreateEntity(_, _, _, _, _, _, _, _, _) =>
      (if evidence.kind != "create_entity" then [Issue(OperationKindMismatch, at, None)] else [])
      + (if evidence.candidateIds == [] then [Issue(MissingCandidate, at, None)] else [])
      + (if evidence.claimIds != [] then [Issue(UnexpectedClaim, at, None)] else [])
    case AppendFact(_, _, _) =>
      (if evidence.kind != "append_fact" then [Issue(OperationKindMismatch, at, None)] else [])
      + (if evidence.claimIds == [] then [Issue(MissingClaim, at, None)] else [])
      + (if evidence.candidateIds != [] then [Issue(UnexpectedCandidate, at, None)] else [])
    case UpdateEntity(_, _, _) => [Issue(UnsupportedOperationKind, at, None)]
  }

  /** The issue names a ref that is not known. */
  predicate NamesUnknown(issue: Issue, refs: seq<string>, known: set<string>, index: Option<int>) {
    && issue.code == UnknownSourceRef && issue.operationIndex == index
    && issue.sourceRef.Some? && issue.sourceRef.value in refs && issue.sourceRef.value !in known
  }

  method UnknownRefs(refs: seq<string>, known: set<string>, index: Option<int>) returns (issues: seq<Issue>)
    ensures issues == [] <==> forall k :: 0 <= k < |refs| ==> refs[k] in known
    ensures forall issue :: issue in issues <==> NamesUnknown(issue, refs, known, index)
  {
    issues := [];
    for k := 0 to |refs|
      invariant forall issue :: issue in issues <==> NamesUnknown(issue, refs[..k], known, index)
      invariant issues == [] <==> forall i :: 0 <= i < k ==> refs[i] in known
    {
      if refs[k] !in known {
        issues := issues + [Issue(UnknownSourceRef, index, Some(refs[k]))];
      }
      assert refs[..k + 1] == refs[..k] + [refs[k]];
    }
    assert refs[..|refs|] == refs;
  }

  /** What is wrong with one piece of evidence. */
  predicate OperationIssue(issue: Issue, evidence: OperationEvidence, op: Operation, index: int, known: set<string>) {
    || KindIssue(issue, evidence, op, index)
    || (!op.UpdateEntity? && evidence.sourceRefs == [] && issue == Issue(MissingSource, Some(index), None))
    || (!op.UpdateEntity? && NamesUnknown(issue, evidence.sourceRefs, known, Some(index)))
  }

  method OperationIssues(evidence: OperationEvidence, op: Operation, index: int, known: set<string>) returns (issues: seq<Issue>)
    ensures issues == [] <==> FitsOperation(evidence, op, known)
    ensures forall issue :: issue in issues <==> OperationIssue(issue, evidence, op, index, known)
  {
    issues := KindIssues(evidence, op, index);
    if op.UpdateEntity? {
      return;
    }
    if evidence.sourceRefs == [] {
      issues := issues + [Issue(MissingSource, Some(index), None)];
    }
    var unknown := UnknownRefs(evidence.sourceRefs, known, Some(index));
    issues := issues + unknown;
  }

  ghost predicate DistinctIndices(operations: seq<OperationEvidence>) {
    forall i, j :: 0 <= i < j < |operations| ==> operations[i].index != operations[j].index
  }

  /** The first evidence recorded for an index. */
  function ByIndex(operations: seq<OperationEvidence>): map<int, OperationEvidence> {
    if operations == [] then map[]
    else
      var before, last := ByIndex(operations[..|operations| - 1]), operations[|operations| - 1];
      if last.index in before then before else before[last.index := last]
  }

  lemma {:induction false} ByIndexKeys(operations: seq<OperationEvidence>)
    ensures forall index :: index in ByIndex(operations) <==> exists i :: 0 <= i < |operations| && operations[i].index == index
  {
    if operations != [] {
      ByIndexKeys(operations[..|operations| - 1]);
    }
  }

  /** One piece of evidence per operation, numbered 0 to N-1, each fitting its operation. */
  ghost predicate OperationsCovered(operations: seq<OperationEvidence>, ops: seq<Operation>, known: set<string>) {
    && DistinctIndices(operations)
    && (forall index :: index in ByIndex(operations) <==> 0 <= index < |ops|)
    && forall k :: 0 <= k < |ops| && k in ByIndex(operations) ==> FitsOperation(ByIndex(operations)[k], ops[k], known)
  }

  predicate RepeatedIndex(operations: seq<OperationEvidence>, index: int) {
    exists i, j :: 0 <= i < j < |operations| && operations[i].index == index && operations[j].index == index
  }

  predicate NamesRepeatedIndex(issue: Issue, operations: seq<OperationEvidence>) {
    && issue.code == DuplicateOperationEvidence && issue.sourceRef == None
    && issue.operationIndex.Some? && RepeatedIndex(operations, issue.operationIndex.value)
  }

  lemma RepeatedIndexOneMore(operations: seq<OperationEvidence>, k: nat, index: int)
    requires k < |operations|
    ensures RepeatedIndex(operations[..k + 1], index) <==>
              RepeatedIndex(operations[..k], index) || (operations[k].index == index && exists i :: 0 <= i < k && operations[..k][i].index == index)
  {
    if RepeatedIndex(operations[..k], index) {
      var i, j :| 0 <= i < j < k && operations[..k][i].index == index && operations[..k][j].index == index;
      assert operations[..k + 1][i].index == index && operations[..k + 1][j].index == index;
    }
    if operations[k].index == index && exists i :: 0 <= i < k && operations[..k][i].index == index {
      var i :| 0 <= i < k && operations[..k][i].index == index;
      assert operations[..k + 1][i].index == index && operations[..k + 1][k].index == index;
    }
  }

  lemma DistinctIndicesIff(operations: seq<OperationEvidence>)
    ensures DistinctIndices(operations) <==> forall index :: !RepeatedIndex(operations, index)
  {
    if !DistinctIndices(operations) {
      var i, j :| 0 <= i < j < |operations| && operations[i].index == operations[j].index;
      assert RepeatedIndex(operations, operations[i].index);
    }
  }

  method IndexOperations(operations: seq<OperationEvidence>) returns (byIndex: map<int, OperationEvidence>, issues: seq<Issue>)
    ensures byIndex == ByIndex(operations)
    ensures issues == [] <==> DistinctIndices(operations)
    ensures forall issue :: issue in issues <==> NamesRepeatedIndex(issue, operations)
  {
    byIndex, issues := map[], [];
    for k := 0 to |operations|
      invariant byIndex == ByIndex(operations[..k])
      invariant forall issue :: issue in issues <==> NamesRepeatedIndex(issue, operations[..k])
    {
      assert operations[..k + 1][..k] == operations[..k];
      ByIndexKeys(operations[..k]);
      var index := operations[k].index;
      forall i
        ensures RepeatedIndex(operations[..k + 1], i) <==> RepeatedIndex(operations[..k], i) || (i == index && index in byIndex)
      {
        RepeatedIndexOneMore(operations, k, i);
      }
      if index in byIndex {
        issues := issues + [Issue(DuplicateOperationEvidence, Some(index), None)];
      } else {
        byIndex := byIndex[index := operations[k]];
      }
    }
    assert operations[..|operations|] == operations;
    DistinctIndicesIff(operations);
    if !DistinctIndices(operations) {
      var index :| RepeatedIndex(operations, index);
      assert NamesRepeatedIndex(Issue(DuplicateOperationEvidence, Some(index), None), operations);
    }
    assert issues != [] ==> issues[0] in issues;
  }

  /** The indices 0 to n-1. */
  function RangeSet(n: nat): (indices: set<int>)
    ensures forall k :: k in indices <==> 0 <= k < n
  {
    if n == 0 then {} else RangeSet(n - 1) + {n - 1}
  }

  /** The issue is about the evidence of one of the first `n` operations. */
  predicate FittingIssue(issue: Issue, byIndex: map<int, OperationEvidence>, ops: seq<Operation>, known: set<string>, n: nat)
    requires n <= |ops| && forall k :: 0 <= k < |ops| ==> k in byIndex
  {
    exists k :: 0 <= k < n && OperationIssue(issue, byIndex[k], ops[k], k, known)
  }

  method FittingIssues(byIndex: map<int, OperationEvidence>, ops: seq<Operation>, known: set<string>) returns (issues: seq<Issue>)
    requires forall k :: 0 <= k < |ops| ==> k in byIndex
    ensures issues == [] <==> forall k :: 0 <= k < |ops| ==> FitsOperation(byIndex[k], ops[k], known)
    ensures forall issue :: issue in issues <==> FittingIssue(issue, byIndex, ops, known, |ops|)
  {
    issues := [];
    for k := 0 to |ops|
      invariant forall issue :: issue in issues <==> FittingIssue(issue, byIndex, ops, known, k)
      invariant issues == [] <==> forall i :: 0 <= i < k ==> FitsOperation(byIndex[i], ops[i], known)
    {
      var more := OperationIssues(byIndex[k], ops[k], k, known);
      issues := issues + more;
    }
  }

  /** A repeated index, a wrong set of indices, or else what is wrong with the evidence of one operation. */
  ghost predicate CoverIssue(issue: Issue, operations: seq<OperationEvidence>, ops: seq<Operation>, known: set<string>) {
    || NamesRepeatedIndex(issue, operations)
    || if forall index :: index in ByIndex(operations) <==> 0 <= index < |ops|
       then FittingIssue(issue, ByIndex(operations), ops, known, |ops|)
       else issue == Issue(OperationCountMismatch, None, None)
  }

  method AllOperationIssues(operations: seq<OperationEvidence>, ops: seq<Operation>, known: set<string>) returns (issues: seq<Issue>)
    ensures issues == [] <==> OperationsCovered(operations, ops, known)
    ensures forall issue :: issue in issues <==> CoverIssue(issue, operations, ops, known)
  {
    var byIndex;
    byIndex, issues := IndexOperations(operations);
    if byIndex.Keys != RangeSet(|ops|) {
      return issues + [Issue(OperationCountMismatch, None, None)];
    }
    var more := FittingIssues(byIndex, ops, known);
    issues := issues + more;
  }

  // The whole validation

  function KnownRefs(sources: seq<SourceDescriptor>): set<string> {
    set k | 0 <= k < |sources| :: sources[k].sourceRef
  }

  predicate RefsKnown(unresolved: UnresolvedEvidence, known: set<string>) {
    forall k :: 0 <= k < |unresolved.sourceRefs| ==> unresolved.sourceRefs[k] in known
  }

  /** The record is bound to the proposal and the campaign, its sources are well-formed, and it accounts for every operation. */
  ghost predicate SoundEvidence(record: Record, changeset: ChangeSet, projection: Projection) {
    && Bound(record, changeset, projection)
    && DistinctRefs(record.sources)
    && (record.inputFingerprint == projection.fingerprint ==> DescriptorsAgree(record.sources, projection.sources))
    && OperationsCovered(record.operations, changeset.operations, KnownRefs(record.sources))
    && forall k :: 0 <= k < |record.unresolved| ==> RefsKnown(record.unresolved[k], KnownRefs(record.sources))
  }

  predicate Bound(record: Record, changeset: ChangeSet, projection: Projection) {
    && changeset.provenance == Provenance.Bootstrap && changeset.sessionRef == None
    && record.changesetId == changeset.id && record.proposalFingerprint == ComputeFingerprint(changeset)
    && record.campaign == projection.campaign
  }

  /** What does not bind the record to this proposal and this campaign. */
  predicate BindingIssue(issue: Issue, record: Record, changeset: ChangeSet, projection: Projection) {
    && issue.operationIndex == None && issue.sourceRef == None
    && match issue.code
       case NotBootstrapProvenance => changeset.provenance != Provenance.Bootstrap
       case SessionRefPresent => changeset.sessionRef != None
       case ChangesetIdMismatch => record.changesetId != changeset.id
       case ProposalFingerprintMismatch => record.proposalFingerprint != ComputeFingerprint(changeset)
       case WrongCampaign => record.campaign != projection.campaign
       case _ => false
  }

  function BindingIssues(record: Record, changeset: ChangeSet, projection: Projection): (issues: seq<Issue>)
    ensures issues == [] <==> Bound(record, changeset, projection)
    ensures forall issue :: issue in issues <==> BindingIssue(issue, record, changeset, projection)
  {
    (if changeset.provenance != Provenance.Bootstrap then [Issue(NotBootstrapProvenance, None, None)] else [])
    + (if changeset.sessionRef.Some? then [Issue(SessionRefPresent, None, None)] else [])
    + (if record.changesetId != changeset.id then [Issue(ChangesetIdMismatch, None, None)] else [])
    + (if record.proposalFingerprint != ComputeFingerprint(changeset) then [Issue(ProposalFingerprintMismatch, None, None)] else [])
    + (if record.campaign != projection.campaign then [Issue(WrongCampaign, None, None)] else [])
  }

  /** The issue names an unknown ref of one of the first `n` diagnostics. */
  predicate DiagnosticIssue(issue: Issue, unresolved: seq<UnresolvedEvidence>, known: set<string>, n: nat)
    requires n <= |unresolved|
  {
    exists k :: 0 <= k < n && NamesUnknown(issue, unresolved[k].sourceRefs, known, None)
  }

  /** Everything there is to report; the descriptors are compared only while the fingerprints agree. */
  ghost predicate Warranted(issue: Issue, record: Record, changeset: ChangeSet, projection: Projection) {
    || BindingIssue(issue, record, changeset, projection)
    || NamesRepeated(issue, record.sources)
    || (record.inputFingerprint == projection.fingerprint && DescriptorIssue(issue, record.sources, projection.sources))
    || CoverIssue(issue, record.operations, changeset.operations, KnownRefs(record.sources))
    || DiagnosticIssue(issue, record.unresolved, KnownRefs(record.sources), |record.unresolved|)
  }

  method DiagnosticIssues(unresolved: seq<UnresolvedEvidence>, known: set<string>) returns (issues: seq<Issue>)
    ensures issues == [] <==> forall i :: 0 <= i < |unresolved| ==> RefsKnown(unresolved[i], known)
    ensures forall issue :: issue in issues <==> DiagnosticIssue(issue, unresolved, known, |unresolved|)
  {
    issues := [];
    for k := 0 to |unresolved|
      invariant issues == [] <==> forall i :: 0 <= i < k ==> RefsKnown(unresolved[i], known)
      invariant forall issue :: issue in issues <==> DiagnosticIssue(issue, unresolved, known, k)
    {
      var more := UnknownRefs(unresolved[k].sourceRefs, known, None);
      issues := issues + more;
    }
  }

  method ValidateBootstrapEvidence(record: Record, changeset: ChangeSet, projection: Projection) returns (issues: seq<Issue>)
    ensures issues == [] <==> SoundEvidence(record, changeset, projection)
    ensures forall issue :: issue in issues <==> Warranted(issue, record, changeset, projection)
  {
    issues := BindingIssues(record, changeset, projection);
    var duplicates := DuplicateRefs(record.sources);
    issues := issues + duplicates;
    if record.inputFingerprint == projection.fingerprint {
      var sourceIssues := SourceIssues(record.sources, projection.sources);
      issues := issues + sourceIssues;
    }
    var known := KnownRefs(record.sources);
    var operationIssues := AllOperationIssues(record.operations, changeset.operations, known);
    var diagnosticIssues := DiagnosticIssues(record.unresolved, known);
    issues := issues + operationIssues + diagnosticIssues;
  }

  // The record of a produced proposal

  function DescriptorOf(hash: string -> string, p: Batching.Projection): SourceDescriptor {
    var readable := p.entry.status == Batching.Read && p.entry.content.Some?;
    SourceDescriptor(p.sourceRef, p.entry.path, p.entry.cls, p.entry.size,
                     if readable then Some(hash(p.entry.content.value)) else None, p.skip)
  }

  function Describe(hash: string -> string, sources: seq<Batching.Projection>): seq<SourceDescriptor> {
    seq(|sources|, i requires 0 <= i < |sources| => DescriptorOf(hash, sources[i]))
  }

  /** Diagnostics of the whole run: conflicting identities, unusable files, sources not sent to the model. */
  function RunLevel(projection: Projection, s: Snapshot): seq<UnresolvedEvidence> {
    seq(|s.conflicts|, i requires 0 <= i < |s.conflicts| => UnresolvedEvidence(None, None, [s.conflicts[i].row.id], []))
    + seq(|s.issues|, i => UnresolvedEvidence(None, None, [], []))
    + Skipped(projection.sources)
  }

  function Skipped(sources: seq<SourceDescriptor>): seq<UnresolvedEvidence> {
    if sources == [] then []
    else
      var last := sources[|sources| - 1];
      Skipped(sources[..|sources| - 1]) + (if last.skip.Some? then [UnresolvedEvidence(None, None, [], [last.sourceRef])] else [])
  }

  function FromProducer(unresolved: seq<Bootstrap.Unresolved>): seq<UnresolvedEvidence> {
    seq(|unresolved|, i requires 0 <= i < |unresolved| =>
      UnresolvedEvidence(unresolved[i].candidateId, unresolved[i].claimId, unresolved[i].entityIds, unresolved[i].sourceRefs))
  }

  function NumberedFrom(sources: seq<Bootstrap.OperationSource>): seq<OperationEvidence> {
    seq(|sources|, i requires 0 <= i < |sources| =>
      OperationEvidence(i, sources[i].kind, sources[i].candidateIds, sources[i].claimIds, sources[i].sourceRefs))
  }

  function BuildEvidence(projection: Projection, s: Snapshot, proposal: Bootstrap.MappingResult): Record
    requires proposal.Proposal?
  {
    Record(projection.campaign, proposal.changeset.id, ComputeFingerprint(proposal.changeset), projection.fingerprint,
           projection.sources, NumberedFrom(proposal.sources), FromProducer(proposal.unresolved) + RunLevel(projection, s))
  }

  predicate RefsValid(refs: seq<string>, known: set<string>) {
    refs != [] && forall k :: 0 <= k < |refs| ==> refs[k] in known
  }

  /** Every candidate, claim and reference cites sources of the projection. */
  ghost predicate Cites(e: Bootstrap.Extraction, known: set<string>) {
    && (forall i :: 0 <= i < |e.candidates| ==> RefsValid(e.candidates[i].sourceRefs, known))
    && forall i :: 0 <= i < |e.claims| ==> ClaimCites(e.claims[i], known)
  }

  ghost predicate ClaimCites(claim: Bootstrap.Claim, known: set<string>) {
    RefsValid(claim.sourceRefs, known) && forall k :: 0 <= k < |claim.references| ==> RefsValid(claim.references[k].sourceRefs, known)
  }

  ghost predicate AllRefsValid(unresolved: seq<Bootstrap.Unresolved>, known: set<string>) {
    forall k :: 0 <= k < |unresolved| ==> RefsValid(unresolved[k].sourceRefs, known)
  }

  lemma {:induction false} CreateDiagnosticsCite(s: Snapshot, e: Bootstrap.Extraction, rules: Rules, known: set<string>, k: nat)
    requires Cites(e, known) && k <= |e.candidates|
    ensures AllRefsValid(Bootstrap.CreatesUpTo(s, e, rules, k).unresolved, known)
  {
    if k > 0 {
      CreateDiagnosticsCite(s, e, rules, known, k - 1);
    }
  }

  lemma {:induction false} ReferenceDiagnosticsCite(rows: seq<Binding.Row>, norm: string -> string, claim: Bootstrap.Claim, known: set<string>, k: nat)
    requires ClaimCites(claim, known) && k <= |claim.references|
    ensures AllRefsValid(Bootstrap.ReferencesUpTo(rows, norm, claim, k).unresolved, known)
  {
    if k > 0 {
      ReferenceDiagnosticsCite(rows, norm, claim, known, k - 1);
    }
  }

  lemma TargetDiagnosticsCite(s: Snapshot, e: Bootstrap.Extraction, norm: string -> string, claim: Bootstrap.Claim, known: set<string>)
    requires ClaimCites(claim, known)
    ensures var target := Bootstrap.TargetOf(s, e, norm, claim);
            target.Err? ==> AllRefsValid(target.error, known)
  {
    ReferenceDiagnosticsCite(Canonical.BindableRows(s), norm, claim, known, |claim.references|);
  }

  lemma StepDiagnosticsCite(st: Bootstrap.Appends, claim: Bootstrap.Claim, target: Result<View, seq<Bootstrap.Unresolved>>, known: set<string>)
    requires AllRefsValid(st.unresolved, known) && RefsValid(claim.sourceRefs, known)
    requires target.Err? ==> AllRefsValid(target.error, known)
    ensures AllRefsValid(Bootstrap.AppendStep(st, claim, target).unresolved, known)
  {
  }

  lemma {:induction false} AppendDiagnosticsCite(s: Snapshot, e: Bootstrap.Extraction, norm: string -> string, known: set<string>, k: nat)
    requires Cites(e, known) && k <= |e.claims|
    ensures AllRefsValid(Bootstrap.AppendsUpTo(s, e, norm, k).unresolved, known)
  {
    if k > 0 {
      AppendDiagnosticsCite(s, e, norm, known, k - 1);
      ClaimDiagnosticsCite(s, e, norm, e.claims[k - 1], known, Bootstrap.AppendsUpTo(s, e, norm, k - 1));
    }
  }

  lemma ClaimDiagnosticsCite(s: Snapshot, e: Bootstrap.Extraction, norm: string -> string, claim: Bootstrap.Claim, known: set<string>,
                             st: Bootstrap.Appends)
    requires ClaimCites(claim, known) && AllRefsValid(st.unresolved, known)
    ensures AllRefsValid(Bootstrap.AppendStep(st, claim, Bootstrap.TargetOf(s, e, norm, claim)).unresolved, known)
  {
    TargetDiagnosticsCite(s, e, norm, claim, known);
    StepDiagnosticsCite(st, claim, Bootstrap.TargetOf(s, e, norm, claim), known);
  }

  lemma {:induction false} SkippedAreKnown(sources: seq<SourceDescriptor>, known: set<string>)
    requires forall k :: 0 <= k < |sources| ==> sources[k].sourceRef in known
    ensures forall k :: 0 <= k < |Skipped(sources)| ==> RefsKnown(Skipped(sources)[k], known)
  {
    if sources != [] {
      SkippedAreKnown(sources[..|sources| - 1], known);
    }
  }

  lemma {:induction false} NumberedIsIndexed(sources: seq<Bootstrap.OperationSource>, k: nat)
    requires k <= |sources|
    ensures var byIndex := ByIndex(NumberedFrom(sources)[..k]);
            && (forall index :: index in byIndex <==> 0 <= index < k)
            && forall index :: 0 <= index < k ==> byIndex[index] == NumberedFrom(sources)[index]
  {
    var numbered := NumberedFrom(sources);
    if k > 0 {
      NumberedIsIndexed(sources, k - 1);
      assert numbered[..k][..k - 1] == numbered[..k - 1];
    } else {
      assert numbered[..0] == [];
    }
  }

  /** The provenance of the proposal fits its operations one by one. */
  lemma {:induction false} SourcesFit(s: Snapshot, e: Bootstrap.Extraction, rules: Rules, known: set<string>, j: nat)
    requires Cites(e, known) && j < |Bootstrap.Operations(s, e, rules)|
    ensures var creates := Bootstrap.CreatesUpTo(s, e, rules, |e.candidates|);
            var appends := Bootstrap.AppendsUpTo(s, e, rules.norm, |e.claims|);
            var sources := creates.sources + appends.sources;
            && |sources| == |Bootstrap.Operations(s, e, rules)|
            && FitsOperation(NumberedFrom(sources)[j], Bootstrap.Operations(s, e, rules)[j], known)
  {
    var creates := Bootstrap.CreatesUpTo(s, e, rules, |e.candidates|);
    var appends := Bootstrap.AppendsUpTo(s, e, rules.norm, |e.claims|);
    Bootstrap.CreatesAreTraced(s, e, rules, |e.candidates|);
    Bootstrap.AppendsAreTraced(s, e, rules.norm, |e.claims|);
    if j < |creates.ops| {
      assert Bootstrap.CreateTraced(e, |e.candidates|, creates.ops[j], creates.sources[j]);
    } else {
      var i := j - |creates.ops|;
      assert Bootstrap.AppendTraced(e, |e.claims|, appends.ops[i], appends.sources[i]);
      var c :| 0 <= c < |e.claims| && Bootstrap.AppendedFrom(appends.ops[i], appends.sources[i], e.claims[c]);
      assert ClaimCites(e.claims[c], known);
    }
  }

  lemma ProducedIsCovered(s: Snapshot, e: Bootstrap.Extraction, rules: Rules, proposalId: string, known: set<string>)
    requires Cites(e, known) && Bootstrap.Produced(s, e, rules, proposalId).Proposal?
    ensures var proposal := Bootstrap.Produced(s, e, rules, proposalId);
            OperationsCovered(NumberedFrom(proposal.sources), proposal.changeset.operations, known)
  {
    var proposal := Bootstrap.Produced(s, e, rules, proposalId);
    var ops := proposal.changeset.operations;
    SourcesFit(s, e, rules, known, 0);
    NumberedIsIndexed(proposal.sources, |ops|);
    assert NumberedFrom(proposal.sources)[..|ops|] == NumberedFrom(proposal.sources);
    forall k | 0 <= k < |ops|
      ensures FitsOperation(ByIndex(NumberedFrom(proposal.sources))[k], ops[k], known)
    {
      SourcesFit(s, e, rules, known, k);
    }
  }

  lemma DiagnosticsAreKnown(projection: Projection, s: Snapshot, e: Bootstrap.Extraction, rules: Rules, proposalId: string)
    requires Cites(e, KnownRefs(projection.sources)) && Bootstrap.Produced(s, e, rules, proposalId).Proposal?
    ensures var record := BuildEvidence(projection, s, Bootstrap.Produced(s, e, rules, proposalId));
            forall k :: 0 <= k < |record.unresolved| ==> RefsKnown(record.unresolved[k], KnownRefs(projection.sources))
  {
    var known := KnownRefs(projection.sources);
    CreateDiagnosticsCite(s, e, rules, known, |e.candidates|);
    AppendDiagnosticsCite(s, e, rules.norm, known, |e.claims|);
    SkippedAreKnown(projection.sources, known);
  }

  /**
   The record built for a produced proposal passes its own validation without an
   issue, and is fresh, whatever the Vault and whatever the extraction, as long
   as refs are distinct and every candidate, claim and reference cites a source.
   */
  lemma BuiltEvidenceIsSound(projection: Projection, s: Snapshot, e: Bootstrap.Extraction, rules: Rules, proposalId: string)
    requires DistinctRefs(projection.sources) && Cites(e, KnownRefs(projection.sources))
    requires Bootstrap.Produced(s, e, rules, proposalId).Proposal?
    ensures var proposal := Bootstrap.Produced(s, e, rules, proposalId);
            var record := BuildEvidence(projection, s, proposal);
            && SoundEvidence(record, proposal.changeset, projection)
            && record.inputFingerprint == projection.fingerprint
  {
    ProducedIsCovered(s, e, rules, proposalId, KnownRefs(projection.sources));
    DiagnosticsAreKnown(projection, s, e, rules, proposalId);
  }

  /** Distinct paths and an injective naming of them give the projection distinct refs. */
  lemma PreparedRefsAreDistinct(r: Batching.Renderer, fold: string -> string, hash: string -> string, entries: seq<Batching.Entry>)
    requires forall i, j :: 0 <= i < j < |entries| ==> entries[i].path != entries[j].path
    requires forall a, b :: r.ref(a) == r.ref(b) ==> a == b
    ensures DistinctRefs(Describe(hash, Batching.Packed(r, fold, entries).projections))
  {
    Batching.BatchesAreGood(r, fold, entries);
    Batching.ProjectionRefs(r, fold, entries);
    SortedPathsDiffer(fold, entries);
  }

  /** What the extraction requests allow to be cited: the sources of the batches the model has seen. */
  function SentRefs(r: Batching.Renderer, packing: Batching.Packing): set<string> {
    set entry | entry in Batching.Concat(packing.closed) :: r.ref(entry.path)
  }

  lemma {:induction false} IncludedAreProjected(projections: seq<Batching.Projection>, entry: Batching.Entry)
    requires entry in Batching.Included(projections)
    ensures exists i :: 0 <= i < |projections| && projections[i].entry == entry
  {
    if projections != [] {
      var front := projections[..|projections| - 1];
      if entry in Batching.Included(front) {
        IncludedAreProjected(front, entry);
        var i :| 0 <= i < |front| && front[i].entry == entry;
        assert projections[i].entry == entry;
      } else {
        assert projections[|projections| - 1].entry == entry;
      }
    }
  }

  lemma SentAreKnown(r: Batching.Renderer, fold: string -> string, hash: string -> string, entries: seq<Batching.Entry>)
    ensures var packing := Batching.Packed(r, fold, entries);
            SentRefs(r, packing) <= KnownRefs(Describe(hash, packing.projections))
  {
    var packing := Batching.Packed(r, fold, entries);
    var sources := Describe(hash, packing.projections);
    Batching.BatchesAreGood(r, fold, entries);
    Batching.ProjectionRefs(r, fold, entries);
    forall entry | entry in Batching.Concat(packing.closed)
      ensures r.ref(entry.path) in KnownRefs(sources)
    {
      IncludedAreProjected(packing.projections, entry);
      var i :| 0 <= i < |packing.projections| && packing.projections[i].entry == entry;
      assert sources[i].sourceRef == r.ref(entry.path);
    }
  }

  lemma CitesMore(e: Bootstrap.Extraction, sent: set<string>, known: set<string>)
    requires Cites(e, sent) && sent <= known
    ensures Cites(e, known)
  {
    forall i | 0 <= i < |e.claims|
      ensures ClaimCites(e.claims[i], known)
    {
      assert ClaimCites(e.claims[i], sent);
    }
  }

  /**
   From the discovered files to the record: whatever files with distinct paths
   are packed, whatever the model extracts while it cites sources it was sent, and
   whatever the Vault holds, the record of the proposal has no issue and is fresh.
   */
  lemma PreparedEvidenceIsSound(r: Batching.Renderer, fold: string -> string, hash: string -> string, entries: seq<Batching.Entry>,
                                campaign: string, fingerprint: string, s: Snapshot, e: Bootstrap.Extraction, rules: Rules, proposalId: string)
    requires forall i, j :: 0 <= i < j < |entries| ==> entries[i].path != entries[j].path
    requires forall a, b :: r.ref(a) == r.ref(b) ==> a == b
    requires Cites(e, SentRefs(r, Batching.Packed(r, fold, entries)))
    requires Bootstrap.Produced(s, e, rules, proposalId).Proposal?
    ensures var projection := Projection(campaign, fingerprint, Describe(hash, Batching.Packed(r, fold, entries).projections));
            var proposal := Bootstrap.Produced(s, e, rules, proposalId);
            var record := BuildEvidence(projection, s, proposal);
            && SoundEvidence(record, proposal.changeset, projection)
            && record.inputFingerprint == projection.fingerprint
  {
    var sources := Describe(hash, Batching.Packed(r, fold, entries).projections);
    PreparedRefsAreDistinct(r, fold, hash, entries);
    SentAreKnown(r, fold, hash, entries);
    CitesMore(e, SentRefs(r, Batching.Packed(r, fold, entries)), KnownRefs(sources));
    BuiltEvidenceIsSound(Projection(campaign, fingerprint, sources), s, e, rules, proposalId);
  }

  lemma {:induction false} SortedPathsDiffer(fold: string -> string, entries: seq<Batching.Entry>)
    requires forall i, j :: 0 <= i < j < |entries| ==> entries[i].path != entries[j].path
    ensures var sorted := Ordering.Sorted(Batching.Order(fold), Batching.EligibleOf(entries));
            forall i, j :: 0 <= i < j < |sorted| ==> sorted[i].path != sorted[j].path
  {
    var eligible := Batching.EligibleOf(entries);
    var sorted := Ordering.Sorted(Batching.Order(fold), eligible);
    EligiblePaths(entries);
    Ordering.SortedKeeps(Batching.Order(fold), eligible);
    Ordering.DifferentInAnyOrder(eligible, sorted);
    forall e | e in sorted
      ensures e in eligible
    {
      assert e in multiset(eligible);
    }
  }

  lemma PathsDetermine(entries: seq<Batching.Entry>)
    requires forall i, j :: 0 <= i < j < |entries| ==> entries[i].path != entries[j].path
    ensures forall a, b :: a in entries && b in entries && a.path == b.path ==> a == b
  {
    forall a, b | a in entries && b in entries && a.path == b.path
      ensures a == b
    {
      var i :| 0 <= i < |entries| && entries[i] == a;
      var j :| 0 <= j < |entries| && entries[j] == b;
      assert !(i < j) && !(j < i);
    }
  }

  lemma {:induction false} EligibleAreDifferent(entries: seq<Batching.Entry>)
    requires forall i, j :: 0 <= i < j < |entries| ==> entries[i].path != entries[j].path
    ensures forall e :: e in Batching.EligibleOf(entries) ==> e in entries
    ensures Ordering.AllDifferent(Batching.EligibleOf(entries))
  {
    if entries != [] {
      var front, last := entries[..|entries| - 1], entries[|entries| - 1];
      EligibleAreDifferent(front);
      assert last !in front;
    }
  }

  lemma {:induction false} EligiblePaths(entries: seq<Batching.Entry>)
    requires forall i, j :: 0 <= i < j < |entries| ==> entries[i].path != entries[j].path
    ensures Ordering.AllDifferent(Batching.EligibleOf(entries))
    ensures forall a, b :: a in Batching.EligibleOf(entries) && b in Batching.EligibleOf(entries) && a.path == b.path ==> a == b
  {
    EligibleAreDifferent(entries);
    PathsDetermine(entries);
  }

  // What the record tells

  /** The diagnostic repeats one of the producer, or stands for a conflict, an unusable file, or a source that was not sent. */
  ghost predicate Tells(u: UnresolvedEvidence, projection: Projection, s: Snapshot, produced: seq<Bootstrap.Unresolved>) {
    || (exists i :: 0 <= i < |produced| && Repeats(u, produced[i]))
    || (exists i :: 0 <= i < |s.conflicts| && u == UnresolvedEvidence(None, None, [s.conflicts[i].row.id], []))
    || (s.issues != [] && u == UnresolvedEvidence(None, None, [], []))
    || (exists i :: 0 <= i < |projection.sources| && projection.sources[i].skip.Some?
                    && u == UnresolvedEvidence(None, None, [], [projection.sources[i].sourceRef]))
  }

  predicate Repeats(u: UnresolvedEvidence, produced: Bootstrap.Unresolved) {
    u.candidateId == produced.candidateId && u.claimId == produced.claimId && u.entityIds == produced.entityIds && u.sourceRefs == produced.sourceRefs
  }

  predicate Carries(evidence: OperationEvidence, i: int, source: Bootstrap.OperationSource) {
    && evidence.index == i && evidence.kind == source.kind
    && evidence.candidateIds == source.candidateIds && evidence.claimIds == source.claimIds && evidence.sourceRefs == source.sourceRefs
  }

  lemma {:induction false} SkippedAre(sources: seq<SourceDescriptor>)
    ensures forall u :: u in Skipped(sources) <==>
              exists i :: 0 <= i < |sources| && sources[i].skip.Some? && u == UnresolvedEvidence(None, None, [], [sources[i].sourceRef])
  {
    if sources != [] {
      SkippedAre(sources[..|sources| - 1]);
    }
  }

  function SkippedAt(sources: seq<SourceDescriptor>): set<int> {
    set i | 0 <= i < |sources| && sources[i].skip.Some?
  }

  lemma {:induction false} SkippedAreCounted(sources: seq<SourceDescriptor>)
    ensures |Skipped(sources)| == |SkippedAt(sources)|
  {
    if sources != [] {
      var front, n := sources[..|sources| - 1], |sources| - 1;
      SkippedAreCounted(front);
      assert SkippedAt(sources) == if sources[n].skip.Some? then SkippedAt(front) + {n} else SkippedAt(front);
    }
  }

  /**
   The record holds a diagnostic for everything left open and no other, as many as there
   are, and one piece of evidence per operation, numbered, with the provenance the producer gave it.
   */
  lemma NothingIsHidden(projection: Projection, s: Snapshot, proposal: Bootstrap.MappingResult)
    requires proposal.Proposal?
    ensures var record := BuildEvidence(projection, s, proposal);
            && (forall u :: u in record.unresolved <==> Tells(u, projection, s, proposal.unresolved))
            && |record.unresolved| == |proposal.unresolved| + |s.conflicts| + |s.issues| + |SkippedAt(projection.sources)|
            && |record.operations| == |proposal.sources|
            && forall i :: 0 <= i < |proposal.sources| ==> Carries(record.operations[i], i, proposal.sources[i])
  {
    var record := BuildEvidence(projection, s, proposal);
    SkippedAreCounted(projection.sources);
    forall u
      ensures u in record.unresolved <==> Tells(u, projection, s, proposal.unresolved)
    {
      PartsTell(u, projection, s, proposal.unresolved);
    }
  }

  lemma PartsTell(u: UnresolvedEvidence, projection: Projection, s: Snapshot, produced: seq<Bootstrap.Unresolved>)
    ensures u in FromProducer(produced) + RunLevel(projection, s) <==> Tells(u, projection, s, produced)
  {
    SkippedAre(projection.sources);
    var conflicts := seq(|s.conflicts|, i requires 0 <= i < |s.conflicts| => UnresolvedEvidence(None, None, [s.conflicts[i].row.id], []));
    var issues := seq(|s.issues|, i => UnresolvedEvidence(None, None, [], []));
    assert RunLevel(projection, s) == conflicts + issues + Skipped(projection.sources);
    FromProducerTells(u, produced);
    if exists i :: 0 <= i < |s.conflicts| && u == UnresolvedEvidence(None, None, [s.conflicts[i].row.id], []) {
      var i :| 0 <= i < |s.conflicts| && u == UnresolvedEvidence(None, None, [s.conflicts[i].row.id], []);
      assert conflicts[i] == u;
    }
    if s.issues != [] {
      assert issues[0] == UnresolvedEvidence(None, None, [], []);
    }
  }

  lemma FromProducerTells(u: UnresolvedEvidence, produced: seq<Bootstrap.Unresolved>)
    ensures u in FromProducer(produced) <==> exists i :: 0 <= i < |produced| && Repeats(u, produced[i])
  {
    if i :| 0 <= i < |produced| && Repeats(u, produced[i]) {
      assert FromProducer(produced)[i] == u;
    }
  }
}
