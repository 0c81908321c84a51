/**
 The post-session producer: an accepted extraction becomes a proposal against the
 current Vault.
 */
module PostSession {
  import opened Wrappers
  import opened Domain
  import opened Binding
  import opened SessionExtraction
  import Repository
  import FactLines
  import Preflight
  import Canonical

  datatype Reason =
    | NoCanonicalTarget | UnresolvedReference | UnsupportedClaimKind | UnsupportedMultiTarget | TargetNotPrepared
    | StalePreparedEntity | SystemEntityExcluded | DuplicateFact | DuplicateExistingEntity | AmbiguousExactMatch | EntityIdCollision

  datatype Unresolved = Unresolved(reason: Reason, claimId: Option<string>, mentionId: Option<string>,
                                   candidateId: Option<string>, entityIds: seq<string>)

  datatype OperationSource = OperationSource(kind: string, claimIds: seq<string>, candidateIds: seq<string>, evidence: seq<string>)

  const DEFAULT_STATUS := "unknown"
  const DEFAULT_VISIBILITY: Visibility := Dm
  const DEFAULT_KNOWLEDGE: KnowledgeStatus := Inferred

  /** Normalized text and id allocation are arbitrary functions. */
  type Rules = Canonical.Rules

  function RowsOf(norm: string -> string, documents: seq<Document>): seq<Row> {
    seq(|documents|, i requires 0 <= i < |documents| => Canonical.RowOf(norm, documents[i]))
  }

  function DocumentsById(documents: seq<Document>): map<string, Document> {
    if documents == [] then map[]
    else DocumentsById(documents[..|documents| - 1])[documents[|documents| - 1].entity.id := documents[|documents| - 1]]
  }

  // Candidates

  function Allocation(rules: Rules, c: NewEntity): string {
    rules.allocate(c.etype, c.displayName)
  }

  function IdByCandidate(candidates: seq<NewEntity>, rules: Rules, k: nat): map<string, string>
    requires k <= |candidates|
  {
    if k == 0 then map[]
    else IdByCandidate(candidates, rules, k - 1)[candidates[k - 1].candidateId := Allocation(rules, candidates[k - 1])]
  }

  function ClaimantCount(candidates: seq<NewEntity>, rules: Rules, id: string, k: nat): nat
    requires k <= |candidates|
  {
    if k == 0 then 0
    else ClaimantCount(candidates, rules, id, k - 1) + (if Allocation(rules, candidates[k - 1]) == id then 1 else 0)
  }

  lemma {:induction false} IdByCandidateHas(candidates: seq<NewEntity>, rules: Rules, k: nat)
    requires k <= |candidates|
    ensures forall i :: 0 <= i < k ==> candidates[i].candidateId in IdByCandidate(candidates, rules, k)
  {
    if k > 0 {
      IdByCandidateHas(candidates, rules, k - 1);
    }
  }

  datatype Verdict = Emit | Omit(reason: Reason, entityIds: seq<string>)

  /** An id or a name that the Vault already has, in whatever type. */
  function CreateConflict(byId: map<string, Document>, norm: string -> string, matches: seq<string>, id: string, c: NewEntity): Verdict {
    if id in byId then
      var e := byId[id].entity;
      if e.etype == c.etype && norm(e.name) == norm(c.displayName) then Omit(DuplicateExistingEntity, [id])
      else Omit(EntityIdCollision, [id])
    else if |matches| == 1 then Omit(DuplicateExistingEntity, matches)
    else if |matches| > 1 then Omit(AmbiguousExactMatch, matches)
    else Emit
  }

  function CandidateVerdict(documents: seq<Document>, candidates: seq<NewEntity>, rules: Rules, i: nat, names: set<string>): Verdict
    requires i < |candidates|
  {
    IdByCandidateHas(candidates, rules, |candidates|);
    var c := candidates[i];
    var id := IdByCandidate(candidates, rules, |candidates|)[c.candidateId];
    if ClaimantCount(candidates, rules, id, |candidates|) > 1 then Omit(EntityIdCollision, [id])
    else
      var conflict := CreateConflict(DocumentsById(documents), rules.norm,
                                     MatchRows(RowsOf(rules.norm, documents), rules.norm(c.displayName)), id, c);
      if conflict.Omit? then conflict
      else if rules.norm(c.displayName) in names then Omit(AmbiguousExactMatch, [])
      else Emit
  }

  datatype Creates = Creates(ops: seq<Operation>, sources: seq<OperationSource>, unresolved: seq<Unresolved>, names: set<string>)

  function CreateStep(st: Creates, session: string, rules: Rules, c: NewEntity, id: string, verdict: Verdict): Creates {
    match verdict
    case Omit(reason, ids) => st.(unresolved := st.unresolved + [Unresolved(reason, None, None, Some(c.candidateId), ids)])
    case Emit =>
      st.(ops := st.ops + [CreateEntity(id, c.etype, c.displayName, DEFAULT_STATUS, DEFAULT_VISIBILITY, DEFAULT_KNOWLEDGE,
                                        Some(session), Some(session), [])],
          sources := st.sources + [OperationSource("create_entity", [], [c.candidateId], c.evidence)],
          names := st.names + {rules.norm(c.displayName)})
  }

  function CreatesUpTo(documents: seq<Document>, candidates: seq<NewEntity>, session: string, rules: Rules, k: nat): Creates
    requires k <= |candidates|
  {
    if k == 0 then Creates([], [], [], {})
    else
      IdByCandidateHas(candidates, rules, |candidates|);
      var st := CreatesUpTo(documents, candidates, session, rules, k - 1);
      CreateStep(st, session, rules, candidates[k - 1],
                 IdByCandidate(candidates, rules, |candidates|)[candidates[k - 1].candidateId],
                 CandidateVerdict(documents, candidates, rules, k - 1, st.names))
  }

  method AllocateIds(candidates: seq<NewEntity>, rules: Rules) returns (idByCandidate: map<string, string>, claims: map<string, nat>)
    ensures idByCandidate == IdByCandidate(candidates, rules, |candidates|)
    ensures forall id :: CountIn(claims, id) == ClaimantCount(candidates, rules, id, |candidates|)
  {
    idByCandidate, claims := map[], map[];
    for k := 0 to |candidates|
      invariant idByCandidate == IdByCandidate(candidates, rules, k)
      invariant forall id :: CountIn(claims, id) == ClaimantCount(candidates, rules, id, k)
    {
      var id := Allocation(rules, candidates[k]);
      idByCandidate := idByCandidate[candidates[k].candidateId := id];
      claims := claims[id := CountIn(claims, id) + 1];
    }
  }

  method DecideCandidate(documents: seq<Document>, candidates: seq<NewEntity>, rules: Rules, index: Index, byId: map<string, Document>,
                         claims: map<string, nat>, i: nat, id: string, names: set<string>) returns (verdict: Verdict)
    requires Indexes(index, RowsOf(rules.norm, documents), []) && byId == DocumentsById(documents)
    requires forall id :: CountIn(claims, id) == ClaimantCount(candidates, rules, id, |candidates|)
    requires i < |candidates| && candidates[i].candidateId in IdByCandidate(candidates, rules, |candidates|)
    requires id == IdByCandidate(candidates, rules, |candidates|)[candidates[i].candidateId]
    ensures verdict == CandidateVerdict(documents, candidates, rules, i, names)
  {
    var c := candidates[i];
    if CountIn(claims, id) > 1 {
      return Omit(EntityIdCollision, [id]);
    }
    assert RowsOf(rules.norm, documents) + [] == RowsOf(rules.norm, documents);
    var matches := AnyTypeMatches(index, rules.norm(c.displayName), RowsOf(rules.norm, documents), []);
    verdict := CreateConflict(byId, rules.norm, matches, id, c);
    if verdict.Emit? && rules.norm(c.displayName) in names {
      return Omit(AmbiguousExactMatch, []);
    }
  }

  method TakeCandidate(documents: seq<Document>, candidates: seq<NewEntity>, session: string, rules: Rules, index: Index, byId: map<string, Document>,
                       idByCandidate: map<string, string>, claims: map<string, nat>, k: nat, st: Creates) returns (next: Creates)
    requires Indexes(index, RowsOf(rules.norm, documents), []) && byId == DocumentsById(documents)
    requires idByCandidate == IdByCandidate(candidates, rules, |candidates|)
    requires forall id :: CountIn(claims, id) == ClaimantCount(candidates, rules, id, |candidates|)
    requires k < |candidates| && st == CreatesUpTo(documents, candidates, session, rules, k)
    ensures next == CreatesUpTo(documents, candidates, session, rules, k + 1)
  {
    IdByCandidateHas(candidates, rules, |candidates|);
    var id := idByCandidate[candidates[k].candidateId];
    var verdict := DecideCandidate(documents, candidates, rules, index, byId, claims, k, id, st.names);
    CreatesSnoc(documents, candidates, session, rules, k, st, id, verdict);
    next := CreateStep(st, session, rules, candidates[k], id, verdict);
  }

  method BuildCreates(documents: seq<Document>, candidates: seq<NewEntity>, session: string, rules: Rules,
                      index: Index, byId: map<string, Document>) returns (st: Creates)
    requires Indexes(index, RowsOf(rules.norm, documents), []) && byId == DocumentsById(documents)
    ensures st == CreatesUpTo(documents, candidates, session, rules, |candidates|)
  {
    var idByCandidate, claims := AllocateIds(candidates, rules);
    st := Creates([], [], [], {});
    for k := 0 to |candidates|
      invariant st == CreatesUpTo(documents, candidates, session, rules, k)
    {
      st := TakeCandidate(documents, candidates, session, rules, index, byId, idByCandidate, claims, k, st);
    }
  }

  lemma CreatesSnoc(documents: seq<Document>, candidates: seq<NewEntity>, session: string, rules: Rules, k: nat,
                    st: Creates, id: string, verdict: Verdict)
    requires k < |candidates| && st == CreatesUpTo(documents, candidates, session, rules, k)
    requires candidates[k].candidateId in IdByCandidate(candidates, rules, |candidates|)
    requires id == IdByCandidate(candidates, rules, |candidates|)[candidates[k].candidateId]
    requires verdict == CandidateVerdict(documents, candidates, rules, k, st.names)
    ensures CreatesUpTo(documents, candidates, session, rules, k + 1) == CreateStep(st, session, rules, candidates[k], id, verdict)
  {
  }

  // Claims

  predicate Appendable(kind: ClaimKind) {
    kind == Event || kind == Fact
  }

  /** The trusted bindings by claim and mention; a repeated pair overwrites. */
  function Trusted(resolved: seq<Resolved>): map<(string, string), string> {
    if resolved == [] then map[]
    else
      var last := resolved[|resolved| - 1];
      Trusted(resolved[..|resolved| - 1])[(last.claimId, last.mentionId) := last.entityId]
  }

  datatype Targets = Targets(ids: seq<string>, missed: bool, unresolved: seq<Unresolved>)

  /** A trusted target that is already listed falls through to the lookup by text. */
  function TargetStep(st: Targets, claimId: string, m: Mention, trusted: Option<string>, found: seq<string>): Targets {
    if trusted.Some? && trusted.value !in st.ids then st.(ids := st.ids + [trusted.value])
    else if |found| == 1 then st.(ids := AddUnique(st.ids, found[0]))
    else st.(missed := true,
             unresolved := st.unresolved + [Unresolved(UnresolvedReference, Some(claimId), Some(m.mentionId), None, found)])
  }

  function Lookup<K, V>(dictionary: map<K, V>, key: K): Option<V> {
    if key in dictionary then Some(dictionary[key]) else None
  }

  function TargetsUpTo(rows: seq<Row>, norm: string -> string, trusted: map<(string, string), string>, claim: Claim, k: nat): Targets
    requires k <= |claim.mentions|
  {
    if k == 0 then Targets([], false, [])
    else
      var m := claim.mentions[k - 1];
      TargetStep(TargetsUpTo(rows, norm, trusted, claim, k - 1), claim.claimId, m,
                 Lookup(trusted, (claim.claimId, m.mentionId)), ResolveRows(rows, norm(m.text), m.etype))
  }

  /** The current document is still what the extraction was prepared from. */
  predicate ProjectionMatches(document: Document, p: Prepared) {
    var e := document.entity;
    && e.id == p.id && e.etype == p.etype && e.revision == p.revision && e.name == p.name && e.status == p.status
    && e.visibility == p.visibility && e.knowledge == p.knowledge && e.tags == p.tags && document.body == p.body
  }

  function ClaimIssue(claim: Claim, reason: Reason, ids: seq<string>): Unresolved {
    Unresolved(reason, Some(claim.claimId), None, None, ids)
  }

  function TargetFrom(found: Targets, claim: Claim, byId: map<string, Document>, prepared: map<string, Prepared>): Result<Document, seq<Unresolved>> {
    if |found.ids| == 0 then Err(found.unresolved + [ClaimIssue(claim, NoCanonicalTarget, [])])
    else if |found.ids| > 1 then Err(found.unresolved + [ClaimIssue(claim, UnsupportedMultiTarget, found.ids)])
    else if found.missed then Err(found.unresolved + [ClaimIssue(claim, UnresolvedReference, [])])
    else if found.ids[0] !in prepared then Err(found.unresolved + [ClaimIssue(claim, TargetNotPrepared, found.ids)])
    else if found.ids[0] !in byId || !ProjectionMatches(byId[found.ids[0]], prepared[found.ids[0]]) then
      Err(found.unresolved + [ClaimIssue(claim, StalePreparedEntity, found.ids)])
    else if byId[found.ids[0]].entity.visibility == System then
      Err(found.unresolved + [ClaimIssue(claim, SystemEntityExcluded, found.ids)])
    else Ok(byId[found.ids[0]])
  }

  function TargetOf(documents: seq<Document>, norm: string -> string, prepared: map<string, Prepared>,
                    trusted: map<(string, string), string>, claim: Claim): Result<Document, seq<Unresolved>>
  {
    if !Appendable(claim.kind) then Err([ClaimIssue(claim, UnsupportedClaimKind, [])])
    else TargetFrom(TargetsUpTo(RowsOf(norm, documents), norm, trusted, claim, |claim.mentions|), claim, DocumentsById(documents), prepared)
  }

  datatype Appends = Appends(ops: seq<Operation>, sources: seq<OperationSource>, unresolved: seq<Unresolved>,
                             increments: map<string, nat>, facts: set<(string, string)>)

  function AppendStep(st: Appends, claim: Claim, target: Result<Document, seq<Unresolved>>): Appends {
    match target
    case Err(issues) => st.(unresolved := st.unresolved + issues)
    case Ok(document) =>
      var id := document.entity.id;
      if (id, claim.text) in st.facts || FactLines.BodyContains(document.body, claim.text) then
        st.(unresolved := st.unresolved + [ClaimIssue(claim, DuplicateFact, [id])])
      else
        st.(ops := st.ops + [AppendFact(id, document.entity.revision + CountIn(st.increments, id), claim.text)],
            sources := st.sources + [OperationSource("append_fact", [claim.claimId], [], claim.evidence)],
            increments := st.increments[id := CountIn(st.increments, id) + 1],
            facts := st.facts + {(id, claim.text)})
  }

  function AppendsUpTo(documents: seq<Document>, norm: string -> string, prepared: map<string, Prepared>,
                       trusted: map<(string, string), string>, claims: seq<Claim>, k: nat): Appends
    requires k <= |claims|
  {
    if k == 0 then Appends([], [], [], map[], {})
    else AppendStep(AppendsUpTo(documents, norm, prepared, trusted, claims, k - 1), claims[k - 1],
                    TargetOf(documents, norm, prepared, trusted, claims[k - 1]))
  }

  method ResolveMentions(rows: seq<Row>, norm: string -> string, trusted: map<(string, string), string>, index: Index, claim: Claim)
    returns (st: Targets)
    requires Indexes(index, rows, [])
    ensures st == TargetsUpTo(rows, norm, trusted, claim, |claim.mentions|)
  {
    st := Targets([], false, []);
    for k := 0 to |claim.mentions|
      invariant st == TargetsUpTo(rows, norm, trusted, claim, k)
    {
      var m := claim.mentions[k];
      var entity := Lookup(trusted, (claim.claimId, m.mentionId));
      if entity.Some? && entity.value !in st.ids {
        st := st.(ids := st.ids + [entity.value]);
      } else {
        var found := Resolve(index, norm(m.text), m.etype);
        if |found| == 1 {
          st := st.(ids := AddUnique(st.ids, found[0]));
        } else {
          st := st.(missed := true,
                    unresolved := st.unresolved + [Unresolved(UnresolvedReference, Some(claim.claimId), Some(m.mentionId), None, found)]);
        }
      }
    }
  }

  method TrustedTargets(resolved: seq<Resolved>) returns (trusted: map<(string, string), string>)
    ensures trusted == Trusted(resolved)
  {
    trusted := map[];
    for k := 0 to |resolved|
      invariant trusted == Trusted(resolved[..k])
    {
      assert resolved[..k + 1][..k] == resolved[..k];
      trusted := trusted[(resolved[k].claimId, resolved[k].mentionId) := resolved[k].entityId];
    }
    assert resolved[..|resolved|] == resolved;
  }

  method FindTarget(documents: seq<Document>, norm: string -> string, prepared: map<string, Prepared>, trusted: map<(string, string), string>,
                    index: Index, byId: map<string, Document>, claim: Claim) returns (target: Result<Document, seq<Unresolved>>)
    requires Indexes(index, RowsOf(norm, documents), []) && byId == DocumentsById(documents)
    ensures target == TargetOf(documents, norm, prepared, trusted, claim)
  {
    if !Appendable(claim.kind) {
      return Err([ClaimIssue(claim, UnsupportedClaimKind, [])]);
    }
    var found := ResolveMentions(RowsOf(norm, documents), norm, trusted, index, claim);
    return TargetFrom(found, claim, byId, prepared);
  }

  method BuildAppends(documents: seq<Document>, norm: string -> string, prepared: map<string, Prepared>, v: Validated,
                      index: Index, byId: map<string, Document>) returns (st: Appends)
    requires Indexes(index, RowsOf(norm, documents), []) && byId == DocumentsById(documents)
    ensures st == AppendsUpTo(documents, norm, prepared, Trusted(v.resolved), v.extraction.claims, |v.extraction.claims|)
  {
    var trusted := TrustedTargets(v.resolved);
    var claims := v.extraction.claims;
    st := Appends([], [], [], map[], {});
    for k := 0 to |claims|
      invariant st == AppendsUpTo(documents, norm, prepared, trusted, claims, k)
    {
      var target := FindTarget(documents, norm, prepared, trusted, index, byId, claims[k]);
      AppendsSnoc(documents, norm, prepared, trusted, claims, k, st, target);
      st := AppendStep(st, claims[k], target);
    }
  }

  lemma AppendsSnoc(documents: seq<Document>, norm: string -> string, prepared: map<string, Prepared>,
                    trusted: map<(string, string), string>, claims: seq<Claim>, k: nat,
                    st: Appends, target: Result<Document, seq<Unresolved>>)
    requires k < |claims| && st == AppendsUpTo(documents, norm, prepared, trusted, claims, k)
    requires target == TargetOf(documents, norm, prepared, trusted, claims[k])
    ensures AppendsUpTo(documents, norm, prepared, trusted, claims, k + 1) == AppendStep(st, claims[k], target)
  {
  }

  // The producer

  datatype Plan =
    | NoChanges(unresolved: seq<Unresolved>)
    | Proposal(unresolved: seq<Unresolved>, sources: seq<OperationSource>, changeset: ChangeSet)

  function CreatesOf(documents: seq<Document>, v: Validated, session: string, rules: Rules): Creates {
    CreatesUpTo(documents, v.extraction.candidates, session, rules, |v.extraction.candidates|)
  }

  function AppendsOf(documents: seq<Document>, v: Validated, prepared: map<string, Prepared>, rules: Rules): Appends {
    AppendsUpTo(documents, rules.norm, prepared, Trusted(v.resolved), v.extraction.claims, |v.extraction.claims|)
  }

  function Planned(documents: seq<Document>, v: Validated, prepared: map<string, Prepared>, session: string, attempt: string, rules: Rules): Plan {
    var creates, appends := CreatesOf(documents, v, session, rules), AppendsOf(documents, v, prepared, rules);
    var unresolved := creates.unresolved + appends.unresolved;
    if creates.ops + appends.ops == [] then NoChanges(unresolved)
    else Proposal(unresolved, creates.sources + appends.sources,
                  ChangeSet(PostSessionProposalId(session, attempt), ModelInference, Some(session), creates.ops + appends.ops))
  }

  ghost predicate DistinctCandidates(candidates: seq<NewEntity>) {
    forall i, j :: 0 <= i < j < |candidates| ==> candidates[i].candidateId != candidates[j].candidateId
  }

  /** What the prepared input and the accepted extraction say of each other. */
  datatype PreparedInput = PreparedInput(session: string, fingerprint: string, processorVersion: string, promptVersion: string,
                                         entities: seq<Prepared>)

  datatype ExtractionProvenance = ExtractionProvenance(session: string, inputFingerprint: string, processorVersion: string,
                                                       promptVersion: string, schemaVersion: nat)

  datatype Accepted = Accepted(validated: Validated, provenance: ExtractionProvenance)

  /** The extraction was made from this input, by this processor, in the current schema. */
  predicate Belongs(input: PreparedInput, accepted: Accepted) {
    && accepted.provenance == ExtractionProvenance(input.session, input.fingerprint, input.processorVersion, input.promptVersion, SCHEMA_VERSION)
    && accepted.validated.extraction.schemaVersion == SCHEMA_VERSION
  }

  /** What must agree, in the order of the checks. */
  datatype Field = SessionRef | InputFingerprint | ProcessorVersion | PromptVersion | DeclaredSchema | ExtractionSchema

  predicate Differs(input: PreparedInput, accepted: Accepted, field: Field) {
    match field
    case SessionRef => accepted.provenance.session != input.session
    case InputFingerprint => accepted.provenance.inputFingerprint != input.fingerprint
    case ProcessorVersion => accepted.provenance.processorVersion != input.processorVersion
    case PromptVersion => accepted.provenance.promptVersion != input.promptVersion
    case DeclaredSchema => accepted.provenance.schemaVersion != SCHEMA_VERSION
    case ExtractionSchema => accepted.validated.extraction.schemaVersion != SCHEMA_VERSION
  }

  function Rank(field: Field): nat {
    match field
    case SessionRef => 0
    case InputFingerprint => 1
    case ProcessorVersion => 2
    case PromptVersion => 3
    case DeclaredSchema => 4
    case ExtractionSchema => 5
  }

  /** The differing fields, each once, in order. */
  method BindingMismatches(input: PreparedInput, accepted: Accepted) returns (fields: seq<Field>)
    ensures forall field :: field in fields <==> Differs(input, accepted, field)
    ensures forall i, j :: 0 <= i < j < |fields| ==> Rank(fields[i]) < Rank(fields[j])
    ensures fields == [] <==> Belongs(input, accepted)
  {
    var order := [SessionRef, InputFingerprint, ProcessorVersion, PromptVersion, DeclaredSchema, ExtractionSchema];
    fields := [];
    for k := 0 to |order|
      invariant forall i :: 0 <= i < |order| ==> Rank(order[i]) == i
      invariant forall field :: field in fields <==> Rank(field) < k && Differs(input, accepted, field)
      invariant forall i, j :: 0 <= i < j < |fields| ==> Rank(fields[i]) < Rank(fields[j])
    {
      if Differs(input, accepted, order[k]) {
        fields := fields + [order[k]];
      }
    }
    BelongsIff(input, accepted);
    assert fields != [] ==> fields[0] in fields;
  }

  lemma BelongsIff(input: PreparedInput, accepted: Accepted)
    ensures Belongs(input, accepted) <==> forall field :: !Differs(input, accepted, field)
  {
    if forall field :: !Differs(input, accepted, field) {
      assert !Differs(input, accepted, SessionRef) && !Differs(input, accepted, InputFingerprint) && !Differs(input, accepted, ProcessorVersion);
      assert !Differs(input, accepted, PromptVersion) && !Differs(input, accepted, DeclaredSchema) && !Differs(input, accepted, ExtractionSchema);
    }
  }

  predicate IsLowerHex(c: char) {
    '0' <= c <= '9' || 'a' <= c <= 'f'
  }

  /** `att_` and thirty-two lower-case hexadecimal digits. */
  predicate IsAttemptId(s: string) {
    |s| == 36 && s[..4] == "att_" && forall i :: 4 <= i < 36 ==> IsLowerHex(s[i])
  }

  /** The pattern of the check ends in `$`, which also matches before a final line feed. */
  predicate MatchesAttemptPattern(s: string) {
    IsAttemptId(s) || (|s| == 37 && s[36] == '\n' && IsAttemptId(s[..36]))
  }

  datatype Refusal =
    | InvalidAttemptId
    | ProvenanceMismatch(fields: seq<Field>)
    | MalformedChangeSetId
    | PreflightFailed(issues: seq<Preflight.Issue>)

  function OperationsOf(documents: seq<Document>, v: Validated, prepared: map<string, Prepared>, session: string, rules: Rules): seq<Operation> {
    CreatesOf(documents, v, session, rules).ops + AppendsOf(documents, v, prepared, rules).ops
  }

  /** The check that refuses, in the order of the checks. */
  datatype Stage = AttemptCheck | BindingCheck | IdCheck | PreflightCheck | Accepts

  function StageOf(documents: seq<Document>, again: seq<Document>, input: PreparedInput, accepted: Accepted, attempt: string, rules: Rules): Stage {
    var ops := OperationsOf(documents, accepted.validated, ById(input.entities), input.session, rules);
    if !MatchesAttemptPattern(attempt) then AttemptCheck
    else if !Belongs(input, accepted) then BindingCheck
    else if ops != [] && !IsAttemptId(attempt) then IdCheck
    else if ops != [] && !Preflight.Valid(again, ops) then PreflightCheck
    else Accepts
  }

  function StageOfRefusal(refusal: Refusal): Stage {
    match refusal
    case InvalidAttemptId => AttemptCheck
    case ProvenanceMismatch(_) => BindingCheck
    case MalformedChangeSetId => IdCheck
    case PreflightFailed(_) => PreflightCheck
  }

  /** `documents` and `again` are the two reads of the repository. */
  method ProducePostSessionChangeset(documents: seq<Document>, again: seq<Document>, input: PreparedInput, accepted: Accepted,
                                     attempt: string, rules: Rules, ghost vault: map<string, Document>) returns (r: Result<Plan, Refusal>)
    ensures StageOf(documents, again, input, accepted, attempt, rules) == if r.Ok? then Accepts else StageOfRefusal(r.error)
    ensures r.Ok? ==> r.value == Planned(documents, accepted.validated, ById(input.entities), input.session, attempt, rules)
    ensures r.Err? && r.error.ProvenanceMismatch? ==>
              && (forall field :: field in r.error.fields <==> Differs(input, accepted, field))
              && forall i, j :: 0 <= i < j < |r.error.fields| ==> Rank(r.error.fields[i]) < Rank(r.error.fields[j])
    ensures r.Err? && r.error.PreflightFailed? ==>
              r.error.issues == Preflight.Issues(again, OperationsOf(documents, accepted.validated, ById(input.entities), input.session, rules))
    ensures Repository.Lists(documents, vault) && Repository.Lists(again, vault) && DistinctCandidates(accepted.validated.extraction.candidates) ==>
              r.Ok? || !r.error.PreflightFailed?
  {
    if !MatchesAttemptPattern(attempt) {
      return Err(InvalidAttemptId);
    }
    var mismatches := BindingMismatches(input, accepted);
    if mismatches != [] {
      return Err(ProvenanceMismatch(mismatches));
    }
    var v := accepted.validated;
    assert RowsOf(rules.norm, documents) + [] == RowsOf(rules.norm, documents);
    var index := BuildIndex(RowsOf(rules.norm, documents), []);
    var byId := CurrentDocuments(documents);
    var prepared := EntitiesById(input.entities);
    var creates := BuildCreates(documents, v.extraction.candidates, input.session, rules, index, byId);
    var appends := BuildAppends(documents, rules.norm, prepared, v, index, byId);
    var operations := creates.ops + appends.ops;
    if operations == [] {
      return Ok(NoChanges(creates.unresolved + appends.unresolved));
    }
    if !IsAttemptId(attempt) {
      return Err(MalformedChangeSetId);
    }
    var changeset := ChangeSet(PostSessionProposalId(input.session, attempt), ModelInference, Some(input.session), operations);
    var issues := Preflight.ValidateChangeSet(changeset, again);
    if issues != [] {
      PreflightPasses(documents, again, vault, v, prepared, input.session, rules);
      return Err(PreflightFailed(issues));
    }
    return Ok(Proposal(creates.unresolved + appends.unresolved, creates.sources + appends.sources, changeset));
  }

  /**
   For an accepted extraction and two reads of one Vault preflight never refuses:
   the call succeeds exactly for an extraction of this input under an attempt id,
   or under one with a line feed behind it while there is nothing to propose.
   */
  lemma OnlyForeignInputIsRefused(documents: seq<Document>, again: seq<Document>, vault: map<string, Document>, input: PreparedInput,
                                  accepted: Accepted, e: Extraction, events: set<string>, attempt: string, rules: Rules)
    requires Repository.Lists(documents, vault) && Repository.Lists(again, vault)
    requires Validate(e, input.entities, events) == Ok(accepted.validated)
    ensures StageOf(documents, again, input, accepted, attempt, rules) != PreflightCheck
    ensures StageOf(documents, again, input, accepted, attempt, rules) == Accepts <==>
              && Belongs(input, accepted)
              && (IsAttemptId(attempt)
                  || (MatchesAttemptPattern(attempt)
                      && OperationsOf(documents, accepted.validated, ById(input.entities), input.session, rules) == []))
  {
    AcceptedExtractionsPass(e, input.entities, events, documents, again, vault, input.session, rules);
  }

  /** A validated extraction of this input. */
  function AcceptedFor(input: PreparedInput, v: Validated): Accepted {
    Accepted(v, ExtractionProvenance(input.session, input.fingerprint, input.processorVersion, input.promptVersion, SCHEMA_VERSION))
  }

  const NOTHING := Extraction(SCHEMA_VERSION, [], [])

  function OneCandidate(eventId: string): Extraction {
    Extraction(SCHEMA_VERSION, [], [NewEntity("c1", "Bree", Location, [eventId], [], None)])
  }

  lemma NothingIsAccepted(entities: seq<Prepared>, events: set<string>)
    ensures Validate(NOTHING, entities, events) == Ok(Validated(NOTHING, [], []))
  {
    assert ClaimsUpTo(ById(entities), events, [], 0) == Ok(SessionExtraction.Claims([], {}, Mentions([], [], [], {})));
    assert CandidatesUpTo(events, [], 0) == Ok(Candidates([], {}));
    assert ClaimChars([], 0) == 0 && CandidateChars([], 0) == 0 && MentionTotal([], 0) == 0;
  }

  lemma OneCandidateIsAccepted(entities: seq<Prepared>, eventId: string)
    ensures Validate(OneCandidate(eventId), entities, {eventId}) == Ok(Validated(OneCandidate(eventId), [], []))
  {
    var c := OneCandidate(eventId).candidates[0];
    assert EvidenceUpTo([eventId], {eventId}, 0) == Ok([]);
    assert AddUnique([], eventId) == [eventId] && [eventId][0] in {eventId};
    assert EvidenceUpTo([eventId], {eventId}, 1) == Ok([eventId]);
    assert CandidatesUpTo({eventId}, [c], 0) == Ok(Candidates([], {}));
    assert Evidence(c.evidence, {eventId}) == Ok([eventId]) && c.(evidence := [eventId]) == c;
    assert [] + [c] == [c] && {} + {"c1"} == {"c1"};
    assert CandidatesUpTo({eventId}, [c], 1) == Ok(Candidates([c], {"c1"}));
    assert ClaimsUpTo(ById(entities), {eventId}, [], 0) == Ok(SessionExtraction.Claims([], {}, Mentions([], [], [], {})));
    assert AttributeChars([], 0) == 0 && |c.displayName| == 4;
    assert CandidateChars([c], 0) == 0 && CandidateChars([c], 1) == 4;
    assert ClaimChars([], 0) == 0 && MentionTotal([], 0) == 0;
  }

  /** An attempt id with a line feed behind it goes through on every Vault while the session has nothing to tell. */
  lemma LineFeedIdGoesThrough(documents: seq<Document>, again: seq<Document>, input: PreparedInput, events: set<string>, attempt: string, rules: Rules)
    requires IsAttemptId(attempt)
    ensures Validate(NOTHING, input.entities, events).Ok?
    ensures var accepted := AcceptedFor(input, Validate(NOTHING, input.entities, events).value);
            StageOf(documents, again, input, accepted, attempt + "\n", rules) == Accepts
  {
    NothingIsAccepted(input.entities, events);
    assert (attempt + "\n")[..36] == attempt;
  }

  /** On an empty Vault one candidate is enough for it to fail, where the id itself goes through. */
  lemma LineFeedIdFails(input: PreparedInput, eventId: string, attempt: string, rules: Rules)
    requires IsAttemptId(attempt)
    ensures Evidenced(OneCandidate(eventId)) && Validate(OneCandidate(eventId), input.entities, {eventId}).Ok?
    ensures var accepted := AcceptedFor(input, Validate(OneCandidate(eventId), input.entities, {eventId}).value);
            && StageOf([], [], input, accepted, attempt + "\n", rules) == IdCheck
            && StageOf([], [], input, accepted, attempt, rules) == Accepts
  {
    OneCandidateIsAccepted(input.entities, eventId);
    var v := Validated(OneCandidate(eventId), [], []);
    assert (attempt + "\n")[..36] == attempt;
    OneCandidateIsCreated(OneCandidate(eventId).candidates, input.session, rules);
    assert Repository.Lists([], map[]);
    OnlyForeignInputIsRefused([], [], map[], input, AcceptedFor(input, v), OneCandidate(eventId), {eventId}, attempt, rules);
  }

  lemma {:induction false} OneCandidateIsCreated(candidates: seq<NewEntity>, session: string, rules: Rules)
    requires |candidates| == 1
    ensures CreatesUpTo([], candidates, session, rules, 1).ops != []
  {
    var c := candidates[0];
    var id := Allocation(rules, c);
    IdByCandidateHas(candidates, rules, 1);
    assert IdByCandidate(candidates, rules, 0) == map[];
    assert IdByCandidate(candidates, rules, 1)[c.candidateId] == id;
    assert ClaimantCount(candidates, rules, id, 0) == 0 && ClaimantCount(candidates, rules, id, 1) == 1;
    assert RowsOf(rules.norm, []) == [] && DocumentsById([]) == map[];
    MatchesAreExact([], rules.norm(c.displayName));
    assert CandidateVerdict([], candidates, rules, 0, {}) == Emit;
    assert CreatesUpTo([], candidates, session, rules, 0) == Creates([], [], [], {});
  }

  /** Two proposals never share an id: session and attempt can be read off it. */
  lemma ProposalIdsAreDistinct(session: string, attempt: string, session': string, attempt': string)
    requires IsAttemptId(attempt) && IsAttemptId(attempt')
    ensures PostSessionProposalId(session, attempt) == PostSessionProposalId(session', attempt') <==> session == session' && attempt == attempt'
  {
    var id, id' := PostSessionProposalId(session, attempt), PostSessionProposalId(session', attempt');
    if id == id' {
      assert session == id[3..|id| - 37] && session' == id'[3..|id'| - 37];
      assert attempt == id[|id| - 36..] && attempt' == id'[|id'| - 36..];
    }
  }

  method CurrentDocuments(documents: seq<Document>) returns (byId: map<string, Document>)
    ensures byId == DocumentsById(documents)
  {
    byId := map[];
    for k := 0 to |documents|
      invariant byId == DocumentsById(documents[..k])
    {
      assert documents[..k + 1][..k] == documents[..k];
      byId := byId[documents[k].entity.id := documents[k]];
    }
    assert documents[..|documents|] == documents;
  }

  // Preflight never fails

  lemma {:induction false} DocumentsByIdAre(documents: seq<Document>, id: string)
    ensures var byId := DocumentsById(documents);
            && (id in byId <==> exists i :: 0 <= i < |documents| && documents[i].entity.id == id)
            && (id in byId ==> byId[id] in documents && byId[id].entity.id == id)
  {
    if documents != [] {
      DocumentsByIdAre(documents[..|documents| - 1], id);
    }
  }

  lemma {:induction false} CurrentIsVault(documents: seq<Document>, vault: map<string, Document>)
    requires Repository.Lists(documents, vault)
    ensures DocumentsById(documents) == vault
  {
    forall id: string
      ensures id in DocumentsById(documents) <==> id in vault
      ensures id in vault ==> DocumentsById(documents)[id] == vault[id]
    {
      DocumentsByIdAre(documents, id);
    }
  }

  lemma {:induction false} OwnAllocation(candidates: seq<NewEntity>, rules: Rules, k: nat)
    requires DistinctCandidates(candidates) && k <= |candidates|
    ensures forall i :: 0 <= i < k ==>
              && candidates[i].candidateId in IdByCandidate(candidates, rules, k)
              && IdByCandidate(candidates, rules, k)[candidates[i].candidateId] == Allocation(rules, candidates[i])
  {
    if k > 0 {
      OwnAllocation(candidates, rules, k - 1);
    }
  }

  lemma {:induction false} TwoClaimants(candidates: seq<NewEntity>, rules: Rules, i: nat, j: nat, k: nat)
    requires i < j < k <= |candidates| && Allocation(rules, candidates[i]) == Allocation(rules, candidates[j])
    ensures ClaimantCount(candidates, rules, Allocation(rules, candidates[i]), k) > 1
  {
    if j < k - 1 {
      TwoClaimants(candidates, rules, i, j, k - 1);
    } else {
      OneClaimant(candidates, rules, i, k - 1);
    }
  }

  lemma {:induction false} OneClaimant(candidates: seq<NewEntity>, rules: Rules, i: nat, k: nat)
    requires i < k <= |candidates|
    ensures ClaimantCount(candidates, rules, Allocation(rules, candidates[i]), k) > 0
  {
    if i < k - 1 {
      OneClaimant(candidates, rules, i, k - 1);
    }
  }

  /** What the creates of the first `k` candidates keep. */
  ghost predicate Own(ops: seq<Operation>, candidates: seq<NewEntity>, rules: Rules, vault: map<string, Document>, k: nat)
    requires k <= |candidates|
  {
    && Preflight.FreshCreates(ops, Preflight.Revisions(vault))
    && forall n :: 0 <= n < |ops| ==> OwnedBy(candidates, rules, k, ops[n].entityId)
  }

  lemma {:induction false} OwnedLater(candidates: seq<NewEntity>, rules: Rules, k: nat, id: string)
    requires 0 < k <= |candidates| && OwnedBy(candidates, rules, k - 1, id)
    ensures OwnedBy(candidates, rules, k, id)
    ensures id == Allocation(rules, candidates[k - 1]) ==> ClaimantCount(candidates, rules, id, |candidates|) > 1
  {
    var i: nat :| i < k - 1 && Allocation(rules, candidates[i]) == id;
    if id == Allocation(rules, candidates[k - 1]) {
      TwoClaimants(candidates, rules, i, k - 1, |candidates|);
    }
  }

  lemma {:induction false} OneCreateMore(ops: seq<Operation>, op: Operation, candidates: seq<NewEntity>, rules: Rules, vault: map<string, Document>, k: nat)
    requires 0 < k <= |candidates| && Own(ops, candidates, rules, vault, k - 1)
    requires op.CreateEntity? && op.entityId == Allocation(rules, candidates[k - 1]) && op.entityId !in vault
    requires ClaimantCount(candidates, rules, op.entityId, |candidates|) <= 1
    ensures Own(ops + [op], candidates, rules, vault, k)
  {
    forall n | 0 <= n < |ops|
      ensures OwnedBy(candidates, rules, k, ops[n].entityId) && ops[n].entityId != op.entityId
    {
      OwnedLater(candidates, rules, k, ops[n].entityId);
    }
    assert Allocation(rules, candidates[k - 1]) == op.entityId;
    assert OwnedBy(candidates, rules, k, op.entityId);
  }

  lemma NoCreateMore(ops: seq<Operation>, candidates: seq<NewEntity>, rules: Rules, vault: map<string, Document>, k: nat)
    requires 0 < k <= |candidates| && Own(ops, candidates, rules, vault, k - 1)
    ensures Own(ops, candidates, rules, vault, k)
  {
    forall n | 0 <= n < |ops|
      ensures OwnedBy(candidates, rules, k, ops[n].entityId)
    {
      OwnedLater(candidates, rules, k, ops[n].entityId);
    }
  }

  /** Each create is new to the Vault and belongs to a candidate with an allocation of its own. */
  lemma {:induction false} CreatesAreOwn(documents: seq<Document>, candidates: seq<NewEntity>, session: string, rules: Rules,
                                         vault: map<string, Document>, k: nat)
    requires Repository.Lists(documents, vault) && DistinctCandidates(candidates) && k <= |candidates|
    ensures Own(CreatesUpTo(documents, candidates, session, rules, k).ops, candidates, rules, vault, k)
  {
    if k > 0 {
      CreatesAreOwn(documents, candidates, session, rules, vault, k - 1);
      OwnAllocation(candidates, rules, |candidates|);
      CurrentIsVault(documents, vault);
      var before, now := CreatesUpTo(documents, candidates, session, rules, k - 1).ops, CreatesUpTo(documents, candidates, session, rules, k).ops;
      if now == before {
        NoCreateMore(before, candidates, rules, vault, k);
      } else {
        OneCreateMore(before, now[|before|], candidates, rules, vault, k);
      }
    }
  }

  ghost predicate OwnedBy(candidates: seq<NewEntity>, rules: Rules, k: nat, id: string)
    requires k <= |candidates|
  {
    exists i: nat :: i < k && Allocation(rules, candidates[i]) == id
  }

  ghost predicate Stacked(st: Appends, base: map<string, nat>) {
    Preflight.Stacked(st.ops, st.increments, base)
  }

  lemma StepStaysStacked(st: Appends, claim: Claim, target: Result<Document, seq<Unresolved>>, base: map<string, nat>)
    requires Stacked(st, base)
    requires target.Ok? ==> target.value.entity.id in base && target.value.entity.revision == base[target.value.entity.id]
    ensures Stacked(AppendStep(st, claim, target), base)
  {
    var after := AppendStep(st, claim, target);
    if after.ops != st.ops {
      Preflight.CountedAppend(st.ops, st.increments, after.ops[|st.ops|], base);
    }
  }

  lemma {:induction false} AppendsAreStacked(documents: seq<Document>, norm: string -> string, prepared: map<string, Prepared>,
                                             trusted: map<(string, string), string>, claims: seq<Claim>, vault: map<string, Document>, k: nat)
    requires Repository.Lists(documents, vault) && k <= |claims|
    ensures Stacked(AppendsUpTo(documents, norm, prepared, trusted, claims, k), Preflight.Revisions(vault))
  {
    if k > 0 {
      AppendsAreStacked(documents, norm, prepared, trusted, claims, vault, k - 1);
      TargetIsCurrent(documents, norm, prepared, trusted, claims[k - 1], vault);
      StepStaysStacked(AppendsUpTo(documents, norm, prepared, trusted, claims, k - 1), claims[k - 1],
                       TargetOf(documents, norm, prepared, trusted, claims[k - 1]), Preflight.Revisions(vault));
    }
  }

  lemma TargetIsCurrent(documents: seq<Document>, norm: string -> string, prepared: map<string, Prepared>,
                        trusted: map<(string, string), string>, claim: Claim, vault: map<string, Document>)
    requires Repository.Lists(documents, vault)
    ensures var target := TargetOf(documents, norm, prepared, trusted, claim);
            target.Ok? ==>
              && target.value.entity.id in vault && vault[target.value.entity.id] == target.value
              && target.value.entity.visibility != System
              && target.value.entity.id in prepared && ProjectionMatches(target.value, prepared[target.value.entity.id])
  {
    CurrentIsVault(documents, vault);
    var found := TargetsUpTo(RowsOf(norm, documents), norm, trusted, claim, |claim.mentions|);
    if TargetOf(documents, norm, prepared, trusted, claim).Ok? {
      DocumentsByIdAre(documents, found.ids[0]);
    }
  }

  /** Every proposal passes its own preflight when the repository shows the same Vault twice. */
  lemma PreflightPasses(documents: seq<Document>, again: seq<Document>, vault: map<string, Document>, v: Validated,
                        prepared: map<string, Prepared>, session: string, rules: Rules)
    ensures Repository.Lists(documents, vault) && Repository.Lists(again, vault) && DistinctCandidates(v.extraction.candidates) ==>
              Preflight.Valid(again, CreatesOf(documents, v, session, rules).ops + AppendsOf(documents, v, prepared, rules).ops)
  {
    if Repository.Lists(documents, vault) && Repository.Lists(again, vault) && DistinctCandidates(v.extraction.candidates) {
      Preflight.BaseIsVault(again, vault);
      CreatesAreOwn(documents, v.extraction.candidates, session, rules, vault, |v.extraction.candidates|);
      AppendsAreStacked(documents, rules.norm, prepared, Trusted(v.resolved), v.extraction.claims, vault, |v.extraction.claims|);
      Preflight.CreatesThenAppendsPass(again, CreatesOf(documents, v, session, rules).ops, AppendsOf(documents, v, prepared, rules).ops);
    }
  }

  /** So does every proposal made from an extraction that passed validation. */
  lemma {:induction false} AcceptedExtractionsPass(e: Extraction, entities: seq<Prepared>, events: set<string>, documents: seq<Document>, again: seq<Document>,
                                                   vault: map<string, Document>, session: string, rules: Rules)
    requires Validate(e, entities, events).Ok?
    requires Repository.Lists(documents, vault) && Repository.Lists(again, vault)
    ensures var v := Validate(e, entities, events).value;
            Preflight.Valid(again, CreatesOf(documents, v, session, rules).ops + AppendsOf(documents, v, ById(entities), rules).ops)
  {
    CandidatesAreDistinct(events, e.candidates, |e.candidates|);
    PreflightPasses(documents, again, vault, Validate(e, entities, events).value, ById(entities), session, rules);
  }
}
