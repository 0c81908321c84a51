/**
 The bootstrap producer: an untrusted extraction becomes a proposal of creates and
 appends that preflight never refuses.
 */
module Bootstrap {
  import opened Wrappers
  import opened Domain
  import opened Binding
  import opened Canonical
  import FactLines
  import Preflight

  datatype ClaimKind = Fact | Event | Relationship | Other

  datatype EntityCandidate = EntityCandidate(candidateId: string, displayName: string, etype: EntityType, sourceRefs: seq<string>)

  datatype Reference = Reference(text: string, etype: EntityType, sourceRefs: seq<string>)

  datatype Claim = Claim(claimId: string, kind: ClaimKind, text: string, sourceRefs: seq<string>,
                         references: seq<Reference>, conflictGroup: Option<string>)

  datatype Extraction = Extraction(candidates: seq<EntityCandidate>, claims: seq<Claim>)

  datatype Reason =
    | CandidateNameConflict | EntityIdCollision | DuplicateExistingEntity | CanonicalStateConflict
    | AmbiguousExactMatch | UnsupportedClaimKind | ConflictingSourceClaims | UnresolvedReference
    | NoCanonicalTarget | UnsupportedMultiTarget | SystemEntityExcluded | DuplicateFact

  datatype Unresolved = Unresolved(
    reason: Reason, candidateId: Option<string>, claimId: Option<string>, entityIds: seq<string>, sourceRefs: seq<string>)

  /** Which candidate or claim an operation comes from; one entry per operation, in order. */
  datatype OperationSource = OperationSource(kind: string, candidateIds: seq<string>, claimIds: seq<string>, sourceRefs: seq<string>)

  const DEFAULT_STATUS := "unknown"
  const DEFAULT_VISIBILITY: Visibility := Dm
  const DEFAULT_KNOWLEDGE: KnowledgeStatus := Inferred

  // Candidates

  /** How many of the first `k` candidates carry a normalized name. */
  function NameCount(candidates: seq<EntityCandidate>, norm: string -> string, name: string, k: nat): nat
    requires k <= |candidates|
  {
    if k == 0 then 0
    else NameCount(candidates, norm, name, k - 1) + (if norm(candidates[k - 1].displayName) == name then 1 else 0)
  }

  function Allocation(rules: Rules, candidate: EntityCandidate): string {
    rules.allocate(candidate.etype, candidate.displayName)
  }

  /** The dictionary candidate id -> entity id after `k` candidates; a repeated candidate id overwrites. */
  function Allocated(candidates: seq<EntityCandidate>, rules: Rules, k: nat): map<string, string>
    requires k <= |candidates|
  {
    if k == 0 then map[]
    else Allocated(candidates, rules, k - 1)[candidates[k - 1].candidateId := Allocation(rules, candidates[k - 1])]
  }

  /** How many of the first `k` candidates allocate an entity id. */
  function ClaimantCount(candidates: seq<EntityCandidate>, rules: Rules, id: string, k: nat): nat
    requires k <= |candidates|
  {
    if k == 0 then 0
    else ClaimantCount(candidates, rules, id, k - 1) + (if Allocation(rules, candidates[k - 1]) == id then 1 else 0)
  }

  lemma {:induction false} AllocatedHas(candidates: seq<EntityCandidate>, rules: Rules, k: nat)
    requires k <= |candidates|
    ensures forall i :: 0 <= i < k ==> candidates[i].candidateId in Allocated(candidates, rules, k)
  {
    if k > 0 {
      AllocatedHas(candidates, rules, k - 1);
    }
  }

  function FindView(views: seq<View>, id: string): Option<View> {
    if views == [] then None
    else if views[|views| - 1].row.id == id then Some(views[|views| - 1])
    else FindView(views[..|views| - 1], id)
  }

  function ConflictIds(s: Snapshot): set<string> {
    set i | 0 <= i < |s.conflicts| :: s.conflicts[i].row.id
  }

  datatype Verdict = Emit | Omit(reason: Reason, entityIds: seq<string>)

  /** What becomes of candidate `i` when the ids in `emitted` are already taken. */
  function CandidateVerdict(s: Snapshot, e: Extraction, rules: Rules, i: nat, emitted: set<string>): Verdict
    requires i < |e.candidates|
  {
    var c := e.candidates[i];
    AllocatedHas(e.candidates, rules, |e.candidates|);
    var id := Allocated(e.candidates, rules, |e.candidates|)[c.candidateId];
    var matches := MatchRows(BindableRows(s) + ConflictRows(s), rules.norm(c.displayName));
    if NameCount(e.candidates, rules.norm, rules.norm(c.displayName), |e.candidates|) > 1 then Omit(CandidateNameConflict, [])
    else if ClaimantCount(e.candidates, rules, id, |e.candidates|) > 1 then Omit(EntityIdCollision, [id])
    else if FindView(s.bindable, id).Some? then Omit(DuplicateExistingEntity, [id])
    else if id in ConflictIds(s) then Omit(CanonicalStateConflict, [id])
    else if id in emitted then Omit(EntityIdCollision, [id])
    else if |matches| == 1 then Omit(DuplicateExistingEntity, matches)
    else if |matches| > 1 then Omit(AmbiguousExactMatch, matches)
    else Emit
  }

  function CreateFor(candidate: EntityCandidate, id: string): Operation {
    CreateEntity(id, candidate.etype, candidate.displayName, DEFAULT_STATUS, DEFAULT_VISIBILITY, DEFAULT_KNOWLEDGE, None, None, [])
  }

  datatype Creates = Creates(ops: seq<Operation>, sources: seq<OperationSource>, unresolved: seq<Unresolved>, emitted: set<string>)

  function CreateStep(st: Creates, c: EntityCandidate, id: string, verdict: Verdict): Creates {
    match verdict
    case Omit(reason, ids) =>
      st.(unresolved := st.unresolved + [Unresolved(reason, Some(c.candidateId), None, ids, c.sourceRefs)])
    case Emit =>
      st.(ops := st.ops + [CreateFor(c, id)],
          sources := st.sources + [OperationSource("create_entity", [c.candidateId], [], c.sourceRefs)],
          emitted := st.emitted + {id})
  }

  function CreatesUpTo(s: Snapshot, e: Extraction, rules: Rules, k: nat): Creates
    requires k <= |e.candidates|
  {
    if k == 0 then Creates([], [], [], {})
    else
      var st := CreatesUpTo(s, e, rules, k - 1);
      AllocatedHas(e.candidates, rules, |e.candidates|);
      CreateStep(st, e.candidates[k - 1], Allocated(e.candidates, rules, |e.candidates|)[e.candidates[k - 1].candidateId],
                 CandidateVerdict(s, e, rules, k - 1, st.emitted))
  }

  method AllocateIds(e: Extraction, rules: Rules) returns (idByCandidate: map<string, string>, claims: map<string, nat>)
    ensures idByCandidate == Allocated(e.candidates, rules, |e.candidates|)
    ensures forall id :: CountIn(claims, id) == ClaimantCount(e.candidates, rules, id, |e.candidates|)
  {
    idByCandidate, claims := map[], map[];
    for k := 0 to |e.candidates|
      invariant idByCandidate == Allocated(e.candidates, rules, k)
      invariant forall id :: CountIn(claims, id) == ClaimantCount(e.candidates, rules, id, k)
    {
      var id := Allocation(rules, e.candidates[k]);
      idByCandidate := idByCandidate[e.candidates[k].candidateId := id];
      claims := claims[id := CountIn(claims, id) + 1];
    }
  }

  method DecideCandidate(s: Snapshot, e: Extraction, rules: Rules, index: Index, byId: map<string, View>, nameGroups: map<string, nat>,
                         claims: map<string, nat>, i: nat, id: string, emitted: set<string>) returns (verdict: Verdict)
    requires Indexes(index, BindableRows(s), ConflictRows(s))
    requires forall id :: (id in byId <==> FindView(s.bindable, id).Some?)
    requires forall name :: CountIn(nameGroups, name) == NameCount(e.candidates, rules.norm, name, |e.candidates|)
    requires forall id :: CountIn(claims, id) == ClaimantCount(e.candidates, rules, id, |e.candidates|)
    requires i < |e.candidates| && e.candidates[i].candidateId in Allocated(e.candidates, rules, |e.candidates|)
    requires id == Allocated(e.candidates, rules, |e.candidates|)[e.candidates[i].candidateId]
    ensures verdict == CandidateVerdict(s, e, rules, i, emitted)
  {
    var name := rules.norm(e.candidates[i].displayName);
    if CountIn(nameGroups, name) > 1 {
      return Omit(CandidateNameConflict, []);
    }
    if CountIn(claims, id) > 1 {
      return Omit(EntityIdCollision, [id]);
    }
    if id in byId {
      return Omit(DuplicateExistingEntity, [id]);
    }
    if id in ConflictIds(s) {
      return Omit(CanonicalStateConflict, [id]);
    }
    if id in emitted {
      return Omit(EntityIdCollision, [id]);
    }
    var matches := AnyTypeMatches(index, name, BindableRows(s), ConflictRows(s));
    if |matches| == 1 {
      return Omit(DuplicateExistingEntity, matches);
    }
    if |matches| > 1 {
      return Omit(AmbiguousExactMatch, matches);
    }
    return Emit;
  }

  method BuildCreates(s: Snapshot, e: Extraction, rules: Rules, index: Index, byId: map<string, View>, nameGroups: map<string, nat>)
    returns (st: Creates)
    requires Indexes(index, BindableRows(s), ConflictRows(s))
    requires forall id :: (id in byId <==> FindView(s.bindable, id).Some?)
    requires forall name :: CountIn(nameGroups, name) == NameCount(e.candidates, rules.norm, name, |e.candidates|)
    ensures st == CreatesUpTo(s, e, rules, |e.candidates|)
  {
    var idByCandidate, claims := AllocateIds(e, rules);
    AllocatedHas(e.candidates, rules, |e.candidates|);
    st := Creates([], [], [], {});
    for k := 0 to |e.candidates|
      invariant st == CreatesUpTo(s, e, rules, k)
    {
      var id := idByCandidate[e.candidates[k].candidateId];
      var verdict := DecideCandidate(s, e, rules, index, byId, nameGroups, claims, k, id, st.emitted);
      st := CreateStep(st, e.candidates[k], id, verdict);
    }
  }

  // Claims

  predicate Appendable(kind: ClaimKind) {
    kind == Fact || kind == Event
  }

  /** How many of the first `k` claims name a conflict group. */
  function GroupCount(claims: seq<Claim>, group: string, k: nat): nat
    requires k <= |claims|
  {
    if k == 0 then 0 else GroupCount(claims, group, k - 1) + (if claims[k - 1].conflictGroup == Some(group) then 1 else 0)
  }

  datatype References = References(targets: seq<string>, missed: bool, unresolved: seq<Unresolved>)

  function ReferenceStep(st: References, claim: Claim, reference: Reference, resolved: seq<string>): References {
    if |resolved| == 1 then st.(targets := AddUnique(st.targets, resolved[0]))
    else st.(missed := true,
             unresolved := st.unresolved + [Unresolved(UnresolvedReference, None, Some(claim.claimId), resolved, reference.sourceRefs)])
  }

  function ReferencesUpTo(rows: seq<Row>, norm: string -> string, claim: Claim, k: nat): References
    requires k <= |claim.references|
  {
    if k == 0 then References([], false, [])
    else
      var reference := claim.references[k - 1];
      ReferenceStep(ReferencesUpTo(rows, norm, claim, k - 1), claim, reference,
                    ResolveRows(rows, norm(reference.text), reference.etype))
  }

  /** The one canonical target of a claim, or what stands against it. */
  function TargetOf(s: Snapshot, e: Extraction, norm: string -> string, claim: Claim): Result<View, seq<Unresolved>> {
    if !Appendable(claim.kind) then Err([ClaimIssue(claim, UnsupportedClaimKind, [])])
    else if claim.conflictGroup.Some? && GroupCount(e.claims, claim.conflictGroup.value, |e.claims|) > 1 then
      Err([ClaimIssue(claim, ConflictingSourceClaims, [])])
    else TargetFrom(ReferencesUpTo(BindableRows(s), norm, claim, |claim.references|), claim, s.bindable)
  }

  function ClaimIssue(claim: Claim, reason: Reason, ids: seq<string>): Unresolved {
    Unresolved(reason, None, Some(claim.claimId), ids, claim.sourceRefs)
  }

  function TargetFrom(found: References, claim: Claim, views: seq<View>): Result<View, seq<Unresolved>> {
    if |found.targets| == 0 then Err(found.unresolved + [ClaimIssue(claim, NoCanonicalTarget, [])])
    else if |found.targets| > 1 then Err(found.unresolved + [ClaimIssue(claim, UnsupportedMultiTarget, found.targets)])
    else if found.missed then Err(found.unresolved + [ClaimIssue(claim, UnresolvedReference, [])])
    else
      match FindView(views, found.targets[0])
      case None => Err(found.unresolved + [ClaimIssue(claim, NoCanonicalTarget, found.targets)])
      case Some(view) =>
        if view.document.entity.visibility == System then
          Err(found.unresolved + [ClaimIssue(claim, SystemEntityExcluded, found.targets)])
        else Ok(view)
  }

  datatype Appends = Appends(
    ops: seq<Operation>, sources: seq<OperationSource>, unresolved: seq<Unresolved>,
    increments: map<string, nat>, facts: set<(string, string)>)

  function AppendStep(st: Appends, claim: Claim, target: Result<View, seq<Unresolved>>): Appends {
    match target
    case Err(issues) => st.(unresolved := st.unresolved + issues)
    case Ok(view) =>
      var id := view.row.id;
      if (id, claim.text) in st.facts || FactLines.BodyContains(view.document.body, claim.text) then
        st.(unresolved := st.unresolved + [ClaimIssue(claim, DuplicateFact, [id])])
      else
        st.(ops := st.ops + [AppendFact(id, view.revision + CountIn(st.increments, id), claim.text)],
            sources := st.sources + [OperationSource("append_fact", [], [claim.claimId], claim.sourceRefs)],
            increments := st.increments[id := CountIn(st.increments, id) + 1],
            facts := st.facts + {(id, claim.text)})
  }

  function AppendsUpTo(s: Snapshot, e: Extraction, norm: string -> string, k: nat): Appends
    requires k <= |e.claims|
  {
    if k == 0 then Appends([], [], [], map[], {})
    else AppendStep(AppendsUpTo(s, e, norm, k - 1), e.claims[k - 1], TargetOf(s, e, norm, e.claims[k - 1]))
  }

  method ResolveReferences(s: Snapshot, norm: string -> string, index: Index, claim: Claim) returns (st: References)
    requires Indexes(index, BindableRows(s), ConflictRows(s))
    ensures st == ReferencesUpTo(BindableRows(s), norm, claim, |claim.references|)
  {
    st := References([], false, []);
    for k := 0 to |claim.references|
      invariant st == ReferencesUpTo(BindableRows(s), norm, claim, k)
    {
      var resolved := Resolve(index, norm(claim.references[k].text), claim.references[k].etype);
      if |resolved| == 1 {
        if resolved[0] !in st.targets {
          st := st.(targets := st.targets + [resolved[0]]);
        }
      } else {
        st := st.(missed := true,
                  unresolved := st.unresolved + [Unresolved(UnresolvedReference, None, Some(claim.claimId), resolved,
                                                            claim.references[k].sourceRefs)]);
      }
    }
  }

  method FindTarget(s: Snapshot, e: Extraction, norm: string -> string, index: Index, byId: map<string, View>, groups: map<string, nat>, claim: Claim)
    returns (target: Result<View, seq<Unresolved>>)
    requires Indexes(index, BindableRows(s), ConflictRows(s))
    requires forall id :: FindView(s.bindable, id) == if id in byId then Some(byId[id]) else None
    requires forall group :: CountIn(groups, group) == GroupCount(e.claims, group, |e.claims|)
    ensures target == TargetOf(s, e, norm, claim)
  {
    if !Appendable(claim.kind) {
      return Err([ClaimIssue(claim, UnsupportedClaimKind, [])]);
    }
    if claim.conflictGroup.Some? && CountIn(groups, claim.conflictGroup.value) > 1 {
      return Err([ClaimIssue(claim, ConflictingSourceClaims, [])]);
    }
    var found := ResolveReferences(s, norm, index, claim);
    if |found.targets| == 0 {
      return Err(found.unresolved + [ClaimIssue(claim, NoCanonicalTarget, [])]);
    }
    if |found.targets| > 1 {
      return Err(found.unresolved + [ClaimIssue(claim, UnsupportedMultiTarget, found.targets)]);
    }
    if found.missed {
      return Err(found.unresolved + [ClaimIssue(claim, UnresolvedReference, [])]);
    }
    if found.targets[0] !in byId {
      return Err(found.unresolved + [ClaimIssue(claim, NoCanonicalTarget, found.targets)]);
    }
    if byId[found.targets[0]].document.entity.visibility == System {
      return Err(found.unresolved + [ClaimIssue(claim, SystemEntityExcluded, found.targets)]);
    }
    return Ok(byId[found.targets[0]]);
  }

  method BuildAppends(s: Snapshot, e: Extraction, norm: string -> string, index: Index, byId: map<string, View>, groups: map<string, nat>)
    returns (st: Appends)
    requires Indexes(index, BindableRows(s), ConflictRows(s))
    requires forall id :: FindView(s.bindable, id) == if id in byId then Some(byId[id]) else None
    requires forall group :: CountIn(groups, group) == GroupCount(e.claims, group, |e.claims|)
    ensures st == AppendsUpTo(s, e, norm, |e.claims|)
  {
    st := Appends([], [], [], map[], {});
    for k := 0 to |e.claims|
      invariant st == AppendsUpTo(s, e, norm, k)
    {
      var target := FindTarget(s, e, norm, index, byId, groups, e.claims[k]);
      st := AppendStep(st, e.claims[k], target);
    }
  }

  // The producer

  datatype MappingResult =
    | NoChanges(unresolved: seq<Unresolved>)
    | Proposal(unresolved: seq<Unresolved>, sources: seq<OperationSource>, changeset: ChangeSet)

  function Operations(s: Snapshot, e: Extraction, rules: Rules): seq<Operation> {
    CreatesUpTo(s, e, rules, |e.candidates|).ops + AppendsUpTo(s, e, rules.norm, |e.claims|).ops
  }

  function Produced(s: Snapshot, e: Extraction, rules: Rules, proposalId: string): MappingResult {
    var creates, appends := CreatesUpTo(s, e, rules, |e.candidates|), AppendsUpTo(s, e, rules.norm, |e.claims|);
    var unresolved := creates.unresolved + appends.unresolved;
    if creates.ops + appends.ops == [] then NoChanges(unresolved)
    else Proposal(unresolved, creates.sources + appends.sources,
                  ChangeSet(proposalId, Provenance.Bootstrap, None, creates.ops + appends.ops))
  }

  method CandidateNameGroups(e: Extraction, norm: string -> string) returns (groups: map<string, nat>)
    ensures forall name :: CountIn(groups, name) == NameCount(e.candidates, norm, name, |e.candidates|)
  {
    groups := map[];
    for k := 0 to |e.candidates|
      invariant forall name :: CountIn(groups, name) == NameCount(e.candidates, norm, name, k)
    {
      var name := norm(e.candidates[k].displayName);
      groups := groups[name := CountIn(groups, name) + 1];
    }
  }

  method ConflictGroupCounts(e: Extraction) returns (groups: map<string, nat>)
    ensures forall group :: CountIn(groups, group) == GroupCount(e.claims, group, |e.claims|)
  {
    groups := map[];
    for k := 0 to |e.claims|
      invariant forall group :: CountIn(groups, group) == GroupCount(e.claims, group, k)
    {
      if e.claims[k].conflictGroup.Some? {
        var group := e.claims[k].conflictGroup.value;
        groups := groups[group := CountIn(groups, group) + 1];
      }
    }
  }

  method ViewsById(views: seq<View>) returns (byId: map<string, View>)
    ensures forall id :: FindView(views, id) == if id in byId then Some(byId[id]) else None
  {
    byId := map[];
    for k := 0 to |views|
      invariant forall id :: FindView(views[..k], id) == if id in byId then Some(byId[id]) else None
    {
      assert views[..k + 1][..k] == views[..k];
      byId := byId[views[k].row.id := views[k]];
    }
    assert views[..|views|] == views;
  }

  /** An error stands for a proposal that fails its own preflight. */
  method ProduceBootstrapChangeSet(s: Snapshot, e: Extraction, rules: Rules, proposalId: string)
    returns (r: Result<MappingResult, seq<Preflight.Issue>>)
    ensures r.Ok? ==> r.value == Produced(s, e, rules, proposalId)
    ensures r.Err? ==> r.error != [] && r.error == Preflight.Issues(ListedDocuments(s), Operations(s, e, rules))
    ensures Sound(s, rules.norm) ==> r.Ok?
  {
    var index := BuildIndex(BindableRows(s), ConflictRows(s));
    var byId := ViewsById(s.bindable);
    var nameGroups := CandidateNameGroups(e, rules.norm);
    var groups := ConflictGroupCounts(e);
    var creates := BuildCreates(s, e, rules, index, byId, nameGroups);
    var appends := BuildAppends(s, e, rules.norm, index, byId, groups);
    var operations := creates.ops + appends.ops;
    if operations == [] {
      return Ok(NoChanges(creates.unresolved + appends.unresolved));
    }
    var changeset := ChangeSet(proposalId, Provenance.Bootstrap, None, operations);
    var issues := Preflight.ValidateChangeSet(changeset, ListedDocuments(s));
    if issues != [] {
      PreflightPasses(s, e, rules);
      return Err(issues);
    }
    return Ok(Proposal(creates.unresolved + appends.unresolved, creates.sources + appends.sources, changeset));
  }

  // Preflight never fails

  lemma {:induction false} FindViewFinds(views: seq<View>, id: string)
    ensures FindView(views, id).Some? <==> exists i :: 0 <= i < |views| && views[i].row.id == id
    ensures FindView(views, id).Some? ==> FindView(views, id).value in views && FindView(views, id).value.row.id == id
  {
    if views != [] {
      FindViewFinds(views[..|views| - 1], id);
    }
  }

  /** Preflight's starting revisions are those of the views. */
  lemma {:induction false} BaseOfSnapshot(s: Snapshot, norm: string -> string, id: string)
    requires Sound(s, norm)
    ensures var base := Preflight.BaseRevisions(ListedDocuments(s));
            && (id in base <==> FindView(s.bindable, id).Some?)
            && (id in base ==> base[id] == FindView(s.bindable, id).value.revision)
  {
    var documents := ListedDocuments(s);
    assert forall i :: 0 <= i < |documents| ==> documents[i].entity.id == s.bindable[i].row.id;
    Preflight.BaseRevisionsAt(documents, id);
    FindViewFinds(s.bindable, id);
    if FindView(s.bindable, id).Some? {
      var view := FindView(s.bindable, id).value;
      var i :| 0 <= i < |s.bindable| && s.bindable[i] == view;
      assert documents[i].entity.id == id;
    }
  }

  ghost predicate Fresh(st: Creates, base: map<string, nat>) {
    Preflight.FreshCreates(st.ops, base) && forall i :: 0 <= i < |st.ops| ==> st.ops[i].entityId in st.emitted
  }

  lemma StepStaysFresh(st: Creates, c: EntityCandidate, id: string, verdict: Verdict, base: map<string, nat>)
    requires Fresh(st, base) && (verdict.Emit? ==> id !in base && id !in st.emitted)
    ensures Fresh(CreateStep(st, c, id, verdict), base)
  {
  }

  lemma {:induction false} CreatesAreFresh(s: Snapshot, e: Extraction, rules: Rules, k: nat)
    requires Sound(s, rules.norm) && k <= |e.candidates|
    ensures var st := CreatesUpTo(s, e, rules, k);
            && Preflight.FreshCreates(st.ops, Preflight.BaseRevisions(ListedDocuments(s)))
            && forall i :: 0 <= i < |st.ops| ==> st.ops[i].entityId in st.emitted
  {
    if k > 0 {
      CreatesAreFresh(s, e, rules, k - 1);
      AllocatedHas(e.candidates, rules, |e.candidates|);
      var id := Allocated(e.candidates, rules, |e.candidates|)[e.candidates[k - 1].candidateId];
      var st := CreatesUpTo(s, e, rules, k - 1);
      BaseOfSnapshot(s, rules.norm, id);
      StepStaysFresh(st, e.candidates[k - 1], id, CandidateVerdict(s, e, rules, k - 1, st.emitted), Preflight.BaseRevisions(ListedDocuments(s)));
    }
  }

  ghost predicate Stacked(st: Appends, base: map<string, nat>) {
    Preflight.Stacked(st.ops, st.increments, base)
  }

  lemma StepStaysStacked(st: Appends, claim: Claim, target: Result<View, seq<Unresolved>>, base: map<string, nat>)
    requires Stacked(st, base)
    requires target.Ok? ==> target.value.row.id in base && target.value.revision == base[target.value.row.id]
    ensures Stacked(AppendStep(st, claim, target), base)
  {
    var after := AppendStep(st, claim, target);
    if after.ops != st.ops {
      Preflight.CountedAppend(st.ops, st.increments, after.ops[|st.ops|], base);
    }
  }

  lemma TargetIsInBase(s: Snapshot, e: Extraction, norm: string -> string, claim: Claim)
    requires Sound(s, norm)
    ensures var target, base := TargetOf(s, e, norm, claim), Preflight.BaseRevisions(ListedDocuments(s));
            target.Ok? ==> target.value.row.id in base && target.value.revision == base[target.value.row.id]
  {
    TargetIsView(s, e, norm, claim);
    var target := TargetOf(s, e, norm, claim);
    if target.Ok? {
      BaseOfSnapshot(s, norm, target.value.row.id);
    }
  }

  lemma {:induction false} AppendsAreStacked(s: Snapshot, e: Extraction, norm: string -> string, k: nat)
    requires Sound(s, norm) && k <= |e.claims|
    ensures Stacked(AppendsUpTo(s, e, norm, k), Preflight.BaseRevisions(ListedDocuments(s)))
  {
    if k > 0 {
      AppendsAreStacked(s, e, norm, k - 1);
      TargetIsInBase(s, e, norm, e.claims[k - 1]);
      StepStaysStacked(AppendsUpTo(s, e, norm, k - 1), e.claims[k - 1], TargetOf(s, e, norm, e.claims[k - 1]),
                       Preflight.BaseRevisions(ListedDocuments(s)));
    }
  }

  lemma TargetIsView(s: Snapshot, e: Extraction, norm: string -> string, claim: Claim)
    ensures var target := TargetOf(s, e, norm, claim);
            target.Ok? ==> FindView(s.bindable, target.value.row.id) == Some(target.value)
  {
    var found := ReferencesUpTo(BindableRows(s), norm, claim, |claim.references|);
    if TargetOf(s, e, norm, claim).Ok? {
      FindViewFinds(s.bindable, found.targets[0]);
    }
  }

  /** Every proposal passes its own preflight, whatever the extraction and the allocation of ids. */
  lemma PreflightPasses(s: Snapshot, e: Extraction, rules: Rules)
    ensures Sound(s, rules.norm) ==> Preflight.Valid(ListedDocuments(s), Operations(s, e, rules))
  {
    if Sound(s, rules.norm) {
      CreatesAreFresh(s, e, rules, |e.candidates|);
      AppendsAreStacked(s, e, rules.norm, |e.claims|);
      Preflight.CreatesThenAppendsPass(ListedDocuments(s), CreatesUpTo(s, e, rules, |e.candidates|).ops,
                                       AppendsUpTo(s, e, rules.norm, |e.claims|).ops);
    }
  }

  /** In particular for every projection split from recognized candidates. */
  lemma {:induction false} RecognizedSnapshotsPass(s: Snapshot, candidates: seq<Candidate>, e: Extraction, rules: Rules)
    requires multiset(s.bindable) == multiset(Bindables(rules.norm, candidates, candidates, IdSet(Ids(candidates))))
    requires multiset(s.conflicts) == multiset(Conflicts(rules.norm, candidates, candidates, IdSet(Ids(candidates))))
    requires multiset(s.issues) == multiset(IssuesOf(candidates))
    ensures Preflight.Valid(ListedDocuments(s), Operations(s, e, rules))
  {
    SplitIsSound(s, rules.norm, candidates);
    PreflightPasses(s, e, rules);
  }

  // Where the operations come from

  /** The create was made from candidate `i`: its name and type, its id, its evidence. */
  predicate MadeFrom(op: Operation, source: OperationSource, c: EntityCandidate) {
    && op.CreateEntity? && op.name == c.displayName && op.etype == c.etype
    && source == OperationSource("create_entity", [c.candidateId], [], c.sourceRefs)
  }

  predicate AppendedFrom(op: Operation, source: OperationSource, claim: Claim) {
    && op.AppendFact? && op.fact == claim.text
    && source == OperationSource("append_fact", [], [claim.claimId], claim.sourceRefs)
  }

  ghost predicate CreateTraced(e: Extraction, k: nat, op: Operation, source: OperationSource)
    requires k <= |e.candidates|
  {
    exists i :: 0 <= i < k && MadeFrom(op, source, e.candidates[i])
  }

  ghost predicate AppendTraced(e: Extraction, k: nat, op: Operation, source: OperationSource)
    requires k <= |e.claims|
  {
    exists i :: 0 <= i < k && AppendedFrom(op, source, e.claims[i])
  }

  /** Every create names the one candidate it comes from, and every candidate became one create or one diagnostic. */
  lemma {:induction false} CreatesAreTraced(s: Snapshot, e: Extraction, rules: Rules, k: nat)
    requires k <= |e.candidates|
    ensures var st := CreatesUpTo(s, e, rules, k);
            && |st.sources| == |st.ops| && |st.ops| + |st.unresolved| == k
            && forall j :: 0 <= j < |st.ops| ==> CreateTraced(e, k, st.ops[j], st.sources[j])
  {
    if k > 0 {
      CreatesAreTraced(s, e, rules, k - 1);
      var before, now := CreatesUpTo(s, e, rules, k - 1), CreatesUpTo(s, e, rules, k);
      forall j | 0 <= j < |now.ops|
        ensures CreateTraced(e, k, now.ops[j], now.sources[j])
      {
        if j < |before.ops| {
          var i :| 0 <= i < k - 1 && MadeFrom(before.ops[j], before.sources[j], e.candidates[i]);
          assert MadeFrom(now.ops[j], now.sources[j], e.candidates[i]);
        } else {
          assert MadeFrom(now.ops[j], now.sources[j], e.candidates[k - 1]);
        }
      }
    }
  }

  /** Every append names the one claim it comes from. */
  lemma {:induction false} AppendsAreTraced(s: Snapshot, e: Extraction, norm: string -> string, k: nat)
    requires k <= |e.claims|
    ensures var st := AppendsUpTo(s, e, norm, k);
            && |st.sources| == |st.ops|
            && forall j :: 0 <= j < |st.ops| ==> AppendTraced(e, k, st.ops[j], st.sources[j])
  {
    if k > 0 {
      AppendsAreTraced(s, e, norm, k - 1);
      var before, now := AppendsUpTo(s, e, norm, k - 1), AppendsUpTo(s, e, norm, k);
      forall j | 0 <= j < |now.ops|
        ensures AppendTraced(e, k, now.ops[j], now.sources[j])
      {
        if j < |before.ops| {
          var i :| 0 <= i < k - 1 && AppendedFrom(before.ops[j], before.sources[j], e.claims[i]);
          assert AppendedFrom(now.ops[j], now.sources[j], e.claims[i]);
        } else {
          assert AppendedFrom(now.ops[j], now.sources[j], e.claims[k - 1]);
        }
      }
    }
  }

  // Which candidates are created

  /** Nothing in the extraction or the projection stands against candidate `i`. */
  ghost predicate Creatable(s: Snapshot, e: Extraction, rules: Rules, i: nat)
    requires i < |e.candidates|
  {
    var c := e.candidates[i];
    && (forall j :: 0 <= j < |e.candidates| && j != i ==>
          && rules.norm(e.candidates[j].displayName) != rules.norm(c.displayName)
          && Allocation(rules, e.candidates[j]) != Allocation(rules, c))
    && (forall row :: row in BindableRows(s) + ConflictRows(s) ==>
          row.id != Allocation(rules, c) && row.name != rules.norm(c.displayName) && rules.norm(c.displayName) !in row.aliases)
  }

  ghost predicate DistinctCandidates(e: Extraction) {
    forall i, j :: 0 <= i < j < |e.candidates| ==> e.candidates[i].candidateId != e.candidates[j].candidateId
  }

  lemma {:induction false} OwnAllocation(e: Extraction, rules: Rules, k: nat)
    requires DistinctCandidates(e) && k <= |e.candidates|
    ensures forall i :: 0 <= i < k ==>
              && e.candidates[i].candidateId in Allocated(e.candidates, rules, k)
              && Allocated(e.candidates, rules, k)[e.candidates[i].candidateId] == Allocation(rules, e.candidates[i])
  {
    if k > 0 {
      OwnAllocation(e, rules, k - 1);
    }
  }

  lemma {:induction false} NameCountIs(candidates: seq<EntityCandidate>, norm: string -> string, i: nat, k: nat)
    requires i < |candidates| && k <= |candidates|
    ensures var name := norm(candidates[i].displayName);
            var others := exists j :: 0 <= j < k && j != i && norm(candidates[j].displayName) == name;
            && (NameCount(candidates, norm, name, k) >= 1 <==> i < k || others)
            && (i < k ==> (NameCount(candidates, norm, name, k) > 1 <==> others))
  {
    if k > 0 {
      NameCountIs(candidates, norm, i, k - 1);
    }
  }

  lemma {:induction false} ClaimantCountIs(candidates: seq<EntityCandidate>, rules: Rules, i: nat, k: nat)
    requires i < |candidates| && k <= |candidates|
    ensures var id := Allocation(rules, candidates[i]);
            var others := exists j :: 0 <= j < k && j != i && Allocation(rules, candidates[j]) == id;
            && (ClaimantCount(candidates, rules, id, k) >= 1 <==> i < k || others)
            && (i < k ==> (ClaimantCount(candidates, rules, id, k) > 1 <==> others))
  {
    if k > 0 {
      ClaimantCountIs(candidates, rules, i, k - 1);
    }
  }

  lemma {:induction false} EmittedAreAllocations(s: Snapshot, e: Extraction, rules: Rules, k: nat)
    requires DistinctCandidates(e) && k <= |e.candidates|
    ensures forall id :: id in CreatesUpTo(s, e, rules, k).emitted ==> exists j :: 0 <= j < k && Allocation(rules, e.candidates[j]) == id
  {
    if k > 0 {
      EmittedAreAllocations(s, e, rules, k - 1);
      OwnAllocation(e, rules, |e.candidates|);
    }
  }

  lemma {:induction false} RowsOfSnapshot(s: Snapshot, id: string)
    ensures (exists row :: row in BindableRows(s) + ConflictRows(s) && row.id == id) <==>
            FindView(s.bindable, id).Some? || id in ConflictIds(s)
  {
    FindViewFinds(s.bindable, id);
    var bindable, conflicts := BindableRows(s), ConflictRows(s);
    if FindView(s.bindable, id).Some? {
      var i :| 0 <= i < |s.bindable| && s.bindable[i].row.id == id;
      assert bindable[i] in bindable + conflicts;
    }
    if id in ConflictIds(s) {
      var i :| 0 <= i < |s.conflicts| && s.conflicts[i].row.id == id;
      assert conflicts[i] in bindable + conflicts;
    }
  }

  /**
   With distinct candidate ids, a candidate becomes a create exactly when no other
   candidate shares its name or its allocated id and nothing in the projection,
   conflicting identities included, carries that id, or the name as name or alias.
   */
  lemma CreatedIffCreatable(s: Snapshot, e: Extraction, rules: Rules, i: nat)
    requires DistinctCandidates(e) && i < |e.candidates|
    ensures CandidateVerdict(s, e, rules, i, CreatesUpTo(s, e, rules, i).emitted).Emit? <==> Creatable(s, e, rules, i)
    ensures Creatable(s, e, rules, i) ==>
              CreatesUpTo(s, e, rules, i + 1).ops
              == CreatesUpTo(s, e, rules, i).ops + [CreateFor(e.candidates[i], Allocation(rules, e.candidates[i]))]
  {
    var n, rows, text := |e.candidates|, BindableRows(s) + ConflictRows(s), rules.norm(e.candidates[i].displayName);
    OwnAllocation(e, rules, n);
    NameCountIs(e.candidates, rules.norm, i, n);
    ClaimantCountIs(e.candidates, rules, i, n);
    EmittedAreAllocations(s, e, rules, i);
    RowsOfSnapshot(s, Allocation(rules, e.candidates[i]));
    MatchesAreExact(rows, text);
    assert (forall k :: 0 <= k < |rows| ==> rows[k].name != text && text !in rows[k].aliases) <==>
           forall row :: row in rows ==> row.name != text && text !in row.aliases;
  }
}
