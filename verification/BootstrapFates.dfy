/**
 What becomes of every candidate and every claim of a bootstrap extraction, with the
 reason of each refusal, and what the whole result is made of.
 */
module BootstrapFates {
  import opened Wrappers
  import opened Domain
  import opened Binding
  import opened Canonical
  import opened Bootstrap
  import opened Proposed
  import FactLines
  import Preflight

  // Candidates

  predicate NamedRow(row: Row, text: string) {
    row.name == text || text in row.aliases
  }

  /** The projection has the text on an identity with this id, bindable or not. */
  ghost predicate NamedIn(s: Snapshot, text: string, id: string) {
    exists row :: row in BindableRows(s) + ConflictRows(s) && NamedRow(row, text) && row.id == id
  }

  ghost predicate NameShared(e: Extraction, norm: string -> string, i: nat)
    requires i < |e.candidates|
  {
    exists j :: 0 <= j < |e.candidates| && j != i && norm(e.candidates[j].displayName) == norm(e.candidates[i].displayName)
  }

  ghost predicate IdShared(e: Extraction, rules: Rules, i: nat)
    requires i < |e.candidates|
  {
    exists j :: 0 <= j < |e.candidates| && j != i && Allocation(rules, e.candidates[j]) == Allocation(rules, e.candidates[i])
  }

  ghost predicate HasView(s: Snapshot, id: string) {
    exists i :: 0 <= i < |s.bindable| && s.bindable[i].row.id == id
  }

  ghost predicate HasConflict(s: Snapshot, id: string) {
    exists i :: 0 <= i < |s.conflicts| && s.conflicts[i].row.id == id
  }

  /** What stands against a candidate, in the order of the checks, with the entities named. */
  ghost predicate Because(s: Snapshot, e: Extraction, rules: Rules, i: nat, reason: Reason, ids: seq<string>)
    requires i < |e.candidates|
  {
    var id, text := Allocation(rules, e.candidates[i]), rules.norm(e.candidates[i].displayName);
    if NameShared(e, rules.norm, i) then reason == CandidateNameConflict && ids == []
    else if IdShared(e, rules, i) then reason == EntityIdCollision && ids == [id]
    else if HasView(s, id) then reason == DuplicateExistingEntity && ids == [id]
    else if HasConflict(s, id) then reason == CanonicalStateConflict && ids == [id]
    else
      && ids != [] && NoRepeats(ids) && (forall other :: other in ids <==> NamedIn(s, text, other))
      && reason == if |ids| == 1 then DuplicateExistingEntity else AmbiguousExactMatch
  }

  /** The create of a candidate, field by field. */
  predicate IsCreateOf(op: Operation, c: EntityCandidate, id: string) {
    && op.CreateEntity? && op.entityId == id && op.etype == c.etype && op.name == c.displayName
    && op.status == "unknown" && op.visibility == Dm && op.knowledge == Inferred
    && op.createdSession == None && op.lastSeenSession == None && op.tags == []
  }

  ghost predicate CandidateDecided(s: Snapshot, e: Extraction, rules: Rules, i: nat, st: Creates, now: Creates)
    requires i < |e.candidates|
  {
    var c := e.candidates[i];
    if Creatable(s, e, rules, i) then
      && |now.ops| == |st.ops| + 1 && now.ops[..|st.ops|] == st.ops && IsCreateOf(now.ops[|st.ops|], c, Allocation(rules, c))
      && now.sources == st.sources + [OperationSource("create_entity", [c.candidateId], [], c.sourceRefs)]
      && now.unresolved == st.unresolved
    else
      && now.ops == st.ops && now.sources == st.sources
      && exists reason, ids ::
           && now.unresolved == st.unresolved + [Unresolved(reason, Some(c.candidateId), None, ids, c.sourceRefs)]
           && Because(s, e, rules, i, reason, ids)
  }

  lemma MatchesAreNamed(s: Snapshot, text: string)
    ensures var ids := MatchRows(BindableRows(s) + ConflictRows(s), text);
            NoRepeats(ids) && forall id :: id in ids <==> NamedIn(s, text, id)
  {
    var rows := BindableRows(s) + ConflictRows(s);
    MatchesAreExact(rows, text);
    forall id
      ensures HitBy(rows, NameAny(text), id) || HitBy(rows, AliasAny(text), id) <==> NamedIn(s, text, id)
    {
      if NamedIn(s, text, id) {
        var row :| row in rows && NamedRow(row, text) && row.id == id;
        var k :| 0 <= k < |rows| && rows[k] == row;
        assert Hits(NameAny(text), rows[k]) || Hits(AliasAny(text), rows[k]);
      }
      if HitBy(rows, NameAny(text), id) || HitBy(rows, AliasAny(text), id) {
        var k :| 0 <= k < |rows| && rows[k].id == id && (Hits(NameAny(text), rows[k]) || Hits(AliasAny(text), rows[k]));
        assert rows[k] in rows;
      }
    }
  }

  lemma OmittedBecause(s: Snapshot, e: Extraction, rules: Rules, i: nat, emitted: set<string>)
    requires DistinctCandidates(e) && i < |e.candidates|
    requires Allocation(rules, e.candidates[i]) in emitted ==> IdShared(e, rules, i)
    ensures var verdict := CandidateVerdict(s, e, rules, i, emitted);
            verdict.Omit? ==> Because(s, e, rules, i, verdict.reason, verdict.entityIds)
  {
    var n, id, text := |e.candidates|, Allocation(rules, e.candidates[i]), rules.norm(e.candidates[i].displayName);
    OwnAllocation(e, rules, n);
    NameCountIs(e.candidates, rules.norm, i, n);
    ClaimantCountIs(e.candidates, rules, i, n);
    FindViewFinds(s.bindable, id);
    MatchesAreNamed(s, text);
    assert id in ConflictIds(s) <==> HasConflict(s, id);
  }

  /** Every candidate becomes a create, exactly if nothing stands against it, or one diagnostic with the reason of the first check that failed. */
  lemma EveryCandidateIsDecided(s: Snapshot, e: Extraction, rules: Rules, i: nat)
    requires DistinctCandidates(e) && i < |e.candidates|
    ensures CandidateDecided(s, e, rules, i, CreatesUpTo(s, e, rules, i), CreatesUpTo(s, e, rules, i + 1))
  {
    var st := CreatesUpTo(s, e, rules, i);
    OwnAllocation(e, rules, |e.candidates|);
    CreatedIffCreatable(s, e, rules, i);
    EmittedAreAllocations(s, e, rules, i);
    OmittedBecause(s, e, rules, i, st.emitted);
    StepDecides(s, e, rules, i, st, CandidateVerdict(s, e, rules, i, st.emitted));
  }

  lemma StepDecides(s: Snapshot, e: Extraction, rules: Rules, i: nat, st: Creates, verdict: Verdict)
    requires i < |e.candidates| && (verdict.Emit? <==> Creatable(s, e, rules, i))
    requires verdict.Omit? ==> Because(s, e, rules, i, verdict.reason, verdict.entityIds)
    ensures CandidateDecided(s, e, rules, i, st, CreateStep(st, e.candidates[i], Allocation(rules, e.candidates[i]), verdict))
  {
  }

  // Claims

  /** Reference `i` of the claim resolves to this entity alone. */
  predicate Resolves(s: Snapshot, norm: string -> string, claim: Claim, i: nat, id: string)
    requires i < |claim.references|
  {
    ResolveRows(BindableRows(s), norm(claim.references[i].text), claim.references[i].etype) == [id]
  }

  ghost predicate Misses(s: Snapshot, norm: string -> string, claim: Claim, i: nat)
    requires i < |claim.references|
  {
    forall id :: !Resolves(s, norm, claim, i, id)
  }

  /** What is said of a reference that does not resolve. */
  predicate MissSaid(s: Snapshot, norm: string -> string, claim: Claim, i: nat, u: Unresolved)
    requires i < |claim.references|
  {
    u == Unresolved(UnresolvedReference, None, Some(claim.claimId),
                    ResolveRows(BindableRows(s), norm(claim.references[i].text), claim.references[i].etype), claim.references[i].sourceRefs)
  }

  ghost predicate ResolvedBefore(s: Snapshot, norm: string -> string, claim: Claim, k: nat, id: string)
    requires k <= |claim.references|
  {
    exists i: nat :: i < k && Resolves(s, norm, claim, i, id)
  }

  ghost predicate MissedBefore(s: Snapshot, norm: string -> string, claim: Claim, k: nat)
    requires k <= |claim.references|
  {
    exists i: nat :: i < k && Misses(s, norm, claim, i)
  }

  ghost predicate SaidBefore(s: Snapshot, norm: string -> string, claim: Claim, k: nat, u: Unresolved)
    requires k <= |claim.references|
  {
    exists i: nat :: i < k && Misses(s, norm, claim, i) && MissSaid(s, norm, claim, i, u)
  }

  /** The entities a claim refers to, each once, and one diagnostic for every reference that misses. */
  ghost predicate RefersTo(s: Snapshot, norm: string -> string, claim: Claim, k: nat, ids: seq<string>, missed: bool, said: seq<Unresolved>)
    requires k <= |claim.references|
  {
    && NoRepeats(ids)
    && (forall id :: id in ids <==> ResolvedBefore(s, norm, claim, k, id))
    && (missed <==> MissedBefore(s, norm, claim, k))
    && (forall u :: u in said <==> SaidBefore(s, norm, claim, k, u))
  }

  lemma SoleOrMiss(s: Snapshot, norm: string -> string, claim: Claim, i: nat)
    requires i < |claim.references|
    ensures var found := ResolveRows(BindableRows(s), norm(claim.references[i].text), claim.references[i].etype);
            && (|found| == 1 <==> !Misses(s, norm, claim, i))
            && (|found| == 1 ==> forall id :: Resolves(s, norm, claim, i, id) <==> id == found[0])
  {
    var found := ResolveRows(BindableRows(s), norm(claim.references[i].text), claim.references[i].etype);
    if |found| == 1 {
      assert found == [found[0]];
      assert Resolves(s, norm, claim, i, found[0]);
    }
  }

  lemma {:induction false} ReferencesRefer(s: Snapshot, norm: string -> string, claim: Claim, k: nat)
    requires k <= |claim.references|
    ensures var found := ReferencesUpTo(BindableRows(s), norm, claim, k);
            RefersTo(s, norm, claim, k, found.targets, found.missed, found.unresolved)
  {
    if k == 0 {
      NothingReferred(s, norm, claim);
    } else {
      ReferencesRefer(s, norm, claim, k - 1);
      ReferencesSnoc(BindableRows(s), norm, claim, k - 1);
      NextReference(s, norm, claim, k - 1, ReferencesUpTo(BindableRows(s), norm, claim, k - 1));
    }
  }

  lemma NothingReferred(s: Snapshot, norm: string -> string, claim: Claim)
    ensures RefersTo(s, norm, claim, 0, [], false, [])
  {
  }

  lemma NextReference(s: Snapshot, norm: string -> string, claim: Claim, k: nat, st: References)
    requires k < |claim.references| && RefersTo(s, norm, claim, k, st.targets, st.missed, st.unresolved)
    ensures var found := ResolveRows(BindableRows(s), norm(claim.references[k].text), claim.references[k].etype);
            var now := ReferenceStep(st, claim, claim.references[k], found);
            RefersTo(s, norm, claim, k + 1, now.targets, now.missed, now.unresolved)
  {
    SoleOrMiss(s, norm, claim, k);
    OneMoreReference(s, norm, claim, k, st);
  }

  lemma ReferencesSnoc(rows: seq<Row>, norm: string -> string, claim: Claim, k: nat)
    requires k < |claim.references|
    ensures ReferencesUpTo(rows, norm, claim, k + 1)
         == ReferenceStep(ReferencesUpTo(rows, norm, claim, k), claim, claim.references[k],
                          ResolveRows(rows, norm(claim.references[k].text), claim.references[k].etype))
  {
  }

  lemma OneMoreReference(s: Snapshot, norm: string -> string, claim: Claim, k: nat, st: References)
    requires k < |claim.references| && RefersTo(s, norm, claim, k, st.targets, st.missed, st.unresolved)
    requires var found := ResolveRows(BindableRows(s), norm(claim.references[k].text), claim.references[k].etype);
             && (|found| == 1 <==> !Misses(s, norm, claim, k))
             && (|found| == 1 ==> forall id :: Resolves(s, norm, claim, k, id) <==> id == found[0])
    ensures var found := ResolveRows(BindableRows(s), norm(claim.references[k].text), claim.references[k].etype);
            var now := ReferenceStep(st, claim, claim.references[k], found);
            RefersTo(s, norm, claim, k + 1, now.targets, now.missed, now.unresolved)
  {
    var found := ResolveRows(BindableRows(s), norm(claim.references[k].text), claim.references[k].etype);
    var now := ReferenceStep(st, claim, claim.references[k], found);
    assert MissedBefore(s, norm, claim, k + 1) <==> MissedBefore(s, norm, claim, k) || Misses(s, norm, claim, k);
    forall id
      ensures ResolvedBefore(s, norm, claim, k + 1, id) <==> ResolvedBefore(s, norm, claim, k, id) || Resolves(s, norm, claim, k, id)
    {
    }
    forall u
      ensures u in now.unresolved <==> SaidBefore(s, norm, claim, k + 1, u)
    {
      assert SaidBefore(s, norm, claim, k + 1, u) <==>
             SaidBefore(s, norm, claim, k, u) || (Misses(s, norm, claim, k) && MissSaid(s, norm, claim, k, u));
      assert u in now.unresolved <==> u in st.unresolved || (Misses(s, norm, claim, k) && MissSaid(s, norm, claim, k, u));
    }
  }

  ghost predicate GroupShared(e: Extraction, k: nat)
    requires k < |e.claims|
  {
    e.claims[k].conflictGroup.Some? && exists j :: 0 <= j < |e.claims| && j != k && e.claims[j].conflictGroup == e.claims[k].conflictGroup
  }

  lemma {:induction false} GroupCountIs(claims: seq<Claim>, i: nat, group: string, k: nat)
    requires i < |claims| && k <= |claims| && claims[i].conflictGroup == Some(group)
    ensures var others := exists j :: 0 <= j < k && j != i && claims[j].conflictGroup == Some(group);
            && (GroupCount(claims, group, k) >= 1 <==> i < k || others)
            && (i < k ==> (GroupCount(claims, group, k) > 1 <==> others))
  {
    if k > 0 {
      GroupCountIs(claims, i, group, k - 1);
    }
  }

  /** What is said of a claim that is not appended, last, with the entities named. */
  predicate Says(claim: Claim, u: Unresolved, reason: Reason, ids: seq<string>) {
    u == Unresolved(reason, None, Some(claim.claimId), ids, claim.sourceRefs)
  }

  /** Why a claim with these targets is not appended; `None` when nothing stands against it. */
  ghost predicate Stands(s: Snapshot, e: Extraction, k: nat, ops: seq<Operation>, ids: seq<string>, missed: bool, against: Option<(Reason, seq<string>)>)
    requires k < |e.claims|
  {
    var claim := e.claims[k];
    if claim.kind != ClaimKind.Fact && claim.kind != ClaimKind.Event then against == Some((UnsupportedClaimKind, []))
    else if GroupShared(e, k) then against == Some((ConflictingSourceClaims, []))
    else if ids == [] then against == Some((NoCanonicalTarget, []))
    else if |ids| > 1 then against == Some((UnsupportedMultiTarget, ids))
    else if missed then against == Some((UnresolvedReference, []))
    else
      exists view ::
        && view in s.bindable && view.row.id == ids[0]
        && against == (if view.document.entity.visibility == System then Some((SystemEntityExcluded, ids))
                       else if AlreadyProposed(ops, ids[0], claim.text) || FactLines.BodyContains(view.document.body, claim.text) then Some((DuplicateFact, ids))
                       else None)
  }

  /** What the claims before have left in the producer's counters. */
  ghost predicate Counted(st: Appends) {
    && (forall id, fact :: (id, fact) in st.facts <==> AlreadyProposed(st.ops, id, fact))
    && (forall id :: CountIn(st.increments, id) == CountAppends(st.ops, id))
  }

  /** One claim: one append to its one target, or diagnostics that end with what stands against it. */
  ghost predicate ClaimDecided(s: Snapshot, e: Extraction, norm: string -> string, k: nat, st: Appends, now: Appends)
    requires k < |e.claims|
  {
    var claim := e.claims[k];
    exists ids, missed, said, against ::
      && RefersTo(s, norm, claim, |claim.references|, ids, missed, said)
      && Stands(s, e, k, st.ops, ids, missed, against)
      && (if against == None then
            && now.unresolved == st.unresolved
            && now.sources == st.sources + [OperationSource("append_fact", [], [claim.claimId], claim.sourceRefs)]
            && |now.ops| == |st.ops| + 1 && now.ops[..|st.ops|] == st.ops
            && AppendsTo(now.ops[|st.ops|], ids[0]) && now.ops[|st.ops|].fact == claim.text
            && exists view :: view in s.bindable && view.row.id == ids[0]
                              && now.ops[|st.ops|].expectedRevision == view.revision + CountAppends(st.ops, ids[0])
          else
            && now.ops == st.ops && now.sources == st.sources
            && exists last ::
                 && Says(claim, last, against.value.0, against.value.1)
                 && now.unresolved == st.unresolved + (if RefusedOutright(e, k) then [] else said) + [last])
  }

  /** Refused before its references are looked up. */
  ghost predicate RefusedOutright(e: Extraction, k: nat)
    requires k < |e.claims|
  {
    (e.claims[k].kind != ClaimKind.Fact && e.claims[k].kind != ClaimKind.Event) || GroupShared(e, k)
  }

  lemma StepCounts(st: Appends, claim: Claim, target: Result<View, seq<Unresolved>>)
    requires Counted(st)
    ensures Counted(AppendStep(st, claim, target))
  {
    var now := AppendStep(st, claim, target);
    if now.ops != st.ops {
      forall id, fact
        ensures (id, fact) in now.facts <==> AlreadyProposed(now.ops, id, fact)
        ensures CountIn(now.increments, id) == CountAppends(now.ops, id)
      {
        CountedSnoc(st.ops, now.ops[|st.ops|], id, fact);
        assert (id, fact) in st.facts <==> AlreadyProposed(st.ops, id, fact);
        assert CountIn(st.increments, id) == CountAppends(st.ops, id);
      }
      forall id: string
        ensures CountIn(now.increments, id) == CountAppends(now.ops, id)
      {
        CountedSnoc(st.ops, now.ops[|st.ops|], id, "");
        assert CountIn(st.increments, id) == CountAppends(st.ops, id);
      }
    }
  }

  lemma {:induction false} AppendsCount(s: Snapshot, e: Extraction, norm: string -> string, k: nat)
    requires k <= |e.claims|
    ensures Counted(AppendsUpTo(s, e, norm, k))
  {
    if k > 0 {
      AppendsCount(s, e, norm, k - 1);
      StepCounts(AppendsUpTo(s, e, norm, k - 1), e.claims[k - 1], TargetOf(s, e, norm, e.claims[k - 1]));
    }
  }

  /** A target that resolved has its view. */
  lemma {:induction false} ResolvedHasView(s: Snapshot, norm: string -> string, claim: Claim, i: nat, id: string)
    requires i < |claim.references| && Resolves(s, norm, claim, i, id)
    ensures FindView(s.bindable, id).Some? && FindView(s.bindable, id).value in s.bindable && FindView(s.bindable, id).value.row.id == id
  {
    var rows, text, etype := BindableRows(s), norm(claim.references[i].text), claim.references[i].etype;
    ScanIsExact(rows, TypeName(etype, text));
    ScanIsExact(rows, TypeAlias(etype, text));
    assert id in ResolveRows(rows, text, etype);
    var k :| 0 <= k < |rows| && rows[k].id == id;
    assert s.bindable[k].row.id == id;
    FindViewFinds(s.bindable, id);
  }

  /** The lookup of a claim, with what it is known to mean. */
  ghost predicate Found(s: Snapshot, e: Extraction, norm: string -> string, k: nat, found: References)
    requires k < |e.claims|
  {
    && found == ReferencesUpTo(BindableRows(s), norm, e.claims[k], |e.claims[k].references|)
    && RefersTo(s, norm, e.claims[k], |e.claims[k].references|, found.targets, found.missed, found.unresolved)
    && (|found.targets| == 1 ==>
          && FindView(s.bindable, found.targets[0]).Some? && FindView(s.bindable, found.targets[0]).value in s.bindable
          && FindView(s.bindable, found.targets[0]).value.row.id == found.targets[0])
    && (e.claims[k].conflictGroup.Some? ==>
          (GroupCount(e.claims, e.claims[k].conflictGroup.value, |e.claims|) > 1 <==> GroupShared(e, k)))
  }

  lemma AgainstStands(s: Snapshot, e: Extraction, norm: string -> string, k: nat, st: Appends, found: References)
    requires k < |e.claims| && Counted(st) && Found(s, e, norm, k, found)
    ensures Stands(s, e, k, st.ops, found.targets, found.missed, AgainstOf(s, e, k, st, found))
  {
  }

  /** The target of the producer, told from what it finds against the claim. */
  lemma TargetSays(s: Snapshot, e: Extraction, norm: string -> string, k: nat, found: References)
    requires k < |e.claims| && Found(s, e, norm, k, found)
    ensures var claim, target, against := e.claims[k], TargetOf(s, e, norm, e.claims[k]), AgainstTarget(s, e, k, found);
            if against == None then target == Ok(FindView(s.bindable, found.targets[0]).value)
            else target == Err((if RefusedOutright(e, k) then [] else found.unresolved) + [ClaimIssue(claim, against.value.0, against.value.1)])
  {
    var claim := e.claims[k];
    assert |found.targets| == 1 ==> found.targets == [found.targets[0]];
    assert [] + [ClaimIssue(claim, UnsupportedClaimKind, [])] == [ClaimIssue(claim, UnsupportedClaimKind, [])];
    assert [] + [ClaimIssue(claim, ConflictingSourceClaims, [])] == [ClaimIssue(claim, ConflictingSourceClaims, [])];
  }

  /** The step of the producer likewise. */
  ghost predicate StepIs(st: Appends, now: Appends, claim: Claim, view: Option<View>, against: Option<(Reason, seq<string>)>, said: seq<Unresolved>) {
    if against == None then
      && view.Some? && now.unresolved == st.unresolved
      && now.sources == st.sources + [OperationSource("append_fact", [], [claim.claimId], claim.sourceRefs)]
      && now.ops == st.ops + [AppendFact(view.value.row.id, view.value.revision + CountIn(st.increments, view.value.row.id), claim.text)]
    else
      && now.ops == st.ops && now.sources == st.sources
      && now.unresolved == st.unresolved + said + [ClaimIssue(claim, against.value.0, against.value.1)]
  }

  lemma StepOfTarget(st: Appends, claim: Claim, view: View)
    ensures var isNew := !((view.row.id, claim.text) in st.facts || FactLines.BodyContains(view.document.body, claim.text));
            StepIs(st, AppendStep(st, claim, Ok(view)), claim, Some(view), if isNew then None else Some((DuplicateFact, [view.row.id])), [])
  {
    assert st.unresolved + [] == st.unresolved;
  }

  lemma StepOfRefusal(st: Appends, claim: Claim, against: (Reason, seq<string>), said: seq<Unresolved>)
    ensures StepIs(st, AppendStep(st, claim, Err(said + [ClaimIssue(claim, against.0, against.1)])), claim, None, Some(against), said)
  {
    assert st.unresolved + (said + [ClaimIssue(claim, against.0, against.1)]) == st.unresolved + said + [ClaimIssue(claim, against.0, against.1)];
  }

  lemma NothingMissed(s: Snapshot, norm: string -> string, claim: Claim, found: References)
    requires RefersTo(s, norm, claim, |claim.references|, found.targets, found.missed, found.unresolved) && !found.missed
    ensures found.unresolved == []
  {
    HeadIsMember(found.unresolved);
  }

  lemma StepDecidesClaim(s: Snapshot, e: Extraction, norm: string -> string, k: nat, st: Appends, now: Appends, found: References, view: Option<View>)
    requires k < |e.claims| && Counted(st) && Found(s, e, norm, k, found)
    requires Stands(s, e, k, st.ops, found.targets, found.missed, AgainstOf(s, e, k, st, found))
    requires view.Some? ==> found.targets != [] && view.value in s.bindable && view.value.row.id == found.targets[0]
    requires StepIs(st, now, e.claims[k], view, AgainstOf(s, e, k, st, found), if RefusedOutright(e, k) then [] else found.unresolved)
    ensures ClaimDecided(s, e, norm, k, st, now)
  {
    var claim, against := e.claims[k], AgainstOf(s, e, k, st, found);
    if against.Some? {
      assert Says(claim, ClaimIssue(claim, against.value.0, against.value.1), against.value.0, against.value.1);
    } else {
      assert CountIn(st.increments, view.value.row.id) == CountAppends(st.ops, view.value.row.id);
    }
  }

  lemma TargetStands(s: Snapshot, e: Extraction, norm: string -> string, k: nat, st: Appends, found: References)
    requires k < |e.claims| && Counted(st) && Found(s, e, norm, k, found)
    ensures ClaimDecided(s, e, norm, k, st, AppendStep(st, e.claims[k], TargetOf(s, e, norm, e.claims[k])))
  {
    var claim, target, early := e.claims[k], TargetOf(s, e, norm, e.claims[k]), AgainstTarget(s, e, k, found);
    var now := AppendStep(st, claim, target);
    AgainstStands(s, e, norm, k, st, found);
    TargetSays(s, e, norm, k, found);
    if early.Some? {
      StepOfRefusal(st, claim, early.value, if RefusedOutright(e, k) then [] else found.unresolved);
      StepDecidesClaim(s, e, norm, k, st, now, found, None);
    } else {
      var view := FindView(s.bindable, found.targets[0]).value;
      NothingMissed(s, norm, claim, found);
      StepOfTarget(st, claim, view);
      assert found.targets == [found.targets[0]];
      StepDecidesClaim(s, e, norm, k, st, now, found, Some(view));
    }
  }

  /** What the producer finds against the target of a claim. */
  function AgainstTarget(s: Snapshot, e: Extraction, k: nat, found: References): Option<(Reason, seq<string>)>
    requires k < |e.claims|
    requires |found.targets| == 1 ==> FindView(s.bindable, found.targets[0]).Some?
  {
    var claim := e.claims[k];
    if !Appendable(claim.kind) then Some((UnsupportedClaimKind, []))
    else if claim.conflictGroup.Some? && GroupCount(e.claims, claim.conflictGroup.value, |e.claims|) > 1 then Some((ConflictingSourceClaims, []))
    else if found.targets == [] then Some((NoCanonicalTarget, []))
    else if |found.targets| > 1 then Some((UnsupportedMultiTarget, found.targets))
    else if found.missed then Some((UnresolvedReference, []))
    else if FindView(s.bindable, found.targets[0]).value.document.entity.visibility == System then Some((SystemEntityExcluded, found.targets))
    else None
  }

  /** What it finds against the claim. */
  function AgainstOf(s: Snapshot, e: Extraction, k: nat, st: Appends, found: References): Option<(Reason, seq<string>)>
    requires k < |e.claims|
    requires |found.targets| == 1 ==> FindView(s.bindable, found.targets[0]).Some?
  {
    var early, text := AgainstTarget(s, e, k, found), e.claims[k].text;
    if early.Some? then early
    else if (found.targets[0], text) in st.facts || FactLines.BodyContains(FindView(s.bindable, found.targets[0]).value.document.body, text) then
      Some((DuplicateFact, found.targets))
    else None
  }

  /**
   Every claim becomes an append, exactly if its kind is appendable, no other claim
   shares its conflict group, all its references resolve to one entity that is no
   system entity, and the fact is new to the body and the proposal; otherwise its
   diagnostics end with the reason of the first check that failed.
   */
  lemma EveryClaimIsDecided(s: Snapshot, e: Extraction, norm: string -> string, k: nat)
    requires k < |e.claims|
    ensures ClaimDecided(s, e, norm, k, AppendsUpTo(s, e, norm, k), AppendsUpTo(s, e, norm, k + 1))
  {
    var claim := e.claims[k];
    var found := ReferencesUpTo(BindableRows(s), norm, claim, |claim.references|);
    AppendsCount(s, e, norm, k);
    ReferencesRefer(s, norm, claim, |claim.references|);
    if |found.targets| == 1 {
      assert found.targets[0] in found.targets;
      var i: nat :| i < |claim.references| && Resolves(s, norm, claim, i, found.targets[0]);
      ResolvedHasView(s, norm, claim, i, found.targets[0]);
    }
    if claim.conflictGroup.Some? {
      GroupCountIs(e.claims, k, claim.conflictGroup.value, |e.claims|);
    }
    TargetStands(s, e, norm, k, AppendsUpTo(s, e, norm, k), found);
  }

  // The whole proposal

  /** Every candidate decided in turn, from nothing. */
  ghost predicate CreateChain(s: Snapshot, e: Extraction, rules: Rules, chain: seq<Creates>) {
    && |chain| == |e.candidates| + 1
    && chain[0].ops == [] && chain[0].sources == [] && chain[0].unresolved == []
    && forall i: nat :: i < |e.candidates| ==> CandidateDecided(s, e, rules, i, chain[i], chain[i + 1])
  }

  /** Every claim likewise. */
  ghost predicate AppendChain(s: Snapshot, e: Extraction, norm: string -> string, chain: seq<Appends>) {
    && |chain| == |e.claims| + 1
    && chain[0].ops == [] && chain[0].sources == [] && chain[0].unresolved == []
    && forall k: nat :: k < |e.claims| ==> ClaimDecided(s, e, norm, k, chain[k], chain[k + 1])
  }

  /** The result puts the creates before the appends and keeps every diagnostic; it proposes nothing exactly if there is no operation. */
  predicate Joins(result: MappingResult, proposalId: string, creates: Creates, appends: Appends) {
    && result.unresolved == creates.unresolved + appends.unresolved
    && (result.NoChanges? <==> creates.ops == [] && appends.ops == [])
    && (result.Proposal? ==>
          && result.sources == creates.sources + appends.sources
          && result.changeset == ChangeSet(proposalId, Provenance.Bootstrap, None, creates.ops + appends.ops))
  }

  ghost predicate ProducesSo(s: Snapshot, e: Extraction, rules: Rules, proposalId: string, result: MappingResult) {
    exists creates: seq<Creates>, appends: seq<Appends> ::
      && CreateChain(s, e, rules, creates) && AppendChain(s, e, rules.norm, appends)
      && Joins(result, proposalId, creates[|e.candidates|], appends[|e.claims|])
  }

  lemma CreatesAreChained(s: Snapshot, e: Extraction, rules: Rules)
    requires DistinctCandidates(e)
    ensures CreateChain(s, e, rules, seq(|e.candidates| + 1, i requires 0 <= i <= |e.candidates| => CreatesUpTo(s, e, rules, i)))
  {
    forall i: nat | i < |e.candidates|
      ensures CandidateDecided(s, e, rules, i, CreatesUpTo(s, e, rules, i), CreatesUpTo(s, e, rules, i + 1))
    {
      EveryCandidateIsDecided(s, e, rules, i);
    }
  }

  lemma AppendsAreChained(s: Snapshot, e: Extraction, norm: string -> string)
    ensures AppendChain(s, e, norm, seq(|e.claims| + 1, k requires 0 <= k <= |e.claims| => AppendsUpTo(s, e, norm, k)))
  {
    forall k: nat | k < |e.claims|
      ensures ClaimDecided(s, e, norm, k, AppendsUpTo(s, e, norm, k), AppendsUpTo(s, e, norm, k + 1))
    {
      EveryClaimIsDecided(s, e, norm, k);
    }
  }

  lemma {:induction false} ResultJoins(s: Snapshot, e: Extraction, rules: Rules, proposalId: string)
    ensures Joins(Produced(s, e, rules, proposalId), proposalId, CreatesUpTo(s, e, rules, |e.candidates|), AppendsUpTo(s, e, rules.norm, |e.claims|))
  {
  }

  /** The result of every extraction: each candidate and each claim decided in turn, nothing said is dropped, nothing else is proposed. */
  lemma ResultIsDecided(s: Snapshot, e: Extraction, rules: Rules, proposalId: string)
    requires DistinctCandidates(e)
    ensures ProducesSo(s, e, rules, proposalId, Produced(s, e, rules, proposalId))
  {
    CreatesAreChained(s, e, rules);
    AppendsAreChained(s, e, rules.norm);
    ResultJoins(s, e, rules, proposalId);
    var creates := seq(|e.candidates| + 1, i requires 0 <= i <= |e.candidates| => CreatesUpTo(s, e, rules, i));
    var appends := seq(|e.claims| + 1, k requires 0 <= k <= |e.claims| => AppendsUpTo(s, e, rules.norm, k));
    assert creates[|e.candidates|] == CreatesUpTo(s, e, rules, |e.candidates|);
    assert appends[|e.claims|] == AppendsUpTo(s, e, rules.norm, |e.claims|);
  }
}
