/**
 What becomes of every claim of a post-session extraction, with the reason of each
 refusal, and what the whole plan is made of.
 */
module PostSessionFates {
  import opened Wrappers
  import opened Domain
  import opened Binding
  import opened SessionExtraction
  import opened PostSession
  import opened Proposed
  import PostSessionCreates
  import Repository
  import FactLines

  // What the mentions of a claim point to

  /** The Vault as the lookup sees it, and the bindings validation left. */
  datatype Lookups = Lookups(rows: seq<Row>, norm: string -> string, trusted: map<(string, string), string>)

  function TrustedAt(l: Lookups, claim: Claim, i: nat): Option<string>
    requires i < |claim.mentions|
  {
    Lookup(l.trusted, (claim.claimId, claim.mentions[i].mentionId))
  }

  function FoundAt(l: Lookups, claim: Claim, i: nat): seq<string>
    requires i < |claim.mentions|
  {
    ResolveRows(l.rows, l.norm(claim.mentions[i].text), claim.mentions[i].etype)
  }

  /** Mention `i` points to its trusted entity the first time that is named, and otherwise to what its text finds alone. */
  ghost predicate Points(l: Lookups, claim: Claim, i: nat, id: string)
    requires i < |claim.mentions|
    decreases i, 1
  {
    var trusted := TrustedAt(l, claim, i);
    if trusted.Some? && !Listed(l, claim, i, trusted.value) then id == trusted.value else FoundAt(l, claim, i) == [id]
  }

  /** A mention before `k` points to the entity. */
  ghost predicate Listed(l: Lookups, claim: Claim, k: nat, id: string)
    requires k <= |claim.mentions|
    decreases k, 0
  {
    k > 0 && (Listed(l, claim, k - 1, id) || Points(l, claim, k - 1, id))
  }

  ghost predicate Misses(l: Lookups, claim: Claim, i: nat)
    requires i < |claim.mentions|
  {
    forall id :: !Points(l, claim, i, id)
  }

  ghost predicate MissedBefore(l: Lookups, claim: Claim, k: nat)
    requires k <= |claim.mentions|
  {
    exists i: nat :: i < k && Misses(l, claim, i)
  }

  ghost predicate SaidBefore(l: Lookups, claim: Claim, k: nat, u: Unresolved)
    requires k <= |claim.mentions|
  {
    exists i: nat :: i < k && Misses(l, claim, i)
                     && u == Unresolved(UnresolvedReference, Some(claim.claimId), Some(claim.mentions[i].mentionId), None, FoundAt(l, claim, i))
  }

  /** The entities the claim points to, each once, and one diagnostic for every mention that misses. */
  ghost predicate RefersTo(l: Lookups, claim: Claim, k: nat, ids: seq<string>, missed: bool, said: seq<Unresolved>)
    requires k <= |claim.mentions|
  {
    && NoRepeats(ids)
    && (forall id :: id in ids <==> Listed(l, claim, k, id))
    && (missed <==> MissedBefore(l, claim, k))
    && (forall u :: u in said <==> SaidBefore(l, claim, k, u))
  }

  lemma {:induction false} PointsOnce(l: Lookups, claim: Claim, i: nat, st: Targets)
    requires i < |claim.mentions| && (forall id :: id in st.ids <==> Listed(l, claim, i, id))
    ensures var trusted, found := TrustedAt(l, claim, i), FoundAt(l, claim, i);
            var first := trusted.Some? && trusted.value !in st.ids;
            && (Misses(l, claim, i) <==> !first && |found| != 1)
            && (first ==> forall id :: Points(l, claim, i, id) <==> id == trusted.value)
            && (!first && |found| == 1 ==> forall id :: Points(l, claim, i, id) <==> id == found[0])
  {
    var trusted, found := TrustedAt(l, claim, i), FoundAt(l, claim, i);
    if trusted.Some? && trusted.value !in st.ids {
      assert Points(l, claim, i, trusted.value);
    } else if |found| == 1 {
      assert found == [found[0]];
      assert Points(l, claim, i, found[0]);
    }
  }

  lemma OneMoreMention(l: Lookups, claim: Claim, k: nat, st: Targets)
    requires k < |claim.mentions| && RefersTo(l, claim, k, st.ids, st.missed, st.unresolved)
    ensures var now := TargetStep(st, claim.claimId, claim.mentions[k], TrustedAt(l, claim, k), FoundAt(l, claim, k));
            RefersTo(l, claim, k + 1, now.ids, now.missed, now.unresolved)
  {
    var now := TargetStep(st, claim.claimId, claim.mentions[k], TrustedAt(l, claim, k), FoundAt(l, claim, k));
    PointsOnce(l, claim, k, st);
    assert MissedBefore(l, claim, k + 1) <==> MissedBefore(l, claim, k) || Misses(l, claim, k);
    forall id
      ensures id in now.ids <==> Listed(l, claim, k + 1, id)
    {
      assert Listed(l, claim, k + 1, id) <==> Listed(l, claim, k, id) || Points(l, claim, k, id);
    }
    forall u
      ensures u in now.unresolved <==> SaidBefore(l, claim, k + 1, u)
    {
      assert SaidBefore(l, claim, k + 1, u) <==>
             SaidBefore(l, claim, k, u)
             || (Misses(l, claim, k)
                 && u == Unresolved(UnresolvedReference, Some(claim.claimId), Some(claim.mentions[k].mentionId), None, FoundAt(l, claim, k)));
    }
  }

  lemma {:induction false} MentionsRefer(l: Lookups, claim: Claim, k: nat)
    requires k <= |claim.mentions|
    ensures var st := TargetsUpTo(l.rows, l.norm, l.trusted, claim, k);
            RefersTo(l, claim, k, st.ids, st.missed, st.unresolved)
  {
    if k > 0 {
      MentionsRefer(l, claim, k - 1);
      OneMoreMention(l, claim, k - 1, TargetsUpTo(l.rows, l.norm, l.trusted, claim, k - 1));
    }
  }

  // Appends

  /** What the claims before have left in the producer's counters. */
  ghost predicate Counted(st: Appends) {
    && (forall id, fact :: (id, fact) in st.facts <==> AlreadyProposed(st.ops, id, fact))
    && (forall id :: CountIn(st.increments, id) == CountAppends(st.ops, id))
  }

  /** The entity is as it was prepared, field by field and text by text. */
  predicate Unchanged(document: Document, p: Prepared) {
    var e := document.entity;
    && p.id == e.id && p.etype == e.etype && p.revision == e.revision && p.name == e.name && p.status == e.status
    && p.visibility == e.visibility && p.knowledge == e.knowledge && p.tags == e.tags && p.body == document.body
  }

  /** Why a claim that points to these entities is not appended; `None` when nothing stands against it. */
  ghost predicate Stands(vault: map<string, Document>, prepared: map<string, Prepared>, claim: Claim, ops: seq<Operation>, ids: seq<string>, missed: bool,
                         against: Option<(Reason, seq<string>)>)
  {
    if claim.kind != ClaimKind.Fact && claim.kind != ClaimKind.Event then against == Some((UnsupportedClaimKind, []))
    else if ids == [] then against == Some((NoCanonicalTarget, []))
    else if |ids| > 1 then against == Some((UnsupportedMultiTarget, ids))
    else if missed then against == Some((UnresolvedReference, []))
    else if ids[0] !in prepared then against == Some((TargetNotPrepared, ids))
    else if ids[0] !in vault || !Unchanged(vault[ids[0]], prepared[ids[0]]) then against == Some((StalePreparedEntity, ids))
    else if vault[ids[0]].entity.visibility == System then against == Some((SystemEntityExcluded, ids))
    else if AlreadyProposed(ops, ids[0], claim.text) || FactLines.BodyContains(vault[ids[0]].body, claim.text) then against == Some((DuplicateFact, ids))
    else against == None
  }

  /** One claim: one append to its one target, or diagnostics that end with what stands against it. */
  ghost predicate ClaimDecided(vault: map<string, Document>, prepared: map<string, Prepared>, l: Lookups, claim: Claim, st: Appends, now: Appends) {
    exists ids, missed, said, against ::
      && RefersTo(l, claim, |claim.mentions|, ids, missed, said)
      && Stands(vault, prepared, claim, st.ops, ids, missed, against)
      && StepTold(vault, claim, st, now, ids, said, against)
  }

  ghost predicate StepTold(vault: map<string, Document>, claim: Claim, st: Appends, now: Appends, ids: seq<string>, said: seq<Unresolved>,
                           against: Option<(Reason, seq<string>)>)
  {
    if against == None then
      && ids != [] && ids[0] in vault && now.unresolved == st.unresolved
      && now.sources == st.sources + [OperationSource("append_fact", [claim.claimId], [], claim.evidence)]
      && now.ops == st.ops + [AppendFact(ids[0], vault[ids[0]].entity.revision + CountAppends(st.ops, ids[0]), claim.text)]
    else
      && now.ops == st.ops && now.sources == st.sources
      && now.unresolved == st.unresolved + (if claim.kind == ClaimKind.Fact || claim.kind == ClaimKind.Event then said else [])
                           + [Unresolved(against.value.0, Some(claim.claimId), None, None, against.value.1)]
  }

  lemma StepCounts(st: Appends, claim: Claim, target: Result<Document, seq<Unresolved>>)
    requires Counted(st)
    ensures Counted(AppendStep(st, claim, target))
  {
    var now := AppendStep(st, claim, target);
    if now.ops != st.ops {
      forall id, fact
        ensures (id, fact) in now.facts <==> AlreadyProposed(now.ops, id, fact)
      {
        CountedSnoc(st.ops, now.ops[|st.ops|], id, fact);
        assert (id, fact) in st.facts <==> AlreadyProposed(st.ops, id, fact);
      }
      forall id: string
        ensures CountIn(now.increments, id) == CountAppends(now.ops, id)
      {
        CountedSnoc(st.ops, now.ops[|st.ops|], id, "");
        assert CountIn(st.increments, id) == CountAppends(st.ops, id);
      }
    }
  }

  lemma {:induction false} AppendsCount(documents: seq<Document>, norm: string -> string, prepared: map<string, Prepared>,
                                        trusted: map<(string, string), string>, claims: seq<Claim>, k: nat)
    requires k <= |claims|
    ensures Counted(AppendsUpTo(documents, norm, prepared, trusted, claims, k))
  {
    if k > 0 {
      AppendsCount(documents, norm, prepared, trusted, claims, k - 1);
      StepCounts(AppendsUpTo(documents, norm, prepared, trusted, claims, k - 1), claims[k - 1],
                 TargetOf(documents, norm, prepared, trusted, claims[k - 1]));
    }
  }

  /** What the producer finds against the target of a claim. */
  function AgainstTarget(vault: map<string, Document>, prepared: map<string, Prepared>, claim: Claim, found: Targets): Option<(Reason, seq<string>)> {
    if !Appendable(claim.kind) then Some((UnsupportedClaimKind, []))
    else if found.ids == [] then Some((NoCanonicalTarget, []))
    else if |found.ids| > 1 then Some((UnsupportedMultiTarget, found.ids))
    else if found.missed then Some((UnresolvedReference, []))
    else if found.ids[0] !in prepared then Some((TargetNotPrepared, found.ids))
    else if found.ids[0] !in vault || !ProjectionMatches(vault[found.ids[0]], prepared[found.ids[0]]) then Some((StalePreparedEntity, found.ids))
    else if vault[found.ids[0]].entity.visibility == System then Some((SystemEntityExcluded, found.ids))
    else None
  }

  lemma {:induction false} TargetSays(documents: seq<Document>, vault: map<string, Document>, norm: string -> string, prepared: map<string, Prepared>,
                                      trusted: map<(string, string), string>, claim: Claim, found: Targets)
    requires Repository.Lists(documents, vault)
    requires found == TargetsUpTo(RowsOf(norm, documents), norm, trusted, claim, |claim.mentions|)
    ensures var target, against := TargetOf(documents, norm, prepared, trusted, claim), AgainstTarget(vault, prepared, claim, found);
            if against == None then found.ids != [] && found.ids[0] in vault && target == Ok(vault[found.ids[0]])
            else target == Err((if Appendable(claim.kind) then found.unresolved else []) + [ClaimIssue(claim, against.value.0, against.value.1)])
  {
    CurrentIsVault(documents, vault);
    assert [] + [ClaimIssue(claim, UnsupportedClaimKind, [])] == [ClaimIssue(claim, UnsupportedClaimKind, [])];
  }

  lemma StepOfTarget(vault: map<string, Document>, claim: Claim, st: Appends, id: string)
    requires Counted(st) && id in vault && vault[id].entity.id == id
    ensures var duplicate := AlreadyProposed(st.ops, id, claim.text) || FactLines.BodyContains(vault[id].body, claim.text);
            StepTold(vault, claim, st, AppendStep(st, claim, Ok(vault[id])), [id], [], if duplicate then Some((DuplicateFact, [id])) else None)
  {
    assert st.unresolved + [] == st.unresolved;
    assert (id, claim.text) in st.facts <==> AlreadyProposed(st.ops, id, claim.text);
    assert CountIn(st.increments, id) == CountAppends(st.ops, id);
  }

  lemma StepOfRefusal(vault: map<string, Document>, claim: Claim, st: Appends, ids: seq<string>, said: seq<Unresolved>, against: (Reason, seq<string>))
    ensures var told := if Appendable(claim.kind) then said else [];
            StepTold(vault, claim, st, AppendStep(st, claim, Err(told + [ClaimIssue(claim, against.0, against.1)])), ids, said, Some(against))
  {
    var told := if Appendable(claim.kind) then said else [];
    assert st.unresolved + (told + [ClaimIssue(claim, against.0, against.1)]) == st.unresolved + told + [ClaimIssue(claim, against.0, against.1)];
  }

  lemma NothingMissed(l: Lookups, claim: Claim, found: Targets)
    requires RefersTo(l, claim, |claim.mentions|, found.ids, found.missed, found.unresolved) && !found.missed
    ensures found.unresolved == []
  {
    HeadIsMember(found.unresolved);
  }

  /**
   Every claim becomes an append, exactly if its kind is appendable, all its
   mentions point to one entity, that entity is prepared, unchanged and no system
   entity, and the fact is new to body and proposal; otherwise its diagnostics end
   with the reason of the first check that failed.
   */
  lemma EveryClaimIsDecided(documents: seq<Document>, vault: map<string, Document>, norm: string -> string, prepared: map<string, Prepared>,
                            trusted: map<(string, string), string>, claims: seq<Claim>, k: nat)
    requires Repository.Lists(documents, vault) && k < |claims|
    ensures ClaimDecided(vault, prepared, Lookups(RowsOf(norm, documents), norm, trusted), claims[k],
                         AppendsUpTo(documents, norm, prepared, trusted, claims, k), AppendsUpTo(documents, norm, prepared, trusted, claims, k + 1))
  {
    var claim, st := claims[k], AppendsUpTo(documents, norm, prepared, trusted, claims, k);
    var l, found := Lookups(RowsOf(norm, documents), norm, trusted), TargetsUpTo(RowsOf(norm, documents), norm, trusted, claim, |claim.mentions|);
    var target := TargetOf(documents, norm, prepared, trusted, claim);
    AppendsCount(documents, norm, prepared, trusted, claims, k);
    MentionsRefer(l, claim, |claim.mentions|);
    TargetSays(documents, vault, norm, prepared, trusted, claim, found);
    AppendsSnoc(documents, norm, prepared, trusted, claims, k, st, target);
    CurrentIsVault(documents, vault);
    StepDecides(documents, vault, prepared, l, claim, st, found, target);
  }

  lemma StepDecides(documents: seq<Document>, vault: map<string, Document>, prepared: map<string, Prepared>, l: Lookups, claim: Claim, st: Appends,
                    found: Targets, target: Result<Document, seq<Unresolved>>)
    requires Repository.Lists(documents, vault) && Counted(st)
    requires RefersTo(l, claim, |claim.mentions|, found.ids, found.missed, found.unresolved)
    requires var against := AgainstTarget(vault, prepared, claim, found);
             if against == None then found.ids != [] && found.ids[0] in vault && target == Ok(vault[found.ids[0]])
             else target == Err((if Appendable(claim.kind) then found.unresolved else []) + [ClaimIssue(claim, against.value.0, against.value.1)])
    ensures ClaimDecided(vault, prepared, l, claim, st, AppendStep(st, claim, target))
  {
    var against := AgainstTarget(vault, prepared, claim, found);
    if against.Some? {
      StepOfRefusal(vault, claim, st, found.ids, found.unresolved, against.value);
      assert Stands(vault, prepared, claim, st.ops, found.ids, found.missed, against);
    } else {
      var id := found.ids[0];
      var i :| 0 <= i < |documents| && documents[i].entity.id == id;
      NothingMissed(l, claim, found);
      StepOfTarget(vault, claim, st, id);
      assert found.ids == [id];
      var duplicate := AlreadyProposed(st.ops, id, claim.text) || FactLines.BodyContains(vault[id].body, claim.text);
      assert Stands(vault, prepared, claim, st.ops, found.ids, found.missed, if duplicate then Some((DuplicateFact, [id])) else None);
    }
  }

  // The whole proposal

  /** Every candidate decided in turn, from nothing. */
  ghost predicate CreateChain(vault: map<string, Document>, candidates: seq<NewEntity>, session: string, rules: Rules, chain: seq<Creates>) {
    && |chain| == |candidates| + 1
    && chain[0].ops == [] && chain[0].sources == [] && chain[0].unresolved == []
    && forall i: nat :: i < |candidates| ==> PostSessionCreates.Decided(vault, candidates, session, rules, i, chain[i], chain[i + 1])
  }

  /** Every claim likewise. */
  ghost predicate AppendChain(vault: map<string, Document>, prepared: map<string, Prepared>, l: Lookups, claims: seq<Claim>, chain: seq<Appends>) {
    && |chain| == |claims| + 1
    && chain[0].ops == [] && chain[0].sources == [] && chain[0].unresolved == []
    && forall k: nat :: k < |claims| ==> ClaimDecided(vault, prepared, l, claims[k], chain[k], chain[k + 1])
  }

  /** The plan puts the creates before the appends and keeps every diagnostic; it proposes nothing exactly if there is no operation. */
  predicate Joins(plan: Plan, session: string, attempt: string, creates: Creates, appends: Appends) {
    && plan.unresolved == creates.unresolved + appends.unresolved
    && (plan.NoChanges? <==> creates.ops == [] && appends.ops == [])
    && (plan.Proposal? ==>
          && plan.sources == creates.sources + appends.sources
          && plan.changeset == ChangeSet("cs_" + session + "_" + attempt, ModelInference, Some(session), creates.ops + appends.ops))
  }

  ghost predicate PlansSo(vault: map<string, Document>, prepared: map<string, Prepared>, l: Lookups, e: Extraction, session: string, attempt: string,
                          rules: Rules, plan: Plan)
  {
    exists creates: seq<Creates>, appends: seq<Appends> ::
      && CreateChain(vault, e.candidates, session, rules, creates) && AppendChain(vault, prepared, l, e.claims, appends)
      && Joins(plan, session, attempt, creates[|e.candidates|], appends[|e.claims|])
  }

  function CreateSteps(documents: seq<Document>, candidates: seq<NewEntity>, session: string, rules: Rules): (chain: seq<Creates>)
    ensures |chain| == |candidates| + 1 && chain[|candidates|] == CreatesUpTo(documents, candidates, session, rules, |candidates|)
  {
    seq(|candidates| + 1, i requires 0 <= i <= |candidates| => CreatesUpTo(documents, candidates, session, rules, i))
  }

  function AppendSteps(documents: seq<Document>, norm: string -> string, prepared: map<string, Prepared>, trusted: map<(string, string), string>,
                       claims: seq<Claim>): (chain: seq<Appends>)
    ensures |chain| == |claims| + 1 && chain[|claims|] == AppendsUpTo(documents, norm, prepared, trusted, claims, |claims|)
  {
    seq(|claims| + 1, k requires 0 <= k <= |claims| => AppendsUpTo(documents, norm, prepared, trusted, claims, k))
  }

  lemma CreatesAreChained(documents: seq<Document>, vault: map<string, Document>, candidates: seq<NewEntity>, session: string, rules: Rules)
    requires Repository.Lists(documents, vault) && DistinctCandidates(candidates)
    ensures CreateChain(vault, candidates, session, rules, CreateSteps(documents, candidates, session, rules))
  {
    forall i: nat | i < |candidates|
      ensures PostSessionCreates.Decided(vault, candidates, session, rules, i, CreatesUpTo(documents, candidates, session, rules, i),
                                         CreatesUpTo(documents, candidates, session, rules, i + 1))
    {
      PostSessionCreates.CreatedIffCreatable(documents, vault, candidates, session, rules, i);
    }
  }

  lemma AppendsAreChained(documents: seq<Document>, vault: map<string, Document>, norm: string -> string, prepared: map<string, Prepared>,
                          trusted: map<(string, string), string>, claims: seq<Claim>)
    requires Repository.Lists(documents, vault)
    ensures AppendChain(vault, prepared, Lookups(RowsOf(norm, documents), norm, trusted), claims,
                        AppendSteps(documents, norm, prepared, trusted, claims))
  {
    forall k: nat | k < |claims|
      ensures ClaimDecided(vault, prepared, Lookups(RowsOf(norm, documents), norm, trusted), claims[k],
                           AppendsUpTo(documents, norm, prepared, trusted, claims, k), AppendsUpTo(documents, norm, prepared, trusted, claims, k + 1))
    {
      EveryClaimIsDecided(documents, vault, norm, prepared, trusted, claims, k);
    }
  }

  lemma PlanJoins(documents: seq<Document>, v: Validated, prepared: map<string, Prepared>, session: string, attempt: string, rules: Rules)
    ensures Joins(Planned(documents, v, prepared, session, attempt, rules), session, attempt,
                  CreatesOf(documents, v, session, rules), AppendsOf(documents, v, prepared, rules))
  {
  }

  /** The plan of every extraction: each candidate and each claim decided in turn, nothing said is dropped, nothing else is proposed. */
  lemma PlanIsDecided(documents: seq<Document>, vault: map<string, Document>, v: Validated, prepared: map<string, Prepared>, session: string,
                      attempt: string, rules: Rules)
    requires Repository.Lists(documents, vault) && DistinctCandidates(v.extraction.candidates)
    ensures PlansSo(vault, prepared, Lookups(RowsOf(rules.norm, documents), rules.norm, Trusted(v.resolved)), v.extraction, session, attempt, rules,
                    Planned(documents, v, prepared, session, attempt, rules))
  {
    var e, trusted := v.extraction, Trusted(v.resolved);
    CreatesAreChained(documents, vault, e.candidates, session, rules);
    AppendsAreChained(documents, vault, rules.norm, prepared, trusted, e.claims);
    PlanJoins(documents, v, prepared, session, attempt, rules);
    ChainsPlan(vault, prepared, Lookups(RowsOf(rules.norm, documents), rules.norm, trusted), e, session, attempt, rules,
               Planned(documents, v, prepared, session, attempt, rules),
               CreateSteps(documents, e.candidates, session, rules), AppendSteps(documents, rules.norm, prepared, trusted, e.claims));
  }

  lemma ChainsPlan(vault: map<string, Document>, prepared: map<string, Prepared>, l: Lookups, e: Extraction, session: string, attempt: string,
                   rules: Rules, plan: Plan, creates: seq<Creates>, appends: seq<Appends>)
    requires CreateChain(vault, e.candidates, session, rules, creates) && AppendChain(vault, prepared, l, e.claims, appends)
    requires Joins(plan, session, attempt, creates[|e.candidates|], appends[|e.claims|])
    ensures PlansSo(vault, prepared, l, e, session, attempt, rules, plan)
  {
  }
}
