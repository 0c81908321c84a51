/** Which candidates of a post-session extraction become new entities, and what is said of the others. */
module PostSessionCreates {
  import opened Wrappers
  import opened Domain
  import opened Binding
  import opened SessionExtraction
  import opened PostSession
  import Repository
  import Canonical

  // Names in the Vault

  /** The entity carries the text, normalized, as its name or as an alias. */
  ghost predicate Named(document: Document, norm: string -> string, text: string) {
    norm(document.entity.name) == text || exists a :: 0 <= a < |document.aliases| && norm(document.aliases[a]) == text
  }

  /** Some entity of the Vault, of whatever type, carries the text. */
  ghost predicate NamedIn(vault: map<string, Document>, norm: string -> string, text: string, id: string) {
    id in vault && Named(vault[id], norm, text)
  }

  lemma RowsAreNamed(document: Document, norm: string -> string, text: string)
    ensures var row := Canonical.RowOf(norm, document);
            Hits(NameAny(text), row) || Hits(AliasAny(text), row) <==> Named(document, norm, text)
  {
    var row := Canonical.RowOf(norm, document);
    assert forall a :: 0 <= a < |document.aliases| ==> row.aliases[a] == norm(document.aliases[a]);
    if text in row.aliases {
      var a :| 0 <= a < |row.aliases| && row.aliases[a] == text;
      assert norm(document.aliases[a]) == text;
    }
  }

  /** The any-type lookup over the listing finds exactly the entities that carry the text. */
  lemma MatchesAreNamed(documents: seq<Document>, vault: map<string, Document>, norm: string -> string, text: string)
    requires Repository.Lists(documents, vault)
    ensures NoRepeats(MatchRows(RowsOf(norm, documents), text))
    ensures forall id :: id in MatchRows(RowsOf(norm, documents), text) <==> NamedIn(vault, norm, text, id)
  {
    var rows := RowsOf(norm, documents);
    MatchesAreExact(rows, text);
    forall id
      ensures HitBy(rows, NameAny(text), id) || HitBy(rows, AliasAny(text), id) <==> NamedIn(vault, norm, text, id)
    {
      if NamedIn(vault, norm, text, id) {
        var i :| 0 <= i < |documents| && documents[i].entity.id == id;
        RowsAreNamed(documents[i], norm, text);
        assert rows[i].id == id;
        assert Hits(NameAny(text), rows[i]) || Hits(AliasAny(text), rows[i]);
      }
      if HitBy(rows, NameAny(text), id) || HitBy(rows, AliasAny(text), id) {
        var i :| 0 <= i < |rows| && rows[i].id == id && (Hits(NameAny(text), rows[i]) || Hits(AliasAny(text), rows[i]));
        RowsAreNamed(documents[i], norm, text);
        assert documents[i].entity.id == id;
      }
    }
  }

  // What is created, and why the rest is not

  /** Another candidate claims the id of candidate `i`. */
  ghost predicate Contested(candidates: seq<NewEntity>, rules: Rules, i: nat)
    requires i < |candidates|
  {
    exists j :: 0 <= j < |candidates| && j != i && Allocation(rules, candidates[j]) == Allocation(rules, candidates[i])
  }

  ghost predicate CreatedBefore(ops: seq<Operation>, norm: string -> string, text: string) {
    exists k :: 0 <= k < |ops| && ops[k].CreateEntity? && norm(ops[k].name) == text
  }

  /** Nothing in the extraction, the Vault or the creates before it stands against candidate `i`. */
  ghost predicate Creatable(vault: map<string, Document>, candidates: seq<NewEntity>, rules: Rules, i: nat, before: seq<Operation>)
    requires i < |candidates|
  {
    var text := rules.norm(candidates[i].displayName);
    && !Contested(candidates, rules, i)
    && Allocation(rules, candidates[i]) !in vault
    && (forall id :: !NamedIn(vault, rules.norm, text, id))
    && !CreatedBefore(before, rules.norm, text)
  }

  /** What stands against a candidate, in the order of the checks, and the entities to be named with it. */
  ghost predicate Because(vault: map<string, Document>, candidates: seq<NewEntity>, rules: Rules, i: nat, reason: Reason, ids: seq<string>)
    requires i < |candidates|
  {
    var id, text := Allocation(rules, candidates[i]), rules.norm(candidates[i].displayName);
    if Contested(candidates, rules, i) then reason == EntityIdCollision && ids == [id]
    else if id in vault then
      && ids == [id]
      && (reason == DuplicateExistingEntity <==>
            vault[id].entity.etype == candidates[i].etype && rules.norm(vault[id].entity.name) == text)
      && (reason == DuplicateExistingEntity || reason == EntityIdCollision)
    else
      && NoRepeats(ids) && (forall other :: other in ids <==> NamedIn(vault, rules.norm, text, other))
      && reason == (if |ids| == 1 then DuplicateExistingEntity else AmbiguousExactMatch)
  }

  /** The create of a candidate: its name, type and id, the defaults, and the session. */
  ghost predicate CreateOf(op: Operation, c: NewEntity, id: string, session: string) {
    && op.CreateEntity? && op.entityId == id && op.etype == c.etype && op.name == c.displayName
    && op.status == "unknown" && op.visibility == Dm && op.knowledge == Inferred && op.tags == []
    && op.createdSession == Some(session) && op.lastSeenSession == Some(session)
  }

  ghost predicate SourceOfCreate(source: OperationSource, c: NewEntity) {
    source.kind == "create_entity" && source.claimIds == [] && source.candidateIds == [c.candidateId] && source.evidence == c.evidence
  }

  lemma {:induction false} NamesAreCreated(documents: seq<Document>, candidates: seq<NewEntity>, session: string, rules: Rules, k: nat, text: string)
    requires k <= |candidates|
    ensures var st := CreatesUpTo(documents, candidates, session, rules, k);
            text in st.names <==> CreatedBefore(st.ops, rules.norm, text)
  {
    if k > 0 {
      NamesAreCreated(documents, candidates, session, rules, k - 1, text);
      var before, now := CreatesUpTo(documents, candidates, session, rules, k - 1), CreatesUpTo(documents, candidates, session, rules, k);
      if now.ops != before.ops {
        CreatedSnoc(before.ops, now.ops[|before.ops|], rules.norm, text);
      }
    }
  }

  lemma CreatedSnoc(ops: seq<Operation>, op: Operation, norm: string -> string, text: string)
    requires op.CreateEntity?
    ensures CreatedBefore(ops + [op], norm, text) <==> CreatedBefore(ops, norm, text) || norm(op.name) == text
  {
    var more := ops + [op];
    if CreatedBefore(ops, norm, text) {
      var k :| 0 <= k < |ops| && ops[k].CreateEntity? && norm(ops[k].name) == text;
      assert more[k].CreateEntity? && norm(more[k].name) == text;
    }
    assert more[|ops|] == op;
  }

  lemma {:induction false} ClaimantsAre(candidates: seq<NewEntity>, rules: Rules, i: nat, k: nat)
    requires i < |candidates| && k <= |candidates|
    ensures var id := Allocation(rules, candidates[i]);
            var others := exists j :: 0 <= j < k && j != i && Allocation(rules, candidates[j]) == id;
            && (ClaimantCount(candidates, rules, id, k) >= 1 <==> i < k || others)
            && (i < k ==> (ClaimantCount(candidates, rules, id, k) > 1 <==> others))
  {
    if k > 0 {
      ClaimantsAre(candidates, rules, i, k - 1);
    }
  }

  ghost predicate Verdicts(vault: map<string, Document>, candidates: seq<NewEntity>, rules: Rules, i: nat, before: seq<Operation>, verdict: Verdict)
    requires i < |candidates|
  {
    && (verdict.Emit? <==> Creatable(vault, candidates, rules, i, before))
    && (verdict.Omit? ==> Because(vault, candidates, rules, i, verdict.reason, verdict.entityIds))
  }

  lemma {:induction false} VerdictIs(documents: seq<Document>, vault: map<string, Document>, candidates: seq<NewEntity>, session: string, rules: Rules, i: nat)
    requires Repository.Lists(documents, vault) && DistinctCandidates(candidates) && i < |candidates|
    ensures var st := CreatesUpTo(documents, candidates, session, rules, i);
            Verdicts(vault, candidates, rules, i, st.ops, CandidateVerdict(documents, candidates, rules, i, st.names))
  {
    var st := CreatesUpTo(documents, candidates, session, rules, i);
    var c := candidates[i];
    var id, text := Allocation(rules, c), rules.norm(c.displayName);
    OwnAllocation(candidates, rules, |candidates|);
    ClaimantsAre(candidates, rules, i, |candidates|);
    CurrentIsVault(documents, vault);
    NamesAreCreated(documents, candidates, session, rules, i, text);
    MatchesAreNamed(documents, vault, rules.norm, text);
    SomeOrNone(MatchRows(RowsOf(rules.norm, documents), text), vault, rules.norm, text);
    if id in vault {
      DocumentsByIdAre(documents, id);
    }
  }

  lemma SomeOrNone(ids: seq<string>, vault: map<string, Document>, norm: string -> string, text: string)
    requires forall id :: id in ids <==> NamedIn(vault, norm, text, id)
    ensures ids == [] <==> forall id :: !NamedIn(vault, norm, text, id)
  {
    if ids != [] {
      assert ids[0] in ids;
    }
  }

  /** The step of candidate `i`: one create with one source, or one diagnostic. */
  ghost predicate Decided(vault: map<string, Document>, candidates: seq<NewEntity>, session: string, rules: Rules, i: nat, st: Creates, now: Creates)
    requires i < |candidates|
  {
    var c := candidates[i];
    if Creatable(vault, candidates, rules, i, st.ops) then
      && |now.ops| == |st.ops| + 1 && now.ops[..|st.ops|] == st.ops && CreateOf(now.ops[|st.ops|], c, Allocation(rules, c), session)
      && |now.sources| == |st.sources| + 1 && now.sources[..|st.sources|] == st.sources && SourceOfCreate(now.sources[|st.sources|], c)
      && now.unresolved == st.unresolved
    else
      && now.ops == st.ops && now.sources == st.sources
      && |now.unresolved| == |st.unresolved| + 1 && now.unresolved[..|st.unresolved|] == st.unresolved
      && var u := now.unresolved[|st.unresolved|];
      && u.candidateId == Some(c.candidateId) && u.claimId == None && u.mentionId == None
      && Because(vault, candidates, rules, i, u.reason, u.entityIds)
  }

  /**
   With distinct candidate ids, a candidate becomes a create exactly when no other
   candidate is allocated its id, no entity of the Vault has that id, none of any
   type carries its name as name or alias, and no create before it has the name.
   Otherwise there is one diagnostic with the reason of the first check that failed.
   */
  lemma CreatedIffCreatable(documents: seq<Document>, vault: map<string, Document>, candidates: seq<NewEntity>, session: string, rules: Rules, i: nat)
    requires Repository.Lists(documents, vault) && DistinctCandidates(candidates) && i < |candidates|
    ensures Decided(vault, candidates, session, rules, i, CreatesUpTo(documents, candidates, session, rules, i),
                    CreatesUpTo(documents, candidates, session, rules, i + 1))
  {
    var st := CreatesUpTo(documents, candidates, session, rules, i);
    IdByCandidateHas(candidates, rules, |candidates|);
    OwnAllocation(candidates, rules, |candidates|);
    VerdictIs(documents, vault, candidates, session, rules, i);
    var verdict := CandidateVerdict(documents, candidates, rules, i, st.names);
    CreatesSnoc(documents, candidates, session, rules, i, st, Allocation(rules, candidates[i]), verdict);
    StepDecides(vault, candidates, session, rules, i, st, verdict);
  }

  lemma StepDecides(vault: map<string, Document>, candidates: seq<NewEntity>, session: string, rules: Rules, i: nat, st: Creates, verdict: Verdict)
    requires i < |candidates| && Verdicts(vault, candidates, rules, i, st.ops, verdict)
    ensures Decided(vault, candidates, session, rules, i, st, CreateStep(st, session, rules, candidates[i], Allocation(rules, candidates[i]), verdict))
  {
  }

  ghost predicate Traced(candidates: seq<NewEntity>, rules: Rules, session: string, k: nat, op: Operation, source: OperationSource)
    requires k <= |candidates|
  {
    exists i :: 0 <= i < k && CreateOf(op, candidates[i], Allocation(rules, candidates[i]), session) && SourceOfCreate(source, candidates[i])
  }

  /** Every create carries name, type and evidence of one candidate, and every candidate became one create or one diagnostic. */
  lemma {:induction false} CreatesAreTraced(documents: seq<Document>, vault: map<string, Document>, candidates: seq<NewEntity>, session: string,
                                            rules: Rules, k: nat)
    requires Repository.Lists(documents, vault) && DistinctCandidates(candidates) && k <= |candidates|
    ensures var st := CreatesUpTo(documents, candidates, session, rules, k);
            && |st.sources| == |st.ops| && |st.ops| + |st.unresolved| == k
            && forall j :: 0 <= j < |st.ops| ==> Traced(candidates, rules, session, k, st.ops[j], st.sources[j])
  {
    if k > 0 {
      CreatesAreTraced(documents, vault, candidates, session, rules, k - 1);
      CreatedIffCreatable(documents, vault, candidates, session, rules, k - 1);
      var before, now := CreatesUpTo(documents, candidates, session, rules, k - 1), CreatesUpTo(documents, candidates, session, rules, k);
      forall j | 0 <= j < |now.ops|
        ensures Traced(candidates, rules, session, k, now.ops[j], now.sources[j])
      {
        if j < |before.ops| {
          assert now.ops[j] == before.ops[j] && now.sources[j] == before.sources[j];
          assert Traced(candidates, rules, session, k - 1, before.ops[j], before.sources[j]);
        }
      }
    }
  }
}
