/**
 Claims whose mentions the validation has all bound to one prepared entity: when they
 are appended to it, and when they are not.
 */
module TrustedMentions {
  import opened Wrappers
  import opened Domain
  import opened Binding
  import opened SessionExtraction
  import opened PostSession
  import Repository
  import FactLines

  // What an accepted extraction trusts

  /** The guesses that survive validation are the trusted bindings. */
  ghost predicate Agrees(resolved: seq<Resolved>, claimId: string, mentions: seq<Mention>, seen: set<string>) {
    forall i :: 0 <= i < |mentions| ==>
      mentions[i].mentionId in seen && Lookup(Trusted(resolved), (claimId, mentions[i].mentionId)) == mentions[i].candidateId
  }

  ghost predicate AllSeen(st: Mentions) {
    forall i :: 0 <= i < |st.resolved| ==> st.resolved[i].mentionId in st.seen
  }

  ghost predicate AllAgree(claims: seq<Claim>, st: Mentions) {
    AllSeen(st) && forall c :: 0 <= c < |claims| ==> Agrees(st.resolved, claims[c].claimId, claims[c].mentions, st.seen)
  }

  lemma {:induction false} TrustedIsSeen(resolved: seq<Resolved>, claimId: string, mentionId: string)
    requires forall i :: 0 <= i < |resolved| ==> resolved[i].mentionId != mentionId
    ensures (claimId, mentionId) !in Trusted(resolved)
  {
    if resolved != [] {
      TrustedIsSeen(resolved[..|resolved| - 1], claimId, mentionId);
    }
  }

  lemma AgreesLater(bindings: map<string, Prepared>, st: Mentions, m: Mention, at: string, evidence: seq<string>,
                    claimId: string, mentions: seq<Mention>)
    requires m.mentionId !in st.seen && Agrees(st.resolved, claimId, mentions, st.seen)
    ensures var now := MentionStep(bindings, at, m, evidence, st);
            Agrees(now.resolved, claimId, mentions, now.seen)
  {
    var now := MentionStep(bindings, at, m, evidence, st);
    assert now.resolved != st.resolved ==> now.resolved[..|now.resolved| - 1] == st.resolved;
  }

  lemma NewMentionAgrees(bindings: map<string, Prepared>, st: Mentions, m: Mention, claimId: string, evidence: seq<string>)
    requires m.mentionId !in st.seen && AllSeen(st)
    ensures var now := MentionStep(bindings, claimId, m, evidence, st);
            && AllSeen(now)
            && Lookup(Trusted(now.resolved), (claimId, m.mentionId)) == Sanitized(bindings, m, evidence).candidateId
  {
    var now := MentionStep(bindings, claimId, m, evidence, st);
    if Bound(bindings, m) {
      assert now.resolved[..|now.resolved| - 1] == st.resolved;
    } else {
      TrustedIsSeen(st.resolved, claimId, m.mentionId);
    }
  }

  /** The mentions of one claim agree, and so do those of every earlier claim. */
  lemma {:induction false} MentionsAgree(bindings: map<string, Prepared>, events: set<string>, claim: Claim, earlier: seq<Claim>, st: Mentions, k: nat)
    requires k <= |claim.mentions| && AllAgree(earlier, st) && MentionsUpTo(bindings, events, claim, st, k).Ok?
    ensures var now := MentionsUpTo(bindings, events, claim, st, k).value;
            AllAgree(earlier, now) && Agrees(now.resolved, claim.claimId, now.sanitized, now.seen)
  {
    if k > 0 {
      MentionsAgree(bindings, events, claim, earlier, st, k - 1);
      var before := MentionsUpTo(bindings, events, claim, st, k - 1).value;
      var m := claim.mentions[k - 1];
      var evidence := Evidence(m.evidence, events).value;
      forall c | 0 <= c < |earlier|
        ensures var now := MentionStep(bindings, claim.claimId, m, evidence, before);
                Agrees(now.resolved, earlier[c].claimId, earlier[c].mentions, now.seen)
      {
        AgreesLater(bindings, before, m, claim.claimId, evidence, earlier[c].claimId, earlier[c].mentions);
      }
      AgreesLater(bindings, before, m, claim.claimId, evidence, claim.claimId, before.sanitized);
      NewMentionAgrees(bindings, before, m, claim.claimId, evidence);
    }
  }

  lemma {:induction false} ClaimsAgree(bindings: map<string, Prepared>, events: set<string>, claims: seq<Claim>, k: nat)
    requires k <= |claims| && ClaimsUpTo(bindings, events, claims, k).Ok?
    ensures var st := ClaimsUpTo(bindings, events, claims, k).value;
            AllAgree(st.claims, st.mentions)
  {
    if k > 0 {
      ClaimsAgree(bindings, events, claims, k - 1);
      var before := ClaimsUpTo(bindings, events, claims, k - 1).value;
      MentionsAgree(bindings, events, claims[k - 1], before.claims, before.mentions, |claims[k - 1].mentions|);
    }
  }

  /** In an accepted extraction a mention is trusted exactly to the candidate id it was left with. */
  lemma TrustedIsCandidate(e: Extraction, entities: seq<Prepared>, events: set<string>, c: nat, i: nat)
    requires Validate(e, entities, events).Ok?
    requires var v := Validate(e, entities, events).value; c < |v.extraction.claims| && i < |v.extraction.claims[c].mentions|
    ensures var v := Validate(e, entities, events).value;
            var m := v.extraction.claims[c].mentions[i];
            Lookup(Trusted(v.resolved), (v.extraction.claims[c].claimId, m.mentionId)) == m.candidateId
  {
    ClaimsAgree(ById(entities), events, e.claims, |e.claims|);
    var st := ClaimsUpTo(ById(entities), events, e.claims, |e.claims|).value;
    assert Agrees(st.mentions.resolved, st.claims[c].claimId, st.claims[c].mentions, st.mentions.seen);
  }

  // When such a claim is appended

  /** There is a mention, and each is trusted to `id`. */
  predicate TrustedTo(trusted: map<(string, string), string>, claim: Claim, id: string) {
    && claim.mentions != []
    && forall i :: 0 <= i < |claim.mentions| ==> Lookup(trusted, (claim.claimId, claim.mentions[i].mentionId)) == Some(id)
  }

  /** The texts of all mentions but the first find `id` alone. */
  predicate TextsFind(rows: seq<Row>, norm: string -> string, claim: Claim, id: string, k: nat)
    requires k <= |claim.mentions|
  {
    forall i :: 1 <= i < k ==> ResolveRows(rows, norm(claim.mentions[i].text), claim.mentions[i].etype) == [id]
  }

  predicate SoleTarget(st: Targets, id: string) {
    st.ids == [id] && !st.missed
  }

  lemma RepeatedTarget(st: Targets, claimId: string, m: Mention, id: string, found: seq<string>)
    requires st.ids != [] && st.ids[0] == id
    ensures var after := TargetStep(st, claimId, m, Some(id), found);
            && after.ids != [] && after.ids[0] == id
            && (SoleTarget(after, id) <==> SoleTarget(st, id) && found == [id])
  {
    if |found| == 1 {
      assert found == [found[0]];
    }
  }

  lemma {:induction false} SoleTargetUpTo(rows: seq<Row>, norm: string -> string, trusted: map<(string, string), string>, claim: Claim, id: string, k: nat)
    requires TrustedTo(trusted, claim, id) && 1 <= k <= |claim.mentions|
    ensures var st := TargetsUpTo(rows, norm, trusted, claim, k);
            && st.ids != [] && st.ids[0] == id
            && (SoleTarget(st, id) <==> TextsFind(rows, norm, claim, id, k))
  {
    var m := claim.mentions[k - 1];
    var before := TargetsUpTo(rows, norm, trusted, claim, k - 1);
    if k == 1 {
      assert before == Targets([], false, []);
    } else {
      SoleTargetUpTo(rows, norm, trusted, claim, id, k - 1);
      RepeatedTarget(before, claim.claimId, m, id, ResolveRows(rows, norm(m.text), m.etype));
    }
  }

  /** The first mention counts as trusted; every further one must find the same entity again by its text. */
  lemma {:induction false} TrustedTargetIff(rows: seq<Row>, norm: string -> string, trusted: map<(string, string), string>, claim: Claim, id: string)
    requires TrustedTo(trusted, claim, id)
    ensures var st := TargetsUpTo(rows, norm, trusted, claim, |claim.mentions|);
            st.ids == [id] && !st.missed <==>
            forall i :: 1 <= i < |claim.mentions| ==> ResolveRows(rows, norm(claim.mentions[i].text), claim.mentions[i].etype) == [id]
  {
    SoleTargetUpTo(rows, norm, trusted, claim, id, |claim.mentions|);
  }

  /** The entity of a claim that may be appended to, as the Vault has it. */
  predicate Open(vault: map<string, Document>, prepared: map<string, Prepared>, id: string) {
    id in prepared && id in vault && ProjectionMatches(vault[id], prepared[id]) && vault[id].entity.visibility != System
  }

  lemma TrustedClaimIsTargetedIff(documents: seq<Document>, vault: map<string, Document>, norm: string -> string,
                                  prepared: map<string, Prepared>, trusted: map<(string, string), string>, claim: Claim, id: string)
    requires Repository.Lists(documents, vault) && TrustedTo(trusted, claim, id)
    ensures TargetOf(documents, norm, prepared, trusted, claim).Ok? <==>
              Appendable(claim.kind) && Open(vault, prepared, id) && TextsFind(RowsOf(norm, documents), norm, claim, id, |claim.mentions|)
    ensures TargetOf(documents, norm, prepared, trusted, claim).Ok? ==> TargetOf(documents, norm, prepared, trusted, claim).value == vault[id]
  {
    CurrentIsVault(documents, vault);
    TrustedTargetIff(RowsOf(norm, documents), norm, trusted, claim, id);
    SoleTargetUpTo(RowsOf(norm, documents), norm, trusted, claim, id, |claim.mentions|);
  }

  predicate AppendsFact(op: Operation, id: string, fact: string) {
    op.AppendFact? && op.entityId == id && op.fact == fact
  }

  ghost predicate Proposes(ops: seq<Operation>, id: string, fact: string) {
    exists n :: 0 <= n < |ops| && AppendsFact(ops[n], id, fact)
  }

  ghost predicate FactsAre(st: PostSession.Appends) {
    forall id, fact :: (id, fact) in st.facts <==> Proposes(st.ops, id, fact)
  }

  lemma OneMoreProposed(ops: seq<Operation>, op: Operation, id: string, fact: string)
    ensures Proposes(ops + [op], id, fact) <==> Proposes(ops, id, fact) || AppendsFact(op, id, fact)
  {
    var more := ops + [op];
    if Proposes(ops, id, fact) {
      var n :| 0 <= n < |ops| && AppendsFact(ops[n], id, fact);
      assert AppendsFact(more[n], id, fact);
    }
    assert AppendsFact(op, id, fact) ==> AppendsFact(more[|ops|], id, fact);
  }

  lemma FactsStay(st: PostSession.Appends, claim: Claim, target: Result<Document, seq<Unresolved>>)
    requires FactsAre(st)
    ensures FactsAre(AppendStep(st, claim, target))
  {
    var after := AppendStep(st, claim, target);
    if after.ops != st.ops {
      forall id, fact
        ensures (id, fact) in after.facts <==> Proposes(after.ops, id, fact)
      {
        OneMoreProposed(st.ops, after.ops[|st.ops|], id, fact);
      }
    }
  }

  lemma {:induction false} FactsAreProposed(documents: seq<Document>, norm: string -> string, prepared: map<string, Prepared>,
                                            trusted: map<(string, string), string>, claims: seq<Claim>, k: nat)
    requires k <= |claims|
    ensures FactsAre(AppendsUpTo(documents, norm, prepared, trusted, claims, k))
  {
    if k > 0 {
      FactsAreProposed(documents, norm, prepared, trusted, claims, k - 1);
      FactsStay(AppendsUpTo(documents, norm, prepared, trusted, claims, k - 1), claims[k - 1],
                TargetOf(documents, norm, prepared, trusted, claims[k - 1]));
    }
  }

  /** Every guess of the claim survived validation, and all name one entity. */
  predicate CandidateOnly(claim: Claim, id: string) {
    claim.mentions != [] && forall i :: 0 <= i < |claim.mentions| ==> claim.mentions[i].candidateId == Some(id)
  }

  /** The operations proposed for the first `k` claims of an accepted extraction. */
  function Proposed(documents: seq<Document>, v: Validated, entities: seq<Prepared>, rules: Rules, k: nat): seq<Operation>
    requires k <= |v.extraction.claims|
  {
    AppendsUpTo(documents, rules.norm, ById(entities), Trusted(v.resolved), v.extraction.claims, k).ops
  }

  /** What an appended claim needs besides its target: the fact is new to the body and to the proposal. */
  ghost predicate NewFact(vault: map<string, Document>, ops: seq<Operation>, id: string, fact: string)
    requires id in vault
  {
    !FactLines.BodyContains(vault[id].body, fact) && !Proposes(ops, id, fact)
  }

  /**
   A claim of an accepted extraction whose mentions are all bound to one entity adds
   an append to exactly this entity, or nothing; it adds one if and only if the kind,
   the entity and the fact allow it and every mention after the first finds the
   entity again by its own text.
   */
  lemma {:induction false} TrustedClaimIsAppendedIff(e: Extraction, entities: seq<Prepared>, events: set<string>, documents: seq<Document>,
                                                     vault: map<string, Document>, rules: Rules, k: nat, id: string)
    requires Repository.Lists(documents, vault) && Validate(e, entities, events).Ok?
    requires var claims := Validate(e, entities, events).value.extraction.claims; k < |claims| && CandidateOnly(claims[k], id)
    ensures var v := Validate(e, entities, events).value;
            var claim := v.extraction.claims[k];
            var before, after := Proposed(documents, v, entities, rules, k), Proposed(documents, v, entities, rules, k + 1);
            && (after == before || (|after| == |before| + 1 && after[..|before|] == before && AppendsFact(after[|before|], id, claim.text)))
            && (after != before <==>
                && Appendable(claim.kind) && Open(vault, ById(entities), id) && NewFact(vault, before, id, claim.text)
                && TextsFind(RowsOf(rules.norm, documents), rules.norm, claim, id, |claim.mentions|))
  {
    var v := Validate(e, entities, events).value;
    var claims, trusted, prepared := v.extraction.claims, Trusted(v.resolved), ById(entities);
    forall i | 0 <= i < |claims[k].mentions|
      ensures Lookup(trusted, (claims[k].claimId, claims[k].mentions[i].mentionId)) == Some(id)
    {
      TrustedIsCandidate(e, entities, events, k, i);
    }
    TrustedClaimIsTargetedIff(documents, vault, rules.norm, prepared, trusted, claims[k], id);
    FactsAreProposed(documents, rules.norm, prepared, trusted, claims, k);
    AppendedIff(AppendsUpTo(documents, rules.norm, prepared, trusted, claims, k), claims[k],
                TargetOf(documents, rules.norm, prepared, trusted, claims[k]));
    assert TargetOf(documents, rules.norm, prepared, trusted, claims[k]).Ok? ==> vault[id].entity.id == id;
  }

  lemma AppendedIff(st: PostSession.Appends, claim: Claim, target: Result<Document, seq<Unresolved>>)
    requires FactsAre(st)
    ensures var after := AppendStep(st, claim, target).ops;
            if target.Ok? && !FactLines.BodyContains(target.value.body, claim.text) && !Proposes(st.ops, target.value.entity.id, claim.text)
            then |after| == |st.ops| + 1 && after[..|st.ops|] == st.ops && AppendsFact(after[|st.ops|], target.value.entity.id, claim.text)
            else after == st.ops
  {
  }

  // A claim that is dropped

  const ANN := Entity("npc_ann", Npc, "Ann", "alive", Player, Confirmed, None, None, [], 0, 0, 1)
  const ANNS_VAULT: map<string, Document> := map["npc_ann" := Document(ANN, [], "")]
  const ANN_PREPARED := Prepared("npc_ann", Npc, 1, "Ann", "alive", Player, Confirmed, [], "")
  const BY_NAME := Mention("m1", "Ann", Npc, Some("npc_ann"), ["e1"])
  const BY_PRONOUN := Mention("m2", "she", Npc, Some("npc_ann"), ["e1"])
  const ANNS_EVENTS: set<string> := {"e1"}
  const ANN_LIED := Claim("c1", Fact, "Ann lied", ["e1"], [BY_NAME, BY_PRONOUN], PlayerHint, "reported")
  const ANNS_EXTRACTION := Extraction(SCHEMA_VERSION, [ANN_LIED], [])

  lemma AnnIsAccepted()
    ensures Validate(ANNS_EXTRACTION, [ANN_PREPARED], ANNS_EVENTS).Ok?
    ensures Validate(ANNS_EXTRACTION, [ANN_PREPARED], ANNS_EVENTS).value.extraction == ANNS_EXTRACTION
  {
    var bindings := ById([ANN_PREPARED]);
    assert EvidenceUpTo(["e1"], ANNS_EVENTS, 0) == Ok([]);
    assert ["e1"][0] in ANNS_EVENTS && AddUnique([], "e1") == ["e1"];
    assert EvidenceUpTo(["e1"], ANNS_EVENTS, 1) == Ok(["e1"]);
    var start := Mentions([], [], [], {});
    var one := MentionStep(bindings, "c1", BY_NAME, ["e1"], start);
    var two := MentionStep(bindings, "c1", BY_PRONOUN, ["e1"], one);
    assert MentionsUpTo(bindings, ANNS_EVENTS, ANN_LIED, start, 0) == Ok(start);
    assert MentionsUpTo(bindings, ANNS_EVENTS, ANN_LIED, start, 1) == Ok(one);
    assert MentionsUpTo(bindings, ANNS_EVENTS, ANN_LIED, start, 2) == Ok(two);
    assert two.sanitized == [BY_NAME, BY_PRONOUN];
    var none := Claims([], {}, start);
    assert MentionsUpTo(bindings, ANNS_EVENTS, ANN_LIED, none.mentions, |ANN_LIED.mentions|) == Ok(two);
    assert ANN_LIED.(evidence := ["e1"], mentions := two.sanitized) == ANN_LIED;
    assert none.claims + [ANN_LIED] == [ANN_LIED] && none.ids + {"c1"} == {"c1"};
    assert ClaimStep(bindings, ANNS_EVENTS, ANN_LIED, none) == Ok(Claims([ANN_LIED], {"c1"}, two));
    assert ClaimsUpTo(bindings, ANNS_EVENTS, [ANN_LIED], 0) == Ok(none);
    assert ClaimsUpTo(bindings, ANNS_EVENTS, [ANN_LIED], 1) == Ok(Claims([ANN_LIED], {"c1"}, two));
    assert MentionChars([BY_NAME, BY_PRONOUN], 1) == 3;
    assert MentionChars([BY_NAME, BY_PRONOUN], 2) == 6;
    assert ClaimChars([ANN_LIED], 0) == 0 && MentionTotal([ANN_LIED], 0) == 0;
    assert CandidateChars([], 0) == 0;
  }

  /**
   The extraction is accepted, both mentions are bound to the one prepared entity,
   nothing in the Vault stands against the fact, and the claim is still not appended.
   */
  lemma TrustedClaimIsDropped(documents: seq<Document>, rules: Rules)
    requires Repository.Lists(documents, ANNS_VAULT) && rules.norm("Ann") != rules.norm("she")
    ensures Evidenced(ANNS_EXTRACTION) && Validate(ANNS_EXTRACTION, [ANN_PREPARED], ANNS_EVENTS).Ok? && CandidateOnly(ANN_LIED, "npc_ann")
    ensures Appendable(ANN_LIED.kind) && Open(ANNS_VAULT, ById([ANN_PREPARED]), "npc_ann")
    ensures NewFact(ANNS_VAULT, [], "npc_ann", "Ann lied")
    ensures var v := Validate(ANNS_EXTRACTION, [ANN_PREPARED], ANNS_EVENTS).value;
            AppendsOf(documents, v, ById([ANN_PREPARED]), rules).ops == []
  {
    AnnIsAccepted();
    var v := Validate(ANNS_EXTRACTION, [ANN_PREPARED], ANNS_EVENTS).value;
    TrustedClaimIsAppendedIff(ANNS_EXTRACTION, [ANN_PREPARED], ANNS_EVENTS, documents, ANNS_VAULT, rules, 0, "npc_ann");
    SheIsNobody(documents, rules);
  }

  lemma SheIsNobody(documents: seq<Document>, rules: Rules)
    requires Repository.Lists(documents, ANNS_VAULT) && rules.norm("Ann") != rules.norm("she")
    ensures ResolveRows(RowsOf(rules.norm, documents), rules.norm("she"), Npc) == []
  {
    var rows := RowsOf(rules.norm, documents);
    forall i | 0 <= i < |rows|
      ensures rows[i].name == rules.norm("Ann") && rows[i].aliases == []
    {
      assert documents[i] == ANNS_VAULT["npc_ann"];
    }
    SoleScan(rows, TypeName(Npc, rules.norm("she")), "");
    SoleScan(rows, TypeAlias(Npc, rules.norm("she")), "");
  }
}
