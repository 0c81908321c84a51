/** Which post-session extractions are accepted, what is kept of them, and which violation the others are refused for. */
module ExtractionRules {
  import opened Wrappers
  import opened Domain
  import opened Binding
  import opened SessionExtraction

  // Evidence

  predicate Known(ids: seq<string>, events: set<string>) {
    forall k :: 0 <= k < |ids| ==> ids[k] in events
  }

  /** The ids in the order of their first occurrence, each once. */
  ghost predicate FirstOccurrences(ids: seq<string>, kept: seq<string>) {
    && NoRepeats(kept) && (forall id :: id in kept <==> id in ids)
    && forall a, b :: 0 <= a < b < |kept| ==> OccursBefore(ids, kept[a], kept[b])
  }

  ghost predicate OccursBefore(ids: seq<string>, first: string, second: string) {
    exists p :: 0 <= p < |ids| && ids[p] == first && second !in ids[..p + 1]
  }

  lemma {:induction false} EvidenceIs(ids: seq<string>, events: set<string>, k: nat)
    requires k <= |ids|
    ensures EvidenceUpTo(ids, events, k).Ok? <==> Known(ids[..k], events)
    ensures EvidenceUpTo(ids, events, k).Ok? ==> FirstOccurrences(ids[..k], EvidenceUpTo(ids, events, k).value)
    ensures EvidenceUpTo(ids, events, k).Err? ==> EvidenceUpTo(ids, events, k).error == InvalidEvidence
  {
    if k > 0 {
      EvidenceIs(ids, events, k - 1);
      assert ids[..k] == ids[..k - 1] + [ids[k - 1]];
      if EvidenceUpTo(ids, events, k).Ok? {
        OneMoreOccurrence(ids[..k - 1], EvidenceUpTo(ids, events, k - 1).value, ids[k - 1]);
      }
    }
  }

  lemma OneMoreOccurrence(ids: seq<string>, kept: seq<string>, id: string)
    requires FirstOccurrences(ids, kept)
    ensures FirstOccurrences(ids + [id], AddUnique(kept, id))
  {
    var more, now := ids + [id], AddUnique(kept, id);
    forall a, b | 0 <= a < b < |now|
      ensures OccursBefore(more, now[a], now[b])
    {
      if b < |kept| {
        assert OccursBefore(ids, kept[a], kept[b]);
        var p :| 0 <= p < |ids| && ids[p] == kept[a] && kept[b] !in ids[..p + 1];
        assert more[..p + 1] == ids[..p + 1];
        assert more[p] == now[a];
      } else {
        assert kept[a] in ids;
        var p :| 0 <= p < |ids| && ids[p] == kept[a];
        assert more[..p + 1] == ids[..p + 1];
        assert more[p] == now[a];
      }
    }
  }

  /** The evidence list of an accepted element. */
  ghost predicate EvidenceKept(ids: seq<string>, kept: seq<string>, events: set<string>) {
    Known(ids, events) && FirstOccurrences(ids, kept)
  }

  lemma EvidenceOf(ids: seq<string>, events: set<string>)
    ensures Evidence(ids, events).Ok? <==> Known(ids, events)
    ensures Evidence(ids, events).Ok? ==> EvidenceKept(ids, Evidence(ids, events).value, events)
    ensures Evidence(ids, events).Err? ==> Evidence(ids, events).error == InvalidEvidence
  {
    EvidenceIs(ids, events, |ids|);
    assert ids[..|ids|] == ids;
  }

  // Mentions

  /** A mention id in the first `k` mentions. */
  predicate MentionedIn(mentions: seq<Mention>, k: nat, id: string)
    requires k <= |mentions|
  {
    exists i :: 0 <= i < k && mentions[i].mentionId == id
  }

  /** What is wrong with mention `i` of a claim when these ids were seen before the claim. */
  function MentionFault(mentions: seq<Mention>, seen: set<string>, events: set<string>, i: nat): Option<Failure>
    requires i < |mentions|
  {
    if mentions[i].mentionId in seen || MentionedIn(mentions, i, mentions[i].mentionId) then Some(DuplicateMentionId)
    else if !Known(mentions[i].evidence, events) then Some(InvalidEvidence)
    else None
  }

  /** Why a mention is not bound. */
  predicate MissesBecause(bindings: map<string, Prepared>, m: Mention, reason: MissReason) {
    match reason
    case NoCandidateId => m.candidateId == None
    case NotInPreparedInput => m.candidateId.Some? && m.candidateId.value !in bindings
    case TypeMismatch => m.candidateId.Some? && m.candidateId.value in bindings && bindings[m.candidateId.value].etype != m.etype
  }

  /** What is kept of a mention: everything but a guess that names no prepared entity of its type, and repeated evidence. */
  ghost predicate MentionKept(bindings: map<string, Prepared>, events: set<string>, m: Mention, kept: Mention) {
    && kept.mentionId == m.mentionId && kept.text == m.text && kept.etype == m.etype
    && EvidenceKept(m.evidence, kept.evidence, events)
    && (if m.candidateId.Some? && m.candidateId.value in bindings && bindings[m.candidateId.value].etype == m.etype
        then kept.candidateId == m.candidateId else kept.candidateId == None)
  }

  /** The first of the first `k` elements that has a fault, and the fault. */
  ghost predicate FirstFault(faults: nat -> Option<Failure>, k: nat, f: Failure) {
    exists i: nat :: i < k && faults(i) == Some(f) && forall j: nat :: j < i ==> faults(j) == None
  }

  ghost predicate NoFault(faults: nat -> Option<Failure>, k: nat) {
    forall i: nat :: i < k ==> faults(i) == None
  }

  function MentionFaults(mentions: seq<Mention>, seen: set<string>, events: set<string>): nat -> Option<Failure> {
    (i: nat) => if i < |mentions| then MentionFault(mentions, seen, events, i) else None
  }

  lemma FaultSnoc(faults: nat -> Option<Failure>, k: nat)
    ensures NoFault(faults, k + 1) <==> NoFault(faults, k) && faults(k) == None
    ensures forall f :: FirstFault(faults, k, f) ==> FirstFault(faults, k + 1, f)
    ensures NoFault(faults, k) && faults(k).Some? ==> FirstFault(faults, k + 1, faults(k).value)
  {
  }

  /** After the first `k` mentions of a claim, with what was there before it. */
  ghost predicate MentionsAre(bindings: map<string, Prepared>, events: set<string>, claim: Claim, before: Mentions, now: Mentions, k: nat)
    requires k <= |claim.mentions|
  {
    && |now.sanitized| == k
    && (forall i :: 0 <= i < k ==> MentionKept(bindings, events, claim.mentions[i], now.sanitized[i]))
    && (forall id :: id in now.seen <==> id in before.seen || MentionedIn(claim.mentions, k, id))
    && (forall x :: x in now.missed <==> x in before.missed || MissIn(bindings, claim, k, x))
  }

  /** A mention of the claim among the first `k` misses, and this says so. */
  ghost predicate MissIn(bindings: map<string, Prepared>, claim: Claim, k: nat, x: Missed)
    requires k <= |claim.mentions|
  {
    exists i :: 0 <= i < k && MissSaid(bindings, claim, claim.mentions[i], x)
  }

  predicate MissSaid(bindings: map<string, Prepared>, claim: Claim, m: Mention, x: Missed) {
    && x.claimId == claim.claimId && x.mentionId == m.mentionId && x.text == m.text && x.etype == m.etype
    && MissesBecause(bindings, m, x.reason)
  }

  lemma MissOfSays(bindings: map<string, Prepared>, claim: Claim, m: Mention)
    ensures !Bound(bindings, m) ==> forall x :: x == MissOf(bindings, claim.claimId, m) <==> MissSaid(bindings, claim, m, x)
    ensures Bound(bindings, m) ==> forall x :: !MissSaid(bindings, claim, m, x)
  {
  }

  lemma MentionStepIs(bindings: map<string, Prepared>, events: set<string>, claim: Claim, before: Mentions, st: Mentions, k: nat, evidence: seq<string>)
    requires k < |claim.mentions| && MentionsAre(bindings, events, claim, before, st, k)
    requires EvidenceKept(claim.mentions[k].evidence, evidence, events)
    ensures MentionsAre(bindings, events, claim, before, MentionStep(bindings, claim.claimId, claim.mentions[k], evidence, st), k + 1)
  {
    var m, now := claim.mentions[k], MentionStep(bindings, claim.claimId, claim.mentions[k], evidence, st);
    MissOfSays(bindings, claim, m);
    forall id
      ensures id in now.seen <==> id in before.seen || MentionedIn(claim.mentions, k + 1, id)
    {
      assert MentionedIn(claim.mentions, k + 1, id) <==> MentionedIn(claim.mentions, k, id) || m.mentionId == id;
    }
    forall x
      ensures x in now.missed <==> x in before.missed || MissIn(bindings, claim, k + 1, x)
    {
      assert MissIn(bindings, claim, k + 1, x) <==> MissIn(bindings, claim, k, x) || MissSaid(bindings, claim, m, x);
    }
  }

  lemma {:induction false} MentionsUpToIs(bindings: map<string, Prepared>, events: set<string>, claim: Claim, before: Mentions, k: nat)
    requires k <= |claim.mentions|
    ensures var r, faults := MentionsUpTo(bindings, events, claim, before, k), MentionFaults(claim.mentions, before.seen, events);
            && (r.Ok? <==> NoFault(faults, k))
            && (r.Err? ==> FirstFault(faults, k, r.error))
            && (r.Ok? ==> MentionsAre(bindings, events, claim, before, r.value, k))
  {
    if k > 0 {
      MentionsUpToIs(bindings, events, claim, before, k - 1);
      FaultSnoc(MentionFaults(claim.mentions, before.seen, events), k - 1);
      EvidenceOf(claim.mentions[k - 1].evidence, events);
      var r := MentionsUpTo(bindings, events, claim, before, k - 1);
      if r.Ok? {
        assert claim.mentions[k - 1].mentionId in r.value.seen <==>
               claim.mentions[k - 1].mentionId in before.seen || MentionedIn(claim.mentions, k - 1, claim.mentions[k - 1].mentionId);
        if MentionsUpTo(bindings, events, claim, before, k).Ok? {
          MentionStepIs(bindings, events, claim, before, r.value, k - 1, Evidence(claim.mentions[k - 1].evidence, events).value);
        }
      }
    }
  }

  // Claims

  function IdsOf(mentions: seq<Mention>): set<string> {
    set m | m in mentions :: m.mentionId
  }

  lemma IdsAreMentioned(mentions: seq<Mention>, id: string)
    ensures id in IdsOf(mentions) <==> MentionedIn(mentions, |mentions|, id)
  {
  }

  function SeenBefore(claims: seq<Claim>, c: nat): set<string>
    requires c <= |claims|
  {
    if c == 0 then {} else SeenBefore(claims, c - 1) + IdsOf(claims[c - 1].mentions)
  }

  /** Seen are the mention ids of the claims before. */
  lemma {:induction false} SeenAre(claims: seq<Claim>, c: nat, id: string)
    requires c <= |claims|
    ensures id in SeenBefore(claims, c) <==> exists d :: 0 <= d < c && MentionedIn(claims[d].mentions, |claims[d].mentions|, id)
  {
    if c > 0 {
      SeenAre(claims, c - 1, id);
      IdsAreMentioned(claims[c - 1].mentions, id);
    }
  }

  predicate ClaimedBefore(claims: seq<Claim>, c: nat, id: string)
    requires c <= |claims|
  {
    exists d :: 0 <= d < c && claims[d].claimId == id
  }

  /** Claim `c` violates a rule, and this is the first. */
  ghost predicate ClaimFails(claims: seq<Claim>, events: set<string>, c: nat, f: Failure)
    requires c < |claims|
  {
    var claim := claims[c];
    if ClaimedBefore(claims, c, claim.claimId) then f == DuplicateClaimId
    else if !Known(claim.evidence, events) then f == InvalidEvidence
    else if |claim.mentions| > 20 then f == BoundsExceeded
    else FirstFault(MentionFaults(claim.mentions, SeenBefore(claims, c), events), |claim.mentions|, f)
  }

  /** Claim `c` violates no rule. */
  ghost predicate ClaimSound(claims: seq<Claim>, events: set<string>, c: nat)
    requires c < |claims|
  {
    var claim := claims[c];
    && !ClaimedBefore(claims, c, claim.claimId) && Known(claim.evidence, events) && |claim.mentions| <= 20
    && NoFault(MentionFaults(claim.mentions, SeenBefore(claims, c), events), |claim.mentions|)
  }

  /** What is kept of a claim. */
  ghost predicate ClaimKept(bindings: map<string, Prepared>, events: set<string>, claim: Claim, kept: Claim) {
    && kept == claim.(evidence := kept.evidence, mentions := kept.mentions)
    && EvidenceKept(claim.evidence, kept.evidence, events)
    && |kept.mentions| == |claim.mentions|
    && forall i :: 0 <= i < |kept.mentions| ==> MentionKept(bindings, events, claim.mentions[i], kept.mentions[i])
  }

  ghost predicate MissAmong(bindings: map<string, Prepared>, claims: seq<Claim>, c: nat, x: Missed)
    requires c <= |claims|
  {
    exists d :: 0 <= d < c && MissIn(bindings, claims[d], |claims[d].mentions|, x)
  }

  ghost predicate ClaimsAre(bindings: map<string, Prepared>, events: set<string>, claims: seq<Claim>, st: Claims, c: nat)
    requires c <= |claims|
  {
    && |st.claims| == c
    && (forall d :: 0 <= d < c ==> ClaimKept(bindings, events, claims[d], st.claims[d]))
    && (forall id :: id in st.ids <==> ClaimedBefore(claims, c, id))
    && st.mentions.seen == SeenBefore(claims, c)
    && (forall x :: x in st.mentions.missed <==> MissAmong(bindings, claims, c, x))
  }

  /** The first of the first `k` claims that violates a rule. */
  ghost predicate FirstFails(claims: seq<Claim>, events: set<string>, k: nat, f: Failure)
    requires k <= |claims|
  {
    exists c: nat :: c < k && ClaimFails(claims, events, c, f) && AllSound(claims, events, c)
  }

  ghost predicate AllSound(claims: seq<Claim>, events: set<string>, k: nat)
    requires k <= |claims|
  {
    forall c: nat :: c < k ==> ClaimSound(claims, events, c)
  }

  lemma ClaimStepIs(bindings: map<string, Prepared>, events: set<string>, claims: seq<Claim>, c: nat, st: Claims)
    requires c < |claims| && ClaimsAre(bindings, events, claims, st, c)
    ensures var r := ClaimStep(bindings, events, claims[c], st);
            && (r.Ok? <==> ClaimSound(claims, events, c))
            && (r.Err? ==> ClaimFails(claims, events, c, r.error))
            && (r.Ok? ==> ClaimsAre(bindings, events, claims, r.value, c + 1))
  {
    var claim, r := claims[c], ClaimStep(bindings, events, claims[c], st);
    assert claim.claimId in st.ids <==> ClaimedBefore(claims, c, claim.claimId);
    EvidenceOf(claim.evidence, events);
    MentionsUpToIs(bindings, events, claim, st.mentions, |claim.mentions|);
    if r.Ok? {
      ClaimAdded(bindings, events, claims, c, st, Evidence(claim.evidence, events).value,
                 MentionsUpTo(bindings, events, claim, st.mentions, |claim.mentions|).value);
    }
  }

  lemma ClaimAdded(bindings: map<string, Prepared>, events: set<string>, claims: seq<Claim>, c: nat, st: Claims, evidence: seq<string>, m: Mentions)
    requires c < |claims| && ClaimsAre(bindings, events, claims, st, c)
    requires EvidenceKept(claims[c].evidence, evidence, events)
    requires MentionsAre(bindings, events, claims[c], st.mentions, m, |claims[c].mentions|)
    ensures var now := Claims(st.claims + [claims[c].(evidence := evidence, mentions := m.sanitized)], st.ids + {claims[c].claimId}, m);
            ClaimsAre(bindings, events, claims, now, c + 1)
  {
    var claim := claims[c];
    var now := Claims(st.claims + [claim.(evidence := evidence, mentions := m.sanitized)], st.ids + {claim.claimId}, m);
    forall id
      ensures id in now.ids <==> ClaimedBefore(claims, c + 1, id)
    {
      assert ClaimedBefore(claims, c + 1, id) <==> ClaimedBefore(claims, c, id) || claim.claimId == id;
    }
    forall id
      ensures id in m.seen <==> id in SeenBefore(claims, c + 1)
    {
      IdsAreMentioned(claim.mentions, id);
    }
    forall x
      ensures x in m.missed <==> MissAmong(bindings, claims, c + 1, x)
    {
      assert MissAmong(bindings, claims, c + 1, x) <==>
             MissAmong(bindings, claims, c, x) || MissIn(bindings, claim, |claim.mentions|, x);
    }
  }

  lemma FailingIsUnsound(claims: seq<Claim>, events: set<string>, c: nat, f: Failure)
    requires c < |claims| && ClaimFails(claims, events, c, f)
    ensures !ClaimSound(claims, events, c)
  {
  }

  lemma SoundSnoc(claims: seq<Claim>, events: set<string>, k: nat)
    requires k < |claims|
    ensures AllSound(claims, events, k + 1) <==> AllSound(claims, events, k) && ClaimSound(claims, events, k)
    ensures forall f :: FirstFails(claims, events, k, f) ==> FirstFails(claims, events, k + 1, f) && !AllSound(claims, events, k + 1)
    ensures forall f :: AllSound(claims, events, k) && ClaimFails(claims, events, k, f) ==> FirstFails(claims, events, k + 1, f)
  {
    forall f | FirstFails(claims, events, k, f)
      ensures FirstFails(claims, events, k + 1, f) && !AllSound(claims, events, k + 1)
    {
      var c: nat :| c < k && ClaimFails(claims, events, c, f) && AllSound(claims, events, c);
      FailingIsUnsound(claims, events, c, f);
    }
  }

  /** The outcome of the first `k` claims. */
  ghost predicate ClaimsOutcome(bindings: map<string, Prepared>, events: set<string>, claims: seq<Claim>, k: nat, r: Result<Claims, Failure>)
    requires k <= |claims|
  {
    && (r.Ok? <==> AllSound(claims, events, k))
    && (r.Err? ==> FirstFails(claims, events, k, r.error))
    && (r.Ok? ==> ClaimsAre(bindings, events, claims, r.value, k))
  }

  lemma NextClaim(bindings: map<string, Prepared>, events: set<string>, claims: seq<Claim>, k: nat, before: Result<Claims, Failure>)
    requires k < |claims| && ClaimsOutcome(bindings, events, claims, k, before)
    ensures before.Ok? ==> ClaimsOutcome(bindings, events, claims, k + 1, ClaimStep(bindings, events, claims[k], before.value))
    ensures before.Err? ==> ClaimsOutcome(bindings, events, claims, k + 1, before)
  {
    SoundSnoc(claims, events, k);
    if before.Ok? {
      ClaimStepIs(bindings, events, claims, k, before.value);
    }
  }

  lemma {:induction false} ClaimsUpToIs(bindings: map<string, Prepared>, events: set<string>, claims: seq<Claim>, k: nat)
    requires k <= |claims|
    ensures ClaimsOutcome(bindings, events, claims, k, ClaimsUpTo(bindings, events, claims, k))
  {
    if k > 0 {
      ClaimsUpToIs(bindings, events, claims, k - 1);
      NextClaim(bindings, events, claims, k - 1, ClaimsUpTo(bindings, events, claims, k - 1));
    }
  }

  // Candidates

  predicate CandidateBefore(candidates: seq<NewEntity>, i: nat, id: string)
    requires i <= |candidates|
  {
    exists j :: 0 <= j < i && candidates[j].candidateId == id
  }

  function CandidateFault(candidates: seq<NewEntity>, events: set<string>, i: nat): Option<Failure>
    requires i < |candidates|
  {
    if CandidateBefore(candidates, i, candidates[i].candidateId) then Some(DuplicateCandidateId)
    else if !Known(candidates[i].evidence, events) then Some(InvalidEvidence)
    else None
  }

  function CandidateFaults(candidates: seq<NewEntity>, events: set<string>): nat -> Option<Failure> {
    (i: nat) => if i < |candidates| then CandidateFault(candidates, events, i) else None
  }

  ghost predicate CandidateKept(events: set<string>, c: NewEntity, kept: NewEntity) {
    kept == c.(evidence := kept.evidence) && EvidenceKept(c.evidence, kept.evidence, events)
  }

  ghost predicate CandidatesAre(events: set<string>, candidates: seq<NewEntity>, st: Candidates, k: nat)
    requires k <= |candidates|
  {
    && |st.kept| == k && (forall i :: 0 <= i < k ==> CandidateKept(events, candidates[i], st.kept[i]))
    && (forall id :: id in st.ids <==> CandidateBefore(candidates, k, id))
  }

  ghost predicate CandidatesOutcome(events: set<string>, candidates: seq<NewEntity>, k: nat, r: Result<Candidates, Failure>)
    requires k <= |candidates|
  {
    var faults := CandidateFaults(candidates, events);
    && (r.Ok? <==> NoFault(faults, k))
    && (r.Err? ==> FirstFault(faults, k, r.error))
    && (r.Ok? ==> CandidatesAre(events, candidates, r.value, k))
  }

  lemma CandidateAdded(events: set<string>, candidates: seq<NewEntity>, k: nat, st: Candidates, evidence: seq<string>)
    requires k < |candidates| && CandidatesAre(events, candidates, st, k) && EvidenceKept(candidates[k].evidence, evidence, events)
    ensures CandidatesAre(events, candidates, Candidates(st.kept + [candidates[k].(evidence := evidence)], st.ids + {candidates[k].candidateId}), k + 1)
  {
    forall id
      ensures CandidateBefore(candidates, k + 1, id) <==> CandidateBefore(candidates, k, id) || candidates[k].candidateId == id
    {
    }
  }

  lemma NextCandidate(events: set<string>, candidates: seq<NewEntity>, k: nat, before: Result<Candidates, Failure>, now: Result<Candidates, Failure>)
    requires k < |candidates| && CandidatesOutcome(events, candidates, k, before)
    requires before.Err? ==> now == before
    requires before.Ok? ==>
               var c, evidence := candidates[k], Evidence(candidates[k].evidence, events);
               now == if c.candidateId in before.value.ids then Err(DuplicateCandidateId)
                      else if evidence.Err? then Err(evidence.error)
                      else Ok(Candidates(before.value.kept + [c.(evidence := evidence.value)], before.value.ids + {c.candidateId}))
    ensures CandidatesOutcome(events, candidates, k + 1, now)
  {
    FaultSnoc(CandidateFaults(candidates, events), k);
    EvidenceOf(candidates[k].evidence, events);
    if before.Ok? {
      assert candidates[k].candidateId in before.value.ids <==> CandidateBefore(candidates, k, candidates[k].candidateId);
      if now.Ok? {
        CandidateAdded(events, candidates, k, before.value, Evidence(candidates[k].evidence, events).value);
      }
    }
  }

  lemma {:induction false} CandidatesUpToIs(events: set<string>, candidates: seq<NewEntity>, k: nat)
    requires k <= |candidates|
    ensures CandidatesOutcome(events, candidates, k, CandidatesUpTo(events, candidates, k))
  {
    if k > 0 {
      CandidatesUpToIs(events, candidates, k - 1);
      NextCandidate(events, candidates, k - 1, CandidatesUpTo(events, candidates, k - 1), CandidatesUpTo(events, candidates, k));
    }
  }

  // The whole validation

  /** No rule is violated. */
  ghost predicate Acceptable(e: Extraction, events: set<string>) {
    && e.schemaVersion == 1
    && ClaimChars(e.claims, |e.claims|) + CandidateChars(e.candidates, |e.candidates|) <= 500_000 && MentionTotal(e.claims, |e.claims|) <= 400
    && AllSound(e.claims, events, |e.claims|)
    && NoFault(CandidateFaults(e.candidates, events), |e.candidates|)
  }

  /** The violation found first: schema, size, claims in order, candidates in order. */
  ghost predicate Violates(e: Extraction, events: set<string>, f: Failure) {
    if e.schemaVersion != 1 then f == UnsupportedSchema
    else if ClaimChars(e.claims, |e.claims|) + CandidateChars(e.candidates, |e.candidates|) > 500_000 || MentionTotal(e.claims, |e.claims|) > 400
    then f == BoundsExceeded
    else if !AllSound(e.claims, events, |e.claims|) then FirstFails(e.claims, events, |e.claims|, f)
    else FirstFault(CandidateFaults(e.candidates, events), |e.candidates|, f)
  }

  /** What is kept: every claim and candidate in its place, with what does not bind taken out, and a list of what missed and why. */
  ghost predicate Keeps(e: Extraction, bindings: map<string, Prepared>, events: set<string>, v: Validated) {
    && v.extraction == e.(claims := v.extraction.claims, candidates := v.extraction.candidates)
    && |v.extraction.claims| == |e.claims|
    && (forall c :: 0 <= c < |e.claims| ==> ClaimKept(bindings, events, e.claims[c], v.extraction.claims[c]))
    && |v.extraction.candidates| == |e.candidates|
    && (forall i :: 0 <= i < |e.candidates| ==> CandidateKept(events, e.candidates[i], v.extraction.candidates[i]))
    && (forall x :: x in v.missed <==> MissAmong(bindings, e.claims, |e.claims|, x))
  }

  /**
   An extraction is accepted exactly if it violates no rule: schema, size, distinct
   claim, mention and candidate ids, known evidence, at most twenty mentions a
   claim.  It is refused for the first violation, and what is kept of an accepted
   one is every element with its evidence once and without unbound guesses.
   */
  lemma {:induction false} ValidateIff(e: Extraction, entities: seq<Prepared>, events: set<string>)
    ensures var r := Validate(e, entities, events);
            && (r.Ok? <==> Acceptable(e, events))
            && (r.Err? ==> Violates(e, events, r.error))
            && (r.Ok? ==> Keeps(e, ById(entities), events, r.value))
  {
    ClaimsUpToIs(ById(entities), events, e.claims, |e.claims|);
    CandidatesUpToIs(events, e.candidates, |e.candidates|);
  }
}
