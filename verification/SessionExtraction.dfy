/** The untrusted post-session extraction and its semantic validation. */
module SessionExtraction {
  import opened Wrappers
  import opened Domain
  import opened Binding

  const SCHEMA_VERSION: nat := 1
  const MAX_TOTAL_CHARS: nat := 500_000
  const MAX_MENTIONS: nat := 400
  const MAX_MENTIONS_PER_CLAIM: nat := 20

  datatype ClaimKind = Event | Fact | Relationship | Other

  datatype VisibilityHint = PlayerHint | DmHint | UncertainHint

  /** A model's reference to an entity; `candidateId` is an untrusted guess. */
  datatype Mention = Mention(mentionId: string, text: string, etype: EntityType, candidateId: Option<string>, evidence: seq<string>)

  datatype Claim = Claim(claimId: string, kind: ClaimKind, text: string, evidence: seq<string>, mentions: seq<Mention>,
                         visibility: VisibilityHint, knowledge: string)

  datatype NewEntity = NewEntity(candidateId: string, displayName: string, etype: EntityType, evidence: seq<string>,
                                 attributes: seq<(string, string)>, summary: Option<string>)

  datatype Extraction = Extraction(schemaVersion: nat, claims: seq<Claim>, candidates: seq<NewEntity>)

  /** What the schema demands before any validation: no claim, mention or candidate without evidence. */
  predicate Evidenced(e: Extraction) {
    && (forall c :: c in e.claims ==> c.evidence != [] && forall m :: m in c.mentions ==> m.evidence != [])
    && forall n :: n in e.candidates ==> n.evidence != []
  }

  /** One entity snapshot of the prepared input. */
  datatype Prepared = Prepared(id: string, etype: EntityType, revision: nat, name: string, status: string,
                               visibility: Visibility, knowledge: KnowledgeStatus, tags: seq<string>, body: string)

  datatype Failure = UnsupportedSchema | BoundsExceeded | DuplicateClaimId | DuplicateMentionId | DuplicateCandidateId | InvalidEvidence

  datatype Resolved = Resolved(claimId: string, mentionId: string, entityId: string, etype: EntityType)

  datatype MissReason = NoCandidateId | NotInPreparedInput | TypeMismatch

  datatype Missed = Missed(claimId: string, mentionId: string, text: string, etype: EntityType, reason: MissReason)

  datatype Validated = Validated(extraction: Extraction, resolved: seq<Resolved>, missed: seq<Missed>)

  /** The entities by id; a repeated id overwrites. */
  function ById(entities: seq<Prepared>): map<string, Prepared> {
    if entities == [] then map[]
    else ById(entities[..|entities| - 1])[entities[|entities| - 1].id := entities[|entities| - 1]]
  }

  function EvidenceUpTo(ids: seq<string>, events: set<string>, k: nat): Result<seq<string>, Failure>
    requires k <= |ids|
  {
    if k == 0 then Ok([])
    else
      match EvidenceUpTo(ids, events, k - 1)
      case Err(f) => Err(f)
      case Ok(kept) => if ids[k - 1] !in events then Err(InvalidEvidence) else Ok(AddUnique(kept, ids[k - 1]))
  }

  function Evidence(ids: seq<string>, events: set<string>): Result<seq<string>, Failure> {
    EvidenceUpTo(ids, events, |ids|)
  }

  method NormalizeEvidence(ids: seq<string>, events: set<string>) returns (r: Result<seq<string>, Failure>)
    ensures r == Evidence(ids, events)
  {
    var kept: seq<string> := [];
    for k := 0 to |ids|
      invariant EvidenceUpTo(ids, events, k) == Ok(kept)
    {
      if ids[k] !in events {
        EvidenceFails(ids, events, k + 1, |ids|);
        return Err(InvalidEvidence);
      }
      kept := AddUnique(kept, ids[k]);
    }
    return Ok(kept);
  }

  lemma {:induction false} EvidenceFails(ids: seq<string>, events: set<string>, k: nat, n: nat)
    requires k <= n <= |ids| && EvidenceUpTo(ids, events, k).Err?
    ensures EvidenceUpTo(ids, events, n) == EvidenceUpTo(ids, events, k)
  {
    if k < n {
      EvidenceFails(ids, events, k, n - 1);
    }
  }

  // Sizes

  function MentionChars(mentions: seq<Mention>, k: nat): nat
    requires k <= |mentions|
  {
    if k == 0 then 0 else MentionChars(mentions, k - 1) + |mentions[k - 1].text|
  }

  function ClaimChars(claims: seq<Claim>, k: nat): nat
    requires k <= |claims|
  {
    if k == 0 then 0
    else ClaimChars(claims, k - 1) + |claims[k - 1].text| + MentionChars(claims[k - 1].mentions, |claims[k - 1].mentions|)
  }

  function MentionTotal(claims: seq<Claim>, k: nat): nat
    requires k <= |claims|
  {
    if k == 0 then 0 else MentionTotal(claims, k - 1) + |claims[k - 1].mentions|
  }

  function AttributeChars(attributes: seq<(string, string)>, k: nat): nat
    requires k <= |attributes|
  {
    if k == 0 then 0 else AttributeChars(attributes, k - 1) + |attributes[k - 1].0| + |attributes[k - 1].1|
  }

  function CandidateChars(candidates: seq<NewEntity>, k: nat): nat
    requires k <= |candidates|
  {
    if k == 0 then 0
    else
      var c := candidates[k - 1];
      CandidateChars(candidates, k - 1) + |c.displayName| + (if c.summary.Some? then |c.summary.value| else 0)
      + AttributeChars(c.attributes, |c.attributes|)
  }

  /** The whole text stays within the budget, and so does the number of mentions. */
  predicate WithinBounds(e: Extraction) {
    && ClaimChars(e.claims, |e.claims|) + CandidateChars(e.candidates, |e.candidates|) <= MAX_TOTAL_CHARS
    && MentionTotal(e.claims, |e.claims|) <= MAX_MENTIONS
  }

  /** The running checks stop early; they reject exactly when a total is over. */
  method ValidateTotalSize(e: Extraction) returns (ok: bool)
    ensures ok <==> WithinBounds(e)
  {
    var total, mentions := 0, 0;
    for k := 0 to |e.claims|
      invariant total == ClaimChars(e.claims, k) && mentions == MentionTotal(e.claims, k)
      invariant total <= MAX_TOTAL_CHARS
    {
      total := total + |e.claims[k].text|;
      mentions := mentions + |e.claims[k].mentions|;
      for m := 0 to |e.claims[k].mentions|
        invariant total == ClaimChars(e.claims, k) + |e.claims[k].text| + MentionChars(e.claims[k].mentions, m)
      {
        total := total + |e.claims[k].mentions[m].text|;
      }
      if total > MAX_TOTAL_CHARS {
        ClaimCharsGrow(e.claims, k + 1, |e.claims|);
        return false;
      }
    }
    if mentions > MAX_MENTIONS {
      return false;
    }
    for k := 0 to |e.candidates|
      invariant total == ClaimChars(e.claims, |e.claims|) + CandidateChars(e.candidates, k)
      invariant total <= MAX_TOTAL_CHARS
    {
      var c := e.candidates[k];
      total := total + |c.displayName|;
      if c.summary.Some? {
        total := total + |c.summary.value|;
      }
      for a := 0 to |c.attributes|
        invariant total == ClaimChars(e.claims, |e.claims|) + CandidateChars(e.candidates, k) + |c.displayName|
                           + (if c.summary.Some? then |c.summary.value| else 0) + AttributeChars(c.attributes, a)
      {
        total := total + |c.attributes[a].0| + |c.attributes[a].1|;
      }
      if total > MAX_TOTAL_CHARS {
        CandidateCharsGrow(e.candidates, k + 1, |e.candidates|);
        return false;
      }
    }
    return true;
  }

  lemma {:induction false} ClaimCharsGrow(claims: seq<Claim>, k: nat, n: nat)
    requires k <= n <= |claims|
    ensures ClaimChars(claims, k) <= ClaimChars(claims, n)
  {
    if k < n {
      ClaimCharsGrow(claims, k, n - 1);
    }
  }

  lemma {:induction false} CandidateCharsGrow(candidates: seq<NewEntity>, k: nat, n: nat)
    requires k <= n <= |candidates|
    ensures CandidateChars(candidates, k) <= CandidateChars(candidates, n)
  {
    if k < n {
      CandidateCharsGrow(candidates, k, n - 1);
    }
  }

  // Binding

  /** A mention is bound when its guess names a prepared entity of the declared type. */
  predicate Bound(bindings: map<string, Prepared>, m: Mention) {
    m.candidateId.Some? && m.candidateId.value in bindings && bindings[m.candidateId.value].etype == m.etype
  }

  function MissOf(bindings: map<string, Prepared>, claimId: string, m: Mention): Missed
    requires !Bound(bindings, m)
  {
    Missed(claimId, m.mentionId, m.text, m.etype,
           if m.candidateId.None? then NoCandidateId
           else if m.candidateId.value !in bindings then NotInPreparedInput else TypeMismatch)
  }

  /** A guess that is not bound does not survive. */
  function Sanitized(bindings: map<string, Prepared>, m: Mention, evidence: seq<string>): Mention {
    m.(candidateId := if Bound(bindings, m) then m.candidateId else None, evidence := evidence)
  }

  datatype Mentions = Mentions(sanitized: seq<Mention>, resolved: seq<Resolved>, missed: seq<Missed>, seen: set<string>)

  function MentionStep(bindings: map<string, Prepared>, claimId: string, m: Mention, evidence: seq<string>, st: Mentions): Mentions {
    Mentions(st.sanitized + [Sanitized(bindings, m, evidence)],
             if Bound(bindings, m) then st.resolved + [Resolved(claimId, m.mentionId, m.candidateId.value, m.etype)] else st.resolved,
             if Bound(bindings, m) then st.missed else st.missed + [MissOf(bindings, claimId, m)],
             st.seen + {m.mentionId})
  }

  function MentionsUpTo(bindings: map<string, Prepared>, events: set<string>, claim: Claim, st: Mentions, k: nat): Result<Mentions, Failure>
    requires k <= |claim.mentions|
  {
    if k == 0 then Ok(st.(sanitized := []))
    else
      match MentionsUpTo(bindings, events, claim, st, k - 1)
      case Err(f) => Err(f)
      case Ok(now) => TryMention(bindings, events, claim.claimId, claim.mentions[k - 1], now)
  }

  function TryMention(bindings: map<string, Prepared>, events: set<string>, claimId: string, m: Mention, st: Mentions): Result<Mentions, Failure> {
    if m.mentionId in st.seen then Err(DuplicateMentionId)
    else
      match Evidence(m.evidence, events)
      case Err(f) => Err(f)
      case Ok(evidence) => Ok(MentionStep(bindings, claimId, m, evidence, st))
  }

  datatype Claims = Claims(claims: seq<Claim>, ids: set<string>, mentions: Mentions)

  function ClaimStep(bindings: map<string, Prepared>, events: set<string>, claim: Claim, st: Claims): Result<Claims, Failure> {
    if claim.claimId in st.ids then Err(DuplicateClaimId)
    else
      match Evidence(claim.evidence, events)
      case Err(f) => Err(f)
      case Ok(evidence) =>
        if |claim.mentions| > MAX_MENTIONS_PER_CLAIM then Err(BoundsExceeded)
        else
          match MentionsUpTo(bindings, events, claim, st.mentions, |claim.mentions|)
          case Err(f) => Err(f)
          case Ok(m) =>
            Ok(Claims(st.claims + [claim.(evidence := evidence, mentions := m.sanitized)], st.ids + {claim.claimId}, m))
  }

  function ClaimsUpTo(bindings: map<string, Prepared>, events: set<string>, claims: seq<Claim>, k: nat): Result<Claims, Failure>
    requires k <= |claims|
  {
    if k == 0 then Ok(Claims([], {}, Mentions([], [], [], {})))
    else
      match ClaimsUpTo(bindings, events, claims, k - 1)
      case Err(f) => Err(f)
      case Ok(st) => ClaimStep(bindings, events, claims[k - 1], st)
  }

  datatype Candidates = Candidates(kept: seq<NewEntity>, ids: set<string>)

  function CandidatesUpTo(events: set<string>, candidates: seq<NewEntity>, k: nat): Result<Candidates, Failure>
    requires k <= |candidates|
  {
    if k == 0 then Ok(Candidates([], {}))
    else
      match CandidatesUpTo(events, candidates, k - 1)
      case Err(f) => Err(f)
      case Ok(st) =>
        var c := candidates[k - 1];
        if c.candidateId in st.ids then Err(DuplicateCandidateId)
        else
          match Evidence(c.evidence, events)
          case Err(f) => Err(f)
          case Ok(evidence) => Ok(Candidates(st.kept + [c.(evidence := evidence)], st.ids + {c.candidateId}))
  }

  function Validate(e: Extraction, entities: seq<Prepared>, events: set<string>): Result<Validated, Failure> {
    if e.schemaVersion != SCHEMA_VERSION then Err(UnsupportedSchema)
    else if !WithinBounds(e) then Err(BoundsExceeded)
    else
      match ClaimsUpTo(ById(entities), events, e.claims, |e.claims|)
      case Err(f) => Err(f)
      case Ok(st) =>
        match CandidatesUpTo(events, e.candidates, |e.candidates|)
        case Err(f) => Err(f)
        case Ok(cs) =>
          Ok(Validated(e.(claims := st.claims, candidates := cs.kept), st.mentions.resolved, st.mentions.missed))
  }

  lemma {:induction false} MentionsFail(bindings: map<string, Prepared>, events: set<string>, claim: Claim, st: Mentions, k: nat, n: nat)
    requires k <= n <= |claim.mentions| && MentionsUpTo(bindings, events, claim, st, k).Err?
    ensures MentionsUpTo(bindings, events, claim, st, n) == MentionsUpTo(bindings, events, claim, st, k)
  {
    if k < n {
      MentionsFail(bindings, events, claim, st, k, n - 1);
    }
  }

  lemma {:induction false} ClaimsFail(bindings: map<string, Prepared>, events: set<string>, claims: seq<Claim>, k: nat, n: nat)
    requires k <= n <= |claims| && ClaimsUpTo(bindings, events, claims, k).Err?
    ensures ClaimsUpTo(bindings, events, claims, n) == ClaimsUpTo(bindings, events, claims, k)
  {
    if k < n {
      ClaimsFail(bindings, events, claims, k, n - 1);
    }
  }

  lemma {:induction false} CandidatesFail(events: set<string>, candidates: seq<NewEntity>, k: nat, n: nat)
    requires k <= n <= |candidates| && CandidatesUpTo(events, candidates, k).Err?
    ensures CandidatesUpTo(events, candidates, n) == CandidatesUpTo(events, candidates, k)
  {
    if k < n {
      CandidatesFail(events, candidates, k, n - 1);
    }
  }

  lemma OneMoreMention(bindings: map<string, Prepared>, events: set<string>, claim: Claim, before: Mentions, k: nat, st: Mentions, next: Result<Mentions, Failure>)
    requires k < |claim.mentions| && MentionsUpTo(bindings, events, claim, before, k) == Ok(st)
    requires next == TryMention(bindings, events, claim.claimId, claim.mentions[k], st)
    ensures MentionsUpTo(bindings, events, claim, before, k + 1) == next
    ensures next.Err? ==> MentionsUpTo(bindings, events, claim, before, |claim.mentions|) == next
  {
    if next.Err? {
      MentionsFail(bindings, events, claim, before, k + 1, |claim.mentions|);
    }
  }

  method ValidateMention(bindings: map<string, Prepared>, events: set<string>, claimId: string, m: Mention, st: Mentions)
    returns (r: Result<Mentions, Failure>)
    ensures r == TryMention(bindings, events, claimId, m, st)
  {
    if m.mentionId in st.seen {
      return Err(DuplicateMentionId);
    }
    var evidence := NormalizeEvidence(m.evidence, events);
    if evidence.Err? {
      return Err(evidence.error);
    }
    return Ok(MentionStep(bindings, claimId, m, evidence.value, st));
  }

  method ValidateMentions(bindings: map<string, Prepared>, events: set<string>, claim: Claim, before: Mentions)
    returns (r: Result<Mentions, Failure>)
    ensures r == MentionsUpTo(bindings, events, claim, before, |claim.mentions|)
  {
    var st := before.(sanitized := []);
    for k := 0 to |claim.mentions|
      invariant MentionsUpTo(bindings, events, claim, before, k) == Ok(st)
    {
      var next := ValidateMention(bindings, events, claim.claimId, claim.mentions[k], st);
      OneMoreMention(bindings, events, claim, before, k, st, next);
      if next.Err? {
        return next;
      }
      st := next.value;
    }
    return Ok(st);
  }

  method EntitiesById(entities: seq<Prepared>) returns (byId: map<string, Prepared>)
    ensures byId == ById(entities)
  {
    byId := map[];
    for k := 0 to |entities|
      invariant byId == ById(entities[..k])
    {
      assert entities[..k + 1][..k] == entities[..k];
      byId := byId[entities[k].id := entities[k]];
    }
    assert entities[..|entities|] == entities;
  }

  method ValidateClaims(bindings: map<string, Prepared>, events: set<string>, claims: seq<Claim>) returns (r: Result<Claims, Failure>)
    ensures r == ClaimsUpTo(bindings, events, claims, |claims|)
  {
    var st := Claims([], {}, Mentions([], [], [], {}));
    for k := 0 to |claims|
      invariant ClaimsUpTo(bindings, events, claims, k) == Ok(st)
    {
      var next := ValidateClaim(bindings, events, claims[k], st);
      OneMoreClaim(bindings, events, claims, k, st, next);
      if next.Err? {
        return next;
      }
      st := next.value;
    }
    return Ok(st);
  }

  lemma OneMoreClaim(bindings: map<string, Prepared>, events: set<string>, claims: seq<Claim>, k: nat, st: Claims, next: Result<Claims, Failure>)
    requires k < |claims| && ClaimsUpTo(bindings, events, claims, k) == Ok(st) && next == ClaimStep(bindings, events, claims[k], st)
    ensures ClaimsUpTo(bindings, events, claims, k + 1) == next
    ensures next.Err? ==> ClaimsUpTo(bindings, events, claims, |claims|) == next
  {
    if next.Err? {
      ClaimsFail(bindings, events, claims, k + 1, |claims|);
    }
  }

  method ValidateClaim(bindings: map<string, Prepared>, events: set<string>, claim: Claim, st: Claims) returns (r: Result<Claims, Failure>)
    ensures r == ClaimStep(bindings, events, claim, st)
  {
    if claim.claimId in st.ids {
      return Err(DuplicateClaimId);
    }
    var evidence := NormalizeEvidence(claim.evidence, events);
    if evidence.Err? {
      return Err(evidence.error);
    }
    if |claim.mentions| > MAX_MENTIONS_PER_CLAIM {
      return Err(BoundsExceeded);
    }
    var m := ValidateMentions(bindings, events, claim, st.mentions);
    if m.Err? {
      return Err(m.error);
    }
    return Ok(Claims(st.claims + [claim.(evidence := evidence.value, mentions := m.value.sanitized)], st.ids + {claim.claimId}, m.value));
  }

  method ValidateCandidates(events: set<string>, candidates: seq<NewEntity>) returns (r: Result<Candidates, Failure>)
    ensures r == CandidatesUpTo(events, candidates, |candidates|)
  {
    var st := Candidates([], {});
    for k := 0 to |candidates|
      invariant CandidatesUpTo(events, candidates, k) == Ok(st)
    {
      var c := candidates[k];
      var evidence := NormalizeEvidence(c.evidence, events);
      if c.candidateId in st.ids || evidence.Err? {
        CandidatesFail(events, candidates, k + 1, |candidates|);
        return Err(if c.candidateId in st.ids then DuplicateCandidateId else evidence.error);
      }
      st := Candidates(st.kept + [c.(evidence := evidence.value)], st.ids + {c.candidateId});
    }
    return Ok(st);
  }

  method ValidateExtraction(e: Extraction, entities: seq<Prepared>, events: set<string>) returns (r: Result<Validated, Failure>)
    ensures r == Validate(e, entities, events)
  {
    if e.schemaVersion != SCHEMA_VERSION {
      return Err(UnsupportedSchema);
    }
    var sized := ValidateTotalSize(e);
    if !sized {
      return Err(BoundsExceeded);
    }
    var bindings := EntitiesById(entities);
    var claims := ValidateClaims(bindings, events, e.claims);
    if claims.Err? {
      return Err(claims.error);
    }
    var candidates := ValidateCandidates(events, e.candidates);
    if candidates.Err? {
      return Err(candidates.error);
    }
    var mentions := claims.value.mentions;
    return Ok(Validated(e.(claims := claims.value.claims, candidates := candidates.value.kept), mentions.resolved, mentions.missed));
  }

  /** An accepted extraction has distinct candidate ids, with types and names as they came. */
  lemma {:induction false} CandidatesAreDistinct(events: set<string>, candidates: seq<NewEntity>, k: nat)
    requires k <= |candidates| && CandidatesUpTo(events, candidates, k).Ok?
    ensures var st := CandidatesUpTo(events, candidates, k).value;
            && |st.kept| == k
            && (forall i :: 0 <= i < k ==>
                  && st.kept[i].candidateId == candidates[i].candidateId && st.kept[i].displayName == candidates[i].displayName
                  && st.kept[i].etype == candidates[i].etype && st.kept[i].candidateId in st.ids)
            && (forall i, j :: 0 <= i < j < k ==> st.kept[i].candidateId != st.kept[j].candidateId)
  {
    if k > 0 {
      CandidatesAreDistinct(events, candidates, k - 1);
    }
  }
}
