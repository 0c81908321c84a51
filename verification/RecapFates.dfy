/** Which claims the recap tells, with what words and about whom, and why it leaves the others out. */
module RecapFates {
  import opened Wrappers
  import opened Domain
  import opened SessionExtraction
  import opened Recap

  /** The mention's guess names a prepared entity of its type. */
  predicate NamesPrepared(prepared: map<string, Prepared>, m: Mention) {
    m.candidateId.Some? && m.candidateId.value in prepared && prepared[m.candidateId.value].etype == m.etype
  }

  /** And players may see that entity. */
  predicate NamesPlayer(prepared: map<string, Prepared>, m: Mention) {
    NamesPrepared(prepared, m) && prepared[m.candidateId.value].visibility == Player
  }

  predicate Tellable(prepared: map<string, Prepared>, claim: Claim) {
    && claim.visibility == PlayerHint && claim.mentions != []
    && forall i :: 0 <= i < |claim.mentions| ==> NamesPlayer(prepared, claim.mentions[i])
  }

  /** Why a claim is not told, in the order of the checks. */
  predicate LeftOutFor(prepared: map<string, Prepared>, claim: Claim, reason: Exclusion) {
    if claim.visibility != PlayerHint then reason == HintNotPlayer
    else if exists i :: 0 <= i < |claim.mentions| && !NamesPrepared(prepared, claim.mentions[i]) then reason == HasUnresolved
    else if claim.mentions == [] then reason == NoEvidence
    else reason == NonPlayerEntity
  }

  /** The reference shows id, name and type of a prepared entity, nothing else. */
  predicate Shows(prepared: map<string, Prepared>, m: Mention, r: EntityRef) {
    && NamesPrepared(prepared, m)
    && r.entityId == prepared[m.candidateId.value].id && r.name == prepared[m.candidateId.value].name && r.etype == prepared[m.candidateId.value].etype
  }

  ghost predicate ShownBy(prepared: map<string, Prepared>, claim: Claim, r: EntityRef) {
    exists i :: 0 <= i < |claim.mentions| && Shows(prepared, claim.mentions[i], r)
  }

  predicate OnceEach(refs: seq<EntityRef>) {
    forall i, j :: 0 <= i < j < |refs| ==> refs[i].entityId != refs[j].entityId
  }

  /** One claim is told whole, with the entities it names that were not named before, or left out whole with a reason. */
  ghost predicate ClaimDecided(prepared: map<string, Prepared>, claim: Claim, st: RecapResult, now: RecapResult) {
    if Tellable(prepared, claim) then
      && now.claims == st.claims + [RecapClaim(claim.claimId, claim.kind, claim.text, claim.knowledge)]
      && now.excluded == st.excluded && st.entities <= now.entities
      && (forall r :: r in now.entities[|st.entities|..] ==> ShownBy(prepared, claim, r))
      && (forall i :: 0 <= i < |claim.mentions| ==> Listed(now.entities, prepared[claim.mentions[i].candidateId.value].id))
    else
      && now.claims == st.claims && now.entities == st.entities
      && exists reason :: now.excluded == st.excluded + [(claim.claimId, reason)] && LeftOutFor(prepared, claim, reason)
  }

  lemma PlayerSafeIs(prepared: map<string, Prepared>, claim: Claim)
    requires WellKeyed(prepared)
    ensures PlayerSafe(PlayerView(prepared), claim) <==> Tellable(prepared, claim)
  {
    forall m
      ensures MentionSafe(PlayerView(prepared), m) <==> NamesPlayer(prepared, m)
    {
    }
    forall i | 0 <= i < |claim.mentions|
      ensures MentionSafe(PlayerView(prepared), claim.mentions[i]) <==> NamesPlayer(prepared, claim.mentions[i])
    {
    }
  }

  predicate WellKeyed(prepared: map<string, Prepared>) {
    forall id :: id in prepared ==> prepared[id].id == id
  }

  lemma {:induction false} ByIdIsWellKeyed(entities: seq<Prepared>)
    ensures WellKeyed(ById(entities))
  {
    if entities != [] {
      ByIdIsWellKeyed(entities[..|entities| - 1]);
    }
  }

  /** Adding references keeps the old ones in front, adds only new ids, and leaves every id listed. */
  lemma {:induction false} AddedRefs(refs: seq<EntityRef>, more: seq<EntityRef>, k: nat)
    requires k <= |more| && OnceEach(refs)
    ensures var now := AddRefs(refs, more, k);
            && refs <= now && OnceEach(now)
            && (forall r :: r in now[|refs|..] ==> r in more[..k])
            && (forall i :: 0 <= i < k ==> Listed(now, more[i].entityId))
  {
    if k > 0 {
      AddedRefs(refs, more, k - 1);
      var before, now := AddRefs(refs, more, k - 1), AddRefs(refs, more, k);
      assert more[..k] == more[..k - 1] + [more[k - 1]];
      forall r | r in now[|refs|..]
        ensures r in more[..k]
      {
        assert now == before || now == before + [more[k - 1]];
      }
      forall i | 0 <= i < k
        ensures Listed(now, more[i].entityId)
      {
        if i < k - 1 {
          var n :| 0 <= n < |before| && before[n].entityId == more[i].entityId;
          assert now[n].entityId == more[i].entityId;
        } else if !Listed(before, more[k - 1].entityId) {
          assert now[|before|] == more[k - 1];
        }
      }
    }
  }

  /** All bound mentions name prepared entities, so only their visibility can fail. */
  lemma {:induction false} OnlyVisibilityFails(prepared: map<string, Prepared>, mentions: seq<Resolved>, k: nat)
    requires k <= |mentions| && forall i :: 0 <= i < |mentions| ==> mentions[i].entityId in prepared
    ensures RefsUpTo(prepared, mentions, k).Err? ==> RefsUpTo(prepared, mentions, k).error == NonPlayerEntity
  {
    if k > 0 {
      OnlyVisibilityFails(prepared, mentions, k - 1);
    }
  }

  lemma {:induction false} BoundNamesPrepared(bindings: map<string, Prepared>, claimId: string, mentions: seq<Mention>, k: nat)
    requires k <= |mentions|
    ensures forall r :: r in BoundOf(bindings, claimId, mentions, k) ==> r.entityId in bindings
    ensures BoundOf(bindings, claimId, mentions, k) != [] ==> k > 0
    ensures AllBound(bindings, mentions, k) && k > 0 ==> BoundOf(bindings, claimId, mentions, k) != []
  {
    if k > 0 {
      BoundNamesPrepared(bindings, claimId, mentions, k - 1);
    }
  }

  lemma ReasonIs(v: Validated, st: Claims, prepared: map<string, Prepared>, claim: Claim, raw: Claim)
    requires v.resolved == st.mentions.resolved && v.missed == st.mentions.missed
    requires SameClaim(claim, raw) && Recorded(st, prepared, raw)
    ensures var refs := ClaimRefs(v, prepared, claim);
            refs.Err? ==> LeftOutFor(prepared, raw, refs.error)
  {
    var mentions := ResolvedFor(v.resolved, claim.claimId);
    BoundNamesPrepared(prepared, raw.claimId, raw.mentions, |raw.mentions|);
    assert AllBound(prepared, raw.mentions, |raw.mentions|) <==>
           !exists i :: 0 <= i < |raw.mentions| && !NamesPrepared(prepared, raw.mentions[i]);
    forall i | 0 <= i < |mentions|
      ensures mentions[i].entityId in prepared
    {
      assert mentions[i] in mentions;
    }
    OnlyVisibilityFails(prepared, mentions, |mentions|);
  }

  lemma StepDecides(v: Validated, st: Claims, prepared: map<string, Prepared>, claim: Claim, raw: Claim, before: RecapResult)
    requires v.resolved == st.mentions.resolved && v.missed == st.mentions.missed
    requires SameClaim(claim, raw) && Recorded(st, prepared, raw) && WellKeyed(prepared) && OnceEach(before.entities)
    ensures var now := RecapStep(before, claim, ClaimRefs(v, prepared, claim));
            ClaimDecided(prepared, raw, before, now) && OnceEach(now.entities)
  {
    ClaimRefsAreSafe(v, st, prepared, claim, raw);
    ReasonIs(v, st, prepared, claim, raw);
    PlayerSafeIs(prepared, raw);
    var refs, now := ClaimRefs(v, prepared, claim), RecapStep(before, claim, ClaimRefs(v, prepared, claim));
    if refs.Ok? {
      AddedRefs(before.entities, refs.value, |refs.value|);
      assert refs.value[..|refs.value|] == refs.value;
      RefsShow(prepared, raw, refs.value, before.entities, now.entities);
    }
  }

  lemma RefsShow(prepared: map<string, Prepared>, raw: Claim, refs: seq<EntityRef>, before: seq<EntityRef>, now: seq<EntityRef>)
    requires WellKeyed(prepared) && Tellable(prepared, raw) && PlayerSafe(PlayerView(prepared), raw)
    requires refs == SafeRefs(PlayerView(prepared), raw.mentions) && before <= now
    requires forall r :: r in now[|before|..] ==> r in refs
    requires forall i :: 0 <= i < |refs| ==> Listed(now, refs[i].entityId)
    ensures forall r :: r in now[|before|..] ==> ShownBy(prepared, raw, r)
    ensures forall i :: 0 <= i < |raw.mentions| ==> Listed(now, prepared[raw.mentions[i].candidateId.value].id)
  {
    forall i | 0 <= i < |raw.mentions|
      ensures Shows(prepared, raw.mentions[i], refs[i])
    {
      assert NamesPlayer(prepared, raw.mentions[i]);
    }
    forall r | r in now[|before|..]
      ensures ShownBy(prepared, raw, r)
    {
      var i :| 0 <= i < |refs| && refs[i] == r;
      assert Shows(prepared, raw.mentions[i], r);
    }
    forall i | 0 <= i < |raw.mentions|
      ensures Listed(now, prepared[raw.mentions[i].candidateId.value].id)
    {
      assert Listed(now, refs[i].entityId);
    }
  }

  lemma {:induction false} EntitiesOnce(v: Validated, st: Claims, prepared: map<string, Prepared>, claims: seq<Claim>, k: nat)
    requires v.resolved == st.mentions.resolved && v.missed == st.mentions.missed && v.extraction.claims == st.claims
    requires |st.claims| == |claims| && k <= |claims| && WellKeyed(prepared)
    requires forall i :: 0 <= i < |claims| ==> SameClaim(st.claims[i], claims[i]) && Recorded(st, prepared, claims[i])
    ensures OnceEach(RecapUpTo(v, prepared, k).entities)
  {
    if k > 0 {
      EntitiesOnce(v, st, prepared, claims, k - 1);
      StepDecides(v, st, prepared, st.claims[k - 1], claims[k - 1], RecapUpTo(v, prepared, k - 1));
    }
  }

  /**
   For every claim of an accepted extraction: it is told, word for word, exactly if
   it has the player hint and a mention, and every mention names a prepared entity
   of its type that players may see; otherwise the first failing check is its
   reason.  The entities are listed once each, by their prepared names.
   */
  lemma EveryClaimIsDecided(e: Extraction, entities: seq<Prepared>, events: set<string>, k: nat)
    requires Validate(e, entities, events).Ok? && k <= |e.claims|
    ensures var v, prepared := Validate(e, entities, events).value, ById(entities);
            && |v.extraction.claims| == |e.claims|
            && OnceEach(RecapUpTo(v, prepared, k).entities)
            && (k < |e.claims| ==> ClaimDecided(prepared, e.claims[k], RecapUpTo(v, prepared, k), RecapUpTo(v, prepared, k + 1)))
  {
    var v, prepared := Validate(e, entities, events).value, ById(entities);
    var st := ClaimsUpTo(prepared, events, e.claims, |e.claims|).value;
    AllRecorded(prepared, events, e.claims, |e.claims|);
    ByIdIsWellKeyed(entities);
    EntitiesOnce(v, st, prepared, e.claims, k);
    if k < |e.claims| {
      StepDecides(v, st, prepared, st.claims[k], e.claims[k], RecapUpTo(v, prepared, k));
    }
  }
}
