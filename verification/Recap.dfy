/**
 The player-safe recap: which claims of a validated extraction may be told to
 players, and about whom.  A claim is told whole or not at all, and nothing that
 players may not see has any influence on the result.
 */
module Recap {
  import opened Wrappers
  import opened Domain
  import opened SessionExtraction

  datatype EntityRef = EntityRef(entityId: string, name: string, etype: EntityType)

  datatype RecapClaim = RecapClaim(claimId: string, kind: ClaimKind, text: string, knowledge: string)

  datatype Exclusion = HintNotPlayer | HasUnresolved | NoEvidence | NonPlayerEntity | UnavailableEntity

  datatype RecapResult = RecapResult(claims: seq<RecapClaim>, entities: seq<EntityRef>, excluded: seq<(string, Exclusion)>)

  /** A mention stored under its id: a repeated id replaces the value and keeps its place. */
  function Upsert(mentions: seq<Resolved>, m: Resolved): seq<Resolved> {
    if mentions == [] then [m]
    else if mentions[0].mentionId == m.mentionId then [m] + mentions[1..]
    else [mentions[0]] + Upsert(mentions[1..], m)
  }

  /** The resolved mentions of one claim. */
  function ResolvedFor(resolved: seq<Resolved>, claimId: string): seq<Resolved> {
    if resolved == [] then []
    else
      var before, last := ResolvedFor(resolved[..|resolved| - 1], claimId), resolved[|resolved| - 1];
      if last.claimId == claimId then Upsert(before, last) else before
  }

  predicate HasMissed(missed: seq<Missed>, claimId: string) {
    exists k :: 0 <= k < |missed| && missed[k].claimId == claimId
  }

  function RefOf(p: Prepared): EntityRef {
    EntityRef(p.id, p.name, p.etype)
  }

  /** The references of the first `k` mentions, or why they may not be shown. */
  function RefsUpTo(prepared: map<string, Prepared>, mentions: seq<Resolved>, k: nat): Result<seq<EntityRef>, Exclusion>
    requires k <= |mentions|
  {
    if k == 0 then Ok([])
    else
      match RefsUpTo(prepared, mentions, k - 1)
      case Err(x) => Err(x)
      case Ok(refs) =>
        var id := mentions[k - 1].entityId;
        if id !in prepared then Err(UnavailableEntity)
        else if prepared[id].visibility != Player then Err(NonPlayerEntity)
        else Ok(refs + [RefOf(prepared[id])])
  }

  function ClaimRefs(v: Validated, prepared: map<string, Prepared>, claim: Claim): Result<seq<EntityRef>, Exclusion> {
    var mentions := ResolvedFor(v.resolved, claim.claimId);
    if claim.visibility != PlayerHint then Err(HintNotPlayer)
    else if HasMissed(v.missed, claim.claimId) then Err(HasUnresolved)
    else if mentions == [] then Err(NoEvidence)
    else RefsUpTo(prepared, mentions, |mentions|)
  }

  predicate Listed(refs: seq<EntityRef>, id: string) {
    exists k :: 0 <= k < |refs| && refs[k].entityId == id
  }

  function AddRef(refs: seq<EntityRef>, r: EntityRef): seq<EntityRef> {
    if Listed(refs, r.entityId) then refs else refs + [r]
  }

  function AddRefs(refs: seq<EntityRef>, more: seq<EntityRef>, k: nat): seq<EntityRef>
    requires k <= |more|
  {
    if k == 0 then refs else AddRef(AddRefs(refs, more, k - 1), more[k - 1])
  }

  function Told(claim: Claim): RecapClaim {
    RecapClaim(claim.claimId, claim.kind, claim.text, claim.knowledge)
  }

  function RecapStep(st: RecapResult, claim: Claim, refs: Result<seq<EntityRef>, Exclusion>): RecapResult {
    match refs
    case Err(x) => st.(excluded := st.excluded + [(claim.claimId, x)])
    case Ok(found) => st.(claims := st.claims + [Told(claim)], entities := AddRefs(st.entities, found, |found|))
  }

  function RecapUpTo(v: Validated, prepared: map<string, Prepared>, k: nat): RecapResult
    requires k <= |v.extraction.claims|
  {
    if k == 0 then RecapResult([], [], [])
    else
      var claim := v.extraction.claims[k - 1];
      RecapStep(RecapUpTo(v, prepared, k - 1), claim, ClaimRefs(v, prepared, claim))
  }

  function RecapOf(v: Validated, prepared: map<string, Prepared>): RecapResult {
    RecapUpTo(v, prepared, |v.extraction.claims|)
  }

  method CollectRefs(prepared: map<string, Prepared>, mentions: seq<Resolved>) returns (r: Result<seq<EntityRef>, Exclusion>)
    ensures r == RefsUpTo(prepared, mentions, |mentions|)
  {
    var refs: seq<EntityRef> := [];
    for k := 0 to |mentions|
      invariant RefsUpTo(prepared, mentions, k) == Ok(refs)
    {
      var id := mentions[k].entityId;
      if id !in prepared || prepared[id].visibility != Player {
        RefsFail(prepared, mentions, k + 1, |mentions|);
        return Err(if id !in prepared then UnavailableEntity else NonPlayerEntity);
      }
      refs := refs + [RefOf(prepared[id])];
    }
    return Ok(refs);
  }

  lemma {:induction false} RefsFail(prepared: map<string, Prepared>, mentions: seq<Resolved>, k: nat, n: nat)
    requires k <= n <= |mentions| && RefsUpTo(prepared, mentions, k).Err?
    ensures RefsUpTo(prepared, mentions, n) == RefsUpTo(prepared, mentions, k)
  {
    if k < n {
      RefsFail(prepared, mentions, k, n - 1);
    }
  }

  method IndexResolved(resolved: seq<Resolved>) returns (byClaim: map<string, seq<Resolved>>)
    ensures forall id :: (if id in byClaim then byClaim[id] else []) == ResolvedFor(resolved, id)
  {
    byClaim := map[];
    for k := 0 to |resolved|
      invariant forall id :: (if id in byClaim then byClaim[id] else []) == ResolvedFor(resolved[..k], id)
    {
      assert resolved[..k + 1][..k] == resolved[..k];
      var id := resolved[k].claimId;
      byClaim := byClaim[id := Upsert(if id in byClaim then byClaim[id] else [], resolved[k])];
    }
    assert resolved[..|resolved|] == resolved;
  }

  method ProjectRecap(v: Validated, entities: seq<Prepared>) returns (r: RecapResult)
    ensures r == RecapOf(v, ById(entities))
  {
    var prepared := EntitiesById(entities);
    var byClaim := IndexResolved(v.resolved);
    var missedClaims := set k | 0 <= k < |v.missed| :: v.missed[k].claimId;
    r := RecapResult([], [], []);
    for k := 0 to |v.extraction.claims|
      invariant r == RecapUpTo(v, prepared, k)
    {
      var claim := v.extraction.claims[k];
      var mentions := if claim.claimId in byClaim then byClaim[claim.claimId] else [];
      if claim.visibility != PlayerHint {
        r := RecapStep(r, claim, Err(HintNotPlayer));
      } else if claim.claimId in missedClaims {
        r := RecapStep(r, claim, Err(HasUnresolved));
      } else if mentions == [] {
        r := RecapStep(r, claim, Err(NoEvidence));
      } else {
        var refs := CollectRefs(prepared, mentions);
        r := RecapStep(r, claim, refs);
      }
    }
  }

  // What players see

  /** The entities players may see: all that the recap is allowed to depend on. */
  function PlayerView(prepared: map<string, Prepared>): map<string, EntityRef> {
    map id | id in prepared && prepared[id].visibility == Player :: RefOf(prepared[id])
  }

  /** Every mention of the claim names a player entity of the declared type, and there is one. */
  predicate PlayerSafe(players: map<string, EntityRef>, claim: Claim) {
    && claim.visibility == PlayerHint && claim.mentions != []
    && forall k :: 0 <= k < |claim.mentions| ==> MentionSafe(players, claim.mentions[k])
  }

  predicate MentionSafe(players: map<string, EntityRef>, m: Mention) {
    m.candidateId.Some? && m.candidateId.value in players && players[m.candidateId.value].etype == m.etype
  }

  function SafeRefs(players: map<string, EntityRef>, mentions: seq<Mention>): seq<EntityRef>
    requires forall k :: 0 <= k < |mentions| ==> MentionSafe(players, mentions[k])
  {
    seq(|mentions|, k requires 0 <= k < |mentions| && MentionSafe(players, mentions[k]) => players[mentions[k].candidateId.value])
  }

  /** The recap as players may have it, computed from the raw claims and the player entities alone. */
  function PlayerRecap(players: map<string, EntityRef>, claims: seq<Claim>, k: nat): (seq<RecapClaim>, seq<EntityRef>)
    requires k <= |claims|
  {
    if k == 0 then ([], [])
    else
      var (told, refs) := PlayerRecap(players, claims, k - 1);
      if !PlayerSafe(players, claims[k - 1]) then (told, refs)
      else (told + [Told(claims[k - 1])], AddRefs(refs, SafeRefs(players, claims[k - 1].mentions), |claims[k - 1].mentions|))
  }

  // How validation binds the mentions of one claim

  /** The resolved mentions the binding of one claim contributes. */
  function BoundOf(bindings: map<string, Prepared>, claimId: string, mentions: seq<Mention>, k: nat): seq<Resolved>
    requires k <= |mentions|
  {
    if k == 0 then []
    else
      var m := mentions[k - 1];
      BoundOf(bindings, claimId, mentions, k - 1)
      + (if Bound(bindings, m) then [Resolved(claimId, m.mentionId, m.candidateId.value, m.etype)] else [])
  }

  predicate AllBound(bindings: map<string, Prepared>, mentions: seq<Mention>, k: nat)
    requires k <= |mentions|
  {
    forall i :: 0 <= i < k ==> Bound(bindings, mentions[i])
  }

  ghost predicate FreshFor(resolved: seq<Resolved>, missed: seq<Missed>, ids: set<string>) {
    && (forall i :: 0 <= i < |resolved| ==> resolved[i].claimId in ids)
    && (forall i :: 0 <= i < |missed| ==> missed[i].claimId in ids)
  }

  lemma {:induction false} NoneResolved(resolved: seq<Resolved>, claimId: string)
    requires forall i :: 0 <= i < |resolved| ==> resolved[i].claimId != claimId
    ensures ResolvedFor(resolved, claimId) == []
  {
    if resolved != [] {
      NoneResolved(resolved[..|resolved| - 1], claimId);
    }
  }

  lemma {:induction false} UpsertNew(mentions: seq<Resolved>, m: Resolved)
    requires forall i :: 0 <= i < |mentions| ==> mentions[i].mentionId != m.mentionId
    ensures Upsert(mentions, m) == mentions + [m]
  {
    if mentions != [] {
      UpsertNew(mentions[1..], m);
    }
  }

  ghost predicate IdAmong(mentions: seq<Mention>, k: nat, id: string)
    requires k <= |mentions|
  {
    exists j :: 0 <= j < k && mentions[j].mentionId == id
  }

  lemma {:induction false} BoundIds(bindings: map<string, Prepared>, claimId: string, mentions: seq<Mention>, k: nat)
    requires k <= |mentions|
    ensures forall r :: r in BoundOf(bindings, claimId, mentions, k) ==> IdAmong(mentions, k, r.mentionId) && r.claimId == claimId
  {
    if k > 0 {
      BoundIds(bindings, claimId, mentions, k - 1);
      assert IdAmong(mentions, k, mentions[k - 1].mentionId);
      forall id | IdAmong(mentions, k - 1, id)
        ensures IdAmong(mentions, k, id)
      {
      }
    }
  }

  ghost predicate MentionIdsDiffer(mentions: seq<Mention>, k: nat)
    requires k <= |mentions|
  {
    forall i, j :: 0 <= i < j < k ==> mentions[i].mentionId != mentions[j].mentionId
  }

  /** What the first `k` mentions of a claim have added to the two lists. */
  ghost predicate MentionsAdded(bindings: map<string, Prepared>, claim: Claim, before: Mentions, now: Mentions, k: nat)
    requires k <= |claim.mentions|
  {
    && now.resolved == before.resolved + BoundOf(bindings, claim.claimId, claim.mentions, k)
    && MissesAdded(bindings, claim, before.missed, now.missed, k)
    && IdsSeen(claim, now.seen, k)
  }

  ghost predicate MissesAdded(bindings: map<string, Prepared>, claim: Claim, before: seq<Missed>, now: seq<Missed>, k: nat)
    requires k <= |claim.mentions|
  {
    && before <= now
    && (forall i :: |before| <= i < |now| ==> now[i].claimId == claim.claimId)
    && (|now| == |before| <==> AllBound(bindings, claim.mentions, k))
  }

  ghost predicate IdsSeen(claim: Claim, seen: set<string>, k: nat)
    requires k <= |claim.mentions|
  {
    MentionIdsDiffer(claim.mentions, k) && forall i :: 0 <= i < k ==> claim.mentions[i].mentionId in seen
  }

  lemma OneMissMore(bindings: map<string, Prepared>, claim: Claim, before: seq<Missed>, now: seq<Missed>, k: nat)
    requires k < |claim.mentions| && MissesAdded(bindings, claim, before, now, k)
    ensures var m := claim.mentions[k];
            MissesAdded(bindings, claim, before, if Bound(bindings, m) then now else now + [MissOf(bindings, claim.claimId, m)], k + 1)
  {
  }

  lemma OneMentionMore(bindings: map<string, Prepared>, claim: Claim, before: Mentions, now: Mentions, k: nat, evidence: seq<string>)
    requires k < |claim.mentions| && MentionsAdded(bindings, claim, before, now, k) && claim.mentions[k].mentionId !in now.seen
    ensures MentionsAdded(bindings, claim, before, MentionStep(bindings, claim.claimId, claim.mentions[k], evidence, now), k + 1)
  {
    OneMissMore(bindings, claim, before.missed, now.missed, k);
    OneBoundMore(bindings, claim, before.resolved, k);
    OneIdMore(claim, now.seen, k);
  }

  lemma OneIdMore(claim: Claim, seen: set<string>, k: nat)
    requires k < |claim.mentions| && IdsSeen(claim, seen, k) && claim.mentions[k].mentionId !in seen
    ensures IdsSeen(claim, seen + {claim.mentions[k].mentionId}, k + 1)
  {
  }

  lemma OneBoundMore(bindings: map<string, Prepared>, claim: Claim, before: seq<Resolved>, k: nat)
    requires k < |claim.mentions|
    ensures var m := claim.mentions[k];
            before + BoundOf(bindings, claim.claimId, claim.mentions, k + 1) ==
            var was := before + BoundOf(bindings, claim.claimId, claim.mentions, k);
            if Bound(bindings, m) then was + [Resolved(claim.claimId, m.mentionId, m.candidateId.value, m.etype)] else was
  {
  }

  lemma {:induction false} MentionsAdd(bindings: map<string, Prepared>, events: set<string>, claim: Claim, st: Mentions, k: nat)
    requires k <= |claim.mentions| && MentionsUpTo(bindings, events, claim, st, k).Ok?
    ensures MentionsAdded(bindings, claim, st, MentionsUpTo(bindings, events, claim, st, k).value, k)
  {
    if k > 0 {
      MentionsAdd(bindings, events, claim, st, k - 1);
      OneMentionMore(bindings, claim, st, MentionsUpTo(bindings, events, claim, st, k - 1).value, k - 1,
                     Evidence(claim.mentions[k - 1].evidence, events).value);
    }
  }

  /** One claim's own entries come back from the list it was appended to. */
  lemma {:induction false} ResolvedForOwn(before: seq<Resolved>, bindings: map<string, Prepared>, claim: Claim, k: nat)
    requires k <= |claim.mentions| && MentionIdsDiffer(claim.mentions, k)
    requires forall i :: 0 <= i < |before| ==> before[i].claimId != claim.claimId
    ensures ResolvedFor(before + BoundOf(bindings, claim.claimId, claim.mentions, k), claim.claimId)
         == BoundOf(bindings, claim.claimId, claim.mentions, k)
  {
    if k == 0 {
      assert before + [] == before;
      NoneResolved(before, claim.claimId);
    } else {
      ResolvedForOwn(before, bindings, claim, k - 1);
      var was, m := BoundOf(bindings, claim.claimId, claim.mentions, k - 1), claim.mentions[k - 1];
      if Bound(bindings, m) {
        var r := Resolved(claim.claimId, m.mentionId, m.candidateId.value, m.etype);
        ResolvedSnoc(before + was, r);
        assert before + (was + [r]) == before + was + [r];
        NotBoundBefore(bindings, claim, k);
        UpsertNew(was, r);
      } else {
        assert was + [] == was;
      }
    }
  }

  lemma {:induction false} ResolvedSnoc(resolved: seq<Resolved>, r: Resolved)
    ensures ResolvedFor(resolved + [r], r.claimId) == Upsert(ResolvedFor(resolved, r.claimId), r)
  {
    assert (resolved + [r])[..|resolved|] == resolved;
  }

  lemma NotBoundBefore(bindings: map<string, Prepared>, claim: Claim, k: nat)
    requires 0 < k <= |claim.mentions| && MentionIdsDiffer(claim.mentions, k)
    ensures var was := BoundOf(bindings, claim.claimId, claim.mentions, k - 1);
            forall i :: 0 <= i < |was| ==> was[i].mentionId != claim.mentions[k - 1].mentionId
  {
    BoundIds(bindings, claim.claimId, claim.mentions, k - 1);
    var was := BoundOf(bindings, claim.claimId, claim.mentions, k - 1);
    forall i | 0 <= i < |was|
      ensures was[i].mentionId != claim.mentions[k - 1].mentionId
    {
      assert was[i] in was;
    }
  }

  lemma {:induction false} ResolvedForOther(before: seq<Resolved>, more: seq<Resolved>, claimId: string)
    requires forall i :: 0 <= i < |more| ==> more[i].claimId != claimId
    ensures ResolvedFor(before + more, claimId) == ResolvedFor(before, claimId)
  {
    if more == [] {
      assert before + more == before;
    } else {
      var all := before + more;
      assert all[..|all| - 1] == before + more[..|more| - 1];
      ResolvedForOther(before, more[..|more| - 1], claimId);
    }
  }

  /** What a validated extraction records about one claim. */
  ghost predicate Recorded(st: Claims, bindings: map<string, Prepared>, claim: Claim) {
    && claim.claimId in st.ids
    && ResolvedFor(st.mentions.resolved, claim.claimId) == BoundOf(bindings, claim.claimId, claim.mentions, |claim.mentions|)
    && (HasMissed(st.mentions.missed, claim.claimId) <==> !AllBound(bindings, claim.mentions, |claim.mentions|))
  }

  lemma ClaimIsRecorded(bindings: map<string, Prepared>, events: set<string>, claim: Claim, st: Claims)
    requires FreshFor(st.mentions.resolved, st.mentions.missed, st.ids)
    requires ClaimStep(bindings, events, claim, st).Ok?
    ensures var now := ClaimStep(bindings, events, claim, st).value;
            && Recorded(now, bindings, claim)
            && FreshFor(now.mentions.resolved, now.mentions.missed, now.ids)
  {
    var now := ClaimStep(bindings, events, claim, st).value;
    MentionsAdd(bindings, events, claim, st.mentions, |claim.mentions|);
    ResolvedForOwn(st.mentions.resolved, bindings, claim, |claim.mentions|);
    BoundIds(bindings, claim.claimId, claim.mentions, |claim.mentions|);
    if |now.mentions.missed| > |st.mentions.missed| {
      assert now.mentions.missed[|st.mentions.missed|].claimId == claim.claimId;
    }
  }

  lemma EarlierStaysRecorded(bindings: map<string, Prepared>, events: set<string>, claim: Claim, st: Claims, earlier: Claim)
    requires Recorded(st, bindings, earlier) && ClaimStep(bindings, events, claim, st).Ok?
    ensures Recorded(ClaimStep(bindings, events, claim, st).value, bindings, earlier)
  {
    var now := ClaimStep(bindings, events, claim, st).value;
    MentionsAdd(bindings, events, claim, st.mentions, |claim.mentions|);
    BoundIds(bindings, claim.claimId, claim.mentions, |claim.mentions|);
    ResolvedForOther(st.mentions.resolved, BoundOf(bindings, claim.claimId, claim.mentions, |claim.mentions|), earlier.claimId);
    if HasMissed(st.mentions.missed, earlier.claimId) {
      var k :| 0 <= k < |st.mentions.missed| && st.mentions.missed[k].claimId == earlier.claimId;
      assert now.mentions.missed[k].claimId == earlier.claimId;
    }
  }

  /** The sanitized claim differs from the raw one in evidence and mentions only. */
  predicate SameClaim(a: Claim, b: Claim) {
    a.claimId == b.claimId && a.visibility == b.visibility && Told(a) == Told(b)
  }

  /** What the first `k` claims have left. */
  ghost predicate RecordedUpTo(st: Claims, bindings: map<string, Prepared>, claims: seq<Claim>, k: nat)
    requires k <= |claims|
  {
    && FreshFor(st.mentions.resolved, st.mentions.missed, st.ids)
    && |st.claims| == k
    && (forall i :: 0 <= i < k ==> SameClaim(st.claims[i], claims[i]))
    && (forall i :: 0 <= i < k ==> Recorded(st, bindings, claims[i]))
  }

  lemma OneClaimMore(bindings: map<string, Prepared>, events: set<string>, claims: seq<Claim>, k: nat, st: Claims)
    requires k < |claims| && RecordedUpTo(st, bindings, claims, k) && ClaimStep(bindings, events, claims[k], st).Ok?
    ensures RecordedUpTo(ClaimStep(bindings, events, claims[k], st).value, bindings, claims, k + 1)
  {
    ClaimIsRecorded(bindings, events, claims[k], st);
    var now := ClaimStep(bindings, events, claims[k], st).value;
    forall i | 0 <= i < k + 1
      ensures Recorded(now, bindings, claims[i])
    {
      if i < k {
        EarlierStaysRecorded(bindings, events, claims[k], st, claims[i]);
      }
    }
    ClaimIsSame(bindings, events, claims[k], st);
  }

  lemma ClaimIsSame(bindings: map<string, Prepared>, events: set<string>, claim: Claim, st: Claims)
    requires ClaimStep(bindings, events, claim, st).Ok?
    ensures var now := ClaimStep(bindings, events, claim, st).value;
            |now.claims| == |st.claims| + 1 && now.claims[..|st.claims|] == st.claims && SameClaim(now.claims[|st.claims|], claim)
  {
  }

  lemma {:induction false} AllRecorded(bindings: map<string, Prepared>, events: set<string>, claims: seq<Claim>, k: nat)
    requires k <= |claims| && ClaimsUpTo(bindings, events, claims, k).Ok?
    ensures RecordedUpTo(ClaimsUpTo(bindings, events, claims, k).value, bindings, claims, k)
  {
    if k > 0 {
      AllRecorded(bindings, events, claims, k - 1);
      OneClaimMore(bindings, events, claims, k - 1, ClaimsUpTo(bindings, events, claims, k - 1).value);
    }
  }

  // The recap is the player's view

  lemma {:induction false} RefsOfBound(prepared: map<string, Prepared>, claimId: string, mentions: seq<Mention>, k: nat)
    requires k <= |mentions| && AllBound(prepared, mentions, k)
    ensures var bound := BoundOf(prepared, claimId, mentions, k);
            && |bound| == k
            && (RefsUpTo(prepared, bound, k).Ok? <==> forall i :: 0 <= i < k ==> MentionSafe(PlayerView(prepared), mentions[i]))
            && (RefsUpTo(prepared, bound, k).Ok? ==>
                  RefsUpTo(prepared, bound, k).value == SafeRefs(PlayerView(prepared), mentions[..k]))
  {
    if k > 0 {
      RefsOfBound(prepared, claimId, mentions, k - 1);
      var bound := BoundOf(prepared, claimId, mentions, k);
      var front := BoundOf(prepared, claimId, mentions, k - 1);
      assert bound[..k - 1] == front;
      RefsOfPrefix(prepared, front, bound, k - 1);
      assert Bound(prepared, mentions[k - 1]);
    }
  }

  lemma {:induction false} RefsOfPrefix(prepared: map<string, Prepared>, a: seq<Resolved>, b: seq<Resolved>, k: nat)
    requires k <= |a| && k <= |b| && a[..k] == b[..k]
    ensures RefsUpTo(prepared, a, k) == RefsUpTo(prepared, b, k)
  {
    if k > 0 {
      assert a[..k - 1] == a[..k][..k - 1] && b[..k - 1] == b[..k][..k - 1];
      RefsOfPrefix(prepared, a, b, k - 1);
      assert a[k - 1] == a[..k][k - 1] && b[k - 1] == b[..k][k - 1];
    }
  }

  lemma ClaimRefsAreSafe(v: Validated, st: Claims, prepared: map<string, Prepared>, claim: Claim, raw: Claim)
    requires v.resolved == st.mentions.resolved && v.missed == st.mentions.missed
    requires SameClaim(claim, raw) && Recorded(st, prepared, raw)
    ensures var refs := ClaimRefs(v, prepared, claim);
            && (refs.Ok? <==> PlayerSafe(PlayerView(prepared), raw))
            && (refs.Ok? ==> refs.value == SafeRefs(PlayerView(prepared), raw.mentions))
  {
    var n := |raw.mentions|;
    assert raw.mentions[..n] == raw.mentions;
    if AllBound(prepared, raw.mentions, n) {
      RefsOfBound(prepared, raw.claimId, raw.mentions, n);
    } else {
      var i :| 0 <= i < n && !Bound(prepared, raw.mentions[i]);
      assert !MentionSafe(PlayerView(prepared), raw.mentions[i]);
    }
  }

  lemma {:induction false} RecapIsPlayerRecap(v: Validated, st: Claims, prepared: map<string, Prepared>, claims: seq<Claim>, k: nat)
    requires v.resolved == st.mentions.resolved && v.missed == st.mentions.missed && v.extraction.claims == st.claims
    requires |st.claims| == |claims| && k <= |claims|
    requires forall i :: 0 <= i < |claims| ==> SameClaim(st.claims[i], claims[i]) && Recorded(st, prepared, claims[i])
    ensures var (told, refs) := PlayerRecap(PlayerView(prepared), claims, k);
            var recap := RecapUpTo(v, prepared, k);
            recap.claims == told && recap.entities == refs
  {
    if k > 0 {
      RecapIsPlayerRecap(v, st, prepared, claims, k - 1);
      ClaimRefsAreSafe(v, st, prepared, st.claims[k - 1], claims[k - 1]);
    }
  }

  /**
   The recap of a validated extraction tells exactly the claims all of whose
   mentions are bound to player entities of the declared type, and names those
   entities, as computed from the raw claims and the player entities alone.
   */
  lemma {:induction false} RecapTellsPlayersOnly(e: Extraction, entities: seq<Prepared>, events: set<string>)
    requires Validate(e, entities, events).Ok?
    ensures var recap := RecapOf(Validate(e, entities, events).value, ById(entities));
            (recap.claims, recap.entities) == PlayerRecap(PlayerView(ById(entities)), e.claims, |e.claims|)
  {
    AllRecorded(ById(entities), events, e.claims, |e.claims|);
    var st := ClaimsUpTo(ById(entities), events, e.claims, |e.claims|).value;
    RecapIsPlayerRecap(Validate(e, entities, events).value, st, ById(entities), e.claims, |e.claims|);
  }

  // Independence of everything players may not see

  /** Two validations of the same mentions that agree on what they have seen. */
  ghost predicate SameSoFar(ra: Result<Mentions, Failure>, rb: Result<Mentions, Failure>) {
    match ra
    case Err(f) => rb == Err(f)
    case Ok(a) => rb.Ok? && rb.value.seen == a.seen
  }

  lemma {:induction false} SameMentionFailures(a: map<string, Prepared>, b: map<string, Prepared>, events: set<string>, claim: Claim,
                                               sa: Mentions, sb: Mentions, k: nat)
    requires k <= |claim.mentions| && sa.seen == sb.seen
    ensures SameSoFar(MentionsUpTo(a, events, claim, sa, k), MentionsUpTo(b, events, claim, sb, k))
  {
    if k > 0 {
      SameMentionFailures(a, b, events, claim, sa, sb, k - 1);
    }
  }

  lemma {:induction false} SameClaimFailures(a: map<string, Prepared>, b: map<string, Prepared>, events: set<string>, claims: seq<Claim>, k: nat)
    requires k <= |claims|
    ensures var ra, rb := ClaimsUpTo(a, events, claims, k), ClaimsUpTo(b, events, claims, k);
            && (ra.Ok? <==> rb.Ok?) && (ra.Err? ==> ra.error == rb.error)
            && (ra.Ok? ==> ra.value.ids == rb.value.ids && ra.value.mentions.seen == rb.value.mentions.seen)
  {
    if k > 0 {
      SameClaimFailures(a, b, events, claims, k - 1);
      var ra, rb := ClaimsUpTo(a, events, claims, k - 1), ClaimsUpTo(b, events, claims, k - 1);
      if ra.Ok? {
        SameMentionFailures(a, b, events, claims[k - 1], ra.value.mentions, rb.value.mentions, |claims[k - 1].mentions|);
      }
    }
  }

  /**
   Changing, adding or removing entities that players may not see never changes
   what the recap tells, nor whether the extraction is accepted.
   */
  lemma {:induction false} HiddenEntitiesDoNotMatter(e: Extraction, a: seq<Prepared>, b: seq<Prepared>, events: set<string>)
    requires PlayerView(ById(a)) == PlayerView(ById(b))
    ensures var va, vb := Validate(e, a, events), Validate(e, b, events);
            && (va.Ok? <==> vb.Ok?) && (va.Err? ==> va.error == vb.error)
            && (va.Ok? ==>
                  var ra, rb := RecapOf(va.value, ById(a)), RecapOf(vb.value, ById(b));
                  ra.claims == rb.claims && ra.entities == rb.entities)
  {
    SameClaimFailures(ById(a), ById(b), events, e.claims, |e.claims|);
    if Validate(e, a, events).Ok? {
      RecapTellsPlayersOnly(e, a, events);
      RecapTellsPlayersOnly(e, b, events);
    }
  }

  /** One of the first `k` claims may be told and reads so. */
  predicate Tellable(players: map<string, EntityRef>, claims: seq<Claim>, k: nat, told: RecapClaim)
    requires k <= |claims|
  {
    exists i :: 0 <= i < k && PlayerSafe(players, claims[i]) && Told(claims[i]) == told
  }

  lemma TellableOneMore(players: map<string, EntityRef>, claims: seq<Claim>, k: nat, told: RecapClaim)
    requires 0 < k <= |claims|
    ensures Tellable(players, claims, k, told)
      <==> Tellable(players, claims, k - 1, told) || (PlayerSafe(players, claims[k - 1]) && told == Told(claims[k - 1]))
  {
  }

  lemma {:induction false} ToldAreSafe(players: map<string, EntityRef>, claims: seq<Claim>, k: nat)
    requires k <= |claims|
    ensures forall told :: told in PlayerRecap(players, claims, k).0 <==> Tellable(players, claims, k, told)
  {
    if k > 0 {
      ToldAreSafe(players, claims, k - 1);
      forall told
        ensures told in PlayerRecap(players, claims, k).0 <==> Tellable(players, claims, k, told)
      {
        TellableOneMore(players, claims, k, told);
      }
    }
  }
}
