/**
 Produce and apply with one extraction, again and again: what a round settles,
 and when the third finds nothing left.
 */
module Convergence {
  import opened Wrappers
  import opened Domain
  import opened Repository
  import opened Binding
  import opened Canonical
  import opened Bootstrap
  import FactLines
  import Preflight

  /** A projection of exactly the Vault: every entity bindable, in any order, nothing in conflict. */
  ghost predicate Shows(s: Snapshot, norm: string -> string, entities: map<string, Document>) {
    && Sound(s, norm) && s.conflicts == []
    && Lists(ListedDocuments(s), entities)
  }

  /** The claim texts are single lines, as the extraction schema demands. */
  ghost predicate ValidTexts(e: Extraction) {
    forall k :: 0 <= k < |e.claims| ==> FactLines.SingleLine(e.claims[k].text)
  }

  /** The Vault after the operations, all of which must be accepted. */
  function After(entities: map<string, Document>, ops: seq<Operation>, realTime: int): map<string, Document> {
    var r := Preflight.Executed(entities, ops, realTime, |ops|);
    if r.Ok? then r.value else entities
  }

  lemma {:induction false} EveryRoundApplies(s: Snapshot, e: Extraction, rules: Rules, entities: map<string, Document>, realTime: int)
    requires Shows(s, rules.norm, entities)
    ensures var ops := Operations(s, e, rules);
            Preflight.Executed(entities, ops, realTime, |ops|) == Ok(After(entities, ops, realTime))
  {
    PreflightPasses(s, e, rules);
    Preflight.PreflightRefinesExecution(ListedDocuments(s), entities, Operations(s, e, rules), realTime);
  }

  // What a projection of the Vault shows

  ghost predicate Holds(entities: map<string, Document>, norm: string -> string, q: Query, id: string) {
    id in entities && Hits(q, RowOf(norm, entities[id]))
  }

  lemma ShownHits(s: Snapshot, norm: string -> string, entities: map<string, Document>, q: Query, id: string)
    requires Shows(s, norm, entities) && WellKeyed(entities)
    ensures HitBy(BindableRows(s), q, id) <==> Holds(entities, norm, q, id)
  {
    var rows, documents := BindableRows(s), ListedDocuments(s);
    assert forall i :: 0 <= i < |rows| ==> rows[i] == RowOf(norm, documents[i]);
    if Holds(entities, norm, q, id) {
      var i :| 0 <= i < |documents| && documents[i].entity.id == id;
      assert Hits(q, rows[i]) && rows[i].id == id;
    }
  }

  lemma {:induction false} ShownView(s: Snapshot, norm: string -> string, entities: map<string, Document>, id: string)
    requires Shows(s, norm, entities) && WellKeyed(entities)
    ensures FindView(s.bindable, id).Some? <==> id in entities
    ensures id in entities ==> FindView(s.bindable, id).value.document == entities[id]
  {
    FindViewFinds(s.bindable, id);
    var documents := ListedDocuments(s);
    assert forall i :: 0 <= i < |documents| ==> documents[i] == s.bindable[i].document && documents[i].entity.id == s.bindable[i].row.id;
    if id in entities {
      var i :| 0 <= i < |documents| && documents[i].entity.id == id;
    }
  }

  // What operations do to the Vault

  predicate SameIdentity(a: Document, b: Document) {
    && a.entity.id == b.entity.id && a.entity.etype == b.entity.etype && a.entity.name == b.entity.name
    && a.entity.visibility == b.entity.visibility && a.aliases == b.aliases
  }

  predicate NoUpdates(ops: seq<Operation>) {
    forall i :: 0 <= i < |ops| ==> !ops[i].UpdateEntity?
  }

  ghost predicate CreatedBy(ops: seq<Operation>, k: nat, realTime: int, id: string, document: Document)
    requires k <= |ops|
  {
    exists i :: 0 <= i < k && ops[i].CreateEntity? && ops[i].entityId == id && SameIdentity(CreatedDocument(ops[i], realTime), document)
  }

  /** What one operation that is no update does to the Vault. */
  lemma OneOperationKeepsIdentities(before: map<string, Document>, op: Operation, realTime: int)
    requires !op.UpdateEntity? && Effect(before, op, realTime).Ok?
    ensures var now := before[op.entityId := Effect(before, op, realTime).value];
            && (forall id :: id in before ==> id in now && SameIdentity(before[id], now[id]))
            && (forall id :: id in now && id !in before ==> op.CreateEntity? && id == op.entityId && now[id] == CreatedDocument(op, realTime))
            && (op.CreateEntity? ==> op.entityId in now)
  {
  }

  /** The old entities keep their identities, and the new ones are those the operations create. */
  ghost predicate KeepsIdentities(entities: map<string, Document>, ops: seq<Operation>, realTime: int, k: nat, now: map<string, Document>)
    requires k <= |ops|
  {
    && (forall id :: id in entities ==> id in now && SameIdentity(entities[id], now[id]))
    && (forall id :: id in now ==> id in entities || CreatedBy(ops, k, realTime, id, now[id]))
    && (forall i :: 0 <= i < k && ops[i].CreateEntity? ==> ops[i].entityId in now)
  }

  lemma CreatedStays(ops: seq<Operation>, k: nat, realTime: int, id: string, was: Document, now: Document)
    requires 0 < k <= |ops| && CreatedBy(ops, k - 1, realTime, id, was) && SameIdentity(was, now)
    ensures CreatedBy(ops, k, realTime, id, now)
  {
    var i :| 0 <= i < k - 1 && ops[i].CreateEntity? && ops[i].entityId == id && SameIdentity(CreatedDocument(ops[i], realTime), was);
    assert SameIdentity(CreatedDocument(ops[i], realTime), now);
  }

  lemma StepKeepsIdentities(entities: map<string, Document>, ops: seq<Operation>, realTime: int, k: nat, before: map<string, Document>, now: map<string, Document>)
    requires 0 < k <= |ops| && KeepsIdentities(entities, ops, realTime, k - 1, before)
    requires forall id :: id in before ==> id in now && SameIdentity(before[id], now[id])
    requires forall id :: id in now && id !in before ==>
               ops[k - 1].CreateEntity? && id == ops[k - 1].entityId && now[id] == CreatedDocument(ops[k - 1], realTime)
    requires ops[k - 1].CreateEntity? ==> ops[k - 1].entityId in now
    ensures KeepsIdentities(entities, ops, realTime, k, now)
  {
    forall id | id in now && id !in entities
      ensures CreatedBy(ops, k, realTime, id, now[id])
    {
      if id in before {
        CreatedStays(ops, k, realTime, id, before[id], now[id]);
      } else {
        assert SameIdentity(CreatedDocument(ops[k - 1], realTime), now[id]);
      }
    }
  }

  lemma {:induction false} ExecutionKeepsIdentities(entities: map<string, Document>, ops: seq<Operation>, realTime: int, k: nat)
    requires k <= |ops| && NoUpdates(ops) && Preflight.Executed(entities, ops, realTime, k).Ok?
    ensures KeepsIdentities(entities, ops, realTime, k, Preflight.Executed(entities, ops, realTime, k).value)
  {
    if k > 0 {
      ExecutionKeepsIdentities(entities, ops, realTime, k - 1);
      var before := Preflight.Executed(entities, ops, realTime, k - 1).value;
      Preflight.ExecutedStep(entities, ops, realTime, k);
      OneOperationKeepsIdentities(before, ops[k - 1], realTime);
      StepKeepsIdentities(entities, ops, realTime, k, before, Preflight.Executed(entities, ops, realTime, k).value);
    }
  }

  lemma {:induction false} OperationsHaveNoUpdates(s: Snapshot, e: Extraction, rules: Rules, k: nat, n: nat)
    requires k <= |e.candidates| && n <= |e.claims|
    ensures forall i :: 0 <= i < |CreatesUpTo(s, e, rules, k).ops| ==> CreatesUpTo(s, e, rules, k).ops[i].CreateEntity?
    ensures forall i :: 0 <= i < |AppendsUpTo(s, e, rules.norm, n).ops| ==> AppendsUpTo(s, e, rules.norm, n).ops[i].AppendFact?
    decreases k + n
  {
    if k > 0 {
      OperationsHaveNoUpdates(s, e, rules, k - 1, n);
    }
    if n > 0 {
      OperationsHaveNoUpdates(s, e, rules, k, n - 1);
    }
  }

  // A round leaves nothing to create

  lemma {:induction false} EmittedAreCreated(s: Snapshot, e: Extraction, rules: Rules, k: nat, id: string)
    requires k <= |e.candidates| && id in CreatesUpTo(s, e, rules, k).emitted
    ensures exists i :: 0 <= i < |CreatesUpTo(s, e, rules, k).ops| && CreatesUpTo(s, e, rules, k).ops[i].entityId == id
  {
    if k > 0 {
      var before, now := CreatesUpTo(s, e, rules, k - 1), CreatesUpTo(s, e, rules, k);
      if id in before.emitted {
        EmittedAreCreated(s, e, rules, k - 1, id);
        var i :| 0 <= i < |before.ops| && before.ops[i].entityId == id;
        assert now.ops[i].entityId == id;
      } else {
        assert now.ops[|before.ops|].entityId == id;
      }
    }
  }

  lemma {:induction false} EmittedGrows(s: Snapshot, e: Extraction, rules: Rules, k: nat, n: nat)
    requires k <= n <= |e.candidates|
    ensures CreatesUpTo(s, e, rules, k).emitted <= CreatesUpTo(s, e, rules, n).emitted
  {
    if k < n {
      EmittedGrows(s, e, rules, k, n - 1);
    }
  }

  /** One round done: `later` is the Vault after applying what was produced from `entities`. */
  ghost predicate RoundDone(s: Snapshot, e: Extraction, rules: Rules, entities: map<string, Document>, realTime: int, later: map<string, Document>) {
    && WellKeyed(entities) && Shows(s, rules.norm, entities)
    && later == After(entities, Operations(s, e, rules), realTime)
  }

  lemma {:induction false} RoundKeepsIdentities(s: Snapshot, e: Extraction, rules: Rules, entities: map<string, Document>, realTime: int, later: map<string, Document>)
    requires RoundDone(s, e, rules, entities, realTime, later)
    ensures forall id :: id in entities ==> id in later && SameIdentity(entities[id], later[id])
    ensures forall id :: id in later && id !in entities ==> CreatedBy(Operations(s, e, rules), |Operations(s, e, rules)|, realTime, id, later[id])
    ensures WellKeyed(later)
    ensures forall id :: id in CreatesUpTo(s, e, rules, |e.candidates|).emitted ==> id in later
  {
    var ops := Operations(s, e, rules);
    EveryRoundApplies(s, e, rules, entities, realTime);
    OperationsHaveNoUpdates(s, e, rules, |e.candidates|, |e.claims|);
    ExecutionKeepsIdentities(entities, ops, realTime, |ops|);
    var creates := CreatesUpTo(s, e, rules, |e.candidates|);
    forall id | id in creates.emitted
      ensures id in later
    {
      EmittedAreCreated(s, e, rules, |e.candidates|, id);
      var i :| 0 <= i < |creates.ops| && creates.ops[i].entityId == id;
      assert ops[i].entityId in later;
    }
  }

  lemma MatchesPersist(s: Snapshot, s': Snapshot, norm: string -> string, entities: map<string, Document>, later: map<string, Document>, text: string)
    requires WellKeyed(entities) && WellKeyed(later) && Shows(s, norm, entities) && Shows(s', norm, later)
    requires forall id :: id in entities ==> id in later && SameIdentity(entities[id], later[id])
    requires MatchRows(BindableRows(s) + ConflictRows(s), text) != []
    ensures MatchRows(BindableRows(s') + ConflictRows(s'), text) != []
  {
    assert BindableRows(s) + ConflictRows(s) == BindableRows(s) && BindableRows(s') + ConflictRows(s') == BindableRows(s');
    MatchesAreExact(BindableRows(s), text);
    MatchesAreExact(BindableRows(s'), text);
    var id := MatchRows(BindableRows(s), text)[0];
    assert id in MatchRows(BindableRows(s), text);
    var q := if HitBy(BindableRows(s), NameAny(text), id) then NameAny(text) else AliasAny(text);
    ShownHits(s, norm, entities, q, id);
    ShownHits(s', norm, later, q, id);
    assert id in MatchRows(BindableRows(s'), text);
  }

  function IdFor(e: Extraction, rules: Rules, i: nat): string
    requires i < |e.candidates|
  {
    AllocatedHas(e.candidates, rules, |e.candidates|);
    Allocated(e.candidates, rules, |e.candidates|)[e.candidates[i].candidateId]
  }

  /** A candidate that leaves its id untaken is refused for the extraction's own reasons or for its name. */
  lemma {:induction false} UntakenIdReason(s: Snapshot, e: Extraction, rules: Rules, i: nat)
    requires i < |e.candidates| && s.conflicts == []
    requires FindView(s.bindable, IdFor(e, rules, i)).None?
    requires IdFor(e, rules, i) !in CreatesUpTo(s, e, rules, |e.candidates|).emitted
    ensures var text := rules.norm(e.candidates[i].displayName);
            || MatchRows(BindableRows(s) + ConflictRows(s), text) != []
            || NameCount(e.candidates, rules.norm, text, |e.candidates|) > 1
            || ClaimantCount(e.candidates, rules, IdFor(e, rules, i), |e.candidates|) > 1
  {
    EmittedGrows(s, e, rules, i, |e.candidates|);
    EmittedGrows(s, e, rules, i + 1, |e.candidates|);
    EmitTakesId(s, e, rules, i);
    OmitReasons(s, e, rules, i, CreatesUpTo(s, e, rules, i).emitted);
  }

  lemma EmitTakesId(s: Snapshot, e: Extraction, rules: Rules, i: nat)
    requires i < |e.candidates|
    ensures CandidateVerdict(s, e, rules, i, CreatesUpTo(s, e, rules, i).emitted).Emit? ==>
              IdFor(e, rules, i) in CreatesUpTo(s, e, rules, i + 1).emitted
  {
  }

  lemma {:induction false} OmitReasons(s: Snapshot, e: Extraction, rules: Rules, i: nat, emitted: set<string>)
    requires i < |e.candidates|
    ensures CandidateVerdict(s, e, rules, i, emitted).Omit? ==>
              var text, id := rules.norm(e.candidates[i].displayName), IdFor(e, rules, i);
              || MatchRows(BindableRows(s) + ConflictRows(s), text) != []
              || NameCount(e.candidates, rules.norm, text, |e.candidates|) > 1
              || ClaimantCount(e.candidates, rules, id, |e.candidates|) > 1
              || FindView(s.bindable, id).Some? || id in ConflictIds(s) || id in emitted
  {
  }

  lemma NextVerdict(s: Snapshot, s': Snapshot, e: Extraction, rules: Rules, entities: map<string, Document>, realTime: int,
                    later: map<string, Document>, i: nat, emitted: set<string>)
    requires RoundDone(s, e, rules, entities, realTime, later) && Shows(s', rules.norm, later) && i < |e.candidates|
    ensures CandidateVerdict(s', e, rules, i, emitted).Omit?
  {
    RoundKeepsIdentities(s, e, rules, entities, realTime, later);
    var id := IdFor(e, rules, i);
    ShownView(s', rules.norm, later, id);
    if id !in later {
      ShownView(s, rules.norm, entities, id);
      UntakenIdReason(s, e, rules, i);
      var text := rules.norm(e.candidates[i].displayName);
      if MatchRows(BindableRows(s) + ConflictRows(s), text) != [] {
        MatchesPersist(s, s', rules.norm, entities, later, text);
      }
    }
  }

  /** After one round has been applied the next one creates nothing. */
  lemma {:induction false} NextRoundCreatesNothing(s: Snapshot, s': Snapshot, e: Extraction, rules: Rules, entities: map<string, Document>, realTime: int,
                                                   later: map<string, Document>, k: nat)
    requires RoundDone(s, e, rules, entities, realTime, later) && Shows(s', rules.norm, later) && k <= |e.candidates|
    ensures CreatesUpTo(s', e, rules, k).ops == []
  {
    if k > 0 {
      NextRoundCreatesNothing(s, s', e, rules, entities, realTime, later, k - 1);
      NextVerdict(s, s', e, rules, entities, realTime, later, k - 1, CreatesUpTo(s', e, rules, k - 1).emitted);
    }
  }

  // References

  lemma KeptReference(rows: seq<Row>, rows': seq<Row>, text: string, etype: EntityType, id: string)
    requires Sole(ResolveRows(rows, text, etype)) == Some(id)
    requires forall q, other :: HitBy(rows, q, other) ==> HitBy(rows', q, other)
    requires forall q, other :: HitBy(rows', q, other) && !HitBy(rows, q, other) ==>
               MatchRows(rows, QueryText(q)) == []
    ensures Sole(ResolveRows(rows', text, etype)) == Some(id)
  {
    ResolvesIff(rows, text, etype, id);
    ResolvesIff(rows', text, etype, id);
    MatchesAreExact(rows, text);
    var qName, qAlias := TypeName(etype, text), TypeAlias(etype, text);
    assert HitBy(rows, qName, id) || HitBy(rows, qAlias, id);
    Untyped(rows, qName, id);
    Untyped(rows, qAlias, id);
    assert MatchRows(rows, text) != [];
    assert forall other :: HitBy(rows', qName, other) ==> HitBy(rows, qName, other);
    assert forall other :: HitBy(rows', qAlias, other) ==> HitBy(rows, qAlias, other);
  }

  function QueryText(q: Query): string {
    q.text
  }

  lemma Untyped(rows: seq<Row>, q: Query, id: string)
    requires Typed(q)
    ensures HitBy(rows, q, id) ==> HitBy(rows, if q.TypeName? then NameAny(q.text) else AliasAny(q.text), id)
  {
    if HitBy(rows, q, id) {
      var k :| 0 <= k < |rows| && Hits(q, rows[k]) && rows[k].id == id;
      assert Hits(if q.TypeName? then NameAny(q.text) else AliasAny(q.text), rows[k]);
    }
  }

  /** A created entity carries a name nothing in the projection carried, and no alias. */
  lemma {:induction false} CreatedNamesAreNew(s: Snapshot, e: Extraction, rules: Rules, k: nat, i: nat)
    requires k <= |e.candidates| && i < |CreatesUpTo(s, e, rules, k).ops|
    ensures CreatesUpTo(s, e, rules, k).ops[i].CreateEntity?
    ensures MatchRows(BindableRows(s) + ConflictRows(s), rules.norm(CreatesUpTo(s, e, rules, k).ops[i].name)) == []
  {
    if k > 0 && i < |CreatesUpTo(s, e, rules, k - 1).ops| {
      CreatedNamesAreNew(s, e, rules, k - 1, i);
    }
  }

  lemma NewHitsAreNew(s: Snapshot, s': Snapshot, e: Extraction, rules: Rules, entities: map<string, Document>, realTime: int,
                      later: map<string, Document>, q: Query, other: string)
    requires RoundDone(s, e, rules, entities, realTime, later) && Shows(s', rules.norm, later)
    requires HitBy(BindableRows(s'), q, other) && !HitBy(BindableRows(s), q, other)
    ensures MatchRows(BindableRows(s), QueryText(q)) == []
  {
    RoundKeepsIdentities(s, e, rules, entities, realTime, later);
    OperationsHaveNoUpdates(s, e, rules, |e.candidates|, |e.claims|);
    ShownHits(s, rules.norm, entities, q, other);
    ShownHits(s', rules.norm, later, q, other);
    assert other !in entities;
    var ops := Operations(s, e, rules);
    var i :| 0 <= i < |ops| && ops[i].CreateEntity? && ops[i].entityId == other && SameIdentity(CreatedDocument(ops[i], realTime), later[other]);
    CreatedNamesAreNew(s, e, rules, |e.candidates|, i);
    assert BindableRows(s) + ConflictRows(s) == BindableRows(s);
  }

  /** What one round binds the next one binds alike: new entities never disturb a resolved reference. */
  lemma ResolvedReferencesStay(s: Snapshot, s': Snapshot, e: Extraction, rules: Rules, entities: map<string, Document>, realTime: int,
                               later: map<string, Document>, text: string, etype: EntityType, id: string)
    requires RoundDone(s, e, rules, entities, realTime, later) && Shows(s', rules.norm, later)
    requires Sole(ResolveRows(BindableRows(s), text, etype)) == Some(id)
    ensures Sole(ResolveRows(BindableRows(s'), text, etype)) == Some(id)
  {
    RoundKeepsIdentities(s, e, rules, entities, realTime, later);
    forall q, other | HitBy(BindableRows(s), q, other)
      ensures HitBy(BindableRows(s'), q, other)
    {
      ShownHits(s, rules.norm, entities, q, other);
      ShownHits(s', rules.norm, later, q, other);
    }
    forall q, other | HitBy(BindableRows(s'), q, other) && !HitBy(BindableRows(s), q, other)
      ensures MatchRows(BindableRows(s), QueryText(q)) == []
    {
      NewHitsAreNew(s, s', e, rules, entities, realTime, later, q, other);
    }
    KeptReference(BindableRows(s), BindableRows(s'), text, etype, id);
  }

  // Rounds without creates

  /** Two Vaults with the same entities up to revision and body. */
  ghost predicate SameIdentities(entities: map<string, Document>, later: map<string, Document>) {
    && entities.Keys == later.Keys
    && forall id :: id in entities ==> SameIdentity(entities[id], later[id])
  }

  lemma SameHits(s: Snapshot, s': Snapshot, norm: string -> string, entities: map<string, Document>, later: map<string, Document>)
    requires WellKeyed(entities) && WellKeyed(later) && Shows(s, norm, entities) && Shows(s', norm, later)
    requires SameIdentities(entities, later)
    ensures forall q, id :: HitBy(BindableRows(s), q, id) <==> HitBy(BindableRows(s'), q, id)
  {
    forall q, id
      ensures HitBy(BindableRows(s), q, id) <==> HitBy(BindableRows(s'), q, id)
    {
      ShownHits(s, norm, entities, q, id);
      ShownHits(s', norm, later, q, id);
    }
  }

  lemma SameResolution(rows: seq<Row>, rows': seq<Row>, text: string, etype: EntityType)
    requires forall q, id :: HitBy(rows, q, id) <==> HitBy(rows', q, id)
    ensures Sole(ResolveRows(rows, text, etype)) == Sole(ResolveRows(rows', text, etype))
  {
    forall id
      ensures Sole(ResolveRows(rows, text, etype)) == Some(id) <==> Sole(ResolveRows(rows', text, etype)) == Some(id)
    {
      ResolvesIff(rows, text, etype, id);
      ResolvesIff(rows', text, etype, id);
    }
    var a, b := Sole(ResolveRows(rows, text, etype)), Sole(ResolveRows(rows', text, etype));
    assert a.Some? ==> b == Some(a.value);
    assert b.Some? ==> a == Some(b.value);
  }

  lemma {:induction false} SameTargets(rows: seq<Row>, rows': seq<Row>, norm: string -> string, claim: Claim, k: nat)
    requires k <= |claim.references| && forall q, id :: HitBy(rows, q, id) <==> HitBy(rows', q, id)
    ensures var a, b := ReferencesUpTo(rows, norm, claim, k), ReferencesUpTo(rows', norm, claim, k);
            a.targets == b.targets && a.missed == b.missed
  {
    if k > 0 {
      SameTargets(rows, rows', norm, claim, k - 1);
      SameResolution(rows, rows', norm(claim.references[k - 1].text), claim.references[k - 1].etype);
    }
  }

  /** The id a claim is aimed at. */
  function Aim(s: Snapshot, e: Extraction, norm: string -> string, claim: Claim): Option<string> {
    var target := TargetOf(s, e, norm, claim);
    if target.Ok? then Some(target.value.row.id) else None
  }

  ghost predicate SameViews(views: seq<View>, views': seq<View>, id: string) {
    var a, b := FindView(views, id), FindView(views', id);
    && (a.Some? <==> b.Some?)
    && (a.Some? ==>
          && a.value.document.entity.visibility == b.value.document.entity.visibility
          && a.value.row.id == id && b.value.row.id == id)
  }

  lemma ShownSameViews(s: Snapshot, s': Snapshot, norm: string -> string, entities: map<string, Document>, later: map<string, Document>, id: string)
    requires WellKeyed(entities) && WellKeyed(later) && Shows(s, norm, entities) && Shows(s', norm, later)
    requires SameIdentities(entities, later)
    ensures SameViews(s.bindable, s'.bindable, id)
  {
    ShownView(s, norm, entities, id);
    ShownView(s', norm, later, id);
    FindViewFinds(s.bindable, id);
    FindViewFinds(s'.bindable, id);
  }

  lemma SameAimFrom(a: References, b: References, claim: Claim, views: seq<View>, views': seq<View>)
    requires a.targets == b.targets && a.missed == b.missed
    requires a.targets != [] ==> SameViews(views, views', a.targets[0])
    ensures var t, t' := TargetFrom(a, claim, views), TargetFrom(b, claim, views');
            (t.Ok? <==> t'.Ok?) && (t.Ok? ==> t.value.row.id == t'.value.row.id)
  {
  }

  lemma SameAim(s: Snapshot, s': Snapshot, e: Extraction, norm: string -> string, claim: Claim, entities: map<string, Document>, later: map<string, Document>)
    requires WellKeyed(entities) && WellKeyed(later) && Shows(s, norm, entities) && Shows(s', norm, later)
    requires SameIdentities(entities, later)
    ensures Aim(s, e, norm, claim) == Aim(s', e, norm, claim)
  {
    SameHits(s, s', norm, entities, later);
    SameTargets(BindableRows(s), BindableRows(s'), norm, claim, |claim.references|);
    var found := ReferencesUpTo(BindableRows(s), norm, claim, |claim.references|);
    var found' := ReferencesUpTo(BindableRows(s'), norm, claim, |claim.references|);
    if found.targets != [] {
      ShownSameViews(s, s', norm, entities, later, found.targets[0]);
    }
    SameAimFrom(found, found', claim, s.bindable, s'.bindable);
  }

  lemma AimIsShown(s: Snapshot, e: Extraction, norm: string -> string, claim: Claim, entities: map<string, Document>)
    requires WellKeyed(entities) && Shows(s, norm, entities) && Aim(s, e, norm, claim).Some?
    ensures Aim(s, e, norm, claim).value in entities
    ensures TargetOf(s, e, norm, claim).value.document == entities[Aim(s, e, norm, claim).value]
  {
    TargetIsView(s, e, norm, claim);
    ShownView(s, norm, entities, Aim(s, e, norm, claim).value);
  }

  // What the appends say

  /** The fact of claim `j` is proposed for `id`. */
  ghost predicate Proposed(s: Snapshot, e: Extraction, norm: string -> string, id: string, fact: string, k: nat)
    requires k <= |e.claims|
  {
    exists j :: 0 <= j < k && e.claims[j].text == fact && Wanted(s, e, norm, j, id)
  }

  /** Claim `j` is aimed at `id`, whose body does not have its fact yet. */
  ghost predicate Wanted(s: Snapshot, e: Extraction, norm: string -> string, j: nat, id: string)
    requires j < |e.claims|
  {
    var target := TargetOf(s, e, norm, e.claims[j]);
    target.Ok? && target.value.row.id == id && !FactLines.BodyContains(target.value.document.body, e.claims[j].text)
  }

  predicate Appended(ops: seq<Operation>, id: string, fact: string) {
    exists i :: 0 <= i < |ops| && ops[i].AppendFact? && ops[i].entityId == id && ops[i].fact == fact
  }

  /** One claim appends its fact exactly when it is new: not there, and not proposed yet. */
  lemma StepAppends(st: Appends, claim: Claim, target: Result<View, seq<Unresolved>>, id: string, fact: string)
    requires (id, fact) in st.facts <==> Appended(st.ops, id, fact)
    ensures var now := AppendStep(st, claim, target);
            var wanted := claim.text == fact && target.Ok? && target.value.row.id == id
                          && !FactLines.BodyContains(target.value.document.body, fact);
            && ((id, fact) in now.facts <==> Appended(now.ops, id, fact))
            && (Appended(now.ops, id, fact) <==> Appended(st.ops, id, fact) || wanted)
  {
    var now := AppendStep(st, claim, target);
    if now.ops != st.ops {
      AppendedSnoc(st.ops, now.ops[|st.ops|], id, fact);
    }
  }

  /** The appends propose each wanted fact, and nothing else. */
  lemma {:induction false} AppendsAreWanted(s: Snapshot, e: Extraction, norm: string -> string, k: nat, id: string, fact: string)
    requires k <= |e.claims|
    ensures var st := AppendsUpTo(s, e, norm, k);
            && (Appended(st.ops, id, fact) <==> Proposed(s, e, norm, id, fact, k))
            && ((id, fact) in st.facts <==> Appended(st.ops, id, fact))
  {
    if k > 0 {
      AppendsAreWanted(s, e, norm, k - 1, id, fact);
      StepAppends(AppendsUpTo(s, e, norm, k - 1), e.claims[k - 1], TargetOf(s, e, norm, e.claims[k - 1]), id, fact);
      ProposedSnoc(s, e, norm, id, fact, k);
    }
  }

  lemma ProposedSnoc(s: Snapshot, e: Extraction, norm: string -> string, id: string, fact: string, k: nat)
    requires 0 < k <= |e.claims|
    ensures Proposed(s, e, norm, id, fact, k) <==>
            Proposed(s, e, norm, id, fact, k - 1) || (e.claims[k - 1].text == fact && Wanted(s, e, norm, k - 1, id))
  {
  }

  lemma AppendedSnoc(ops: seq<Operation>, op: Operation, id: string, fact: string)
    ensures Appended(ops + [op], id, fact) <==> Appended(ops, id, fact) || (op.AppendFact? && op.entityId == id && op.fact == fact)
  {
    if Appended(ops, id, fact) {
      var i :| 0 <= i < |ops| && ops[i].AppendFact? && ops[i].entityId == id && ops[i].fact == fact;
      assert (ops + [op])[i] == ops[i];
    }
    assert (ops + [op])[|ops|] == op;
  }

  // What the appends do to the bodies

  /** Creates, and appends of single lines. */
  ghost predicate ValidOperations(ops: seq<Operation>) {
    forall i :: 0 <= i < |ops| ==> !ops[i].UpdateEntity? && (ops[i].AppendFact? ==> FactLines.SingleLine(ops[i].fact))
  }

  ghost predicate BodyFollows(before: string, now: string, ops: seq<Operation>, id: string) {
    && (FactLines.EndsWithCr(now) <==> FactLines.EndsWithCr(before))
    && (!FactLines.EndsWithCr(before) ==>
          forall g :: FactLines.BodyContains(now, g) <==> FactLines.BodyContains(before, g) || Appended(ops, id, g))
    && (FactLines.EndsWithCr(before) ==>
          forall g :: FactLines.SingleLine(g) && FactLines.BodyContains(now, g) ==> FactLines.BodyContains(before, g))
    && ((forall i :: 0 <= i < |ops| ==> ops[i].entityId != id) ==> now == before)
  }

  lemma BodyFollowsOneMore(before: string, mid: string, ops: seq<Operation>, op: Operation, id: string)
    requires BodyFollows(before, mid, ops, id) && op.AppendFact? && FactLines.SingleLine(op.fact)
    ensures BodyFollows(before, if op.entityId == id then FactLines.AppendFactToBody(mid, op.fact) else mid, ops + [op], id)
  {
    var now := if op.entityId == id then FactLines.AppendFactToBody(mid, op.fact) else mid;
    assert (ops + [op])[|ops|] == op;
    assert forall i :: 0 <= i < |ops| ==> (ops + [op])[i] == ops[i];
    forall g
      ensures Appended(ops + [op], id, g) <==> Appended(ops, id, g) || (op.entityId == id && op.fact == g)
      ensures op.entityId == id && !FactLines.EndsWithCr(mid) ==>
                (FactLines.BodyContains(now, g) <==> FactLines.BodyContains(mid, g) || op.fact == g) && !FactLines.EndsWithCr(now)
      ensures op.entityId == id && FactLines.EndsWithCr(mid) && FactLines.SingleLine(g) && FactLines.BodyContains(now, g) ==> FactLines.BodyContains(mid, g)
    {
      AppendedSnoc(ops, op, id, g);
      if op.entityId == id && !FactLines.EndsWithCr(mid) {
        FactLines.AppendAddsExactly(mid, op.fact, g);
      }
      if op.entityId == id && FactLines.EndsWithCr(mid) && FactLines.SingleLine(g) {
        FactLines.AppendAfterLoneCrAddsNothing(mid, op.fact, g);
      }
    }
    if op.entityId == id && FactLines.EndsWithCr(mid) {
      FactLines.AppendAfterLoneCrAddsNothing(mid, op.fact, op.fact);
    }
    if op.entityId == id && !FactLines.EndsWithCr(mid) {
      FactLines.AppendAddsExactly(mid, op.fact, op.fact);
    }
  }

  lemma OneOperationOnBody(before: map<string, Document>, op: Operation, realTime: int, id: string)
    requires !op.UpdateEntity? && id in before && Effect(before, op, realTime).Ok?
    ensures var now := before[op.entityId := Effect(before, op, realTime).value];
            && id in now
            && now[id].body == if op.AppendFact? && op.entityId == id then FactLines.AppendFactToBody(before[id].body, op.fact) else before[id].body
  {
  }

  /** The body of one entity after a sequence of appends. */
  function BodyAfter(body: string, ops: seq<Operation>, id: string): string {
    if ops == [] then body
    else
      var last := ops[|ops| - 1];
      var before := BodyAfter(body, ops[..|ops| - 1], id);
      if last.AppendFact? && last.entityId == id then FactLines.AppendFactToBody(before, last.fact) else before
  }

  lemma {:induction false} BodyAfterFollows(body: string, ops: seq<Operation>, id: string)
    requires ValidOperations(ops)
    ensures BodyFollows(body, BodyAfter(body, ops, id), ops, id)
  {
    if ops != [] {
      var front, last := ops[..|ops| - 1], ops[|ops| - 1];
      assert ops == front + [last];
      BodyAfterFollows(body, front, id);
      if last.AppendFact? {
        BodyFollowsOneMore(body, BodyAfter(body, front, id), front, last, id);
      } else {
        BodyFollowsCreate(body, BodyAfter(body, front, id), front, last, id);
      }
    }
  }

  lemma BodyFollowsCreate(before: string, now: string, ops: seq<Operation>, op: Operation, id: string)
    requires BodyFollows(before, now, ops, id) && !op.AppendFact?
    ensures BodyFollows(before, now, ops + [op], id)
  {
    forall g
      ensures Appended(ops + [op], id, g) <==> Appended(ops, id, g)
    {
      AppendedSnoc(ops, op, id, g);
    }
    assert forall i :: 0 <= i < |ops| ==> (ops + [op])[i] == ops[i];
  }

  lemma {:induction false} ExecutionAppends(entities: map<string, Document>, ops: seq<Operation>, realTime: int, k: nat, id: string)
    requires k <= |ops| && id in entities && NoUpdates(ops)
    requires Preflight.Executed(entities, ops, realTime, k).Ok?
    ensures var now := Preflight.Executed(entities, ops, realTime, k).value;
            id in now && now[id].body == BodyAfter(entities[id].body, ops[..k], id)
  {
    if k > 0 {
      Preflight.ExecutedStep(entities, ops, realTime, k);
      ExecutionAppends(entities, ops, realTime, k - 1, id);
      OneOperationOnBody(Preflight.Executed(entities, ops, realTime, k - 1).value, ops[k - 1], realTime, id);
      assert ops[..k][..k - 1] == ops[..k - 1];
    }
  }

  lemma {:induction false} BodiesFollow(entities: map<string, Document>, ops: seq<Operation>, realTime: int, id: string)
    requires ValidOperations(ops) && id in entities
    requires Preflight.Executed(entities, ops, realTime, |ops|).Ok?
    ensures var now := Preflight.Executed(entities, ops, realTime, |ops|).value;
            && id in now && BodyFollows(entities[id].body, now[id].body, ops, id)
            && ((forall i :: 0 <= i < |ops| ==> ops[i].AppendFact?) ==> now.Keys == entities.Keys)
  {
    ExecutionKeepsIdentities(entities, ops, realTime, |ops|);
    ExecutionAppends(entities, ops, realTime, |ops|, id);
    BodyAfterFollows(entities[id].body, ops, id);
    assert ops[..|ops|] == ops;
  }

  lemma StepIsValid(st: Appends, claim: Claim, target: Result<View, seq<Unresolved>>)
    requires ValidOperations(st.ops) && FactLines.SingleLine(claim.text)
    ensures ValidOperations(AppendStep(st, claim, target).ops)
  {
  }

  lemma {:induction false} AppendsAreValid(s: Snapshot, e: Extraction, norm: string -> string, k: nat)
    requires ValidTexts(e) && k <= |e.claims|
    ensures ValidOperations(AppendsUpTo(s, e, norm, k).ops)
  {
    if k > 0 {
      AppendsAreValid(s, e, norm, k - 1);
      StepIsValid(AppendsUpTo(s, e, norm, k - 1), e.claims[k - 1], TargetOf(s, e, norm, e.claims[k - 1]));
    }
  }

  /** In every round the bodies that were there follow the operations. */
  lemma RoundBodies(s: Snapshot, e: Extraction, rules: Rules, entities: map<string, Document>, realTime: int, later: map<string, Document>)
    requires RoundDone(s, e, rules, entities, realTime, later) && ValidTexts(e)
    ensures ValidOperations(Operations(s, e, rules))
    ensures forall id :: id in entities ==> id in later && BodyFollows(entities[id].body, later[id].body, Operations(s, e, rules), id)
  {
    var ops := Operations(s, e, rules);
    EveryRoundApplies(s, e, rules, entities, realTime);
    OperationsHaveNoUpdates(s, e, rules, |e.candidates|, |e.claims|);
    AppendsAreValid(s, e, rules.norm, |e.claims|);
    forall id | id in entities
      ensures id in later && BodyFollows(entities[id].body, later[id].body, ops, id)
    {
      BodiesFollow(entities, ops, realTime, id);
    }
  }

  /** A round that creates nothing: the identities stay and the bodies follow the appends. */
  lemma {:induction false} QuietRound(s: Snapshot, e: Extraction, rules: Rules, entities: map<string, Document>, realTime: int, later: map<string, Document>)
    requires RoundDone(s, e, rules, entities, realTime, later) && ValidTexts(e)
    requires CreatesUpTo(s, e, rules, |e.candidates|).ops == []
    ensures var ops := AppendsUpTo(s, e, rules.norm, |e.claims|).ops;
            && Operations(s, e, rules) == ops
            && SameIdentities(entities, later)
            && forall id :: id in entities ==> BodyFollows(entities[id].body, later[id].body, ops, id)
  {
    var ops := AppendsUpTo(s, e, rules.norm, |e.claims|).ops;
    assert Operations(s, e, rules) == ops;
    RoundKeepsIdentities(s, e, rules, entities, realTime, later);
    RoundBodies(s, e, rules, entities, realTime, later);
    OperationsHaveNoUpdates(s, e, rules, |e.candidates|, |e.claims|);
    assert forall i :: 0 <= i < |ops| ==> !ops[i].CreateEntity?;
  }

  // Convergence

  /** Every body a round appends to ends in something else than a lone carriage return. */
  predicate NoLoneCr(entities: map<string, Document>, ops: seq<Operation>) {
    forall i :: 0 <= i < |ops| && ops[i].entityId in entities ==> !FactLines.EndsWithCr(entities[ops[i].entityId].body)
  }

  lemma WantedByAim(s: Snapshot, e: Extraction, norm: string -> string, entities: map<string, Document>, j: nat, id: string)
    requires WellKeyed(entities) && Shows(s, norm, entities) && j < |e.claims|
    ensures Wanted(s, e, norm, j, id) <==>
            Aim(s, e, norm, e.claims[j]) == Some(id) && id in entities && !FactLines.BodyContains(entities[id].body, e.claims[j].text)
  {
    if Aim(s, e, norm, e.claims[j]).Some? {
      AimIsShown(s, e, norm, e.claims[j], entities);
    }
  }

  /** A fact missing after a quiet round although it was there or was appended: the body ended in a lone carriage return. */
  lemma FactAfterwards(before: string, now: string, ops: seq<Operation>, id: string, fact: string)
    requires BodyFollows(before, now, ops, id) && FactLines.SingleLine(fact)
    ensures !FactLines.BodyContains(now, fact) && (FactLines.BodyContains(before, fact) || Appended(ops, id, fact)) ==>
              FactLines.EndsWithCr(before) && exists i :: 0 <= i < |ops| && ops[i].entityId == id
    ensures FactLines.EndsWithCr(before) && !FactLines.BodyContains(before, fact) ==> !FactLines.BodyContains(now, fact)
  {
  }

  /** One claim across a quiet round, seen from the two Vaults. */
  lemma {:induction false} AcrossQuietRound(s: Snapshot, s': Snapshot, e: Extraction, rules: Rules, entities: map<string, Document>, realTime: int,
                                            later: map<string, Document>, j: nat, id: string)
    requires RoundDone(s, e, rules, entities, realTime, later) && ValidTexts(e) && Shows(s', rules.norm, later)
    requires CreatesUpTo(s, e, rules, |e.candidates|).ops == [] && j < |e.claims|
    ensures entities.Keys == later.Keys
    ensures var aimed := Aim(s, e, rules.norm, e.claims[j]) == Some(id) && id in entities;
            && (Wanted(s, e, rules.norm, j, id) <==> aimed && !FactLines.BodyContains(entities[id].body, e.claims[j].text))
            && (Wanted(s', e, rules.norm, j, id) <==> aimed && !FactLines.BodyContains(later[id].body, e.claims[j].text))
  {
    QuietRound(s, e, rules, entities, realTime, later);
    RoundKeepsIdentities(s, e, rules, entities, realTime, later);
    SameAim(s, s', e, rules.norm, e.claims[j], entities, later);
    WantedByAim(s, e, rules.norm, entities, j, id);
    WantedByAim(s', e, rules.norm, later, j, id);
  }

  /** A fact wanted after a quiet round was appended in it, after a lone carriage return. */
  lemma {:induction false} StillWanted(s: Snapshot, s': Snapshot, e: Extraction, rules: Rules, entities: map<string, Document>, realTime: int,
                                       later: map<string, Document>, j: nat, id: string)
    requires RoundDone(s, e, rules, entities, realTime, later) && ValidTexts(e) && Shows(s', rules.norm, later)
    requires CreatesUpTo(s, e, rules, |e.candidates|).ops == [] && j < |e.claims|
    ensures Wanted(s', e, rules.norm, j, id) ==> !NoLoneCr(entities, Operations(s, e, rules))
    ensures id in entities && Wanted(s, e, rules.norm, j, id) && FactLines.EndsWithCr(entities[id].body) ==> Wanted(s', e, rules.norm, j, id)
  {
    AcrossQuietRound(s, s', e, rules, entities, realTime, later, j, id);
    QuietRound(s, e, rules, entities, realTime, later);
    var aimed := Aim(s, e, rules.norm, e.claims[j]) == Some(id) && id in entities;
    if aimed {
      AppendsAreWanted(s, e, rules.norm, |e.claims|, id, e.claims[j].text);
      AimedFactAfterwards(entities, later, Operations(s, e, rules), id, e.claims[j].text);
    }
  }

  lemma AimedFactAfterwards(entities: map<string, Document>, later: map<string, Document>, ops: seq<Operation>, id: string, fact: string)
    requires id in entities && id in later && BodyFollows(entities[id].body, later[id].body, ops, id) && FactLines.SingleLine(fact)
    requires FactLines.BodyContains(entities[id].body, fact) || Appended(ops, id, fact)
    ensures !FactLines.BodyContains(later[id].body, fact) ==> !NoLoneCr(entities, ops)
    ensures FactLines.EndsWithCr(entities[id].body) && !FactLines.BodyContains(entities[id].body, fact) ==>
              !FactLines.BodyContains(later[id].body, fact)
  {
    FactAfterwards(entities[id].body, later[id].body, ops, id, fact);
  }

  /**
   The round after a quiet one has nothing to do exactly when the quiet one
   appended to no body that ends in a lone carriage return.
   */
  lemma {:induction false} QuietRoundsConverge(s: Snapshot, s': Snapshot, e: Extraction, rules: Rules, entities: map<string, Document>, realTime: int,
                                               later: map<string, Document>)
    requires RoundDone(s, e, rules, entities, realTime, later) && ValidTexts(e) && Shows(s', rules.norm, later)
    requires CreatesUpTo(s, e, rules, |e.candidates|).ops == []
    ensures Operations(s', e, rules) == [] <==> NoLoneCr(entities, Operations(s, e, rules))
  {
    var ops, next := AppendsUpTo(s, e, rules.norm, |e.claims|).ops, AppendsUpTo(s', e, rules.norm, |e.claims|).ops;
    QuietRound(s, e, rules, entities, realTime, later);
    NextRoundCreatesNothing(s, s', e, rules, entities, realTime, later, |e.candidates|);
    assert Operations(s', e, rules) == next;
    OperationsHaveNoUpdates(s, e, rules, 0, |e.claims|);
    OperationsHaveNoUpdates(s', e, rules, 0, |e.claims|);
    if next != [] {
      MoreToDo(s, s', e, rules, entities, realTime, later, next[0].entityId, next[0].fact);
    }
    if !NoLoneCr(entities, ops) {
      var i :| 0 <= i < |ops| && ops[i].entityId in entities && FactLines.EndsWithCr(entities[ops[i].entityId].body);
      RepeatedAfterCr(s, s', e, rules, entities, realTime, later, ops[i].entityId, ops[i].fact);
    }
  }

  /** An append of the next round means that this one appended after a lone carriage return. */
  lemma {:induction false} MoreToDo(s: Snapshot, s': Snapshot, e: Extraction, rules: Rules, entities: map<string, Document>, realTime: int,
                                    later: map<string, Document>, id: string, fact: string)
    requires RoundDone(s, e, rules, entities, realTime, later) && ValidTexts(e) && Shows(s', rules.norm, later)
    requires CreatesUpTo(s, e, rules, |e.candidates|).ops == []
    requires Appended(AppendsUpTo(s', e, rules.norm, |e.claims|).ops, id, fact)
    ensures !NoLoneCr(entities, Operations(s, e, rules))
  {
    AppendsAreWanted(s', e, rules.norm, |e.claims|, id, fact);
    var j :| 0 <= j < |e.claims| && e.claims[j].text == fact && Wanted(s', e, rules.norm, j, id);
    StillWanted(s, s', e, rules, entities, realTime, later, j, id);
  }

  /** What was appended after a lone carriage return is appended again. */
  lemma {:induction false} RepeatedAfterCr(s: Snapshot, s': Snapshot, e: Extraction, rules: Rules, entities: map<string, Document>, realTime: int,
                                           later: map<string, Document>, id: string, fact: string)
    requires RoundDone(s, e, rules, entities, realTime, later) && ValidTexts(e) && Shows(s', rules.norm, later)
    requires CreatesUpTo(s, e, rules, |e.candidates|).ops == []
    requires id in entities && FactLines.EndsWithCr(entities[id].body)
    requires Appended(AppendsUpTo(s, e, rules.norm, |e.claims|).ops, id, fact)
    ensures Appended(AppendsUpTo(s', e, rules.norm, |e.claims|).ops, id, fact)
  {
    AppendsAreWanted(s, e, rules.norm, |e.claims|, id, fact);
    var j :| 0 <= j < |e.claims| && e.claims[j].text == fact && Wanted(s, e, rules.norm, j, id);
    StillWanted(s, s', e, rules, entities, realTime, later, j, id);
    AppendsAreWanted(s', e, rules.norm, |e.claims|, id, fact);
    assert Proposed(s', e, rules.norm, id, fact, |e.claims|);
  }

  /** A body that ends in a lone carriage return was there before, and ended so. */
  lemma {:induction false} LoneCrsAreOld(entities: map<string, Document>, ops: seq<Operation>, realTime: int, k: nat, id: string)
    requires k <= |ops| && Preflight.Executed(entities, ops, realTime, k).Ok? && ValidOperations(ops)
    requires id in Preflight.Executed(entities, ops, realTime, k).value
    requires FactLines.EndsWithCr(Preflight.Executed(entities, ops, realTime, k).value[id].body)
    ensures id in entities && FactLines.EndsWithCr(entities[id].body)
  {
    if k > 0 {
      Preflight.ExecutedStep(entities, ops, realTime, k);
      var before, op := Preflight.Executed(entities, ops, realTime, k - 1).value, ops[k - 1];
      if op.AppendFact? && op.entityId == id && !FactLines.EndsWithCr(before[id].body) {
        FactLines.AppendAddsExactly(before[id].body, op.fact, "");
      }
      LoneCrsAreOld(entities, ops, realTime, k - 1, id);
    }
  }

  // From the second round back to the first

  /** Every reference finds `id` alone. */
  predicate AllResolve(rows: seq<Row>, norm: string -> string, claim: Claim, id: string, k: nat)
    requires k <= |claim.references|
  {
    forall i :: 0 <= i < k ==> Sole(ResolveRows(rows, norm(claim.references[i].text), claim.references[i].etype)) == Some(id)
  }

  lemma {:induction false} SoleTargetIff(rows: seq<Row>, norm: string -> string, claim: Claim, id: string, k: nat)
    requires k <= |claim.references|
    ensures var found := ReferencesUpTo(rows, norm, claim, k);
            && (found.targets == [id] && !found.missed <==> k > 0 && AllResolve(rows, norm, claim, id, k))
            && (found.targets == [] && !found.missed ==> k == 0)
  {
    if k > 0 {
      SoleTargetIff(rows, norm, claim, id, k - 1);
      var reference := claim.references[k - 1];
      SoleTargetStep(ReferencesUpTo(rows, norm, claim, k - 1), claim, reference, ResolveRows(rows, norm(reference.text), reference.etype), id);
      assert AllResolve(rows, norm, claim, id, k) <==>
             AllResolve(rows, norm, claim, id, k - 1) && Sole(ResolveRows(rows, norm(reference.text), reference.etype)) == Some(id);
    }
  }

  lemma SoleTargetStep(st: References, claim: Claim, reference: Reference, resolved: seq<string>, id: string)
    ensures var now := ReferenceStep(st, claim, reference, resolved);
            && (now.targets == [id] && !now.missed <==> (st.targets == [] || st.targets == [id]) && !st.missed && Sole(resolved) == Some(id))
            && (now.targets == [] ==> now.missed)
  {
    if |resolved| == 1 {
      assert st.targets == [] ==> AddUnique(st.targets, resolved[0]) == [resolved[0]];
      assert |st.targets| > 0 ==> AddUnique(st.targets, resolved[0])[0] == st.targets[0];
    }
  }

  /** The extraction itself allows the claim to be appended. */
  predicate MayAppend(e: Extraction, claim: Claim) {
    && Appendable(claim.kind)
    && !(claim.conflictGroup.Some? && GroupCount(e.claims, claim.conflictGroup.value, |e.claims|) > 1)
  }

  lemma AimIff(s: Snapshot, e: Extraction, norm: string -> string, claim: Claim, entities: map<string, Document>, id: string)
    requires WellKeyed(entities) && Shows(s, norm, entities) && id in entities
    ensures Aim(s, e, norm, claim) == Some(id) <==>
            && MayAppend(e, claim) && claim.references != [] && entities[id].entity.visibility != System
            && AllResolve(BindableRows(s), norm, claim, id, |claim.references|)
  {
    var found := ReferencesUpTo(BindableRows(s), norm, claim, |claim.references|);
    SoleTargetIff(BindableRows(s), norm, claim, id, |claim.references|);
    ShownView(s, norm, entities, id);
    FindViewFinds(s.bindable, id);
    if found.targets != [] {
      FindViewFinds(s.bindable, found.targets[0]);
    }
    AimFrom(found, claim, s.bindable, id);
  }

  lemma {:induction false} AimFrom(found: References, claim: Claim, views: seq<View>, id: string)
    requires found.targets != [] && FindView(views, found.targets[0]).Some? ==> FindView(views, found.targets[0]).value.row.id == found.targets[0]
    requires FindView(views, id).Some?
    ensures var target := TargetFrom(found, claim, views);
            (target.Ok? && target.value.row.id == id) <==>
            found.targets == [id] && !found.missed && FindView(views, id).value.document.entity.visibility != System
  {
    if |found.targets| == 1 {
      assert found.targets == [found.targets[0]];
    }
  }

  /** A reference the next round binds to an entity that was there was bound to it before. */
  lemma ResolvedBefore(s: Snapshot, s': Snapshot, e: Extraction, rules: Rules, entities: map<string, Document>, realTime: int,
                       later: map<string, Document>, text: string, etype: EntityType, id: string)
    requires RoundDone(s, e, rules, entities, realTime, later) && Shows(s', rules.norm, later) && id in entities
    requires Sole(ResolveRows(BindableRows(s'), text, etype)) == Some(id)
    ensures Sole(ResolveRows(BindableRows(s), text, etype)) == Some(id)
  {
    RoundKeepsIdentities(s, e, rules, entities, realTime, later);
    ResolvesIff(BindableRows(s), text, etype, id);
    ResolvesIff(BindableRows(s'), text, etype, id);
    forall q, other
      ensures HitBy(BindableRows(s), q, other) ==> HitBy(BindableRows(s'), q, other)
      ensures other == id && HitBy(BindableRows(s'), q, other) ==> HitBy(BindableRows(s), q, other)
    {
      ShownHits(s, rules.norm, entities, q, other);
      ShownHits(s', rules.norm, later, q, other);
    }
  }

  /** A claim is aimed at an old entity in the second round exactly when it was in the first. */
  lemma AimStays(s: Snapshot, s': Snapshot, e: Extraction, rules: Rules, entities: map<string, Document>, realTime: int,
                 later: map<string, Document>, claim: Claim, id: string)
    requires RoundDone(s, e, rules, entities, realTime, later) && Shows(s', rules.norm, later) && id in entities
    ensures Aim(s, e, rules.norm, claim) == Some(id) <==> Aim(s', e, rules.norm, claim) == Some(id)
  {
    RoundKeepsIdentities(s, e, rules, entities, realTime, later);
    AimIff(s, e, rules.norm, claim, entities, id);
    AimIff(s', e, rules.norm, claim, later, id);
    assert SameIdentity(entities[id], later[id]);
    forall i | 0 <= i < |claim.references|
      ensures Sole(ResolveRows(BindableRows(s), rules.norm(claim.references[i].text), claim.references[i].etype)) == Some(id) <==>
              Sole(ResolveRows(BindableRows(s'), rules.norm(claim.references[i].text), claim.references[i].etype)) == Some(id)
    {
      var text, etype := rules.norm(claim.references[i].text), claim.references[i].etype;
      if Sole(ResolveRows(BindableRows(s), text, etype)) == Some(id) {
        ResolvedReferencesStay(s, s', e, rules, entities, realTime, later, text, etype, id);
      }
      if Sole(ResolveRows(BindableRows(s'), text, etype)) == Some(id) {
        ResolvedBefore(s, s', e, rules, entities, realTime, later, text, etype, id);
      }
    }
  }

  /** An operation on an entity that is there is an append of a wanted fact. */
  lemma OldEntityIsWanted(s: Snapshot, e: Extraction, rules: Rules, entities: map<string, Document>, i: nat)
    requires Shows(s, rules.norm, entities) && i < |Operations(s, e, rules)| && Operations(s, e, rules)[i].entityId in entities
    ensures exists j :: 0 <= j < |e.claims| && Wanted(s, e, rules.norm, j, Operations(s, e, rules)[i].entityId)
  {
    var creates, appends := CreatesUpTo(s, e, rules, |e.candidates|).ops, AppendsUpTo(s, e, rules.norm, |e.claims|).ops;
    CreatesAreNew(s, e, rules, entities);
    OperationsHaveNoUpdates(s, e, rules, 0, |e.claims|);
    assert i >= |creates| && Operations(s, e, rules)[i] == appends[i - |creates|];
    var op := appends[i - |creates|];
    assert Appended(appends, op.entityId, op.fact);
    AppendsAreWanted(s, e, rules.norm, |e.claims|, op.entityId, op.fact);
  }

  lemma {:induction false} CreatesAreNew(s: Snapshot, e: Extraction, rules: Rules, entities: map<string, Document>)
    requires Shows(s, rules.norm, entities)
    ensures forall i :: 0 <= i < |CreatesUpTo(s, e, rules, |e.candidates|).ops| ==>
              CreatesUpTo(s, e, rules, |e.candidates|).ops[i].entityId !in entities
  {
    CreatesAreFresh(s, e, rules, |e.candidates|);
    Preflight.BaseIsVault(ListedDocuments(s), entities);
  }

  lemma WantedIsOperation(s: Snapshot, e: Extraction, rules: Rules, j: nat, id: string)
    requires j < |e.claims| && Wanted(s, e, rules.norm, j, id)
    ensures exists i :: 0 <= i < |Operations(s, e, rules)| && Operations(s, e, rules)[i].entityId == id
  {
    var creates, appends := CreatesUpTo(s, e, rules, |e.candidates|).ops, AppendsUpTo(s, e, rules.norm, |e.claims|).ops;
    AppendsAreWanted(s, e, rules.norm, |e.claims|, id, e.claims[j].text);
    var i :| 0 <= i < |appends| && appends[i].AppendFact? && appends[i].entityId == id && appends[i].fact == e.claims[j].text;
    assert Operations(s, e, rules)[|creates| + i] == appends[i];
  }

  /** What the first round appended after a lone carriage return the second appends again. */
  lemma LoneCrStays(s: Snapshot, s': Snapshot, e: Extraction, rules: Rules, entities: map<string, Document>, realTime: int,
                    later: map<string, Document>, i: nat)
    requires RoundDone(s, e, rules, entities, realTime, later) && ValidTexts(e) && Shows(s', rules.norm, later) && WellKeyed(later)
    requires i < |Operations(s, e, rules)| && Operations(s, e, rules)[i].entityId in entities
    requires FactLines.EndsWithCr(entities[Operations(s, e, rules)[i].entityId].body)
    ensures !NoLoneCr(later, Operations(s', e, rules))
  {
    var id := Operations(s, e, rules)[i].entityId;
    OldEntityIsWanted(s, e, rules, entities, i);
    var j: nat :| j < |e.claims| && Wanted(s, e, rules.norm, j, id);
    WantedByAim(s, e, rules.norm, entities, j, id);
    AimStays(s, s', e, rules, entities, realTime, later, e.claims[j], id);
    RoundBodies(s, e, rules, entities, realTime, later);
    FactAfterwards(entities[id].body, later[id].body, Operations(s, e, rules), id, e.claims[j].text);
    WantedByAim(s', e, rules.norm, later, j, id);
    WantedIsOperation(s', e, rules, j, id);
  }

  /** What the second round appends after a lone carriage return stands behind an append of the first. */
  lemma LoneCrIsOld(s: Snapshot, s': Snapshot, e: Extraction, rules: Rules, entities: map<string, Document>, realTime: int,
                    later: map<string, Document>, i: nat)
    requires RoundDone(s, e, rules, entities, realTime, later) && ValidTexts(e) && Shows(s', rules.norm, later) && WellKeyed(later)
    requires i < |Operations(s', e, rules)| && Operations(s', e, rules)[i].entityId in later
    requires FactLines.EndsWithCr(later[Operations(s', e, rules)[i].entityId].body)
    ensures !NoLoneCr(entities, Operations(s, e, rules))
  {
    var id, ops := Operations(s', e, rules)[i].entityId, Operations(s, e, rules);
    RoundBodies(s, e, rules, entities, realTime, later);
    EveryRoundApplies(s, e, rules, entities, realTime);
    LoneCrsAreOld(entities, ops, realTime, |ops|, id);
    OldEntityIsWanted(s', e, rules, later, i);
    var j: nat :| j < |e.claims| && Wanted(s', e, rules.norm, j, id);
    WantedByAim(s', e, rules.norm, later, j, id);
    AimStays(s, s', e, rules, entities, realTime, later, e.claims[j], id);
    WantedByAim(s, e, rules.norm, entities, j, id);
    if Wanted(s, e, rules.norm, j, id) {
      WantedIsOperation(s, e, rules, j, id);
    } else {
      assert entities[id].body != later[id].body;
    }
  }

  /** Whether round two meets a lone carriage return can be told from the Vault and the proposal of round one. */
  lemma SeenInRoundOne(s: Snapshot, s': Snapshot, e: Extraction, rules: Rules, entities: map<string, Document>, realTime: int,
                       later: map<string, Document>)
    requires RoundDone(s, e, rules, entities, realTime, later) && ValidTexts(e) && Shows(s', rules.norm, later)
    ensures NoLoneCr(entities, Operations(s, e, rules)) <==> NoLoneCr(later, Operations(s', e, rules))
  {
    RoundKeepsIdentities(s, e, rules, entities, realTime, later);
    var ops, ops' := Operations(s, e, rules), Operations(s', e, rules);
    if !NoLoneCr(entities, ops) {
      var i :| 0 <= i < |ops| && ops[i].entityId in entities && FactLines.EndsWithCr(entities[ops[i].entityId].body);
      LoneCrStays(s, s', e, rules, entities, realTime, later, i);
    }
    if !NoLoneCr(later, ops') {
      var i :| 0 <= i < |ops'| && ops'[i].entityId in later && FactLines.EndsWithCr(later[ops'[i].entityId].body);
      LoneCrIsOld(s, s', e, rules, entities, realTime, later, i);
    }
  }

  /**
   Two rounds of produce and apply settle a Vault: round two creates nothing,
   and round three has nothing left exactly when round one appends to no body
   ending in a lone carriage return, or round two, which is the same.  A Vault
   without such bodies always settles.
   */
  lemma {:induction false} BootstrapConverges(s1: Snapshot, s2: Snapshot, s3: Snapshot, e: Extraction, rules: Rules,
                                              vault1: map<string, Document>, t1: int, vault2: map<string, Document>, t2: int, vault3: map<string, Document>)
    requires RoundDone(s1, e, rules, vault1, t1, vault2) && RoundDone(s2, e, rules, vault2, t2, vault3)
    requires Shows(s3, rules.norm, vault3) && ValidTexts(e)
    ensures CreatesUpTo(s2, e, rules, |e.candidates|).ops == []
    ensures Operations(s3, e, rules) == [] <==> NoLoneCr(vault1, Operations(s1, e, rules))
    ensures Operations(s3, e, rules) == [] <==> NoLoneCr(vault2, Operations(s2, e, rules))
    ensures (forall id :: id in vault1 ==> !FactLines.EndsWithCr(vault1[id].body)) ==> Operations(s3, e, rules) == []
  {
    NextRoundCreatesNothing(s1, s2, e, rules, vault1, t1, vault2, |e.candidates|);
    QuietRoundsConverge(s2, s3, e, rules, vault2, t2, vault3);
    SeenInRoundOne(s1, s2, e, rules, vault1, t1, vault2);
  }

  // A Vault that never settles

  function OneEntityVault(document: Document): map<string, Document> {
    map[document.entity.id := document]
  }

  function OneEntitySnapshot(norm: string -> string, document: Document): Snapshot {
    Snapshot([ViewOf(norm, "npcs/mira.md", document)], [], [])
  }

  lemma OneEntityShown(norm: string -> string, document: Document)
    ensures WellKeyed(OneEntityVault(document)) && Shows(OneEntitySnapshot(norm, document), norm, OneEntityVault(document))
  {
    var documents := ListedDocuments(OneEntitySnapshot(norm, document));
    assert documents == [document];
    assert documents[0].entity.id == document.entity.id;
  }

  /** One claim about the entity of a one-entity Vault, referring to it by name. */
  function OneClaim(name: string, etype: EntityType, fact: string): Extraction {
    Extraction([], [Claim("claim", Fact, fact, ["source"], [Reference(name, etype, ["source"])], None)])
  }

  lemma OneClaimAims(norm: string -> string, document: Document, fact: string)
    requires document.entity.visibility != System
    ensures var e := OneClaim(document.entity.name, document.entity.etype, fact);
            Aim(OneEntitySnapshot(norm, document), e, norm, e.claims[0]) == Some(document.entity.id)
  {
    var e, s := OneClaim(document.entity.name, document.entity.etype, fact), OneEntitySnapshot(norm, document);
    var claim, row := e.claims[0], RowOf(norm, document);
    assert BindableRows(s) == [row];
    assert [row][..0] == [];
    var q := TypeName(document.entity.etype, norm(document.entity.name));
    assert Scan([row], q) == [document.entity.id];
    var found := ReferencesUpTo([row], norm, claim, 1);
    assert ReferencesUpTo([row], norm, claim, 0) == References([], false, []);
    assert found == References([document.entity.id], false, []);
    assert FindView(s.bindable, document.entity.id) == Some(s.bindable[0]);
  }

  /**
   The concrete failure: one entity whose body ends in a lone carriage return
   and one claim about it.  The fact is appended in every round and found in none.
   */
  lemma LoneCrNeverSettles(norm: string -> string, rules: Rules, document: Document, t1: int, t2: int)
    requires rules.norm == norm
    requires document.entity.visibility != System && document.body == "The old mill.\r"
    ensures var e := OneClaim(document.entity.name, document.entity.etype, "Mira lives here");
            var s1, vault1 := OneEntitySnapshot(norm, document), OneEntityVault(document);
            var vault2 := After(vault1, Operations(s1, e, rules), t1);
            document.entity.id in vault2 &&
            var s2 := OneEntitySnapshot(norm, vault2[document.entity.id]);
            var vault3 := After(vault2, Operations(s2, e, rules), t2);
            document.entity.id in vault3 &&
            var s3 := OneEntitySnapshot(norm, vault3[document.entity.id]);
            && RoundDone(s1, e, rules, vault1, t1, vault2) && RoundDone(s2, e, rules, vault2, t2, vault3)
            && Shows(s3, norm, vault3) && ValidTexts(e)
            && Operations(s3, e, rules) != []
  {
    var fact := "Mira lives here";
    var e := OneClaim(document.entity.name, document.entity.etype, fact);
    var s1, vault1 := OneEntitySnapshot(norm, document), OneEntityVault(document);
    LoneCrBody(document.body, fact);
    OneEntityShown(norm, document);
    OneClaimAims(norm, document, fact);
    WantedByAim(s1, e, norm, vault1, 0, document.entity.id);
    var s2 := LoneCrRound(s1, e, rules, document, vault1, t1);
    var vault2 := After(vault1, Operations(s1, e, rules), t1);
    var s3 := LoneCrRound(s2, e, rules, vault2[document.entity.id], vault2, t2);
    AppendsAreWanted(s3, e, norm, 1, document.entity.id, fact);
    assert Proposed(s3, e, norm, document.entity.id, fact, 1);
  }

  lemma LoneCrBody(body: string, fact: string)
    requires body == "The old mill.\r" && fact == "Mira lives here"
    ensures FactLines.EndsWithCr(body) && FactLines.SingleLine(fact) && !FactLines.BodyContains(body, fact)
  {
    FactLines.LinesOfOneLine(body);
    assert FactLines.StripCr(body)[0] == 'T';
  }

  lemma LoneCrRound(s: Snapshot, e: Extraction, rules: Rules, document: Document, vault: map<string, Document>, realTime: int)
    returns (s': Snapshot)
    requires vault == OneEntityVault(document) && s == OneEntitySnapshot(rules.norm, document)
    requires Shows(s, rules.norm, vault) && WellKeyed(vault) && ValidTexts(e) && e.candidates == [] && |e.claims| == 1
    requires Wanted(s, e, rules.norm, 0, document.entity.id) && FactLines.EndsWithCr(document.body)
    ensures var later := After(vault, Operations(s, e, rules), realTime);
            && document.entity.id in later && later == OneEntityVault(later[document.entity.id])
            && later[document.entity.id].entity.id == document.entity.id
            && s' == OneEntitySnapshot(rules.norm, later[document.entity.id])
            && Shows(s', rules.norm, later) && WellKeyed(later)
            && Wanted(s', e, rules.norm, 0, document.entity.id) && FactLines.EndsWithCr(later[document.entity.id].body)
  {
    var later := After(vault, Operations(s, e, rules), realTime);
    var id := document.entity.id;
    LoneCrVault(s, e, rules, document, vault, realTime);
    s' := OneEntitySnapshot(rules.norm, later[id]);
    OneEntityShown(rules.norm, later[id]);
    StillWanted(s, s', e, rules, vault, realTime, later, 0, id);
  }

  lemma LoneCrVault(s: Snapshot, e: Extraction, rules: Rules, document: Document, vault: map<string, Document>, realTime: int)
    requires vault == OneEntityVault(document) && Shows(s, rules.norm, vault) && WellKeyed(vault)
    requires ValidTexts(e) && e.candidates == [] && FactLines.EndsWithCr(document.body)
    ensures var later := After(vault, Operations(s, e, rules), realTime);
            && document.entity.id in later && later == OneEntityVault(later[document.entity.id])
            && later[document.entity.id].entity.id == document.entity.id
            && FactLines.EndsWithCr(later[document.entity.id].body)
  {
    var later := After(vault, Operations(s, e, rules), realTime);
    QuietRound(s, e, rules, vault, realTime, later);
    var id := document.entity.id;
    assert SameIdentity(vault[id], later[id]);
    assert BodyFollows(vault[id].body, later[id].body, AppendsUpTo(s, e, rules.norm, |e.claims|).ops, id);
  }
}
