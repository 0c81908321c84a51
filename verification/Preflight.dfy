/** Whole-batch preflight: entity revisions projected over the operations in order. */
module Preflight {
  import opened Wrappers
  import opened Domain
  import opened Repository

  datatype IssueCode = CreateTargetExists | DuplicateCreate | TargetNotFound | RevisionConflict

  datatype Issue = Issue(code: IssueCode, operationIndex: nat, entityId: string)

  /** What the validator knows after some operations. */
  datatype Projection = Projection(revisions: map<string, nat>, createdIds: set<string>)

  /** One snapshot of the listing, `{entity_id: revision}`. */
  function BaseRevisions(documents: seq<Document>): map<string, nat> {
    if documents == [] then map[]
    else
      var last := documents[|documents| - 1].entity;
      BaseRevisions(documents[..|documents| - 1])[last.id := last.revision]
  }

  function CheckCreate(p: Projection, op: Operation, index: nat): (Projection, Option<Issue>)
    requires op.CreateEntity?
  {
    var id := op.entityId;
    if id in p.createdIds then (p, Some(Issue(DuplicateCreate, index, id)))
    else
      var marked := p.(createdIds := p.createdIds + {id});
      if id in p.revisions then (marked, Some(Issue(CreateTargetExists, index, id)))
      else (marked.(revisions := p.revisions[id := 1]), None)
  }

  function CheckGuarded(p: Projection, op: Operation, index: nat): (Projection, Option<Issue>)
    requires !op.CreateEntity?
  {
    var id := op.entityId;
    if id !in p.revisions then (p, Some(Issue(TargetNotFound, index, id)))
    else if op.expectedRevision != p.revisions[id] then (p, Some(Issue(RevisionConflict, index, id)))
    else (p.(revisions := p.revisions[id := p.revisions[id] + 1]), None)
  }

  function Check(p: Projection, op: Operation, index: nat): (Projection, Option<Issue>) {
    if op.CreateEntity? then CheckCreate(p, op, index) else CheckGuarded(p, op, index)
  }

  /** The projection after the first `k` operations, and the issues found in them. */
  function Projected(base: map<string, nat>, ops: seq<Operation>, k: nat): (r: (Projection, seq<Issue>))
    requires k <= |ops|
  {
    if k == 0 then (Projection(base, {}), [])
    else
      var (p, issues) := Projected(base, ops, k - 1);
      var (p', issue) := Check(p, ops[k - 1], k - 1);
      (p', if issue.Some? then issues + [issue.value] else issues)
  }

  function Issues(documents: seq<Document>, ops: seq<Operation>): seq<Issue> {
    Projected(BaseRevisions(documents), ops, |ops|).1
  }

  predicate Valid(documents: seq<Document>, ops: seq<Operation>) {
    Issues(documents, ops) == []
  }

  method ValidateChangeSet(changeset: ChangeSet, documents: seq<Document>) returns (issues: seq<Issue>)
    ensures issues == Issues(documents, changeset.operations)
    ensures forall i, j :: 0 <= i < j < |issues| ==> issues[i].operationIndex < issues[j].operationIndex
    ensures forall i :: 0 <= i < |issues| ==> issues[i].operationIndex < |changeset.operations|
  {
    var ops := changeset.operations;
    var revisions: map<string, nat> := map[];
    for k := 0 to |documents|
      invariant revisions == BaseRevisions(documents[..k])
    {
      revisions := revisions[documents[k].entity.id := documents[k].entity.revision];
      assert documents[..k + 1][..k] == documents[..k];
    }
    assert documents[..|documents|] == documents;
    var p := Projection(revisions, {});
    issues := [];
    for k := 0 to |ops|
      invariant (p, issues) == Projected(BaseRevisions(documents), ops, k)
      invariant forall i :: 0 <= i < |issues| ==> issues[i].operationIndex < k
      invariant forall i, j :: 0 <= i < j < |issues| ==> issues[i].operationIndex < issues[j].operationIndex
    {
      var (p', issue) := Check(p, ops[k], k);
      p := p';
      if issue.Some? {
        issues := issues + [issue.value];
      }
    }
  }

  // Execution without disturbance

  function Revisions(entities: map<string, Document>): map<string, nat> {
    map id | id in entities :: entities[id].entity.revision
  }

  lemma {:induction false} BaseRevisionsAt(documents: seq<Document>, id: string)
    ensures id in BaseRevisions(documents) <==> exists i :: 0 <= i < |documents| && documents[i].entity.id == id
    ensures (forall i, j :: 0 <= i < j < |documents| ==> documents[i].entity.id != documents[j].entity.id) ==>
              forall i :: 0 <= i < |documents| && documents[i].entity.id == id ==>
                id in BaseRevisions(documents) && BaseRevisions(documents)[id] == documents[i].entity.revision
  {
    if documents != [] {
      var front := documents[..|documents| - 1];
      BaseRevisionsAt(front, id);
      if exists i :: 0 <= i < |documents| && documents[i].entity.id == id {
        var i :| 0 <= i < |documents| && documents[i].entity.id == id;
        if i < |front| {
          assert front[i].entity.id == id;
        }
      }
    }
  }

  /** Whatever the listing order, preflight starts from the Vault's revisions. */
  lemma {:induction false} BaseIsVault(documents: seq<Document>, entities: map<string, Document>)
    requires Lists(documents, entities)
    ensures BaseRevisions(documents) == Revisions(entities)
  {
    forall id: string
      ensures id in BaseRevisions(documents) <==> id in entities
      ensures id in entities ==> BaseRevisions(documents)[id] == entities[id].entity.revision
    {
      BaseRevisionsAt(documents, id);
    }
  }

  /**
   The entities after the first `k` operations, while the repository accepts
   them; the index of the first refused operation otherwise.
   */
  function Executed(entities: map<string, Document>, ops: seq<Operation>, realTime: int, k: nat): Result<map<string, Document>, nat>
    requires k <= |ops|
  {
    if k == 0 then Ok(entities)
    else
      match Executed(entities, ops, realTime, k - 1)
      case Err(first) => Err(first)
      case Ok(now) =>
        match Effect(now, ops[k - 1], realTime)
        case Err(_) => Err(k - 1)
        case Ok(document) => Ok(now[ops[k - 1].entityId := document])
  }

  lemma ExecutedStep(entities: map<string, Document>, ops: seq<Operation>, realTime: int, k: nat)
    requires 0 < k <= |ops| && Executed(entities, ops, realTime, k).Ok?
    ensures Executed(entities, ops, realTime, k - 1).Ok?
    ensures var before := Executed(entities, ops, realTime, k - 1).value;
            && Effect(before, ops[k - 1], realTime).Ok?
            && Executed(entities, ops, realTime, k).value == before[ops[k - 1].entityId := Effect(before, ops[k - 1], realTime).value]
  {
  }

  lemma RevisionsOfWrite(entities: map<string, Document>, id: string, document: Document)
    ensures Revisions(entities[id := document]) == Revisions(entities)[id := document.entity.revision]
  {
  }

  /** One operation: the check passes exactly when the repository takes it, and both sides move alike. */
  lemma CheckTracksEffect(p: Projection, entities: map<string, Document>, op: Operation, index: nat, realTime: int)
    requires p.revisions == Revisions(entities) && p.createdIds <= entities.Keys
    ensures var (p', issue) := Check(p, op, index);
            var effect := Effect(entities, op, realTime);
            && (issue.None? <==> effect.Ok?)
            && (issue.Some? ==> issue.value.operationIndex == index)
            && (effect.Ok? ==>
                  && p'.revisions == Revisions(entities[op.entityId := effect.value])
                  && p'.createdIds <= entities[op.entityId := effect.value].Keys)
  {
    var effect := Effect(entities, op, realTime);
    if effect.Ok? {
      RevisionsOfWrite(entities, op.entityId, effect.value);
    }
  }

  /**
   Preflight refines execution: it finds no issue in a prefix exactly when the
   repository accepts the prefix, with the projected revisions, and otherwise
   its first issue names the first operation the repository refuses.
   */
  lemma {:induction false} PreflightTracksExecution(entities: map<string, Document>, ops: seq<Operation>, realTime: int, k: nat)
    requires k <= |ops|
    ensures var (p, issues) := Projected(Revisions(entities), ops, k);
            match Executed(entities, ops, realTime, k)
            case Ok(now) =>
              && issues == [] && p.revisions == Revisions(now)
              && p.createdIds <= now.Keys
            case Err(first) => issues != [] && issues[0].operationIndex == first
  {
    if k > 0 {
      PreflightTracksExecution(entities, ops, realTime, k - 1);
      var before := Executed(entities, ops, realTime, k - 1);
      if before.Ok? {
        CheckTracksEffect(Projected(Revisions(entities), ops, k - 1).0, before.value, ops[k - 1], k - 1, realTime);
      }
    }
  }

  lemma {:induction false} PreflightRefinesExecution(documents: seq<Document>, entities: map<string, Document>, ops: seq<Operation>, realTime: int)
    requires Lists(documents, entities)
    ensures Valid(documents, ops) <==> Executed(entities, ops, realTime, |ops|).Ok?
    ensures Valid(documents, ops) ==>
              Projected(BaseRevisions(documents), ops, |ops|).0.revisions
              == Revisions(Executed(entities, ops, realTime, |ops|).value)
    ensures !Valid(documents, ops) ==>
              Executed(entities, ops, realTime, |ops|) == Err(Issues(documents, ops)[0].operationIndex)
  {
    BaseIsVault(documents, entities);
    PreflightTracksExecution(entities, ops, realTime, |ops|);
  }

  // Batches that create first and append afterwards

  /** How many of the first `k` operations change `id`. */
  function ChangeCount(ops: seq<Operation>, id: string, k: nat): nat
    requires k <= |ops|
  {
    if k == 0 then 0 else ChangeCount(ops, id, k - 1) + (if ops[k - 1].entityId == id then 1 else 0)
  }

  /** Creates of new, pairwise different ids. */
  ghost predicate FreshCreates(creates: seq<Operation>, base: map<string, nat>) {
    && (forall i :: 0 <= i < |creates| ==> creates[i].CreateEntity? && creates[i].entityId !in base)
    && (forall i, j :: 0 <= i < j < |creates| ==> creates[i].entityId != creates[j].entityId)
  }

  /** Appends to existing entities, each expecting one revision more than the one before it. */
  ghost predicate StackedAppends(appends: seq<Operation>, base: map<string, nat>) {
    forall j :: 0 <= j < |appends| ==> StackedAt(appends, base, j)
  }

  ghost predicate StackedAt(appends: seq<Operation>, base: map<string, nat>, j: nat)
    requires j < |appends|
  {
    && appends[j].AppendFact? && appends[j].entityId in base
    && appends[j].expectedRevision == base[appends[j].entityId] + ChangeCount(appends, appends[j].entityId, j)
  }

  function CreatedIds(creates: seq<Operation>, k: nat): set<string>
    requires k <= |creates|
  {
    if k == 0 then {} else CreatedIds(creates, k - 1) + {creates[k - 1].entityId}
  }

  lemma {:induction false} CreatedIdsAre(creates: seq<Operation>, k: nat)
    requires k <= |creates|
    ensures forall id :: id in CreatedIds(creates, k) <==> exists i :: 0 <= i < k && creates[i].entityId == id
  {
    if k > 0 {
      CreatedIdsAre(creates, k - 1);
    }
  }

  lemma {:induction false} CreatesPass(base: map<string, nat>, creates: seq<Operation>, appends: seq<Operation>, k: nat)
    requires FreshCreates(creates, base) && k <= |creates|
    ensures var (p, issues) := Projected(base, creates + appends, k);
            && issues == [] && p.createdIds == CreatedIds(creates, k)
            && p.revisions.Keys == base.Keys + CreatedIds(creates, k)
            && forall id :: id in base ==> p.revisions[id] == base[id]
  {
    if k > 0 {
      CreatesPass(base, creates, appends, k - 1);
      CreatedIdsAre(creates, k - 1);
    }
  }

  lemma {:induction false} AppendsPass(base: map<string, nat>, creates: seq<Operation>, appends: seq<Operation>, k: nat)
    requires FreshCreates(creates, base) && StackedAppends(appends, base) && k <= |appends|
    ensures var (p, issues) := Projected(base, creates + appends, |creates| + k);
            && issues == []
            && forall id :: id in base ==> id in p.revisions && p.revisions[id] == base[id] + ChangeCount(appends, id, k)
  {
    if k == 0 {
      CreatesPass(base, creates, appends, |creates|);
    } else {
      AppendsPass(base, creates, appends, k - 1);
      assert StackedAt(appends, base, k - 1);
      assert (creates + appends)[|creates| + k - 1] == appends[k - 1];
    }
  }

  /** A batch of fresh creates and stacked appends always passes. */
  lemma {:induction false} CreatesThenAppendsPass(documents: seq<Document>, creates: seq<Operation>, appends: seq<Operation>)
    requires FreshCreates(creates, BaseRevisions(documents)) && StackedAppends(appends, BaseRevisions(documents))
    ensures Valid(documents, creates + appends)
  {
    AppendsPass(BaseRevisions(documents), creates, appends, |appends|);
  }

  lemma {:induction false} ChangeCountSnoc(ops: seq<Operation>, op: Operation, id: string, k: nat)
    requires k <= |ops|
    ensures ChangeCount(ops + [op], id, k) == ChangeCount(ops, id, k)
  {
    if k > 0 {
      ChangeCountSnoc(ops, op, id, k - 1);
    }
  }

  /** One more append that expects the stacked revision keeps the stack. */
  lemma {:induction false} StackOneMore(ops: seq<Operation>, op: Operation, base: map<string, nat>)
    requires StackedAppends(ops, base) && op.AppendFact? && op.entityId in base
    requires op.expectedRevision == base[op.entityId] + ChangeCount(ops, op.entityId, |ops|)
    ensures StackedAppends(ops + [op], base)
    ensures forall id :: ChangeCount(ops + [op], id, |ops| + 1)
                         == ChangeCount(ops, id, |ops|) + (if op.entityId == id then 1 else 0)
  {
    forall j | 0 <= j < |ops + [op]|
      ensures StackedAt(ops + [op], base, j)
    {
      ChangeCountSnoc(ops, op, (ops + [op])[j].entityId, j);
      assert j < |ops| ==> StackedAt(ops, base, j);
    }
    forall id
      ensures ChangeCount(ops + [op], id, |ops| + 1)
              == ChangeCount(ops, id, |ops|) + (if op.entityId == id then 1 else 0)
    {
      ChangeCountSnoc(ops, op, id, |ops|);
    }
  }

  /** A producer's counters of earlier appends agree with the stack. */
  ghost predicate Stacked(ops: seq<Operation>, increments: map<string, nat>, base: map<string, nat>) {
    && StackedAppends(ops, base)
    && forall id :: CountIn(increments, id) == ChangeCount(ops, id, |ops|)
  }

  lemma CountedAppend(ops: seq<Operation>, increments: map<string, nat>, op: Operation, base: map<string, nat>)
    requires Stacked(ops, increments, base) && op.AppendFact? && op.entityId in base
    requires op.expectedRevision == base[op.entityId] + CountIn(increments, op.entityId)
    ensures Stacked(ops + [op], increments[op.entityId := CountIn(increments, op.entityId) + 1], base)
  {
    var after, counts := ops + [op], increments[op.entityId := CountIn(increments, op.entityId) + 1];
    assert CountIn(increments, op.entityId) == ChangeCount(ops, op.entityId, |ops|);
    StackOneMore(ops, op, base);
    forall id: string
      ensures CountIn(counts, id) == ChangeCount(after, id, |after|)
    {
      assert CountIn(increments, id) == ChangeCount(ops, id, |ops|);
      assert ChangeCount(ops + [op], id, |ops| + 1) == ChangeCount(ops, id, |ops|) + (if op.entityId == id then 1 else 0);
    }
  }
}
