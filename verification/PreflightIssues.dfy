/** Which issue preflight reports for every operation of a batch, not only for the first one refused. */
module PreflightIssues {
  import opened Wrappers
  import opened Domain
  import opened Preflight
  import Repository

  /** Preflight has something against operation `j`. */
  ghost predicate Faulty(issues: seq<Issue>, j: nat) {
    exists i :: 0 <= i < |issues| && issues[i].operationIndex == j
  }

  /** An operation before `k` creates the entity, rightly or not. */
  ghost predicate CreatedBefore(ops: seq<Operation>, id: string, k: nat)
    requires k <= |ops|
  {
    exists j: nat :: j < k && ops[j].CreateEntity? && ops[j].entityId == id
  }

  /** The Vault has the entity, or a sound create before `k` makes it. */
  ghost predicate Present(base: map<string, nat>, ops: seq<Operation>, issues: seq<Issue>, id: string, k: nat)
    requires k <= |ops|
  {
    id in base || exists j: nat :: j < k && ops[j].CreateEntity? && ops[j].entityId == id && !Faulty(issues, j)
  }

  /** How many sound operations before `k` write the entity. */
  ghost function SoundWrites(ops: seq<Operation>, issues: seq<Issue>, id: string, k: nat): nat
    requires k <= |ops|
  {
    if k == 0 then 0 else SoundWrites(ops, issues, id, k - 1) + (if ops[k - 1].entityId == id && !Faulty(issues, k - 1) then 1 else 0)
  }

  /** The revision operation `k` meets: the Vault's, or none, and one more for each sound write before it. */
  ghost function RevisionAt(base: map<string, nat>, ops: seq<Operation>, issues: seq<Issue>, id: string, k: nat): nat
    requires k <= |ops|
  {
    (if id in base then base[id] else 0) + SoundWrites(ops, issues, id, k)
  }

  /** What stands against operation `k`. */
  ghost predicate CodeIs(base: map<string, nat>, ops: seq<Operation>, issues: seq<Issue>, k: nat, code: IssueCode)
    requires k < |ops|
  {
    var id := ops[k].entityId;
    match code
    case DuplicateCreate => ops[k].CreateEntity? && CreatedBefore(ops, id, k)
    case CreateTargetExists => ops[k].CreateEntity? && !CreatedBefore(ops, id, k) && id in base
    case TargetNotFound => !ops[k].CreateEntity? && !Present(base, ops, issues, id, k)
    case RevisionConflict =>
      !ops[k].CreateEntity? && Present(base, ops, issues, id, k) && ops[k].expectedRevision != RevisionAt(base, ops, issues, id, k)
  }

  // Issues are found once, in order

  lemma {:induction false} IssuesUpTo(base: map<string, nat>, ops: seq<Operation>, k: nat)
    requires k <= |ops|
    ensures forall i :: 0 <= i < |Projected(base, ops, k).1| ==> Projected(base, ops, k).1[i].operationIndex < k
  {
    if k > 0 {
      IssuesUpTo(base, ops, k - 1);
    }
  }

  /** Later operations do not change what was found before. */
  lemma {:induction false} FaultsStay(base: map<string, nat>, ops: seq<Operation>, k: nat, n: nat)
    requires k <= n <= |ops|
    ensures forall j: nat :: j < k ==> (Faulty(Projected(base, ops, n).1, j) <==> Faulty(Projected(base, ops, k).1, j))
    ensures forall issue: Issue :: issue.operationIndex < k ==> (issue in Projected(base, ops, n).1 <==> issue in Projected(base, ops, k).1)
  {
    if k < n {
      FaultsStay(base, ops, k, n - 1);
      var before, now := Projected(base, ops, n - 1).1, Projected(base, ops, n).1;
      OneMoreIssue(before, now, Check(Projected(base, ops, n - 1).0, ops[n - 1], n - 1).1, n - 1);
    }
  }

  lemma OneMoreIssue(before: seq<Issue>, now: seq<Issue>, issue: Option<Issue>, index: nat)
    requires now == if issue.Some? then before + [issue.value] else before
    requires issue.Some? ==> issue.value.operationIndex == index
    ensures forall j: nat :: j != index ==> (Faulty(now, j) <==> Faulty(before, j))
    ensures forall x: Issue :: x.operationIndex != index ==> (x in now <==> x in before)
  {
    forall j: nat | j != index
      ensures Faulty(now, j) <==> Faulty(before, j)
    {
      if Faulty(before, j) {
        var i :| 0 <= i < |before| && before[i].operationIndex == j;
        assert now[i].operationIndex == j;
      }
    }
  }

  // The projection, in closed form

  ghost predicate ProjectionIs(base: map<string, nat>, ops: seq<Operation>, issues: seq<Issue>, p: Projection, k: nat)
    requires k <= |ops|
  {
    && (forall id :: id in p.createdIds <==> CreatedBefore(ops, id, k))
    && (forall id :: id in p.revisions <==> Present(base, ops, issues, id, k))
    && (forall id :: id in p.revisions ==> p.revisions[id] == RevisionAt(base, ops, issues, id, k))
  }

  lemma CheckIs(base: map<string, nat>, ops: seq<Operation>, issues: seq<Issue>, p: Projection, k: nat)
    requires k < |ops| && ProjectionIs(base, ops, issues, p, k)
    requires Present(base, ops, issues, ops[k].entityId, k) && ops[k].entityId !in base ==> CreatedBefore(ops, ops[k].entityId, k)
    ensures var issue := Check(p, ops[k], k).1;
            && (issue == None <==> forall code :: !CodeIs(base, ops, issues, k, code))
            && (forall code :: issue == Some(Issue(code, k, ops[k].entityId)) <==> CodeIs(base, ops, issues, k, code))
            && (issue.Some? ==> issue.value.operationIndex == k && issue.value.entityId == ops[k].entityId)
  {
    var id := ops[k].entityId;
    assert id in p.createdIds <==> CreatedBefore(ops, id, k);
    assert id in p.revisions <==> Present(base, ops, issues, id, k);
    if Check(p, ops[k], k).1 == None {
      assert !CodeIs(base, ops, issues, k, DuplicateCreate) && !CodeIs(base, ops, issues, k, CreateTargetExists);
      assert !CodeIs(base, ops, issues, k, TargetNotFound) && !CodeIs(base, ops, issues, k, RevisionConflict);
      forall code
        ensures !CodeIs(base, ops, issues, k, code)
      {
        assert code == DuplicateCreate || code == CreateTargetExists || code == TargetNotFound || code == RevisionConflict;
      }
    } else {
      assert CodeIs(base, ops, issues, k, Check(p, ops[k], k).1.value.code);
    }
  }

  lemma SoundCreateIsCreate(base: map<string, nat>, ops: seq<Operation>, issues: seq<Issue>, id: string, k: nat)
    requires k <= |ops|
    ensures Present(base, ops, issues, id, k) && id !in base ==> CreatedBefore(ops, id, k)
  {
  }

  lemma {:induction false} NoSoundWrites(base: map<string, nat>, ops: seq<Operation>, issues: seq<Issue>, id: string, k: nat)
    requires k <= |ops| && !Present(base, ops, issues, id, k)
    requires forall j: nat :: j < k && !Present(base, ops, issues, ops[j].entityId, j) && !ops[j].CreateEntity? ==> Faulty(issues, j)
    ensures SoundWrites(ops, issues, id, k) == 0
  {
    if k > 0 {
      NoSoundWrites(base, ops, issues, id, k - 1);
    }
  }

  lemma OneMoreOperation(base: map<string, nat>, ops: seq<Operation>, issues: seq<Issue>, id: string, k: nat)
    requires k < |ops|
    ensures CreatedBefore(ops, id, k + 1) <==> CreatedBefore(ops, id, k) || (ops[k].CreateEntity? && ops[k].entityId == id)
    ensures Present(base, ops, issues, id, k + 1) <==>
            Present(base, ops, issues, id, k) || (ops[k].CreateEntity? && ops[k].entityId == id && !Faulty(issues, k))
    ensures RevisionAt(base, ops, issues, id, k + 1)
         == RevisionAt(base, ops, issues, id, k) + (if ops[k].entityId == id && !Faulty(issues, k) then 1 else 0)
  {
  }

  /** What one check does to the projection. */
  lemma CheckMoves(p: Projection, op: Operation, index: nat)
    ensures var (q, issue) := Check(p, op, index);
            && q.createdIds == (if op.CreateEntity? then p.createdIds + {op.entityId} else p.createdIds)
            && (issue.Some? ==> q.revisions == p.revisions)
            && (issue == None && op.CreateEntity? ==> q.revisions == p.revisions[op.entityId := 1])
            && (issue == None && !op.CreateEntity? ==>
                  op.entityId in p.revisions && q.revisions == p.revisions[op.entityId := p.revisions[op.entityId] + 1])
            && (issue == None ==> (op.CreateEntity? <==> op.entityId !in p.revisions))
  {
  }

  lemma {:induction false} StepIs(base: map<string, nat>, ops: seq<Operation>, issues: seq<Issue>, p: Projection, k: nat)
    requires k < |ops| && ProjectionIs(base, ops, issues, p, k)
    requires Faulty(issues, k) <==> Check(p, ops[k], k).1.Some?
    requires !Present(base, ops, issues, ops[k].entityId, k) ==> SoundWrites(ops, issues, ops[k].entityId, k) == 0
    ensures ProjectionIs(base, ops, issues, Check(p, ops[k], k).0, k + 1)
  {
    var q, op := Check(p, ops[k], k).0, ops[k];
    CheckMoves(p, op, k);
    forall id: string
      ensures id in q.createdIds <==> CreatedBefore(ops, id, k + 1)
      ensures id in q.revisions <==> Present(base, ops, issues, id, k + 1)
      ensures id in q.revisions ==> q.revisions[id] == RevisionAt(base, ops, issues, id, k + 1)
    {
      OneMoreOperation(base, ops, issues, id, k);
      EntryIs(base, ops, issues, p, k, id);
    }
  }

  lemma EntryIs(base: map<string, nat>, ops: seq<Operation>, issues: seq<Issue>, p: Projection, k: nat, id: string)
    requires k <= |ops| && ProjectionIs(base, ops, issues, p, k)
    ensures id in p.createdIds <==> CreatedBefore(ops, id, k)
    ensures id in p.revisions <==> Present(base, ops, issues, id, k)
    ensures id in p.revisions ==> p.revisions[id] == RevisionAt(base, ops, issues, id, k)
    ensures id !in p.revisions ==> id !in base
  {
  }

  /** An operation on an entity that is not there is sound only as a create. */
  ghost predicate AbsentIsFaulty(base: map<string, nat>, ops: seq<Operation>, issues: seq<Issue>, k: nat)
    requires k <= |ops|
  {
    forall j: nat :: j < k && !Present(base, ops, issues, ops[j].entityId, j) && !ops[j].CreateEntity? ==> Faulty(issues, j)
  }

  lemma {:induction false} ProjectedIs(base: map<string, nat>, ops: seq<Operation>, issues: seq<Issue>, k: nat)
    requires k <= |ops| && issues == Projected(base, ops, |ops|).1
    ensures ProjectionIs(base, ops, issues, Projected(base, ops, k).0, k)
    ensures AbsentIsFaulty(base, ops, issues, k)
  {
    if k > 0 {
      ProjectedIs(base, ops, issues, k - 1);
      FaultIff(base, ops, issues, k - 1);
      MoveProjection(base, ops, issues, Projected(base, ops, k - 1).0, k - 1);
    }
  }

  lemma MoveProjection(base: map<string, nat>, ops: seq<Operation>, issues: seq<Issue>, p: Projection, k: nat)
    requires k < |ops| && ProjectionIs(base, ops, issues, p, k) && AbsentIsFaulty(base, ops, issues, k)
    requires Faulty(issues, k) <==> Check(p, ops[k], k).1.Some?
    ensures ProjectionIs(base, ops, issues, Check(p, ops[k], k).0, k + 1) && AbsentIsFaulty(base, ops, issues, k + 1)
  {
    var id := ops[k].entityId;
    EntryIs(base, ops, issues, p, k, id);
    if !Present(base, ops, issues, id, k) {
      NoSoundWrites(base, ops, issues, id, k);
    }
    StepIs(base, ops, issues, p, k);
  }

  lemma {:induction false} FaultIff(base: map<string, nat>, ops: seq<Operation>, issues: seq<Issue>, k: nat)
    requires k < |ops| && issues == Projected(base, ops, |ops|).1
    ensures var issue := Check(Projected(base, ops, k).0, ops[k], k).1;
            && (Faulty(issues, k) <==> issue.Some?)
            && (issue.Some? ==> issue.value in issues)
            && (forall x: Issue :: x in issues && x.operationIndex == k ==> issue == Some(x))
  {
    var before, now := Projected(base, ops, k).1, Projected(base, ops, k + 1).1;
    FaultsStay(base, ops, k + 1, |ops|);
    IssuesUpTo(base, ops, k);
    var issue := Check(Projected(base, ops, k).0, ops[k], k).1;
    if issue.Some? {
      assert now[|before|] == issue.value;
    }
  }

  /**
   For every operation of every batch: preflight reports a second create of an id
   as such, a first one of an existing entity, a change of an entity neither there
   nor soundly created, and a change that expects another revision than the Vault's
   and the sound writes before it make; and it reports nothing else.
   */
  lemma EveryIssueIsFound(documents: seq<Document>, entities: map<string, Document>, ops: seq<Operation>, k: nat)
    requires Repository.Lists(documents, entities) && k < |ops|
    ensures var issues := Issues(documents, ops);
            && (forall code :: Issue(code, k, ops[k].entityId) in issues <==> CodeIs(Revisions(entities), ops, issues, k, code))
            && (forall x :: x in issues && x.operationIndex == k ==> x.entityId == ops[k].entityId)
  {
    var base, issues := Revisions(entities), Issues(documents, ops);
    BaseIsVault(documents, entities);
    ProjectedIs(base, ops, issues, k);
    FaultIff(base, ops, issues, k);
    SoundCreateIsCreate(base, ops, issues, ops[k].entityId, k);
    CheckIs(base, ops, issues, Projected(base, ops, k).0, k);
  }
}
