/** The Vault repository as the applier sees it: revision-guarded entities, an append-only audit log, and a mutation in three writes. */
module Repository {
  import opened Wrappers
  import opened Domain
  import FactLines

  datatype Phase = Intent | Committed

  datatype AuditRecord = AuditRecord(
    operationId: string, phase: Phase, operation: string, entityId: string,
    session: Option<string>, source: string, realTime: int)

  datatype AuditContext = AuditContext(
    operationId: string, realTime: int, source: string, session: Option<string>)

  /** How much of a line an interrupted append left in the file. */
  datatype Landing = Whole | Part | Nothing

  /**
   Where a mutation is stopped: the surroundings may do so at any point, by an
   error or by a crash, and the point is given as a `Disturbance`.
   */
  datatype Stage =
    | BeforeIntent
    | IntentAppend(intent: Landing)
    | SecondCheck
    | EntityWrite(landed: bool)
    | ReadBack
    | CommitAppend(commit: Landing)

  datatype Ending = Raised(category: Category) | Crashed

  datatype Disturbance = Smooth | Stopped(stage: Stage, ending: Ending)

  datatype Outcome = Done | Failed(category: Category) | Died

  /**
   The durable state.  `torn` marks an unterminated final audit line, `guarded`
   a repository that refuses an operation id found in the log, and `writes`
   keeps the operation id of every entity write that reached the Vault.
   */
  datatype Vault = Vault(
    entities: map<string, Document>, audit: seq<AuditRecord>, torn: bool,
    guarded: bool, writes: seq<string>)

  predicate IdUsed(audit: seq<AuditRecord>, operationId: string) {
    exists k :: 0 <= k < |audit| && audit[k].operationId == operationId
  }

  /** The listing shows every entity of the Vault once. */
  ghost predicate Lists(documents: seq<Document>, entities: map<string, Document>) {
    && (forall i, j :: 0 <= i < j < |documents| ==> documents[i].entity.id != documents[j].entity.id)
    && (forall i :: 0 <= i < |documents| ==>
          documents[i].entity.id in entities && entities[documents[i].entity.id] == documents[i])
    && (forall id :: id in entities ==> exists i :: 0 <= i < |documents| && documents[i].entity.id == id)
  }

  predicate WellKeyed(entities: map<string, Document>) {
    forall id :: id in entities ==> entities[id].entity.id == id
  }

  function Pick<T>(choice: Option<T>, current: T): T {
    match choice
    case None => current
    case Some(value) => value
  }

  function CreatedDocument(op: Operation, realTime: int): Document
    requires op.CreateEntity?
  {
    Document(
      Entity(op.entityId, op.etype, op.name, op.status, op.visibility, op.knowledge,
             op.createdSession, op.lastSeenSession, op.tags, realTime, realTime, 1),
      [], "")
  }

  function PatchedEntity(e: Entity, u: FieldUpdate, realTime: int): Entity {
    e.(name := Pick(u.name, e.name), status := Pick(u.status, e.status),
       visibility := Pick(u.visibility, e.visibility), knowledge := Pick(u.knowledge, e.knowledge),
       createdSession := Pick(u.createdSession, e.createdSession),
       lastSeenSession := Pick(u.lastSeenSession, e.lastSeenSession),
       tags := Pick(u.tags, e.tags),
       revision := e.revision + 1, updatedAt := realTime)
  }

  /** What the revision-guarded repository makes of one operation. */
  function Effect(entities: map<string, Document>, op: Operation, realTime: int): Result<Document, Category> {
    match op
    case CreateEntity(id, _, _, _, _, _, _, _, _) =>
      if id in entities then Err(Conflict) else Ok(CreatedDocument(op, realTime))
    case UpdateEntity(id, expected, update) =>
      if id !in entities then Err(NotFound)
      else if entities[id].entity.revision != expected then Err(Conflict)
      else Ok(entities[id].(entity := PatchedEntity(entities[id].entity, update, realTime)))
    case AppendFact(id, expected, fact) =>
      if id !in entities then Err(NotFound)
      else if entities[id].entity.revision != expected then Err(Conflict)
      else
        var e := entities[id].entity;
        Ok(entities[id].(entity := e.(revision := e.revision + 1, updatedAt := realTime),
                         body := FactLines.AppendFactToBody(entities[id].body, fact)))
  }

  function AuditOperation(op: Operation): string {
    match op
    case CreateEntity(_, _, _, _, _, _, _, _, _) => "create_entity"
    case UpdateEntity(_, _, _) => "patch_entity"
    case AppendFact(_, _, _) => "append_entity_fact"
  }

  function RecordOf(op: Operation, context: AuditContext, phase: Phase): AuditRecord {
    AuditRecord(context.operationId, phase, AuditOperation(op), op.entityId,
                context.session, context.source, context.realTime)
  }

  function AppendLine(v: Vault, record: AuditRecord, landing: Landing): Vault {
    match landing
    case Whole => v.(audit := v.audit + [record])
    case Part => v.(torn := true)
    case Nothing => v
  }

  function WriteEntity(v: Vault, op: Operation, document: Document, operationId: string): Vault {
    v.(entities := v.entities[op.entityId := document], writes := v.writes + [operationId])
  }

  /** Checks that precede the intent record: readable log, fresh id, existence and revision. */
  function Admit(v: Vault, op: Operation, context: AuditContext): Result<Document, Category> {
    if v.torn then Err(Storage)
    else if v.guarded && IdUsed(v.audit, context.operationId) then Err(Conflict)
    else Effect(v.entities, op, context.realTime)
  }

  function EndOf(ending: Ending, asCategory: Category): Outcome {
    if ending.Crashed? then Died else Failed(asCategory)
  }

  /** The checks between intent and write raise a conflict or a storage error. */
  function SecondCheckCategory(ending: Ending): Category {
    if ending.Raised? && ending.category == Conflict then Conflict else Storage
  }

  /** Before it replaces the file the write parses its content, which may raise a validation error; nothing is written then. */
  function WriteCategory(landed: bool, ending: Ending): Category {
    if !landed && ending.Raised? && ending.category == Validation then Validation else Storage
  }

  /** One mutation, from any state, under any disturbance. */
  function Mutate(v: Vault, op: Operation, context: AuditContext, d: Disturbance): (Vault, Outcome) {
    if d.Stopped? && d.stage.BeforeIntent? then
      (v, EndOf(d.ending, if d.ending.Raised? then d.ending.category else Storage))
    else
      match Admit(v, op, context)
      case Err(category) => (v, Failed(category))
      case Ok(document) => Commit(v, op, document, context, d)
  }

  function Commit(v: Vault, op: Operation, document: Document, context: AuditContext, d: Disturbance): (Vault, Outcome) {
    var intended := AppendLine(v, RecordOf(op, context, Intent), Whole);
    var written := WriteEntity(intended, op, document, context.operationId);
    if d.Smooth? then (AppendLine(written, RecordOf(op, context, Committed), Whole), Done)
    else
      match d.stage
      case BeforeIntent => (v, EndOf(d.ending, Storage))
      case IntentAppend(landing) =>
        (AppendLine(v, RecordOf(op, context, Intent), landing), EndOf(d.ending, Storage))
      case SecondCheck => (intended, EndOf(d.ending, SecondCheckCategory(d.ending)))
      case EntityWrite(landed) => (if landed then written else intended, EndOf(d.ending, WriteCategory(landed, d.ending)))
      case ReadBack => (written, EndOf(d.ending, Storage))
      case CommitAppend(landing) =>
        (AppendLine(written, RecordOf(op, context, Committed), landing), EndOf(d.ending, Storage))
  }

  class VaultRepository {
    var entities: map<string, Document>
    var audit: seq<AuditRecord>
    var torn: bool
    const guarded: bool
    var writes: seq<string>

    constructor (entities: map<string, Document>, audit: seq<AuditRecord>, torn: bool, guarded: bool, writes: seq<string>)
      ensures State() == Vault(entities, audit, torn, guarded, writes)
    {
      this.entities := entities;
      this.audit := audit;
      this.torn := torn;
      this.guarded := guarded;
      this.writes := writes;
    }

    function State(): Vault
      reads this
    {
      Vault(entities, audit, torn, guarded, writes)
    }

    method AppendAudit(record: AuditRecord, landing: Landing)
      modifies this`audit, this`torn
      ensures State() == AppendLine(old(State()), record, landing)
    {
      if landing.Whole? {
        audit := audit + [record];
      } else if landing.Part? {
        torn := true;
      }
    }

    method CheckAuditHealth(operationId: string) returns (problem: Option<Category>)
      ensures problem == if torn then Some(Storage)
                         else if guarded && IdUsed(audit, operationId) then Some(Conflict)
                         else None
    {
      if torn {
        return Some(Storage);
      }
      if guarded {
        for k := 0 to |audit|
          invariant forall j :: 0 <= j < k ==> audit[j].operationId != operationId
        {
          if audit[k].operationId == operationId {
            return Some(Conflict);
          }
        }
      }
      return None;
    }

    /** The documents of the Vault, each once, in whatever order the files are found. */
    method ListEntities() returns (documents: seq<Document>)
      requires WellKeyed(entities)
      ensures Lists(documents, entities)
    {
      documents := [];
      var rest := entities.Keys;
      while rest != {}
        invariant rest <= entities.Keys
        invariant forall i :: 0 <= i < |documents| ==>
                    && documents[i].entity.id in entities && documents[i].entity.id !in rest
                    && entities[documents[i].entity.id] == documents[i]
        invariant forall i, j :: 0 <= i < j < |documents| ==> documents[i].entity.id != documents[j].entity.id
        invariant forall id :: id in entities && id !in rest ==>
                    exists i :: 0 <= i < |documents| && documents[i].entity.id == id
        decreases rest
      {
        var id :| id in rest;
        ghost var before := documents;
        documents := documents + [entities[id]];
        rest := rest - {id};
        assert documents[|before|].entity.id == id;
        forall other | other in entities && other !in rest
          ensures exists i :: 0 <= i < |documents| && documents[i].entity.id == other
        {
          if other != id {
            var i :| 0 <= i < |before| && before[i].entity.id == other;
            assert documents[i].entity.id == other;
          }
        }
      }
    }

    /** Intent, second check, write, read-back, committed: the shared commit path. */
    method CommitMutation(op: Operation, document: Document, context: AuditContext, d: Disturbance)
      returns (outcome: Outcome)
      requires !(d.Stopped? && d.stage.BeforeIntent?)
      modifies this
      ensures (State(), outcome) == Commit(old(State()), op, document, context, d)
    {
      if d.Stopped? && d.stage.IntentAppend? {
        AppendAudit(RecordOf(op, context, Intent), d.stage.intent);
        return EndOf(d.ending, Storage);
      }
      AppendAudit(RecordOf(op, context, Intent), Whole);
      if d.Stopped? && d.stage.SecondCheck? {
        return EndOf(d.ending, SecondCheckCategory(d.ending));
      }
      if d.Stopped? && d.stage.EntityWrite? && !d.stage.landed {
        return EndOf(d.ending, WriteCategory(false, d.ending));
      }
      entities := entities[op.entityId := document];
      writes := writes + [context.operationId];
      if d.Stopped? && (d.stage.EntityWrite? || d.stage.ReadBack?) {
        return EndOf(d.ending, Storage);
      }
      if d.Stopped? {
        AppendAudit(RecordOf(op, context, Committed), d.stage.commit);
        return EndOf(d.ending, Storage);
      }
      AppendAudit(RecordOf(op, context, Committed), Whole);
      return Done;
    }

    /** Dispatch of one operation to create, patch or append. */
    method Perform(op: Operation, context: AuditContext, d: Disturbance) returns (outcome: Outcome)
      modifies this
      ensures (State(), outcome) == Mutate(old(State()), op, context, d)
    {
      if d.Stopped? && d.stage.BeforeIntent? {
        return EndOf(d.ending, if d.ending.Raised? then d.ending.category else Storage);
      }
      var health := CheckAuditHealth(context.operationId);
      if health.Some? {
        return Failed(health.value);
      }
      var effect := Effect(entities, op, context.realTime);
      if effect.Err? {
        return Failed(effect.error);
      }
      outcome := CommitMutation(op, effect.value, context, d);
    }
  }
}
