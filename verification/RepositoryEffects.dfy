/** What one mutation makes of a document, which ones are refused, and with which error each may end. */
module RepositoryEffects {
  import opened Wrappers
  import opened Domain
  import opened Repository
  import FactLines

  // Documents

  /** The field after a patch: the given value, or the one it had. */
  predicate Patched<T(==)>(given: Option<T>, before: T, after: T) {
    match given
    case Some(value) => after == value
    case None => after == before
  }

  /** A new document has the fields of its operation, revision one, and no text. */
  predicate IsCreated(op: Operation, realTime: int, document: Document)
    requires op.CreateEntity?
  {
    var e := document.entity;
    && e.id == op.entityId && e.etype == op.etype && e.name == op.name && e.status == op.status
    && e.visibility == op.visibility && e.knowledge == op.knowledge
    && e.createdSession == op.createdSession && e.lastSeenSession == op.lastSeenSession && e.tags == op.tags
    && e.createdAt == realTime && e.updatedAt == realTime && e.revision == 1
    && document.aliases == [] && document.body == ""
  }

  /** Identity, creation time, aliases and text stay; the revision grows by one. */
  predicate IsNextOf(before: Document, realTime: int, after: Document) {
    && after.entity.id == before.entity.id && after.entity.etype == before.entity.etype
    && after.entity.createdAt == before.entity.createdAt && after.entity.updatedAt == realTime
    && after.entity.revision == before.entity.revision + 1 && after.aliases == before.aliases
  }

  predicate IsPatched(before: Document, u: FieldUpdate, after: Document) {
    var b, a := before.entity, after.entity;
    && Patched(u.name, b.name, a.name) && Patched(u.status, b.status, a.status)
    && Patched(u.visibility, b.visibility, a.visibility) && Patched(u.knowledge, b.knowledge, a.knowledge)
    && Patched(u.createdSession, b.createdSession, a.createdSession)
    && Patched(u.lastSeenSession, b.lastSeenSession, a.lastSeenSession) && Patched(u.tags, b.tags, a.tags)
    && after.body == before.body
  }

  /** The text stays as it is, character for character, and one bullet line follows. */
  ghost predicate IsAppended(before: Document, fact: string, after: Document) {
    var b, a := before.entity, after.entity;
    && a.name == b.name && a.status == b.status && a.visibility == b.visibility && a.knowledge == b.knowledge
    && a.createdSession == b.createdSession && a.lastSeenSession == b.lastSeenSession && a.tags == b.tags
    && TextFollows(before.body, fact, after.body)
  }

  /** A line ending of the text's own kind closes the bullet, and one precedes it unless the text ends in one. */
  ghost predicate TextFollows(body: string, fact: string, text: string) {
    exists gap: string, end: string ::
      && text == body + gap + ("- " + fact) + end
      && EndingFor(body, end)
      && gap == if body == "" || EndsLine(body) then "" else end
  }

  predicate EndsLine(body: string) {
    body != "" && (body[|body| - 1] == '\n' || body[|body| - 1] == '\r')
  }

  /** CRLF, LF or CR as the text ends; for a text without final line ending CRLF exactly if its last line feed is part of one. */
  ghost predicate EndingFor(body: string, end: string) {
    if EndsLine(body) then
      if body[|body| - 1] == '\r' then end == "\r"
      else if |body| > 1 && body[|body| - 2] == '\r' then end == "\r\n" else end == "\n"
    else
      && (end == "\r\n" || end == "\n")
      && (end == "\r\n" <==> exists p: nat :: LastLineFeed(body, p) && p > 0 && body[p - 1] == '\r')
  }

  predicate LastLineFeed(body: string, p: nat) {
    p < |body| && body[p] == '\n' && forall k :: p < k < |body| ==> body[k] != '\n'
  }

  lemma {:induction false} SeparatorIs(body: string)
    ensures var end := FactLines.InferredSeparator(body);
            && (end == "\r\n" || end == "\n")
            && (end == "\r\n" <==> exists p: nat :: LastLineFeed(body, p) && p > 0 && body[p - 1] == '\r')
  {
    if body != "" {
      var n := |body| - 1;
      if body[n] == '\n' {
        assert LastLineFeed(body, n);
      } else {
        SeparatorIs(body[..n]);
        forall p: nat
          ensures LastLineFeed(body, p) <==> LastLineFeed(body[..n], p)
        {
        }
      }
    }
  }

  /** For every text and fact. */
  lemma AppendKeepsText(body: string, fact: string)
    ensures TextFollows(body, fact, FactLines.AppendFactToBody(body, fact))
  {
    SeparatorIs(body);
    var text := FactLines.AppendFactToBody(body, fact);
    var end := text[|text| - (if body != "" && |body| > 1 && body[|body| - 2..] == "\r\n" then 2
                              else if body == "" || EndsLine(body) then 1 else |FactLines.InferredSeparator(body)|)..];
    var gap := if body == "" || EndsLine(body) then "" else end;
    assert text == body + gap + ("- " + fact) + end;
    assert EndingFor(body, end);
  }

  // Which mutation is admitted

  /**
   The revision guard: a create is refused exactly for a taken id, a change exactly
   for a missing entity or another revision, each with its own error; what is
   admitted gives the document the operation asks for.
   */
  lemma EffectIff(entities: map<string, Document>, op: Operation, realTime: int)
    ensures var effect := Effect(entities, op, realTime);
            && (effect == Err(NotFound) <==> !op.CreateEntity? && op.entityId !in entities)
            && (effect == Err(Conflict) <==>
                  && op.entityId in entities
                  && (op.CreateEntity? || entities[op.entityId].entity.revision != op.expectedRevision))
            && effect != Err(Validation) && effect != Err(Storage)
            && (effect.Ok? && op.CreateEntity? ==> IsCreated(op, realTime, effect.value))
            && (effect.Ok? && !op.CreateEntity? ==> IsNextOf(entities[op.entityId], realTime, effect.value))
            && (effect.Ok? && op.UpdateEntity? ==> IsPatched(entities[op.entityId], op.update, effect.value))
            && (effect.Ok? && op.AppendFact? ==> IsAppended(entities[op.entityId], op.fact, effect.value))
  {
    if op.AppendFact? && op.entityId in entities {
      AppendKeepsText(entities[op.entityId].body, op.fact);
    }
  }

  // How a mutation ends

  /** The refusal of a mutation that met no fault. */
  predicate RefusedWith(v: Vault, op: Operation, operationId: string, category: Category) {
    if v.torn then category == Storage
    else if v.guarded && IdUsed(v.audit, operationId) then category == Conflict
    else if op.CreateEntity? then op.entityId in v.entities && category == Conflict
    else if op.entityId !in v.entities then category == NotFound
    else v.entities[op.entityId].entity.revision != op.expectedRevision && category == Conflict
  }

  /** The errors that come through from a point behind the admission; any other raised there is a storage error. */
  predicate ComesThrough(stage: Stage, category: Category) {
    (stage == SecondCheck && category == Conflict) || (stage == EntityWrite(false) && category == Validation)
  }

  /** The document of one mutation, the two records, and the entry of no other entity. */
  ghost predicate Mutated(v: Vault, v': Vault, op: Operation, context: AuditContext, wrote: bool) {
    && (forall id :: id != op.entityId ==> (id in v'.entities <==> id in v.entities) && (id in v.entities ==> v'.entities[id] == v.entities[id]))
    && (if wrote then op.entityId in v'.entities && Effect(v.entities, op, context.realTime) == Ok(v'.entities[op.entityId])
        else (op.entityId in v'.entities <==> op.entityId in v.entities)
             && (op.entityId in v.entities ==> v'.entities[op.entityId] == v.entities[op.entityId]))
  }

  predicate IsRefused(v: Vault, op: Operation, operationId: string) {
    exists category :: RefusedWith(v, op, operationId, category)
  }

  lemma AdmitIff(v: Vault, op: Operation, context: AuditContext)
    ensures var admitted := Admit(v, op, context);
            && (admitted.Err? <==> IsRefused(v, op, context.operationId))
            && (admitted.Err? ==> RefusedWith(v, op, context.operationId, admitted.error))
            && (admitted.Ok? ==> Effect(v.entities, op, context.realTime) == admitted)
  {
    assert RefusedWith(v, op, context.operationId, Storage) || RefusedWith(v, op, context.operationId, Conflict)
           || RefusedWith(v, op, context.operationId, NotFound) || Admit(v, op, context).Ok?;
  }

  /** How a mutation ends that was admitted. */
  predicate EndsAs(d: Disturbance, outcome: Outcome) {
    outcome == if d.Smooth? then Done
               else if d.ending.Crashed? then Died
               else if ComesThrough(d.stage, d.ending.category) then Failed(d.ending.category) else Failed(Storage)
  }

  lemma CommitEnds(v: Vault, op: Operation, document: Document, context: AuditContext, d: Disturbance)
    requires !(d.Stopped? && d.stage.BeforeIntent?)
    ensures EndsAs(d, Commit(v, op, document, context, d).1)
  {
  }

  predicate WritesOrNot(v: Vault, v': Vault, op: Operation, document: Document) {
    || (v'.writes == v.writes && v'.entities == v.entities)
    || (|v'.writes| == |v.writes| + 1 && v'.entities == v.entities[op.entityId := document])
  }

  lemma CommitWrites(v: Vault, op: Operation, document: Document, context: AuditContext, d: Disturbance)
    ensures var v' := Commit(v, op, document, context, d).0;
            && WritesOrNot(v, v', op, document)
            && (d.Smooth? ==> |v'.writes| == |v.writes| + 1)
  {
  }

  lemma WriteIsMutation(v: Vault, v': Vault, op: Operation, document: Document, context: AuditContext)
    requires Effect(v.entities, op, context.realTime) == Ok(document)
    requires WritesOrNot(v, v', op, document)
    ensures Mutated(v, v', op, context, |v'.writes| > |v.writes|)
  {
  }

  /**
   One mutation under every disturbance: what it writes is what the guard admits,
   nothing else in the Vault changes, and its error is that of the refusal, that of
   the check that raised, or a storage error.
   */
  lemma MutationEnds(v: Vault, op: Operation, context: AuditContext, d: Disturbance)
    ensures var (v', outcome) := Mutate(v, op, context, d);
            var early, refused := d.Stopped? && d.stage.BeforeIntent?, IsRefused(v, op, context.operationId);
            && Mutated(v, v', op, context, |v'.writes| > |v.writes|)
            && (early ==> v' == v && outcome == if d.ending.Crashed? then Died else Failed(d.ending.category))
            && (!early && refused ==> v' == v && outcome.Failed? && RefusedWith(v, op, context.operationId, outcome.category))
            && (!early && !refused ==> EndsAs(d, outcome) && (d.Smooth? ==> |v'.writes| == |v.writes| + 1))
  {
    AdmitIff(v, op, context);
    var admitted := Admit(v, op, context);
    if admitted.Ok? && !(d.Stopped? && d.stage.BeforeIntent?) {
      CommitEnds(v, op, admitted.value, context, d);
      CommitWrites(v, op, admitted.value, context, d);
      WriteIsMutation(v, Mutate(v, op, context, d).0, op, admitted.value, context);
    }
  }

  /** What a log record says of its operation. */
  lemma RecordsSay(op: Operation, context: AuditContext, phase: Phase)
    ensures var record := RecordOf(op, context, phase);
            && record.operationId == context.operationId && record.phase == phase && record.entityId == op.entityId
            && record.session == context.session && record.source == context.source && record.realTime == context.realTime
            && (record.operation == "create_entity" <==> op.CreateEntity?)
            && (record.operation == "patch_entity" <==> op.UpdateEntity?)
            && (record.operation == "append_entity_fact" <==> op.AppendFact?)
  {
    assert "create_entity"[0] != "patch_entity"[0] && "create_entity"[0] != "append_entity_fact"[0] && "patch_entity"[0] != "append_entity_fact"[0];
  }
}
