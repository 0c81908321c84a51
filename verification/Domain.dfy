/** Campaign entities, the ChangeSet proposal and its three operation kinds. */
module Domain {
  import opened Wrappers

  datatype EntityType = Npc | Location | Quest | Item

  datatype Visibility = Player | Dm | System

  datatype KnowledgeStatus = Confirmed | Reported | Rumor | Inferred | Unknown

  datatype Provenance = Manual | Session | Bootstrap | Import | ModelInference

  datatype Entity = Entity(
    id: string, etype: EntityType, name: string, status: string,
    visibility: Visibility, knowledge: KnowledgeStatus,
    createdSession: Option<string>, lastSeenSession: Option<string>, tags: seq<string>,
    createdAt: int, updatedAt: int, revision: nat)

  /** An entity with the alias list of its extra frontmatter and its Markdown body. */
  datatype Document = Document(entity: Entity, aliases: seq<string>, body: string)

  /** The editable fields; an absent one stays as it is, and a session field may be cleared. */
  datatype FieldUpdate = FieldUpdate(
    name: Option<string>, status: Option<string>,
    visibility: Option<Visibility>, knowledge: Option<KnowledgeStatus>,
    createdSession: Option<Option<string>>, lastSeenSession: Option<Option<string>>,
    tags: Option<seq<string>>)

  datatype Operation =
    | CreateEntity(entityId: string, etype: EntityType, name: string, status: string,
                   visibility: Visibility, knowledge: KnowledgeStatus,
                   createdSession: Option<string>, lastSeenSession: Option<string>, tags: seq<string>)
    | UpdateEntity(entityId: string, expectedRevision: nat, update: FieldUpdate)
    | AppendFact(entityId: string, expectedRevision: nat, fact: string)

  /** The operation order is the apply order. */
  datatype ChangeSet = ChangeSet(
    id: string, provenance: Provenance, sessionRef: Option<string>, operations: seq<Operation>)

  /** SHA-256 of the canonical proposal bytes, taken as injective. */
  datatype Fingerprint = Fingerprint(content: ChangeSet)

  function ComputeFingerprint(changeset: ChangeSet): Fingerprint {
    Fingerprint(changeset)
  }

  /** The error classes the repository raises. */
  datatype Category = Validation | NotFound | Conflict | Storage

  /** The id of the proposal one post-session attempt may produce. */
  function PostSessionProposalId(session: string, attempt: string): string {
    "cs_" + session + "_" + attempt
  }
}
