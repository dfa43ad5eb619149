/** The server's tables for one owner, and the queries the push transaction makes of them. */
module Tables {
  import opened Options
  import opened SyncService

  const NIL_UUID := "00000000-0000-0000-0000-000000000000"

  /** The JSON stored in record_versions.snapshot. */
  datatype Snapshot =
    | ProjectSnapshot(project: Project)
    | SessionSnapshot(session: Session)
    | ObservationSnapshot(observation: Observation)
    | TombstoneSnapshot(tombstone: Deletion)

  datatype MutationKey = MutationKey(device: string, mutationId: string)

  datatype ProjectRow = ProjectRow(version: int, payload: Project)
  datatype SessionRow = SessionRow(projectId: string, version: int)

  /** An observation row together with its observation_references rows. */
  datatype ObservationRow = ObservationRow(body: Observation, version: int)

  /** The request hash is collision-free, so it is kept as the request itself. */
  datatype MutationRow = MutationRow(
    requestHash: Mutation,
    kind: MutationKind,
    recordId: string,
    baseVersion: int,
    disposition: ChangeDisposition,
    canonicalSeq: int,
    canonicalVersion: int,
    resolutionConflictIds: Option<seq<string>>)

  datatype VersionRow = VersionRow(
    recordKind: RecordKind,
    recordId: string,
    recordVersion: int,
    source: MutationKey,
    baseVersion: int,
    disposition: ChangeDisposition,
    snapshot: Snapshot)

  datatype ChangeRow = ChangeRow(
    source: MutationKey,
    changeKind: ChangeDisposition,
    recordKind: RecordKind,
    recordId: string,
    canonicalVersion: int,
    versionId: int)

  /** Unresolved while resolvedSeq is None: the schema ties status to that column. */
  datatype ConflictRow = ConflictRow(
    observationId: string,
    canonicalVersion: int,
    competingVersionId: int,
    createdSeq: int,
    resolvedSeq: Option<int>)

  datatype TombstoneRow = TombstoneRow(versionId: int, source: MutationKey, deletedAt: Time)

  /** versions is indexed by record_versions.id; devices maps to whether the device is revoked. */
  datatype Tables = Tables(
    nextSeq: int,
    devices: map<string, bool>,
    projects: map<string, ProjectRow>,
    sessions: map<string, SessionRow>,
    observations: map<string, ObservationRow>,
    mutations: map<MutationKey, MutationRow>,
    versions: seq<VersionRow>,
    changes: map<int, ChangeRow>,
    conflicts: map<string, ConflictRow>,
    tombstones: map<string, TombstoneRow>)

  const EMPTY_OWNER := Tables(1, map[], map[], map[], map[], map[], [], map[], map[], map[])

  // ------------------------------------------------------------- queries

  /** lockTarget: the record's version, if it has a row. */
  function Target(t: Tables, kind: RecordKind, id: string): Option<int> {
    match kind
    case ProjectKind => if id in t.projects then Some(t.projects[id].version) else None
    case SessionKind => if id in t.sessions then Some(t.sessions[id].version) else None
    case ObservationKind => if id in t.observations then Some(t.observations[id].version) else None
  }

  predicate HasLifecycle(t: Tables, id: string, lifecycle: Lifecycle) {
    id in t.observations && t.observations[id].body.lifecycle == lifecycle
  }

  predicate ConflictOf(t: Tables, id: string, observation: string) {
    id in t.conflicts && t.conflicts[id].observationId == observation
  }

  predicate UnresolvedConflictOf(t: Tables, id: string, observation: string) {
    ConflictOf(t, id, observation) && t.conflicts[id].resolvedSeq.None?
  }

  predicate HoldsTopic(row: ObservationRow, o: Observation) {
    && row.body.projectId == o.projectId
    && row.body.scope == o.scope
    && row.body.topicKey == o.topicKey
    && row.body.lifecycle == Active
  }

  /** The rows lockTopic may see for an observation with a topic key. */
  function TopicHolders(t: Tables, o: Observation): set<string> {
    set id | id in t.observations && HoldsTopic(t.observations[id], o)
  }

  /** Another active observation already has this one's project, scope and topic key. */
  predicate TopicTaken(t: Tables, m: Mutation) {
    && m.observation.Some?
    && m.observation.value.topicKey != ""
    && exists id :: id in TopicHolders(t, m.observation.value) && id != m.recordId
  }

  predicate InProject(t: Tables, observation: string, project: string) {
    observation in t.observations && t.observations[observation].body.projectId == project
  }

  /** Some observation of another project refers to this one. */
  predicate ForeignReferrer(t: Tables, target: string, project: string) {
    exists id :: id in t.observations && target in t.observations[id].body.references && t.observations[id].body.projectId != project
  }

  predicate ReferencesAllowed(t: Tables, recordId: string, o: Observation) {
    forall i | 0 <= i < |o.references| :: o.references[i] != recordId && InProject(t, o.references[i], o.projectId)
  }

  predicate ForeignSessionMember(t: Tables, session: string, project: string) {
    exists id :: id in t.observations && t.observations[id].body.sessionId == session && t.observations[id].body.projectId != project
  }

  predicate SessionPrerequisites(t: Tables, m: Mutation, s: Session) {
    s.projectId in t.projects && (m.kind == Update ==> !ForeignSessionMember(t, m.recordId, s.projectId))
  }

  predicate ObservationPrerequisites(t: Tables, m: Mutation, o: Observation) {
    && o.projectId in t.projects
    && (o.sessionId != "" ==> o.sessionId in t.sessions && t.sessions[o.sessionId].projectId == o.projectId)
    && (m.kind == Update ==> !ForeignReferrer(t, m.recordId, o.projectId))
    && ReferencesAllowed(t, m.recordId, o)
  }

  predicate PrerequisitesHold(t: Tables, m: Mutation) {
    && (m.session.Some? ==> SessionPrerequisites(t, m, m.session.value))
    && (m.observation.Some? ==> ObservationPrerequisites(t, m, m.observation.value))
  }

  /** UNIQUE (record_kind, record_id, record_version, source_mutation_id): the device is not part of it. */
  predicate VersionRowClash(versions: seq<VersionRow>, kind: RecordKind, id: string, version: int, mutationId: string) {
    exists i :: 0 <= i < |versions| && SameVersionIdentity(versions[i], kind, id, version, mutationId)
  }

  predicate SameVersionIdentity(v: VersionRow, kind: RecordKind, id: string, version: int, mutationId: string) {
    v.recordKind == kind && v.recordId == id && v.recordVersion == version && v.source.mutationId == mutationId
  }

  /** The partial unique index on active topics: at most one row can hold a topic. */
  ghost predicate TopicsUnique(t: Tables) {
    forall i, j | i in t.observations && j in t.observations && i != j ::
      !(t.observations[i].body.topicKey != "" && t.observations[j].body.lifecycle == Active
        && HoldsTopic(t.observations[i], t.observations[j].body))
  }
}
