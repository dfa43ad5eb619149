/** How a device applies pulled changes to its own tables (applyPulledMutation, internal/memory/sync.go). */
module Replica {
  import opened Options
  import opened Uuids
  import opened SyncService

  datatype LocalState = LocalActive | LocalNeedsReview | LocalArchived

  /** An observation row of the device, without its id. References are kept as a table, so without order. */
  datatype LocalObservation = LocalObservation(
    title: string,
    projectId: string,
    sessionId: string,
    scope: string,
    category: string,
    content: string,
    topicKey: string,
    references: set<string>,
    provenance: Provenance,
    state: LocalState,
    createdAt: Time,
    updatedAt: Time,
    reviewAfter: Option<Time>)

  datatype LocalRow = LocalRow(body: LocalObservation, version: int)
  datatype LocalSession = LocalSession(projectId: string, version: int)

  datatype LocalConflict = LocalConflict(
    conflictId: string, recordId: string, canonicalVersion: int, competitor: string, snapshot: Mutation, resolvedSeq: Option<int>)

  datatype LocalTombstone = LocalTombstone(recordId: string, version: int, deletedAt: Time)

  /** conflicts and tombstones are keyed by the sequence that made them. */
  datatype Local = Local(
    projects: map<string, int>,
    sessions: map<string, LocalSession>,
    observations: map<string, LocalRow>,
    conflicts: map<int, LocalConflict>,
    tombstones: map<int, LocalTombstone>)

  const EMPTY_STORE := Local(map[], map[], map[], map[], map[])

  datatype Applied = NotApplied | Applied(local: Local)

  // ------------------------------------------------------------- queries

  /** syncUnixNano: a positive number of nanoseconds that fits an int64. */
  predicate StorableTime(time: Time) {
    time != ZERO_TIME && 0 < time <= MAX_INT64
  }

  predicate HasTombstone(local: Local, id: string) {
    exists i :: i in local.tombstones && local.tombstones[i].recordId == id
  }

  /** The device's topic index covers rows in every state. */
  predicate TopicHeld(local: Local, id: string, o: LocalObservation) {
    o.topicKey != "" && exists other :: other in local.observations && other != id && SameTopic(local.observations[other].body, o)
  }

  predicate SameTopic(a: LocalObservation, b: LocalObservation) {
    a.projectId == b.projectId && a.scope == b.scope && a.topicKey == b.topicKey
  }

  predicate ReferenceAllowed(local: Local, id: string, reference: string, o: Observation) {
    && reference != "" && reference != id
    && reference in local.observations
    && local.observations[reference].body.projectId == o.projectId
    && local.observations[reference].body.scope == o.scope
    && !HasTombstone(local, reference)
  }

  /** validateReferences */
  predicate ReferencesValid(local: Local, o: Observation) {
    && Distinct(o.references)
    && forall i | 0 <= i < |o.references| :: ReferenceAllowed(local, o.id, o.references[i], o)
  }

  function StateOf(o: Observation): LocalState {
    if o.lifecycle == Archived then LocalArchived
    else if o.review == NeedsReview then LocalNeedsReview
    else LocalActive
  }

  function References(ids: seq<string>): set<string> {
    set i | 0 <= i < |ids| :: ids[i]
  }

  /** pulledObservation: the row body of a snapshot. */
  function BodyOf(o: Observation): LocalObservation {
    LocalObservation(o.title, o.projectId, o.sessionId, o.scope, o.category, o.content, o.topicKey, References(o.references),
                     o.provenance, StateOf(o), o.createdAt, o.updatedAt, o.reviewAfter)
  }

  /** The row says, field by field, what the content says; its state is left open. */
  ghost predicate Shows(row: LocalObservation, o: Observation) {
    && row.title == o.title && row.category == o.category && row.content == o.content
    && row.projectId == o.projectId && row.sessionId == o.sessionId && row.scope == o.scope && row.topicKey == o.topicKey
    && row.provenance == o.provenance
    && row.createdAt == o.createdAt && row.updatedAt == o.updatedAt && row.reviewAfter == o.reviewAfter
    && forall r :: r in row.references <==> r in o.references
  }

  lemma BodyShows(o: Observation, state: LocalState)
    ensures Shows(BodyOf(o).(state := state), o)
  {
  }

  predicate TimesStorable(o: Observation) {
    && StorableTime(o.createdAt) && StorableTime(o.updatedAt) && o.createdAt <= o.updatedAt
    && (o.reviewAfter.Some? ==> StorableTime(o.reviewAfter.value))
  }

  /** Everything applyPulledObservation asks before it looks at the record itself. */
  predicate SurroundingsReady(local: Local, o: Observation) {
    && TimesStorable(o)
    && o.projectId in local.projects
    && (o.sessionId != "" ==> o.sessionId in local.sessions && local.sessions[o.sessionId].projectId == o.projectId)
    && !HasTombstone(local, o.id)
    && ReferencesValid(local, o)
  }

  /** An update keeps a row's project, scope and creation time. */
  predicate SameIdentity(row: LocalObservation, o: LocalObservation) {
    row.projectId == o.projectId && row.scope == o.scope && row.createdAt == o.createdAt
  }

  // ------------------------------------------------------- specification

  /** kind is Update for a resolution, whatever the change's own kind. */
  function ApplyObservation(local: Local, o: Observation, kind: MutationKind, base: int, canonical: int): Applied {
    if !SurroundingsReady(local, o) then NotApplied
    else
      var body := BodyOf(o);
      if kind == Create then
        if o.id in local.observations || base != 0 || canonical != 1 || TopicHeld(local, o.id, body) then NotApplied
        else Applied(local.(observations := local.observations[o.id := LocalRow(body, canonical)]))
      else if || o.id !in local.observations
              || !SameIdentity(local.observations[o.id].body, body)
              || local.observations[o.id].version != base || canonical != base + 1
              || TopicHeld(local, o.id, body) then NotApplied
      else Applied(local.(observations := local.observations[o.id := LocalRow(body, canonical)]))
  }

  function ApplyProject(local: Local, id: string, kind: MutationKind, base: int, canonical: int): Applied {
    if kind == Create then
      if id in local.projects || base != 0 || canonical != 1 then NotApplied
      else Applied(local.(projects := local.projects[id := canonical]))
    else if id !in local.projects || local.projects[id] != base || canonical != base + 1 then NotApplied
    else Applied(local.(projects := local.projects[id := canonical]))
  }

  function ApplySession(local: Local, s: Session, kind: MutationKind, base: int, canonical: int): Applied {
    if s.projectId !in local.projects then NotApplied
    else if kind == Create then
      if s.id in local.sessions || canonical != 1 then NotApplied
      else Applied(local.(sessions := local.sessions[s.id := LocalSession(s.projectId, 1)]))
    else if || s.id !in local.sessions || local.sessions[s.id].projectId != s.projectId
            || local.sessions[s.id].version != base || canonical != base + 1 then NotApplied
    else Applied(local.(sessions := local.sessions[s.id := LocalSession(s.projectId, canonical)]))
  }

  /** A row under review by a conflict; archived rows stay archived. */
  function Flagged(rows: map<string, LocalRow>, id: string): map<string, LocalRow> {
    if id in rows && rows[id].body.state == LocalActive then rows[id := rows[id].(body := rows[id].body.(state := LocalNeedsReview))]
    else rows
  }

  function NewConflict(c: Change): LocalConflict {
    LocalConflict(c.conflictId, c.mutation.recordId, c.canonicalVersion, Lower(c.mutation.mutationId), c.mutation, None)
  }

  predicate ConflictIdTaken(local: Local, id: string) {
    exists i :: i in local.conflicts && local.conflicts[i].conflictId == id
  }

  function ApplyConflict(local: Local, c: Change): Applied
    requires c.mutation.observation.Some?
  {
    var o := c.mutation.observation.value;
    var id := c.mutation.recordId;
    if id in local.observations
       && (|| local.observations[id].body.projectId != o.projectId || local.observations[id].body.scope != o.scope
           || local.observations[id].version != c.canonicalVersion) then NotApplied
    else if c.sequence in local.conflicts then
      if local.conflicts[c.sequence] != NewConflict(c) then NotApplied
      else Applied(local.(observations := Flagged(local.observations, id)))
    else if ConflictIdTaken(local, c.conflictId) then NotApplied
    else Applied(local.(observations := Flagged(local.observations, id), conflicts := local.conflicts[c.sequence := NewConflict(c)]))
  }

  function ApplyTombstone(local: Local, c: Change): Applied
    requires c.mutation.tombstone.Some?
  {
    var id := c.mutation.recordId;
    if || id !in local.observations
       || local.observations[id].version != c.mutation.baseVersion || c.canonicalVersion != c.mutation.baseVersion + 1
       || !StorableTime(c.mutation.tombstone.value.deletedAt)
       || c.sequence in local.tombstones
       || (exists i :: i in local.tombstones && local.tombstones[i].recordId == id && local.tombstones[i].version == c.canonicalVersion)
    then NotApplied
    else
      var row := local.observations[id];
      Applied(local.(
        observations := local.observations[id := LocalRow(row.body.(topicKey := "", references := {}), c.canonicalVersion)],
        tombstones := local.tombstones[c.sequence := LocalTombstone(id, c.canonicalVersion, c.mutation.tombstone.value.deletedAt)]))
  }

  predicate OpenConflict(local: Local, conflictId: string, recordId: string, i: int) {
    && i in local.conflicts
    && local.conflicts[i].conflictId == conflictId
    && local.conflicts[i].recordId == recordId
    && local.conflicts[i].resolvedSeq.None?
  }

  predicate HasOpenConflict(local: Local, conflictId: string, recordId: string) {
    exists i :: i in local.conflicts && OpenConflict(local, conflictId, recordId, i)
  }

  function Closed(conflicts: map<int, LocalConflict>, ids: seq<string>, recordId: string, sequence: int): map<int, LocalConflict> {
    map i | i in conflicts ::
      if conflicts[i].conflictId in ids && conflicts[i].recordId == recordId && conflicts[i].resolvedSeq.None? then
        conflicts[i].(resolvedSeq := Some(sequence))
      else conflicts[i]
  }

  function ApplyResolve(local: Local, c: Change): Applied
    requires c.mutation.resolution.Some? && c.mutation.resolution.value.observation.Some?
  {
    var ids := c.mutation.resolution.value.conflictIds;
    if !Distinct(ids) || exists k | 0 <= k < |ids| :: !HasOpenConflict(local, ids[k], c.mutation.recordId) then NotApplied
    else
      var winner := ApplyObservation(local, c.mutation.resolution.value.observation.value, Update, c.mutation.baseVersion, c.canonicalVersion);
      if winner.NotApplied? then NotApplied
      else Applied(winner.local.(conflicts := Closed(local.conflicts, ids, c.mutation.recordId, c.sequence)))
  }

  /** applyPulledMutation, on a device without work of its own. */
  function Apply(local: Local, c: Change): Applied {
    var m := c.mutation;
    if c.disposition == ConflictChange then
      if m.observation.Some? then ApplyConflict(local, c) else NotApplied
    else if m.kind == Tombstone then
      if m.tombstone.Some? then ApplyTombstone(local, c) else NotApplied
    else if m.kind == Resolve then
      if m.resolution.Some? && m.resolution.value.observation.Some? then ApplyResolve(local, c) else NotApplied
    else
      match m.recordKind
      case ProjectKind => ApplyProject(local, m.recordId, m.kind, m.baseVersion, c.canonicalVersion)
      case SessionKind =>
        if m.session.Some? then ApplySession(local, m.session.value, m.kind, m.baseVersion, c.canonicalVersion) else NotApplied
      case ObservationKind =>
        if m.observation.Some? then ApplyObservation(local, m.observation.value, m.kind, m.baseVersion, c.canonicalVersion) else NotApplied
  }

  /** Applying a log from an empty store. */
  function ReplayLog(log: seq<Change>): Applied {
    if log == [] then Applied(EMPTY_STORE)
    else
      var before := ReplayLog(log[..|log| - 1]);
      if before.NotApplied? then NotApplied else Apply(before.local, log[|log| - 1])
  }
}
