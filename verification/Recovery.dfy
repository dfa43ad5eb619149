/**
 What VerifyRecovery checks of a stored history (internal/syncpg/verify.go), and
 the larger invariant under which every push keeps it.
 */
module Recovery {
  import opened Options
  import opened Uuids
  import opened SyncService
  import opened Tables
  import opened Repository

  // ------------------------------------------------------ VerifyRecovery

  ghost predicate SequencesDense(t: Tables) {
    1 <= t.nextSeq && forall i :: i in t.changes <==> 1 <= i < t.nextSeq
  }

  predicate ChangeMatches(t: Tables, i: int)
    requires i in t.changes
  {
    var c := t.changes[i];
    && c.changeKind != Unstated
    && c.source in t.mutations
    && 0 <= c.versionId < |t.versions|
    && var m := t.mutations[c.source];
       var v := t.versions[c.versionId];
       && v.recordKind == c.recordKind
       && v.recordId == c.recordId
       && m.canonicalSeq == i
       && m.recordId == c.recordId
       && m.disposition == c.changeKind
       && m.canonicalVersion == c.canonicalVersion
       && v.recordVersion == m.baseVersion + 1
       && v.baseVersion == m.baseVersion
       && (c.changeKind == AcceptedChange ==> v.recordVersion == c.canonicalVersion)
       && v.source == c.source
       && v.disposition == c.changeKind
  }

  predicate MutationMatches(t: Tables, key: MutationKey)
    requires key in t.mutations
  {
    var m := t.mutations[key];
    && m.canonicalSeq in t.changes
    && var c := t.changes[m.canonicalSeq];
       && c.source == key
       && c.recordId == m.recordId
       && c.changeKind == m.disposition
       && c.canonicalVersion == m.canonicalVersion
  }

  predicate TombstoneMatches(t: Tables, id: string)
    requires id in t.tombstones
  {
    var row := t.tombstones[id];
    && row.source in t.mutations
    && var m := t.mutations[row.source];
       && m.recordId == id
       && m.kind == Tombstone
       && m.disposition == AcceptedChange
       && m.canonicalSeq in t.changes
       && var c := t.changes[m.canonicalSeq];
          && c.source == row.source
          && c.changeKind == AcceptedChange
          && c.recordKind == ObservationKind
          && c.recordId == id
          && c.versionId == row.versionId
          && 0 <= row.versionId < |t.versions|
          && var v := t.versions[row.versionId];
             && v.recordKind == ObservationKind
             && v.recordId == id
             && c.canonicalVersion == v.recordVersion
             && m.canonicalVersion == v.recordVersion
             && v.source == row.source
             && v.disposition == AcceptedChange
  }

  predicate ClosedExactly(t: Tables, m: MutationRow, ids: seq<string>) {
    && (forall f | f in t.conflicts ::
          t.conflicts[f].observationId == m.recordId && t.conflicts[f].resolvedSeq == Some(m.canonicalSeq) ==> f in ids)
    && (forall i | 0 <= i < |ids| :: ConflictOf(t, ids[i], m.recordId) && t.conflicts[ids[i]].resolvedSeq == Some(m.canonicalSeq))
  }

  /** resolveArraysValid, one mutation at a time. */
  predicate ResolveMatches(t: Tables, key: MutationKey)
    requires key in t.mutations
  {
    var m := t.mutations[key];
    m.kind == Resolve ==>
      && m.resolutionConflictIds.Some?
      && m.canonicalSeq in t.changes
      && t.changes[m.canonicalSeq].source == key
      && t.changes[m.canonicalSeq].recordKind == ObservationKind
      && var ids := m.resolutionConflictIds.value;
         && Distinct(ids)
         && (forall i | 0 <= i < |ids| :: ConflictOf(t, ids[i], m.recordId))
         && (m.disposition == AcceptedChange ==> ClosedExactly(t, m, ids))
  }

  ghost predicate ChangesMatch(t: Tables) {
    forall i | i in t.changes :: ChangeMatches(t, i)
  }

  ghost predicate MutationsMatch(t: Tables) {
    forall key | key in t.mutations :: MutationMatches(t, key)
  }

  ghost predicate TombstonesMatch(t: Tables) {
    && (forall id | id in t.tombstones :: TombstoneMatches(t, id))
    && (forall id :: id in t.tombstones <==> HasLifecycle(t, id, Tombstoned))
  }

  predicate ResolvesMatch(t: Tables) {
    forall key | key in t.mutations :: ResolveMatches(t, key)
  }

  ghost predicate VerifyRecovery(t: Tables) {
    && SequencesDense(t)
    && ChangesMatch(t)
    && MutationsMatch(t)
    && TombstonesMatch(t)
    && ResolvesMatch(t)
  }

  // ----------------------------------------------------------- invariant

  /** Version rows are written one per change, in order. */
  ghost predicate VersionsParallel(t: Tables) {
    && |t.versions| == t.nextSeq - 1
    && forall i | i in t.changes :: t.changes[i].versionId == i - 1
  }

  /** The rows of a request carry what the request said. */
  predicate RequestRecorded(t: Tables, key: MutationKey)
    requires key in t.mutations
  {
    var m := t.mutations[key];
    var request := m.requestHash;
    && ValidateMutation(request) == Valid
    && AcceptedMutation(request)
    && Lower(request.mutationId) == key.mutationId
    && request.kind == m.kind
    && request.recordId == m.recordId
    && request.baseVersion == m.baseVersion != MAX_INT64
    && 1 <= m.canonicalVersion
    && m.resolutionConflictIds == ResolutionColumn(PayloadMutation(request))
    && (m.disposition == ConflictChange ==> request.recordKind == ObservationKind && (request.kind == Create || request.kind == Update))
    && m.canonicalSeq in t.changes
    && 0 <= t.changes[m.canonicalSeq].versionId < |t.versions|
    && t.changes[m.canonicalSeq].recordKind == request.recordKind
    && Some(t.versions[t.changes[m.canonicalSeq].versionId].snapshot) == SnapshotOf(PayloadMutation(request))
  }

  ghost predicate RequestsRecorded(t: Tables) {
    forall key | key in t.mutations :: RequestRecorded(t, key)
  }

  /** The one tombstone of a record is the one its accepted deletion wrote. */
  predicate DeletionRecorded(t: Tables, key: MutationKey)
    requires key in t.mutations
  {
    var m := t.mutations[key];
    m.kind == Tombstone ==>
      && m.disposition == AcceptedChange
      && m.recordId in t.tombstones
      && t.tombstones[m.recordId].source == key
      && m.requestHash.tombstone.Some?
      && t.tombstones[m.recordId].deletedAt == StoredTime(m.requestHash.tombstone.value.deletedAt)
  }

  ghost predicate DeletionsRecorded(t: Tables) {
    forall key | key in t.mutations :: DeletionRecorded(t, key)
  }

  predicate SameRecord(v: VersionRow, w: VersionRow) {
    v.recordKind == w.recordKind && v.recordId == w.recordId
  }

  /** A record's accepted versions grow, and its row is never behind them. */
  ghost predicate VersionsGrow(t: Tables) {
    && (forall i, j | 0 <= i < j < |t.versions| && SameRecord(t.versions[i], t.versions[j])
          && t.versions[i].disposition == AcceptedChange && t.versions[j].disposition == AcceptedChange ::
          t.versions[i].recordVersion < t.versions[j].recordVersion)
    && (forall i | 0 <= i < |t.versions| :: RowNotBehind(t, t.versions[i]))
  }

  predicate RowNotBehind(t: Tables, v: VersionRow) {
    && 1 <= v.recordVersion
    && Target(t, v.recordKind, v.recordId).Some?
    && 1 <= Target(t, v.recordKind, v.recordId).value
    && (v.disposition == AcceptedChange ==> v.recordVersion <= Target(t, v.recordKind, v.recordId).value)
  }

  /** The row shows what its current accepted version recorded; only review may have moved since. */
  predicate RowShows(t: Tables, v: VersionRow) {
    v.disposition == AcceptedChange && Target(t, v.recordKind, v.recordId) == Some(v.recordVersion) ==>
      match v.snapshot
      case ProjectSnapshot(p) => v.recordKind == ProjectKind && t.projects[v.recordId].payload == p
      case SessionSnapshot(s) => v.recordKind == SessionKind && t.sessions[v.recordId].projectId == s.projectId
      case ObservationSnapshot(o) =>
        v.recordKind == ObservationKind && t.observations[v.recordId].body.(review := Clear) == o
      case TombstoneSnapshot(_) =>
        v.recordKind == ObservationKind && t.observations[v.recordId].body.lifecycle == Tombstoned
  }

  ghost predicate RowsShowLatest(t: Tables) {
    forall i | 0 <= i < |t.versions| :: RowShows(t, t.versions[i])
  }

  predicate IsVersionOf(v: VersionRow, kind: RecordKind, id: string, version: int) {
    v.recordKind == kind && v.recordId == id && v.recordVersion == version
  }

  ghost predicate AcceptedAt(t: Tables, kind: RecordKind, id: string, version: int) {
    exists i :: 0 <= i < |t.versions| && IsVersionOf(t.versions[i], kind, id, version) && t.versions[i].disposition == AcceptedChange
  }

  /** An observation that exists only because a create collided on its topic: no version of it was ever accepted. */
  ghost predicate BornInConflict(t: Tables, id: string) {
    && id in t.observations
    && t.observations[id].version == 1
    && t.observations[id].body.lifecycle == Archived
    && t.observations[id].body.review == NeedsReview
    && !AcceptedAt(t, ObservationKind, id, 1)
  }

  /** Every row was put there by an accepted version, or by a colliding create. */
  ghost predicate RowsHaveOrigin(t: Tables) {
    && (forall id | id in t.projects :: AcceptedAt(t, ProjectKind, id, t.projects[id].version))
    && (forall id | id in t.sessions :: AcceptedAt(t, SessionKind, id, t.sessions[id].version))
    && (forall id | id in t.observations :: AcceptedAt(t, ObservationKind, id, t.observations[id].version) || BornInConflict(t, id))
  }

  /** An accepted version follows an accepted one; only an observation born in a conflict starts at 2. */
  ghost predicate Linked(t: Tables, v: VersionRow) {
    v.disposition == AcceptedChange && 0 < v.baseVersion ==>
      AcceptedAt(t, v.recordKind, v.recordId, v.baseVersion) || (v.recordKind == ObservationKind && v.baseVersion == 1)
  }

  predicate AcceptedBefore(t: Tables, i: int, j: int)
    requires 0 <= i < |t.versions|
  {
    0 <= j < i && SameRecord(t.versions[j], t.versions[i]) && t.versions[j].disposition == AcceptedChange
  }

  /** A competing change is filed under the latest accepted version before it, if there is one. */
  ghost predicate FiledAtLatest(t: Tables, i: int)
    requires 0 <= i < |t.versions| && i + 1 in t.changes
  {
    t.versions[i].disposition == ConflictChange ==>
      && (forall j | AcceptedBefore(t, i, j) :: t.versions[j].recordVersion <= t.changes[i + 1].canonicalVersion)
      && ((exists j :: AcceptedBefore(t, i, j)) ==>
            exists j :: AcceptedBefore(t, i, j) && t.versions[j].recordVersion == t.changes[i + 1].canonicalVersion)
  }

  ghost predicate LinkedAt(t: Tables, i: int) {
    0 <= i < |t.versions| && Linked(t, t.versions[i]) && i + 1 in t.changes && FiledAtLatest(t, i)
  }

  ghost predicate VersionsLinked(t: Tables) {
    forall i | 0 <= i < |t.versions| :: LinkedAt(t, i)
  }

  /** A conflict row, the change that created it and the resolution that closed it. */
  predicate ConflictMatches(t: Tables, id: string)
    requires id in t.conflicts
  {
    var f := t.conflicts[id];
    && IsCanonicalUuid(id)
    && f.createdSeq in t.changes
    && var c := t.changes[f.createdSeq];
       && c.changeKind == ConflictChange
       && c.recordKind == ObservationKind
       && c.recordId == f.observationId
       && c.versionId == f.competingVersionId
       && c.canonicalVersion == f.canonicalVersion
       && (f.resolvedSeq.Some? ==>
             && f.createdSeq < f.resolvedSeq.value
             && f.resolvedSeq.value in t.changes
             && var r := t.changes[f.resolvedSeq.value];
                && r.changeKind == AcceptedChange
                && r.recordKind == ObservationKind
                && r.recordId == f.observationId
                && r.source in t.mutations
                && t.mutations[r.source].kind == Resolve
                && t.mutations[r.source].resolutionConflictIds.Some?
                && id in t.mutations[r.source].resolutionConflictIds.value)
  }

  ghost predicate CreatedBy(t: Tables, id: string, i: int) {
    id in t.conflicts && t.conflicts[id].createdSeq == i
  }

  /** Competing changes and conflict rows are one to one. */
  ghost predicate ConflictsMatch(t: Tables) {
    && (forall id | id in t.conflicts :: ConflictMatches(t, id))
    && (forall i, j | i in t.conflicts && j in t.conflicts && t.conflicts[i].createdSeq == t.conflicts[j].createdSeq :: i == j)
    && (forall i | i in t.changes && t.changes[i].changeKind == ConflictChange :: exists id :: CreatedBy(t, id, i))
  }

  predicate ObservationPlaced(t: Tables, o: Observation) {
    && o.projectId != ""
    && o.projectId in t.projects
    && (o.sessionId != "" ==> o.sessionId in t.sessions && t.sessions[o.sessionId].projectId == o.projectId)
    && forall i | 0 <= i < |o.references| :: o.references[i] in t.observations
  }

  /** Foreign keys and the topic index. */
  ghost predicate RecordsPlaced(t: Tables) {
    && TopicsUnique(t)
    && (forall id | id in t.sessions :: t.sessions[id].projectId in t.projects)
    && (forall id | id in t.observations :: ObservationPlaced(t, t.observations[id].body))
  }

  ghost predicate Invariant(t: Tables) {
    && VerifyRecovery(t)
    && VersionsParallel(t)
    && RequestsRecorded(t)
    && DeletionsRecorded(t)
    && VersionsGrow(t)
    && RowsShowLatest(t)
    && RowsHaveOrigin(t)
    && VersionsLinked(t)
    && ConflictsMatch(t)
    && RecordsPlaced(t)
  }

  lemma EmptyOwnerInvariant()
    ensures Invariant(EMPTY_OWNER)
  {
  }
}
