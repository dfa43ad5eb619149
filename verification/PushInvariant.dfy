/** Every push keeps the invariant: one lemma per group of tables and per kind of write. */
module PushInvariant {
  import opened Options
  import opened Uuids
  import opened SyncService
  import opened Tables
  import opened Repository
  import opened Recovery

  // -------------------------------------------- what a decision promises

  predicate Authorised(t: Tables, device: string) {
    device != NIL_UUID && device in t.devices && !t.devices[device]
  }

  function KeyOf(device: string, m: Mutation): MutationKey {
    MutationKey(device, Lower(m.mutationId))
  }

  ghost predicate MayWrite(t: Tables, device: string, m: Mutation, payload: Mutation) {
    && Authorised(t, device)
    && ValidateMutation(m) == Valid && AcceptedMutation(m) && Admitted(m)
    && payload == PayloadMutation(m)
    && m.baseVersion != MAX_INT64
    && KeyOf(device, m) !in t.mutations
    && PrerequisitesHold(t, payload)
    && !VersionRowClash(t.versions, m.recordKind, m.recordId, m.baseVersion + 1, Lower(m.mutationId))
  }

  ghost predicate MayAdvance(t: Tables, device: string, m: Mutation, payload: Mutation) {
    && MayWrite(t, device, m, payload)
    && Target(t, m.recordKind, m.recordId) == (if m.kind == Create then None else Some(m.baseVersion))
    && (m.recordKind == ObservationKind && m.kind != Tombstone && m.kind != Create ==> !HasLifecycle(t, m.recordId, Tombstoned))
    && !TopicTaken(t, payload)
    && (m.kind == Tombstone ==> m.recordId !in t.tombstones)
    && (m.kind == Resolve ==>
          && HasLifecycle(t, m.recordId, Active)
          && Distinct(ConflictIds(payload))
          && IdsUnresolved(t, ConflictIds(payload), m.recordId))
  }

  ghost predicate MayCompete(t: Tables, device: string, m: Mutation, payload: Mutation, conflictId: string) {
    && MayWrite(t, device, m, payload)
    && m.recordKind == ObservationKind
    && (m.kind == Create || m.kind == Update)
    && 0 <= m.baseVersion
    && (m.kind == Create <==> m.recordId !in t.observations)
    && (m.kind == Create ==> TopicTaken(t, m))
    && conflictId !in t.conflicts
  }

  lemma AdvanceDecided(t: Tables, device: string, m: Mutation, payload: Mutation, conflictId: string)
    requires Decide(t, device, m) == Advance(payload)
    requires !BreaksConstraint(t, m, Advance(payload), conflictId)
    ensures MayAdvance(t, device, m, payload) && SnapshotOf(payload).Some?
  {
    hide ValidateMutation, PrerequisitesHold, IdsUnresolved, IdsExist, VersionRowClash;
    ValidIsAdmitted(m);
  }

  lemma CompeteDecided(t: Tables, device: string, m: Mutation, payload: Mutation, conflictId: string)
    requires Decide(t, device, m) == Compete(payload)
    requires !BreaksConstraint(t, m, Compete(payload), conflictId)
    ensures MayCompete(t, device, m, payload, conflictId) && payload == m && SnapshotOf(payload).Some?
  {
    hide ValidateMutation, PrerequisitesHold, TopicTaken, IdsUnresolved, IdsExist, VersionRowClash;
    ValidIsAdmitted(m);
  }

  // ------------------------------------------------------------- history

  /** The four tables an appended change touches. */
  ghost predicate Appended(t: Tables, u: Tables, device: string, m: Mutation, payload: Mutation,
                           kind: ChangeDisposition, version: int, snapshot: Snapshot) {
    var a := Append(t, device, m, payload, kind, version, snapshot);
    u.nextSeq == a.nextSeq && u.mutations == a.mutations && u.versions == a.versions && u.changes == a.changes
  }

  lemma AppendKeepsHistory(t: Tables, u: Tables, device: string, m: Mutation, payload: Mutation,
                           kind: ChangeDisposition, version: int, snapshot: Snapshot)
    requires SequencesDense(t) && ChangesMatch(t) && MutationsMatch(t) && VersionsParallel(t)
    requires KeyOf(device, m) !in t.mutations
    requires kind != Unstated && (kind == AcceptedChange ==> version == m.baseVersion + 1)
    requires Appended(t, u, device, m, payload, kind, version, snapshot)
    ensures SequencesDense(u) && ChangesMatch(u) && MutationsMatch(u) && VersionsParallel(u)
  {
    forall i | i in u.changes ensures ChangeMatches(u, i) {
      if i != t.nextSeq {
        assert ChangeMatches(t, i);
      }
    }
    forall key | key in u.mutations ensures MutationMatches(u, key) {
      if key != KeyOf(device, m) {
        assert MutationMatches(t, key);
      }
    }
  }

  lemma AppendKeepsRequests(t: Tables, u: Tables, device: string, m: Mutation, payload: Mutation,
                            kind: ChangeDisposition, version: int, snapshot: Snapshot)
    requires SequencesDense(t) && MutationsMatch(t) && VersionsParallel(t) && RequestsRecorded(t)
    requires MayWrite(t, device, m, payload) && SnapshotOf(payload) == Some(snapshot) && 1 <= version
    requires kind == ConflictChange ==> m.recordKind == ObservationKind && (m.kind == Create || m.kind == Update)
    requires Appended(t, u, device, m, payload, kind, version, snapshot)
    ensures RequestsRecorded(u)
  {
    hide ValidateMutation, AcceptedMutation, PrerequisitesHold, VersionRowClash, SnapshotOf;
    forall key | key in u.mutations ensures RequestRecorded(u, key) {
      if key != KeyOf(device, m) {
        assert MutationMatches(t, key) && RequestRecorded(t, key);
      }
    }
  }

  /** History is append-only: every row of t is still there in u. */
  ghost predicate Extends(t: Tables, u: Tables) {
    && t.nextSeq <= u.nextSeq
    && |t.versions| <= |u.versions|
    && (forall i | 0 <= i < |t.versions| :: u.versions[i] == t.versions[i])
    && (forall i | i in t.changes :: i in u.changes && u.changes[i] == t.changes[i])
    && (forall key | key in t.mutations :: key in u.mutations && u.mutations[key] == t.mutations[key])
  }

  lemma AppendExtends(t: Tables, u: Tables, device: string, m: Mutation, payload: Mutation,
                      kind: ChangeDisposition, version: int, snapshot: Snapshot)
    requires SequencesDense(t)
    requires KeyOf(device, m) !in t.mutations
    requires Appended(t, u, device, m, payload, kind, version, snapshot)
    ensures Extends(t, u)
  {
  }

  /** The last version and change of an appended history. */
  predicate LastIs(t: Tables, u: Tables, m: Mutation, kind: ChangeDisposition, version: int) {
    var n := |t.versions|;
    && |u.versions| == n + 1
    && (forall j | 0 <= j < n :: u.versions[j] == t.versions[j])
    && u.versions[n].recordKind == m.recordKind && u.versions[n].recordId == m.recordId
    && u.versions[n].recordVersion == m.baseVersion + 1 && u.versions[n].baseVersion == m.baseVersion
    && u.versions[n].disposition == kind
    && n + 1 in u.changes && u.changes[n + 1].canonicalVersion == version
  }

  lemma AppendedLast(t: Tables, u: Tables, device: string, m: Mutation, payload: Mutation,
                     kind: ChangeDisposition, version: int, snapshot: Snapshot)
    requires |t.versions| + 1 == t.nextSeq
    requires Appended(t, u, device, m, payload, kind, version, snapshot)
    ensures LastIs(t, u, m, kind, version)
  {
  }

  lemma TombstoneKept(t: Tables, u: Tables, id: string)
    requires Extends(t, u)
    requires id in t.tombstones && id in u.tombstones && u.tombstones[id] == t.tombstones[id]
    requires TombstoneMatches(t, id)
    ensures TombstoneMatches(u, id)
  {
  }

  /** A conflict row may only be closed. */
  predicate ConflictKept(f: ConflictRow, g: ConflictRow) {
    g == f || (f.resolvedSeq.None? && g.resolvedSeq.Some? && g == f.(resolvedSeq := g.resolvedSeq))
  }

  predicate Closes(f: ConflictRow, id: string, ids: seq<string>, recordId: string) {
    id in ids && f.observationId == recordId && f.resolvedSeq.None?
  }

  lemma ClosedConflictsShape(conflicts: map<string, ConflictRow>, ids: seq<string>, recordId: string, sequence: int)
    ensures var closed := ClosedConflicts(conflicts, ids, recordId, sequence);
            && closed.Keys == conflicts.Keys
            && (forall id | id in conflicts :: ConflictKept(conflicts[id], closed[id]))
            && (forall id | id in conflicts ::
                  closed[id].resolvedSeq ==
                  if Closes(conflicts[id], id, ids, recordId) then Some(sequence) else conflicts[id].resolvedSeq)
  {
  }

  lemma ResolveKept(t: Tables, u: Tables, key: MutationKey)
    requires Extends(t, u) && key in t.mutations
    requires ResolveMatches(t, key) && t.mutations[key].canonicalSeq < t.nextSeq
    requires forall f :: f in t.conflicts ==> f in u.conflicts && ConflictKept(t.conflicts[f], u.conflicts[f])
    requires forall f :: f in u.conflicts ==>
      u.conflicts[f].resolvedSeq == Some(t.mutations[key].canonicalSeq) ==> f in t.conflicts && u.conflicts[f] == t.conflicts[f]
    ensures ResolveMatches(u, key)
  {
    var m := t.mutations[key];
    if m.kind == Resolve && m.disposition == AcceptedChange {
      assert ClosedExactly(t, m, m.resolutionConflictIds.value);
      assert ClosedExactly(u, m, m.resolutionConflictIds.value);
    }
  }

  lemma ConflictMatchKept(t: Tables, u: Tables, id: string)
    requires Extends(t, u) && id in t.conflicts && id in u.conflicts && u.conflicts[id] == t.conflicts[id]
    requires ConflictMatches(t, id)
    ensures ConflictMatches(u, id)
  {
  }

  // ------------------------------------------------------ accepted writes

  /** An accepted write from tables in good order. */
  ghost predicate Advances(t: Tables, u: Tables, device: string, m: Mutation, payload: Mutation, snapshot: Snapshot) {
    && Invariant(t)
    && MayAdvance(t, device, m, payload)
    && SnapshotOf(payload) == Some(snapshot)
    && u == AdvanceTables(t, device, m, payload, snapshot)
  }

  /** The record tables after an accepted write: one row of one table has moved. */
  ghost predicate RowAdvanced(t: Tables, u: Tables, device: string, m: Mutation, payload: Mutation) {
    && u.projects == (if m.recordKind == ProjectKind && payload.project.Some?
                      then t.projects[m.recordId := ProjectRow(m.baseVersion + 1, payload.project.value)] else t.projects)
    && u.sessions == (if m.recordKind == SessionKind && payload.session.Some?
                      then t.sessions[m.recordId := SessionRow(payload.session.value.projectId, m.baseVersion + 1)] else t.sessions)
    && (m.recordKind != ObservationKind ==> u.observations == t.observations)
    && (m.recordKind == ObservationKind ==>
          && m.recordId in u.observations
          && u.observations == t.observations[m.recordId := u.observations[m.recordId]]
          && u.observations[m.recordId].version == m.baseVersion + 1
          && if m.kind == Tombstone then
               && m.recordId in t.observations
               && u.observations[m.recordId].body == Erased(t.observations[m.recordId].body)
             else
               && payload.observation.Some?
               && u.observations[m.recordId].body == payload.observation.value
               && payload.observation.value.lifecycle != Tombstoned
               && payload.observation.value.review == Clear)
    && (m.kind != Tombstone ==> u.tombstones == t.tombstones)
    && (m.kind == Tombstone ==>
          && m.recordKind == ObservationKind
          && exists time :: u.tombstones == t.tombstones[m.recordId := TombstoneRow(|t.versions|, KeyOf(device, m), time)])
  }

  lemma AdvanceMovesRow(t: Tables, u: Tables, device: string, m: Mutation, payload: Mutation, snapshot: Snapshot)
    requires MayAdvance(t, device, m, payload)
    requires SnapshotOf(payload) == Some(snapshot)
    requires u == AdvanceTables(t, device, m, payload, snapshot)
    ensures RowAdvanced(t, u, device, m, payload)
    ensures Target(u, m.recordKind, m.recordId) == Some(m.baseVersion + 1) && 0 <= m.baseVersion
    ensures match snapshot
            case ProjectSnapshot(p) => m.recordKind == ProjectKind && payload.project == Some(p)
            case SessionSnapshot(s) => m.recordKind == SessionKind && payload.session == Some(s)
            case ObservationSnapshot(o) => m.recordKind == ObservationKind && m.kind != Tombstone && payload.observation == Some(o)
            case TombstoneSnapshot(d) => m.recordKind == ObservationKind && m.kind == Tombstone
  {
    hide ValidateMutation, AcceptedMutation, PrerequisitesHold, VersionRowClash, TopicTaken, ClosedConflicts;
    if m.kind == Tombstone {
      assert u.tombstones == t.tombstones[m.recordId :=
        TombstoneRow(|t.versions|, KeyOf(device, m), StoredTime(m.tombstone.value.deletedAt))];
    }
  }

  lemma AdvanceExtends(t: Tables, u: Tables, device: string, m: Mutation, payload: Mutation, snapshot: Snapshot)
    requires Advances(t, u, device, m, payload, snapshot)
    ensures Extends(t, u)
    ensures ChangesMatch(u) && MutationsMatch(u)
    ensures Appended(t, u, device, m, payload, AcceptedChange, m.baseVersion + 1, snapshot)
  {
    hide ValidateMutation, AcceptedMutation, PrerequisitesHold, VersionRowClash, TopicTaken, RequestsRecorded, ClosedConflicts,
      VersionsGrow, RowsShowLatest, RowsHaveOrigin, ConflictsMatch, RecordsPlaced, ResolvesMatch, TombstonesMatch, Admitted, VersionsLinked, DeletionsRecorded;
    AppendExtends(t, u, device, m, payload, AcceptedChange, m.baseVersion + 1, snapshot);
    AppendKeepsHistory(t, u, device, m, payload, AcceptedChange, m.baseVersion + 1, snapshot);
  }

  lemma AdvanceKeepsTombstones(t: Tables, u: Tables, device: string, m: Mutation, payload: Mutation, snapshot: Snapshot)
    requires Advances(t, u, device, m, payload, snapshot)
    ensures TombstonesMatch(u)
  {
    hide Advances, TombstoneMatches;
    AdvanceTombstonesMatch(t, u, device, m, payload, snapshot);
    AdvanceTombstonesExact(t, u, device, m, payload, snapshot);
  }

  lemma AdvanceTombstonesMatch(t: Tables, u: Tables, device: string, m: Mutation, payload: Mutation, snapshot: Snapshot)
    requires Advances(t, u, device, m, payload, snapshot)
    ensures forall id | id in u.tombstones :: TombstoneMatches(u, id)
  {
    hide ValidateMutation, AcceptedMutation, PrerequisitesHold, VersionRowClash, TopicTaken, RequestsRecorded, ClosedConflicts,
      VersionsGrow, RowsShowLatest, RowsHaveOrigin, ConflictsMatch, RecordsPlaced, ResolvesMatch, SnapshotOf, ChangesMatch, MutationsMatch,
      AdvanceTables, Admitted, PayloadMutation, VersionsLinked, DeletionsRecorded;
    AdvanceExtends(t, u, device, m, payload, snapshot);
    AdvanceMovesRow(t, u, device, m, payload, snapshot);
    forall id | id in u.tombstones ensures TombstoneMatches(u, id) {
      if !(m.kind == Tombstone && id == m.recordId) {
        TombstoneKept(t, u, id);
      }
    }
  }

  lemma AdvanceTombstonesExact(t: Tables, u: Tables, device: string, m: Mutation, payload: Mutation, snapshot: Snapshot)
    requires Advances(t, u, device, m, payload, snapshot)
    ensures forall id :: id in u.tombstones <==> HasLifecycle(u, id, Tombstoned)
  {
    hide ValidateMutation, AcceptedMutation, PrerequisitesHold, VersionRowClash, TopicTaken, RequestsRecorded, ClosedConflicts,
      VersionsGrow, RowsShowLatest, RowsHaveOrigin, ConflictsMatch, RecordsPlaced, ResolvesMatch, SnapshotOf, ChangesMatch, MutationsMatch,
      AdvanceTables, Admitted, PayloadMutation, VersionsLinked, DeletionsRecorded;
    hide TombstoneMatches;
    AdvanceMovesRow(t, u, device, m, payload, snapshot);
  }

  lemma AdvanceKeepsDeletions(t: Tables, u: Tables, device: string, m: Mutation, payload: Mutation, snapshot: Snapshot)
    requires Advances(t, u, device, m, payload, snapshot)
    ensures DeletionsRecorded(u)
  {
    hide ValidateMutation, AcceptedMutation, PrerequisitesHold, VersionRowClash, TopicTaken, RequestsRecorded, ClosedConflicts,
      VersionsGrow, RowsShowLatest, RowsHaveOrigin, ConflictsMatch, RecordsPlaced, ResolvesMatch, SnapshotOf, ChangesMatch,
      MutationsMatch, PayloadMutation, VerifyRecovery, WrittenObservations, WrittenProjects, WrittenSessions, VersionsLinked;
    forall key | key in u.mutations ensures DeletionRecorded(u, key) {
      if key in t.mutations {
        assert DeletionRecorded(t, key);
      }
    }
  }

  lemma AdvanceKeepsResolves(t: Tables, u: Tables, device: string, m: Mutation, payload: Mutation, snapshot: Snapshot)
    requires Advances(t, u, device, m, payload, snapshot)
    ensures ResolvesMatch(u)
  {
    hide ValidateMutation, AcceptedMutation, PrerequisitesHold, VersionRowClash, TopicTaken, RequestsRecorded, ClosedConflicts,
      VersionsGrow, RowsShowLatest, RowsHaveOrigin, RecordsPlaced, TombstonesMatch, SnapshotOf, ResolveMatches, Appended, HasLifecycle, VersionsLinked, DeletionsRecorded;
    AdvanceExtends(t, u, device, m, payload, snapshot);
    ClosedConflictsShape(t.conflicts, ConflictIds(payload), m.recordId, t.nextSeq);
    forall key | key in u.mutations ensures ResolveMatches(u, key) {
      if key in t.mutations {
        assert ResolveMatches(t, key) && MutationMatches(t, key);
        ResolveKept(t, u, key);
      } else {
        AdvanceResolves(t, u, device, m, payload, snapshot);
      }
    }
  }

  lemma AdvanceResolves(t: Tables, u: Tables, device: string, m: Mutation, payload: Mutation, snapshot: Snapshot)
    requires Advances(t, u, device, m, payload, snapshot)
    ensures KeyOf(device, m) in u.mutations && ResolveMatches(u, KeyOf(device, m))
  {
    hide ValidateMutation, AcceptedMutation, PrerequisitesHold, VersionRowClash, TopicTaken, RequestsRecorded, ClosedConflicts,
      VersionsGrow, RowsShowLatest, RowsHaveOrigin, RecordsPlaced, TombstonesMatch, SnapshotOf, ResolvesMatch, ChangesMatch,
      MutationsMatch, ClosedExactly, ConflictsMatch, HasLifecycle, AdmittedObservation, VersionsLinked, DeletionsRecorded;
    if m.kind == Resolve {
      AdvanceClosesExactly(t, u, device, m, payload, snapshot);
    }
  }

  lemma AdvanceClosesExactly(t: Tables, u: Tables, device: string, m: Mutation, payload: Mutation, snapshot: Snapshot)
    requires Advances(t, u, device, m, payload, snapshot) && m.kind == Resolve
    ensures KeyOf(device, m) in u.mutations && ClosedExactly(u, u.mutations[KeyOf(device, m)], ConflictIds(payload))
    ensures forall i | 0 <= i < |ConflictIds(payload)| :: ConflictOf(u, ConflictIds(payload)[i], m.recordId)
  {
    hide ValidateMutation, AcceptedMutation, PrerequisitesHold, VersionRowClash, TopicTaken, RequestsRecorded, ClosedConflicts,
      VersionsGrow, RowsShowLatest, RowsHaveOrigin, RecordsPlaced, TombstonesMatch, SnapshotOf, ResolvesMatch, ChangesMatch,
      MutationsMatch, HasLifecycle, Admitted, PayloadMutation, ConflictIds, VersionsLinked, DeletionsRecorded;
    ClosedConflictsShape(t.conflicts, ConflictIds(payload), m.recordId, t.nextSeq);
    forall f | f in t.conflicts ensures t.conflicts[f].resolvedSeq != Some(t.nextSeq) {
      assert ConflictMatches(t, f);
    }
  }

  lemma AdvanceKeepsConflicts(t: Tables, u: Tables, device: string, m: Mutation, payload: Mutation, snapshot: Snapshot)
    requires Advances(t, u, device, m, payload, snapshot)
    ensures ConflictsMatch(u)
  {
    hide ValidateMutation, AcceptedMutation, PrerequisitesHold, VersionRowClash, TopicTaken, RequestsRecorded, ClosedConflicts,
      VersionsGrow, RowsShowLatest, RowsHaveOrigin, RecordsPlaced, TombstonesMatch, ResolvesMatch, SnapshotOf, ConflictMatches,
      ChangesMatch, MutationsMatch, HasLifecycle, Admitted, VersionsLinked, DeletionsRecorded;
    AdvanceExtends(t, u, device, m, payload, snapshot);
    ClosedConflictsShape(t.conflicts, ConflictIds(payload), m.recordId, t.nextSeq);
    forall id | id in u.conflicts ensures ConflictMatches(u, id) {
      assert ConflictMatches(t, id);
      if u.conflicts[id] == t.conflicts[id] {
        ConflictMatchKept(t, u, id);
      } else {
        AdvanceCloses(t, u, device, m, payload, snapshot, id);
      }
    }
    forall i | i in u.changes && u.changes[i].changeKind == ConflictChange ensures exists id :: CreatedBy(u, id, i) {
      var id :| CreatedBy(t, id, i);
      assert CreatedBy(u, id, i);
    }
  }

  lemma AdvanceCloses(t: Tables, u: Tables, device: string, m: Mutation, payload: Mutation, snapshot: Snapshot, id: string)
    requires Advances(t, u, device, m, payload, snapshot)
    requires id in t.conflicts && id in u.conflicts && u.conflicts[id] != t.conflicts[id]
    ensures ConflictMatches(u, id)
  {
    hide ValidateMutation, AcceptedMutation, PrerequisitesHold, VersionRowClash, TopicTaken, RequestsRecorded, ClosedConflicts,
      VersionsGrow, RowsShowLatest, RowsHaveOrigin, RecordsPlaced, TombstonesMatch, ResolvesMatch, SnapshotOf, ChangesMatch,
      MutationsMatch, HasLifecycle, VersionsLinked, DeletionsRecorded;
    AdvanceExtends(t, u, device, m, payload, snapshot);
    ClosedConflictsShape(t.conflicts, ConflictIds(payload), m.recordId, t.nextSeq);
    assert ConflictMatches(t, id);
  }

  /** Rows other than the written one are as they were; the written one is at a version no older row of it reached. */
  lemma RowKept(t: Tables, u: Tables, device: string, m: Mutation, payload: Mutation, v: VersionRow)
    requires RowAdvanced(t, u, device, m, payload)
    requires Target(t, m.recordKind, m.recordId) == (if m.kind == Create then None else Some(m.baseVersion))
    requires Target(u, m.recordKind, m.recordId) == Some(m.baseVersion + 1) && 0 <= m.baseVersion
    requires RowNotBehind(t, v) && RowShows(t, v)
    ensures RowNotBehind(u, v) && RowShows(u, v)
    ensures SameRecord(v, v.(recordKind := m.recordKind, recordId := m.recordId)) && v.disposition == AcceptedChange ==>
      v.recordVersion <= m.baseVersion
  {
    if v.recordKind == m.recordKind && v.recordId == m.recordId {
    } else {
      assert Target(u, v.recordKind, v.recordId) == Target(t, v.recordKind, v.recordId);
    }
  }

  lemma AdvanceKeepsVersions(t: Tables, u: Tables, device: string, m: Mutation, payload: Mutation, snapshot: Snapshot)
    requires Advances(t, u, device, m, payload, snapshot)
    ensures VersionsGrow(u) && RowsShowLatest(u)
  {
    hide ValidateMutation, AcceptedMutation, PrerequisitesHold, VersionRowClash, TopicTaken, RequestsRecorded,
      ConflictsMatch, RecordsPlaced, TombstonesMatch, ResolvesMatch, ChangesMatch, MutationsMatch, AdvanceTables, RowsHaveOrigin,
      Admitted, PayloadMutation, SnapshotOf, RowNotBehind, RowShows, RowAdvanced, Target, VersionsLinked, DeletionsRecorded;
    AdvanceExtends(t, u, device, m, payload, snapshot);
    AdvanceMovesRow(t, u, device, m, payload, snapshot);
    var n := |t.versions|;
    forall i | 0 <= i < n
      ensures RowNotBehind(u, u.versions[i]) && RowShows(u, u.versions[i])
      ensures SameRecord(u.versions[i], u.versions[n]) && u.versions[i].disposition == AcceptedChange ==>
        u.versions[i].recordVersion <= m.baseVersion
    {
      RowKept(t, u, device, m, payload, t.versions[i]);
    }
    AdvanceShowsRow(t, u, device, m, payload, snapshot);
  }

  lemma AdvanceShowsRow(t: Tables, u: Tables, device: string, m: Mutation, payload: Mutation, snapshot: Snapshot)
    requires Advances(t, u, device, m, payload, snapshot)
    ensures RowNotBehind(u, u.versions[|t.versions|]) && RowShows(u, u.versions[|t.versions|])
  {
    hide ValidateMutation, AcceptedMutation, PrerequisitesHold, VersionRowClash, TopicTaken, Invariant, ClosedConflicts,
      Admitted, PayloadMutation, SnapshotOf, WrittenObservations, WrittenSessions, WrittenProjects, WrittenTombstones;
    AdvanceMovesRow(t, u, device, m, payload, snapshot);
  }

  lemma AdvanceKeepsOrigins(t: Tables, u: Tables, device: string, m: Mutation, payload: Mutation, snapshot: Snapshot)
    requires Advances(t, u, device, m, payload, snapshot)
    ensures RowsHaveOrigin(u)
  {
    hide ValidateMutation, AcceptedMutation, PrerequisitesHold, VersionRowClash, TopicTaken, RequestsRecorded,
      ConflictsMatch, RecordsPlaced, TombstonesMatch, ResolvesMatch, ChangesMatch, MutationsMatch, AdvanceTables,
      RowsShowLatest, VersionsGrow, SnapshotOf, Admitted, PayloadMutation, AcceptedAt, VersionsLinked, DeletionsRecorded;
    AdvanceExtends(t, u, device, m, payload, snapshot);
    AdvanceMovesRow(t, u, device, m, payload, snapshot);
    VersionsExtend(t, u, m.recordKind, m.recordId);
    AcceptedAtLast(u, m.recordKind, m.recordId, m.baseVersion + 1);
  }

  lemma AcceptedAtLast(u: Tables, kind: RecordKind, id: string, version: int)
    requires u.versions != []
    requires IsVersionOf(u.versions[|u.versions| - 1], kind, id, version)
    requires u.versions[|u.versions| - 1].disposition == AcceptedChange
    ensures AcceptedAt(u, kind, id, version)
  {
  }

  /** Rows of other records keep their accepted versions, and gain none. */
  lemma VersionsExtend(t: Tables, u: Tables, kind: RecordKind, id: string)
    requires |u.versions| == |t.versions| + 1 && u.versions[..|t.versions|] == t.versions
    requires u.versions[|t.versions|].recordKind == kind && u.versions[|t.versions|].recordId == id
    ensures forall k, r, v :: AcceptedAt(t, k, r, v) ==> AcceptedAt(u, k, r, v)
    ensures forall k, r, v :: AcceptedAt(u, k, r, v) && !(k == kind && r == id) ==> AcceptedAt(t, k, r, v)
    ensures u.versions[|t.versions|].disposition != AcceptedChange ==>
      forall k, r, v :: AcceptedAt(u, k, r, v) ==> AcceptedAt(t, k, r, v)
  {
    var n := |t.versions|;
    assert forall i | 0 <= i < n :: u.versions[i] == t.versions[i];
    forall k, r, v | AcceptedAt(t, k, r, v) ensures AcceptedAt(u, k, r, v) {
      var i :| 0 <= i < n && IsVersionOf(t.versions[i], k, r, v) && t.versions[i].disposition == AcceptedChange;
      assert IsVersionOf(u.versions[i], k, r, v);
    }
    forall k, r, v | AcceptedAt(u, k, r, v) && (!(k == kind && r == id) || u.versions[n].disposition != AcceptedChange)
      ensures AcceptedAt(t, k, r, v)
    {
      var i :| 0 <= i <= n && IsVersionOf(u.versions[i], k, r, v) && u.versions[i].disposition == AcceptedChange;
      assert i < n && IsVersionOf(t.versions[i], k, r, v);
    }
  }

  lemma OldVersionsLinked(t: Tables, u: Tables, i: int)
    requires Extends(t, u) && LinkedAt(t, i)
    requires forall k, r, v :: AcceptedAt(t, k, r, v) ==> AcceptedAt(u, k, r, v)
    ensures LinkedAt(u, i)
  {
    hide AcceptedAt;
    assert forall j :: AcceptedBefore(u, i, j) <==> AcceptedBefore(t, i, j);
    if t.versions[i].disposition == ConflictChange && exists j :: AcceptedBefore(u, i, j) {
      var j :| AcceptedBefore(t, i, j) && t.versions[j].recordVersion == t.changes[i + 1].canonicalVersion;
      assert AcceptedBefore(u, i, j);
    }
  }

  lemma AdvanceKeepsLinks(t: Tables, u: Tables, device: string, m: Mutation, payload: Mutation, snapshot: Snapshot)
    requires Advances(t, u, device, m, payload, snapshot)
    ensures VersionsLinked(u)
  {
    hide ValidateMutation, AcceptedMutation, PrerequisitesHold, VersionRowClash, TopicTaken, RequestsRecorded, DeletionsRecorded,
      ConflictsMatch, RecordsPlaced, TombstonesMatch, ResolvesMatch, ChangesMatch, MutationsMatch, AdvanceTables,
      RowsShowLatest, VersionsGrow, SnapshotOf, Admitted, PayloadMutation, AcceptedAt, LinkedAt;
    AdvanceExtends(t, u, device, m, payload, snapshot);
    VersionsExtend(t, u, m.recordKind, m.recordId);
    forall i | 0 <= i < |t.versions| ensures LinkedAt(u, i) {
      OldVersionsLinked(t, u, i);
    }
    NewVersionLinked(t, u, device, m, payload, snapshot);
  }

  lemma NewVersionLinked(t: Tables, u: Tables, device: string, m: Mutation, payload: Mutation, snapshot: Snapshot)
    requires Advances(t, u, device, m, payload, snapshot)
    requires forall k, r, v :: AcceptedAt(t, k, r, v) ==> AcceptedAt(u, k, r, v)
    ensures |u.versions| == |t.versions| + 1 && LinkedAt(u, |t.versions|)
  {
    hide Invariant, AdvanceTables, Appended, PrerequisitesHold, ValidateMutation, AcceptedMutation, VersionRowClash, TopicTaken, SnapshotOf,
      PayloadMutation, AcceptedAt, Admitted;
    AdvanceExtends(t, u, device, m, payload, snapshot);
    ChangeFollowsVersions(t);
    AppendedLast(t, u, device, m, payload, AcceptedChange, m.baseVersion + 1, snapshot);
    if m.kind != Create {
      BaseWasAccepted(t, m.recordKind, m.recordId);
    } else {
      CreatesFromZero(m);
    }
  }

  lemma CreatesFromZero(m: Mutation)
    requires Admitted(m) && m.kind == Create
    ensures m.baseVersion == 0
  {
  }

  lemma BaseWasAccepted(t: Tables, kind: RecordKind, id: string)
    requires Invariant(t) && Target(t, kind, id).Some?
    ensures AcceptedAt(t, kind, id, Target(t, kind, id).value) || (kind == ObservationKind && Target(t, kind, id).value == 1)
  {
    hide RequestsRecorded, DeletionsRecorded, ConflictsMatch, RecordsPlaced, VerifyRecovery, RowsShowLatest, VersionsGrow, VersionsLinked,
      AcceptedAt;
  }

  lemma ChangeFollowsVersions(t: Tables)
    requires Invariant(t)
    ensures |t.versions| + 1 == t.nextSeq
  {
    hide RequestsRecorded, DeletionsRecorded, ConflictsMatch, RecordsPlaced, VerifyRecovery, RowsShowLatest, VersionsGrow, VersionsLinked,
      RowsHaveOrigin;
  }

  lemma AdvanceKeepsPlaces(t: Tables, u: Tables, device: string, m: Mutation, payload: Mutation, snapshot: Snapshot)
    requires Advances(t, u, device, m, payload, snapshot)
    ensures RecordsPlaced(u)
  {
    hide ValidateMutation, AcceptedMutation, VersionRowClash, VerifyRecovery, RequestsRecorded, ConflictsMatch, AdvanceTables,
      RowsShowLatest, VersionsGrow, RowsHaveOrigin, ObservationPlaced, HoldsTopic, TopicTaken, SnapshotOf, PrerequisitesHold, VersionsLinked, DeletionsRecorded;
    AdvanceMovesRow(t, u, device, m, payload, snapshot);
    AdvanceKeepsSessions(t, u, device, m, payload);
    forall id | id in u.observations ensures ObservationPlaced(u, u.observations[id].body) {
      AdvanceKeepsPlace(t, u, device, m, payload, id);
    }
    forall i, j | i in u.observations && j in u.observations && i != j
      ensures !(u.observations[i].body.topicKey != "" && u.observations[j].body.lifecycle == Active
                && HoldsTopic(u.observations[i], u.observations[j].body))
    {
      AdvanceKeepsTopics(t, u, device, m, payload, snapshot, i, j);
    }
  }

  lemma AdvanceKeepsSessions(t: Tables, u: Tables, device: string, m: Mutation, payload: Mutation)
    requires RecordsPlaced(t) && MayAdvance(t, device, m, payload) && RowAdvanced(t, u, device, m, payload)
    ensures forall id | id in u.sessions :: u.sessions[id].projectId in u.projects
    ensures forall id | id in t.sessions :: id in u.sessions
    ensures forall id | id in t.projects :: id in u.projects
  {
    hide ValidateMutation, AcceptedMutation, VersionRowClash, TopicTaken, TopicsUnique, ObservationPlaced, ObservationPrerequisites;
  }

  lemma AdvanceKeepsPlace(t: Tables, u: Tables, device: string, m: Mutation, payload: Mutation, id: string)
    requires RecordsPlaced(t) && MayAdvance(t, device, m, payload) && RowAdvanced(t, u, device, m, payload)
    requires id in u.observations
    ensures ObservationPlaced(u, u.observations[id].body)
  {
    hide ValidateMutation, AcceptedMutation, VersionRowClash, TopicTaken, TopicsUnique;
    if id in t.observations {
      assert ObservationPlaced(t, t.observations[id].body);
    }
  }

  lemma AdvanceKeepsTopics(t: Tables, u: Tables, device: string, m: Mutation, payload: Mutation, snapshot: Snapshot, i: string, j: string)
    requires Advances(t, u, device, m, payload, snapshot)
    requires i in u.observations && j in u.observations && i != j
    ensures !(u.observations[i].body.topicKey != "" && u.observations[j].body.lifecycle == Active
              && HoldsTopic(u.observations[i], u.observations[j].body))
  {
    hide ValidateMutation, AcceptedMutation, VersionRowClash, RequestsRecorded, ConflictsMatch, TombstonesMatch, ResolvesMatch,
      ChangesMatch, MutationsMatch, ClosedConflicts, RowsShowLatest, VersionsGrow, RowsHaveOrigin, PrerequisitesHold, VersionsLinked, DeletionsRecorded;
    if m.recordKind == ObservationKind && m.kind != Tombstone && (i == m.recordId || j == m.recordId) {
      var other := if i == m.recordId then j else i;
      assert other in t.observations;
      assert other !in TopicHolders(t, payload.observation.value) || payload.observation.value.topicKey == "";
    }
  }

  lemma AdvanceKeepsInvariant(t: Tables, u: Tables, device: string, m: Mutation, payload: Mutation, snapshot: Snapshot)
    requires Advances(t, u, device, m, payload, snapshot)
    ensures Invariant(u)
  {
    AppendKeepsHistory(t, u, device, m, payload, AcceptedChange, m.baseVersion + 1, snapshot);
    AppendKeepsRequests(t, u, device, m, payload, AcceptedChange, m.baseVersion + 1, snapshot);
    AdvanceKeepsTombstones(t, u, device, m, payload, snapshot);
    AdvanceKeepsDeletions(t, u, device, m, payload, snapshot);
    AdvanceKeepsResolves(t, u, device, m, payload, snapshot);
    AdvanceKeepsConflicts(t, u, device, m, payload, snapshot);
    AdvanceKeepsVersions(t, u, device, m, payload, snapshot);
    AdvanceKeepsOrigins(t, u, device, m, payload, snapshot);
    AdvanceKeepsLinks(t, u, device, m, payload, snapshot);
    AdvanceKeepsPlaces(t, u, device, m, payload, snapshot);
  }

  // ----------------------------------------------------- competing writes

  /** A competing write from tables in good order; the new conflict's id comes from the UUID generator. */
  ghost predicate Competes(t: Tables, u: Tables, device: string, m: Mutation, snapshot: Snapshot, conflictId: string) {
    && Invariant(t)
    && MayCompete(t, device, m, m, conflictId)
    && IsCanonicalUuid(conflictId)
    && SnapshotOf(m) == Some(snapshot)
    && u == CompeteTables(t, device, m, m, snapshot, conflictId)
  }

  /** The record tables after a competing write: at most one observation flagged or inserted for review. */
  ghost predicate RowMarked(t: Tables, u: Tables, device: string, m: Mutation, conflictId: string) {
    && u.projects == t.projects && u.sessions == t.sessions && u.tombstones == t.tombstones
    && m.recordId in u.observations
    && u.observations == t.observations[m.recordId := u.observations[m.recordId]]
    && u.observations[m.recordId].version == CompetingVersion(t, m)
    && 1 <= CompetingVersion(t, m)
    && (m.recordId in t.observations ==>
          && u.observations[m.recordId].body.(review := Clear) == t.observations[m.recordId].body.(review := Clear)
          && (u.observations[m.recordId].body.lifecycle != Tombstoned ==> u.observations[m.recordId].body.review == NeedsReview))
    && (m.recordId !in t.observations ==>
          && m.observation.Some?
          && u.observations[m.recordId].version == 1
          && u.observations[m.recordId].body == m.observation.value.(lifecycle := Archived, review := NeedsReview))
    && u.conflicts == t.conflicts[conflictId := ConflictRow(m.recordId, CompetingVersion(t, m), |t.versions|, t.nextSeq, None)]
  }

  lemma CompeteMarksRow(t: Tables, u: Tables, device: string, m: Mutation, snapshot: Snapshot, conflictId: string)
    requires Competes(t, u, device, m, snapshot, conflictId)
    ensures RowMarked(t, u, device, m, conflictId)
  {
    hide ValidateMutation, AcceptedMutation, PrerequisitesHold, VersionRowClash, TopicTaken, VerifyRecovery, RequestsRecorded,
      ConflictsMatch, RecordsPlaced, RowsShowLatest, IsCanonicalUuid, VersionsLinked, DeletionsRecorded;
    if m.recordId in t.observations {
      VersionIsPositive(t, m.recordId);
    }
  }

  lemma VersionIsPositive(t: Tables, id: string)
    requires RowsHaveOrigin(t) && VersionsGrow(t) && id in t.observations
    ensures 1 <= t.observations[id].version
  {
    if !BornInConflict(t, id) {
      var i :| 0 <= i < |t.versions| && IsVersionOf(t.versions[i], ObservationKind, id, t.observations[id].version);
      assert RowNotBehind(t, t.versions[i]);
    }
  }

  lemma CompeteExtends(t: Tables, u: Tables, device: string, m: Mutation, snapshot: Snapshot, conflictId: string)
    requires Competes(t, u, device, m, snapshot, conflictId)
    ensures Extends(t, u)
    ensures SequencesDense(u) && ChangesMatch(u) && MutationsMatch(u) && VersionsParallel(u)
    ensures Appended(t, u, device, m, m, ConflictChange, CompetingVersion(t, m), snapshot)
  {
    AppendExtends(t, u, device, m, m, ConflictChange, CompetingVersion(t, m), snapshot);
    AppendKeepsHistory(t, u, device, m, m, ConflictChange, CompetingVersion(t, m), snapshot);
  }

  lemma CompeteKeepsTombstones(t: Tables, u: Tables, device: string, m: Mutation, snapshot: Snapshot, conflictId: string)
    requires Competes(t, u, device, m, snapshot, conflictId)
    ensures TombstonesMatch(u)
  {
    hide ValidateMutation, AcceptedMutation, PrerequisitesHold, VersionRowClash, TopicTaken, RequestsRecorded, CompeteTables,
      VersionsGrow, RowsShowLatest, RowsHaveOrigin, ConflictsMatch, RecordsPlaced, ResolvesMatch, SnapshotOf, ChangesMatch,
      MutationsMatch, Admitted, PayloadMutation, TombstoneMatches, Appended, IsCanonicalUuid, VersionsLinked, DeletionsRecorded;
    CompeteMarksRow(t, u, device, m, snapshot, conflictId);
    CompeteExtends(t, u, device, m, snapshot, conflictId);
    forall id | id in u.tombstones ensures TombstoneMatches(u, id) {
      TombstoneKept(t, u, id);
    }
  }

  lemma CompeteKeepsDeletions(t: Tables, u: Tables, device: string, m: Mutation, snapshot: Snapshot, conflictId: string)
    requires Competes(t, u, device, m, snapshot, conflictId)
    ensures DeletionsRecorded(u)
  {
    hide ValidateMutation, AcceptedMutation, PrerequisitesHold, VersionRowClash, TopicTaken, RequestsRecorded, VerifyRecovery,
      VersionsGrow, RowsShowLatest, RowsHaveOrigin, ConflictsMatch, RecordsPlaced, SnapshotOf, MarkedObservations, IsCanonicalUuid, VersionsLinked;
    forall key | key in u.mutations ensures DeletionRecorded(u, key) {
      if key in t.mutations {
        assert DeletionRecorded(t, key);
      }
    }
  }

  lemma CompeteKeepsResolves(t: Tables, u: Tables, device: string, m: Mutation, snapshot: Snapshot, conflictId: string)
    requires Competes(t, u, device, m, snapshot, conflictId)
    ensures ResolvesMatch(u)
  {
    hide ValidateMutation, AcceptedMutation, PrerequisitesHold, VersionRowClash, TopicTaken, RequestsRecorded,
      VersionsGrow, RowsShowLatest, RowsHaveOrigin, RecordsPlaced, TombstonesMatch, SnapshotOf, ChangesMatch,
      Admitted, PayloadMutation, ConflictsMatch, IsCanonicalUuid, CompetingVersion, MarkedObservations, ClosedExactly, VersionsLinked, DeletionsRecorded;
    CompeteExtends(t, u, device, m, snapshot, conflictId);
    forall key | key in u.mutations ensures ResolveMatches(u, key) {
      if key in t.mutations {
        assert ResolveMatches(t, key) && MutationMatches(t, key);
        ResolveKept(t, u, key);
      }
    }
  }

  lemma CompeteKeepsConflicts(t: Tables, u: Tables, device: string, m: Mutation, snapshot: Snapshot, conflictId: string)
    requires Competes(t, u, device, m, snapshot, conflictId)
    ensures ConflictsMatch(u)
  {
    hide ValidateMutation, AcceptedMutation, PrerequisitesHold, VersionRowClash, TopicTaken, RequestsRecorded, ConflictMatches,
      VersionsGrow, RowsShowLatest, RowsHaveOrigin, RecordsPlaced, TombstonesMatch, ResolvesMatch, SnapshotOf,
      ChangesMatch, MutationsMatch, Admitted, PayloadMutation, IsCanonicalUuid, CompetingVersion, MarkedObservations, VersionsLinked, DeletionsRecorded;
    CompeteExtends(t, u, device, m, snapshot, conflictId);
    forall id | id in t.conflicts
      ensures ConflictMatches(u, id) && ConflictMatches(t, id) && t.conflicts[id].createdSeq < t.nextSeq
    {
      assert ConflictMatches(t, id);
      ConflictMatchKept(t, u, id);
      ConflictCreatedBefore(t, id);
    }
    CompeteRecordsConflict(t, u, device, m, snapshot, conflictId);
    forall i | i in u.changes && u.changes[i].changeKind == ConflictChange ensures exists id :: CreatedBy(u, id, i) {
      if i == t.nextSeq {
        assert CreatedBy(u, conflictId, i);
      } else {
        var id :| CreatedBy(t, id, i);
        assert CreatedBy(u, id, i);
      }
    }
  }

  lemma ConflictCreatedBefore(t: Tables, id: string)
    requires SequencesDense(t) && id in t.conflicts && ConflictMatches(t, id)
    ensures t.conflicts[id].createdSeq < t.nextSeq
  {
  }

  lemma CompeteRecordsConflict(t: Tables, u: Tables, device: string, m: Mutation, snapshot: Snapshot, conflictId: string)
    requires Competes(t, u, device, m, snapshot, conflictId)
    ensures conflictId in u.conflicts && ConflictMatches(u, conflictId) && u.conflicts[conflictId].createdSeq == t.nextSeq
  {
    hide ValidateMutation, AcceptedMutation, PrerequisitesHold, VersionRowClash, TopicTaken, Invariant, SnapshotOf,
      Admitted, PayloadMutation, IsCanonicalUuid, CompetingVersion, MarkedObservations;
  }

  lemma CompeteKeepsVersions(t: Tables, u: Tables, device: string, m: Mutation, snapshot: Snapshot, conflictId: string)
    requires Competes(t, u, device, m, snapshot, conflictId)
    ensures VersionsGrow(u) && RowsShowLatest(u)
  {
    hide ValidateMutation, AcceptedMutation, PrerequisitesHold, VersionRowClash, TopicTaken, RequestsRecorded, CompeteTables,
      ConflictsMatch, RecordsPlaced, TombstonesMatch, ResolvesMatch, ChangesMatch, MutationsMatch, RowsHaveOrigin,
      Admitted, PayloadMutation, SnapshotOf, IsCanonicalUuid, CompetingVersion, VersionsLinked, DeletionsRecorded;
    CompeteMarksRow(t, u, device, m, snapshot, conflictId);
    CompeteExtends(t, u, device, m, snapshot, conflictId);
    var n := |t.versions|;
    forall i | 0 <= i < n ensures RowNotBehind(u, u.versions[i]) && RowShows(u, u.versions[i]) {
      assert RowNotBehind(t, t.versions[i]) && RowShows(t, t.versions[i]);
      MarkedRowKept(t, u, device, m, conflictId, t.versions[i]);
    }
    assert RowNotBehind(u, u.versions[n]) && RowShows(u, u.versions[n]);
  }

  lemma MarkedRowKept(t: Tables, u: Tables, device: string, m: Mutation, conflictId: string, v: VersionRow)
    requires RowMarked(t, u, device, m, conflictId)
    requires RowNotBehind(t, v) && RowShows(t, v)
    ensures RowNotBehind(u, v) && RowShows(u, v)
  {
  }

  lemma CompeteKeepsOrigins(t: Tables, u: Tables, device: string, m: Mutation, snapshot: Snapshot, conflictId: string)
    requires Competes(t, u, device, m, snapshot, conflictId)
    ensures RowsHaveOrigin(u)
  {
    hide ValidateMutation, AcceptedMutation, PrerequisitesHold, VersionRowClash, TopicTaken, RequestsRecorded, CompeteTables,
      ConflictsMatch, RecordsPlaced, TombstonesMatch, ResolvesMatch, ChangesMatch, MutationsMatch, RowsShowLatest,
      Admitted, PayloadMutation, SnapshotOf, IsCanonicalUuid, AcceptedAt, VersionsGrow, VersionsLinked, DeletionsRecorded;
    CompeteMarksRow(t, u, device, m, snapshot, conflictId);
    CompeteExtends(t, u, device, m, snapshot, conflictId);
    VersionsExtend(t, u, m.recordKind, m.recordId);
    if m.recordId !in t.observations {
      NoVersionsWithoutRow(t, m.recordId);
    }
  }

  lemma NoVersionsWithoutRow(t: Tables, id: string)
    requires VersionsGrow(t) && id !in t.observations
    ensures forall v :: !AcceptedAt(t, ObservationKind, id, v)
  {
    forall v ensures !AcceptedAt(t, ObservationKind, id, v) {
      forall i | 0 <= i < |t.versions| ensures !IsVersionOf(t.versions[i], ObservationKind, id, v) {
        assert RowNotBehind(t, t.versions[i]);
      }
    }
  }

  lemma CompeteKeepsLinks(t: Tables, u: Tables, device: string, m: Mutation, snapshot: Snapshot, conflictId: string)
    requires Competes(t, u, device, m, snapshot, conflictId)
    ensures VersionsLinked(u)
  {
    hide ValidateMutation, AcceptedMutation, PrerequisitesHold, VersionRowClash, TopicTaken, RequestsRecorded, DeletionsRecorded,
      ConflictsMatch, RecordsPlaced, TombstonesMatch, ResolvesMatch, ChangesMatch, MutationsMatch, CompeteTables,
      RowsShowLatest, VersionsGrow, SnapshotOf, Admitted, PayloadMutation, AcceptedAt, LinkedAt, IsCanonicalUuid;
    CompeteExtends(t, u, device, m, snapshot, conflictId);
    VersionsExtend(t, u, m.recordKind, m.recordId);
    forall i | 0 <= i < |t.versions| ensures LinkedAt(u, i) {
      OldVersionsLinked(t, u, i);
    }
    NewConflictFiled(t, u, device, m, snapshot, conflictId);
  }

  lemma NewConflictFiled(t: Tables, u: Tables, device: string, m: Mutation, snapshot: Snapshot, conflictId: string)
    requires Competes(t, u, device, m, snapshot, conflictId)
    ensures |u.versions| == |t.versions| + 1 && LinkedAt(u, |t.versions|)
  {
    hide Invariant, RowsHaveOrigin, VersionsGrow, CompeteTables, Appended, ValidateMutation, AcceptedMutation, PrerequisitesHold,
      VersionRowClash, TopicTaken, SnapshotOf, PayloadMutation, AcceptedAt, Admitted, IsCanonicalUuid;
    CompeteExtends(t, u, device, m, snapshot, conflictId);
    ChangeFollowsVersions(t);
    AppendedLast(t, u, device, m, m, ConflictChange, CompetingVersion(t, m), snapshot);
    VersionGroups(t);
    var n := |t.versions|;
    forall j | AcceptedBefore(u, n, j)
      ensures u.versions[j].recordVersion <= CompetingVersion(t, m)
      ensures exists k :: AcceptedBefore(u, n, k) && u.versions[k].recordVersion == CompetingVersion(t, m)
    {
      assert u.versions[j] == t.versions[j];
      var k := AcceptedRowHasVersion(t, m.recordId, j);
      assert u.versions[k] == t.versions[k];
      assert AcceptedBefore(u, n, k);
    }
  }

  lemma VersionGroups(t: Tables)
    requires Invariant(t)
    ensures VersionsGrow(t) && RowsHaveOrigin(t)
  {
    hide RequestsRecorded, DeletionsRecorded, ConflictsMatch, RecordsPlaced, VerifyRecovery, RowsShowLatest, VersionsGrow, VersionsLinked,
      RowsHaveOrigin;
  }

  /** An observation with an accepted version is at an accepted version. */
  lemma AcceptedRowHasVersion(t: Tables, id: string, j: int) returns (k: int)
    requires VersionsGrow(t) && RowsHaveOrigin(t) && 0 <= j < |t.versions|
    requires t.versions[j].recordKind == ObservationKind && t.versions[j].recordId == id && t.versions[j].disposition == AcceptedChange
    ensures id in t.observations && t.versions[j].recordVersion <= t.observations[id].version
    ensures 0 <= k < |t.versions| && IsVersionOf(t.versions[k], ObservationKind, id, t.observations[id].version)
    ensures t.versions[k].disposition == AcceptedChange
  {
    assert RowNotBehind(t, t.versions[j]);
    if t.observations[id].version == 1 {
      assert IsVersionOf(t.versions[j], ObservationKind, id, 1);
    }
    assert AcceptedAt(t, ObservationKind, id, t.observations[id].version);
    k :| 0 <= k < |t.versions| && IsVersionOf(t.versions[k], ObservationKind, id, t.observations[id].version)
      && t.versions[k].disposition == AcceptedChange;
  }

  lemma CompeteKeepsPlaces(t: Tables, u: Tables, device: string, m: Mutation, snapshot: Snapshot, conflictId: string)
    requires Competes(t, u, device, m, snapshot, conflictId)
    ensures RecordsPlaced(u)
  {
    hide ValidateMutation, AcceptedMutation, VersionRowClash, TopicTaken, RequestsRecorded, CompeteTables,
      ConflictsMatch, TombstonesMatch, ResolvesMatch, ChangesMatch, MutationsMatch, RowsShowLatest,
      SnapshotOf, IsCanonicalUuid, AcceptedAt, VersionsGrow, RowsHaveOrigin, CompetingVersion, VersionsLinked, DeletionsRecorded;
    CompeteMarksRow(t, u, device, m, snapshot, conflictId);
    forall id | id in u.observations ensures ObservationPlaced(u, u.observations[id].body) {
      if id in t.observations {
        assert ObservationPlaced(t, t.observations[id].body);
      }
    }
    forall i, j | i in u.observations && j in u.observations && i != j
      ensures !(u.observations[i].body.topicKey != "" && u.observations[j].body.lifecycle == Active
                && HoldsTopic(u.observations[i], u.observations[j].body))
    {
      if i in t.observations && j in t.observations {
        assert HoldsTopic(u.observations[i], u.observations[j].body) ==> HoldsTopic(t.observations[i], t.observations[j].body);
      }
    }
  }

  lemma CompeteKeepsInvariant(t: Tables, u: Tables, device: string, m: Mutation, snapshot: Snapshot, conflictId: string)
    requires Competes(t, u, device, m, snapshot, conflictId)
    ensures Invariant(u)
  {
    CompeteExtends(t, u, device, m, snapshot, conflictId);
    CompeteMarksRow(t, u, device, m, snapshot, conflictId);
    AppendKeepsRequests(t, u, device, m, m, ConflictChange, CompetingVersion(t, m), snapshot);
    CompeteKeepsTombstones(t, u, device, m, snapshot, conflictId);
    CompeteKeepsDeletions(t, u, device, m, snapshot, conflictId);
    CompeteKeepsResolves(t, u, device, m, snapshot, conflictId);
    CompeteKeepsConflicts(t, u, device, m, snapshot, conflictId);
    CompeteKeepsVersions(t, u, device, m, snapshot, conflictId);
    CompeteKeepsOrigins(t, u, device, m, snapshot, conflictId);
    CompeteKeepsLinks(t, u, device, m, snapshot, conflictId);
    CompeteKeepsPlaces(t, u, device, m, snapshot, conflictId);
  }

  // ------------------------------------------------------------ one push

  /** A push commits tables in good order, and only ever adds to the history. */
  lemma PushKeepsInvariant(t: Tables, device: string, m: Mutation, conflictId: string)
    requires Invariant(t) && IsCanonicalUuid(conflictId)
    ensures Push(t, device, m, conflictId).Committed? ==>
      && Invariant(Push(t, device, m, conflictId).tables)
      && Extends(t, Push(t, device, m, conflictId).tables)
  {
    hide Invariant, Decide, BreaksConstraint, AdvanceTables, CompeteTables, MayAdvance, MayCompete;
    match Decide(t, device, m)
    case Refuse(_) =>
    case Replay(_) =>
    case Advance(payload) =>
      if Push(t, device, m, conflictId).Committed? {
        var u := Push(t, device, m, conflictId).tables;
        AdvanceDecided(t, device, m, payload, conflictId);
        AdvanceKeepsInvariant(t, u, device, m, payload, SnapshotOf(payload).value);
        AdvanceExtends(t, u, device, m, payload, SnapshotOf(payload).value);
      }
    case Compete(payload) =>
      if Push(t, device, m, conflictId).Committed? {
        var u := Push(t, device, m, conflictId).tables;
        CompeteDecided(t, device, m, payload, conflictId);
        CompeteKeepsInvariant(t, u, device, m, SnapshotOf(payload).value, conflictId);
        CompeteExtends(t, u, device, m, SnapshotOf(payload).value, conflictId);
      }
  }
}
