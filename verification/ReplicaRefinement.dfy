/** A device that replayed the whole history holds what the server's tables hold. */
module ReplicaRefinement {
  import opened Options
  import opened Uuids
  import opened SyncService
  import opened Tables
  import opened Repository
  import opened Recovery
  import opened Pull
  import opened Readable
  import opened Paging
  import opened WireContract
  import opened Replica
  import opened ReplicaMirror

  /** The history as a log. */
  function WholeLog(t: Tables): seq<Change> {
    Log(t, "", 0, t.nextSeq - 1)
  }

  ghost predicate WhollyReadable(t: Tables) {
    Invariant(t) && Servable(t, 0, t.nextSeq - 1)
  }

  lemma WholeLogServed(t: Tables)
    requires WhollyReadable(t)
    ensures |WholeLog(t)| == t.nextSeq - 1 == |t.versions|
    ensures Numbered(WholeLog(t))
    ensures forall k | 0 <= k < |WholeLog(t)| :: ServedAs(t, k + 1, WholeLog(t)[k])
  {
    hide Log, RowAt, BuildChange, Orphan, ServedAs, Servable;
    HeadNotNegative(t);
    WholeLogSequences(t, 0, t.nextSeq - 1);
    LogIsSound(t, "", 0, t.nextSeq - 1);
    forall k | 0 <= k < |WholeLog(t)| ensures ServedAs(t, k + 1, WholeLog(t)[k]) {
      assert WholeLog(t)[k].sequence == k + 1;
    }
  }

  lemma HeadNotNegative(t: Tables)
    requires Invariant(t)
    ensures 1 <= t.nextSeq && |t.versions| == t.nextSeq - 1
  {
  }

  lemma ServedIsCoherent(t: Tables, i: int, c: Change)
    requires ServedAs(t, i, c)
    ensures Coherent(c)
  {
    hide ByteLength, Blank, IsUuid, Lower, ValidId, MutationExceedsLimits, SnapshotOf, ErasedProject, VerifyChangeHash, Admitted, PayloadMutation;
  }

  /** An accepted change of a record is an accepted version of it, and shows its content. */
  predicate ChangeShowsVersion(c: Change, v: VersionRow) {
    && (c.disposition != ConflictChange <==> v.disposition == AcceptedChange)
    && c.mutation.recordKind == v.recordKind && c.mutation.recordId == v.recordId
    && (v.disposition == AcceptedChange ==>
          && c.canonicalVersion == v.recordVersion
          && match v.snapshot
             case ProjectSnapshot(_) => v.recordKind == ProjectKind
             case SessionSnapshot(s) => v.recordKind == SessionKind && c.mutation.session == Some(s)
             case ObservationSnapshot(o) => v.recordKind == ObservationKind && c.mutation.kind != Tombstone && Content(c.mutation) == Some(o)
             case TombstoneSnapshot(_) => v.recordKind == ObservationKind && c.mutation.kind == Tombstone)
  }

  lemma ServedShowsVersion(t: Tables, i: int, c: Change)
    requires ServedAs(t, i, c)
    ensures ChangeShowsVersion(c, t.versions[i - 1])
  {
    hide ValidateMutation, AcceptedMutation, ErasedProject, VerifyChangeHash, Admitted, Lower, LowerAll, ValidateChangeEnvelope, CreatedBy;
    SnapshotKinds(t.mutations[t.changes[i].source].requestHash);
  }

  // ------------------------------------------------------ the last change

  lemma {:induction false} LastForIsLatest(log: seq<Change>, kind: RecordKind, id: string)
    ensures LastFor(log, kind, id).Some? ==>
      exists k :: 0 <= k < |log| && log[k] == LastFor(log, kind, id).value && AcceptedOf(log[k], kind, id)
        && forall j | k < j < |log| :: !AcceptedOf(log[j], kind, id)
    ensures LastFor(log, kind, id).None? ==> forall j | 0 <= j < |log| :: !AcceptedOf(log[j], kind, id)
    decreases |log|
  {
    if log != [] {
      var n := |log| - 1;
      LastForIsLatest(log[..n], kind, id);
      if !AcceptedOf(log[n], kind, id) {
        if LastFor(log, kind, id).Some? {
          var k :| 0 <= k < n && log[..n][k] == LastFor(log, kind, id).value && AcceptedOf(log[..n][k], kind, id)
            && forall j | k < j < n :: !AcceptedOf(log[..n][j], kind, id);
          assert log[k] == LastFor(log, kind, id).value;
          assert forall j | k < j < |log| :: j == n || log[j] == log[..n][j];
        } else {
          assert forall j | 0 <= j < |log| :: j == n || log[j] == log[..n][j];
        }
      }
    }
  }

  /** Where the row of a record stands in its accepted versions. */
  ghost predicate RowIsVersion(t: Tables, kind: RecordKind, id: string, k: int) {
    && 0 <= k < |t.versions|
    && Target(t, kind, id).Some?
    && IsVersionOf(t.versions[k], kind, id, Target(t, kind, id).value)
    && t.versions[k].disposition == AcceptedChange
  }

  lemma RowHasVersion(t: Tables, kind: RecordKind, id: string)
    requires RowsHaveOrigin(t) && Target(t, kind, id).Some? && !(kind == ObservationKind && BornInConflict(t, id))
    ensures exists k :: RowIsVersion(t, kind, id, k)
  {
    assert AcceptedAt(t, kind, id, Target(t, kind, id).value);
    var k :| 0 <= k < |t.versions| && IsVersionOf(t.versions[k], kind, id, Target(t, kind, id).value) && t.versions[k].disposition == AcceptedChange;
    assert RowIsVersion(t, kind, id, k);
  }

  /** A later accepted version of the record would be behind no row. */
  lemma RowIsLatest(t: Tables, kind: RecordKind, id: string, k: int, j: int)
    requires VersionsGrow(t) && RowIsVersion(t, kind, id, k) && 0 <= j < |t.versions|
    requires t.versions[j].recordKind == kind && t.versions[j].recordId == id && t.versions[j].disposition == AcceptedChange
    ensures j <= k
  {
    assert RowNotBehind(t, t.versions[j]);
    if k < j {
      LaterIsGreater(t, k, j);
    }
  }

  lemma BornHasNoVersion(t: Tables, id: string, j: int)
    requires VersionsGrow(t) && BornInConflict(t, id) && 0 <= j < |t.versions|
    requires 1 <= t.versions[j].recordVersion
    ensures !(t.versions[j].recordKind == ObservationKind && t.versions[j].recordId == id && t.versions[j].disposition == AcceptedChange)
  {
    assert RowNotBehind(t, t.versions[j]);
  }

  /** Every change of the log shows the version written with it. */
  ghost predicate LogShowsVersions(t: Tables, log: seq<Change>) {
    && |log| == |t.versions|
    && forall j | 0 <= j < |log| :: ChangeShowsVersion(log[j], t.versions[j]) && VersionAbove(t, j)
  }

  lemma WholeLogShowsVersions(t: Tables)
    requires WhollyReadable(t)
    ensures LogShowsVersions(t, WholeLog(t)) && VersionsGrow(t) && RowsHaveOrigin(t)
  {
    hide Log, RowAt, BuildChange, Orphan, ServedAs, Servable, ChangeShowsVersion, Traced, BornInConflict;
    WholeLogServed(t);
    var log := WholeLog(t);
    forall j | 0 <= j < |log| ensures ChangeShowsVersion(log[j], t.versions[j]) && VersionAbove(t, j) {
      assert ServedAs(t, j + 1, log[j]);
      ServedShowsVersion(t, j + 1, log[j]);
      ServedVersionPositive(t, j + 1, log[j]);
    }
    RecordGroups(t);
  }

  /** The last accepted change of a record is the version its row is at; records born in a conflict have none. */
  lemma LastForIsRow(t: Tables, kind: RecordKind, id: string)
    requires WhollyReadable(t)
    ensures var last := LastFor(WholeLog(t), kind, id);
            && (last.Some? <==> Target(t, kind, id).Some? && !(kind == ObservationKind && BornInConflict(t, id)))
            && (last.Some? ==> exists k :: RowIsVersion(t, kind, id, k) && ChangeShowsVersion(last.value, t.versions[k]))
  {
    hide WhollyReadable, WholeLog, LogShowsVersions, LastFor, Target, BornInConflict, VersionsGrow, RowsHaveOrigin, RowIsVersion, ChangeShowsVersion;
    WholeLogShowsVersions(t);
    var log := WholeLog(t);
    if LastFor(log, kind, id).Some? {
      LastIsRow(t, log, kind, id);
    } else if Target(t, kind, id).Some? && !(kind == ObservationKind && BornInConflict(t, id)) {
      RowIsShown(t, log, kind, id);
    }
  }

  lemma LastIsRow(t: Tables, log: seq<Change>, kind: RecordKind, id: string)
    requires LogShowsVersions(t, log) && VersionsGrow(t) && RowsHaveOrigin(t) && LastFor(log, kind, id).Some?
    ensures Target(t, kind, id).Some? && !(kind == ObservationKind && BornInConflict(t, id))
    ensures exists k :: RowIsVersion(t, kind, id, k) && ChangeShowsVersion(LastFor(log, kind, id).value, t.versions[k])
  {
    hide ChangeShowsVersion, BornInConflict, VersionsGrow, RowsHaveOrigin;
    LastForIsLatest(log, kind, id);
    var k :| 0 <= k < |log| && log[k] == LastFor(log, kind, id).value && AcceptedOf(log[k], kind, id)
      && forall j | k < j < |log| :: !AcceptedOf(log[j], kind, id);
    ShownIsAccepted(log[k], t.versions[k], kind, id);
    RowOfVersion(t, kind, id, k);
    var r :| RowIsVersion(t, kind, id, r);
    RowIsLatest(t, kind, id, r, k);
    ShownIsAccepted(log[r], t.versions[r], kind, id);
    assert r == k;
  }

  lemma RowIsShown(t: Tables, log: seq<Change>, kind: RecordKind, id: string)
    requires LogShowsVersions(t, log) && VersionsGrow(t) && RowsHaveOrigin(t)
    requires Target(t, kind, id).Some? && !(kind == ObservationKind && BornInConflict(t, id))
    ensures LastFor(log, kind, id).Some?
  {
    hide ChangeShowsVersion, BornInConflict, VersionsGrow, RowsHaveOrigin;
    LastForIsLatest(log, kind, id);
    RowHasVersion(t, kind, id);
    var r :| RowIsVersion(t, kind, id, r);
    ShownIsAccepted(log[r], t.versions[r], kind, id);
  }

  predicate VersionAbove(t: Tables, j: int)
    requires 0 <= j < |t.versions|
  {
    1 <= t.versions[j].recordVersion
  }

  lemma ServedVersionPositive(t: Tables, i: int, c: Change)
    requires ServedAs(t, i, c)
    ensures VersionAbove(t, i - 1)
  {
    hide ErasedProject, VerifyChangeHash, Lower, LowerAll, ValidateMutation, AcceptedMutation, ValidateChangeEnvelope, CreatedBy, SnapshotOf, PayloadMutation;
  }

  lemma RecordGroups(t: Tables)
    requires Invariant(t)
    ensures VersionsGrow(t) && RowsHaveOrigin(t) && RowsShowLatest(t)
  {
  }

  lemma ShownIsAccepted(c: Change, v: VersionRow, kind: RecordKind, id: string)
    requires ChangeShowsVersion(c, v)
    ensures AcceptedOf(c, kind, id) <==> v.disposition == AcceptedChange && v.recordKind == kind && v.recordId == id
  {
  }

  lemma RowOfVersion(t: Tables, kind: RecordKind, id: string, k: int)
    requires VersionsGrow(t) && RowsHaveOrigin(t) && 0 <= k < |t.versions| && VersionAbove(t, k)
    requires t.versions[k].recordKind == kind && t.versions[k].recordId == id && t.versions[k].disposition == AcceptedChange
    ensures Target(t, kind, id).Some? && !(kind == ObservationKind && BornInConflict(t, id))
    ensures exists r :: RowIsVersion(t, kind, id, r)
  {
    assert RowNotBehind(t, t.versions[k]);
    if kind == ObservationKind && BornInConflict(t, id) {
      BornHasNoVersion(t, id, k);
    }
    RowHasVersion(t, kind, id);
  }

  // ------------------------------------------------------------ agreement

  ghost predicate ProjectAgrees(t: Tables, local: Local, id: string) {
    && (id in local.projects <==> id in t.projects)
    && (id in t.projects ==> local.projects[id] == t.projects[id].version)
  }

  ghost predicate SessionAgrees(t: Tables, local: Local, id: string) {
    && (id in local.sessions <==> id in t.sessions)
    && (id in t.sessions ==> local.sessions[id] == LocalSession(t.sessions[id].projectId, t.sessions[id].version))
  }

  /**
   Same version, same deletion, and for a live record the same content; only the review flag is the device's own.
   A deleted record holds no topic and refers to nothing.
   */
  ghost predicate ObservationAgrees(t: Tables, local: Local, id: string) {
    && (id in local.observations <==> id in t.observations && !BornInConflict(t, id))
    && (HasTombstone(local, id) <==> HasLifecycle(t, id, Tombstoned))
    && (id in local.observations ==>
          && local.observations[id].version == t.observations[id].version
          && (!HasLifecycle(t, id, Tombstoned) ==>
                && Shows(local.observations[id].body, t.observations[id].body)
                && (local.observations[id].body.state == LocalArchived <==> HasLifecycle(t, id, Archived)))
          && (HasLifecycle(t, id, Tombstoned) ==>
                local.observations[id].body.topicKey == "" && local.observations[id].body.references == {}))
  }

  ghost predicate ConflictAgrees(t: Tables, local: Local, id: string)
    requires id in t.conflicts
  {
    var f := t.conflicts[id];
    && f.createdSeq in local.conflicts
    && local.conflicts[f.createdSeq].conflictId == id
    && local.conflicts[f.createdSeq].recordId == f.observationId
    && local.conflicts[f.createdSeq].canonicalVersion == f.canonicalVersion
    && local.conflicts[f.createdSeq].resolvedSeq == f.resolvedSeq
  }

  ghost predicate Agrees(t: Tables, local: Local) {
    && (forall id :: ProjectAgrees(t, local, id))
    && (forall id :: SessionAgrees(t, local, id))
    && (forall id :: ObservationAgrees(t, local, id))
    && (forall id | id in t.conflicts :: ConflictAgrees(t, local, id))
    && (forall i | i in local.conflicts :: exists id :: CreatedBy(t, id, i))
  }

  lemma ShownProject(t: Tables, local: Local, id: string)
    requires WhollyReadable(t) && Mirrors(local, WholeLog(t))
    ensures ProjectAgrees(t, local, id)
  {
    hide Log, Invariant, Servable, BornInConflict, SessionMirrors, ObservationMirrors, ConflictMirrors;
    LastForIsRow(t, ProjectKind, id);
    assert ProjectMirrors(local, WholeLog(t), id);
  }

  lemma RowsShow(t: Tables, k: int)
    requires Invariant(t) && 0 <= k < |t.versions|
    ensures RowShows(t, t.versions[k])
  {
  }

  lemma ShownSession(t: Tables, local: Local, id: string)
    requires WhollyReadable(t) && Mirrors(local, WholeLog(t))
    ensures SessionAgrees(t, local, id)
  {
    hide Log, Invariant, Servable, BornInConflict, ProjectMirrors, ObservationMirrors, ConflictMirrors;
    LastForIsRow(t, SessionKind, id);
    assert SessionMirrors(local, WholeLog(t), id);
    var last := LastFor(WholeLog(t), SessionKind, id);
    if last.Some? {
      var k :| RowIsVersion(t, SessionKind, id, k) && ChangeShowsVersion(last.value, t.versions[k]);
      RowsShow(t, k);
    }
  }

  lemma ShownObservation(t: Tables, local: Local, id: string)
    requires WhollyReadable(t) && Mirrors(local, WholeLog(t))
    ensures ObservationAgrees(t, local, id)
  {
    hide Log, Invariant, Servable, BornInConflict, ProjectMirrors, SessionMirrors, ConflictMirrors, HasTombstone, Shows, LastWritten,
      FlaggedSinceWritten;
    LastForIsRow(t, ObservationKind, id);
    assert ObservationMirrors(local, WholeLog(t), id);
    var last := LastFor(WholeLog(t), ObservationKind, id);
    if last.Some? {
      var k :| RowIsVersion(t, ObservationKind, id, k) && ChangeShowsVersion(last.value, t.versions[k]);
      RowsShow(t, k);
      if t.versions[k].snapshot.ObservationSnapshot? {
        VersionNotTombstoned(t, k);
      }
      ShownBody(t, local, id, last.value, t.versions[k]);
    } else {
      BornIsArchived(t, id);
    }
  }

  lemma BornIsArchived(t: Tables, id: string)
    ensures BornInConflict(t, id) ==> HasLifecycle(t, id, Archived)
  {
  }

  /** Accepted content is never tombstoned. */
  lemma VersionNotTombstoned(t: Tables, k: int)
    requires Invariant(t) && 0 <= k < |t.versions| && t.versions[k].snapshot.ObservationSnapshot?
    ensures t.versions[k].snapshot.observation.lifecycle != Tombstoned && t.versions[k].snapshot.observation.review == Clear
  {
    assert SequencesDense(t) && k + 1 in t.changes;
    ChangeIsTraced(t, k + 1);
    hide Invariant, ValidateMutation, AcceptedMutation, SnapshotOf;
    SnapshotKinds(t.mutations[t.changes[k + 1].source].requestHash);
  }

  lemma ShownBody(t: Tables, local: Local, id: string, last: Change, v: VersionRow)
    requires id in t.observations && id in local.observations
    requires IsVersionOf(v, ObservationKind, id, t.observations[id].version) && v.disposition == AcceptedChange
    requires RowShows(t, v) && ChangeShowsVersion(last, v)
    requires v.snapshot.ObservationSnapshot? ==> v.snapshot.observation.lifecycle != Tombstoned && v.snapshot.observation.review == Clear
    requires last.mutation.kind != Tombstone ==>
      && Content(last.mutation).Some?
      && local.observations[id].body.(state := LocalActive) == BodyOf(Content(last.mutation).value).(state := LocalActive)
      && (local.observations[id].body.state == LocalArchived <==> StateOf(Content(last.mutation).value) == LocalArchived)
    ensures last.mutation.kind == Tombstone <==> HasLifecycle(t, id, Tombstoned)
    ensures last.mutation.kind != Tombstone ==>
      && Shows(local.observations[id].body, t.observations[id].body)
      && (local.observations[id].body.state == LocalArchived <==> HasLifecycle(t, id, Archived))
  {
    hide References;
    if last.mutation.kind != Tombstone {
      BodyShows(Content(last.mutation).value, local.observations[id].body.state);
    }
  }

  // ------------------------------------------------------------ conflicts

  /** A resolution of the history closed exactly the conflicts it lists. */
  lemma ResolverCloses(t: Tables, i: int, c: Change, conflictId: string)
    requires Invariant(t) && ServedAs(t, i, c) && conflictId in t.conflicts
    requires Resolves(c, conflictId, t.conflicts[conflictId].observationId)
    ensures t.conflicts[conflictId].resolvedSeq == Some(i)
  {
    hide ValidateMutation, AcceptedMutation, SnapshotOf, ErasedProject, VerifyChangeHash, Lower, Admitted, ValidateChangeEnvelope,
      CreatedBy, ChangeMatches, DeletionRecorded, Invariant, ResolveMatches;
    ChangeIsTraced(t, i);
    var key := t.changes[i].source;
    ResolveKeepsArrays(t, key);
    var ids := t.mutations[key].resolutionConflictIds.value;
    assert c.mutation.resolution.value.conflictIds == ids;
    var k :| 0 <= k < |ids| && ids[k] == conflictId;
  }

  lemma ResolveKeepsArrays(t: Tables, key: MutationKey)
    requires Invariant(t) && key in t.mutations && t.mutations[key].kind == Resolve && t.mutations[key].disposition == AcceptedChange
    ensures t.mutations[key].resolutionConflictIds.Some?
    ensures ClosedExactly(t, t.mutations[key], t.mutations[key].resolutionConflictIds.value)
  {
    hide VersionsGrow, RowsShowLatest, RowsHaveOrigin, RequestsRecorded, DeletionsRecorded, ConflictsMatch, RecordsPlaced, TombstonesMatch,
      ChangesMatch, MutationsMatch, ClosedExactly, VersionsLinked;
    assert ResolveMatches(t, key);
  }

  lemma ConflictsOfInvariant(t: Tables, conflictId: string)
    requires Invariant(t) && conflictId in t.conflicts
    ensures ConflictMatches(t, conflictId)
    ensures t.conflicts[conflictId].resolvedSeq.Some? ==> t.conflicts[conflictId].resolvedSeq.value in t.changes
  {
    hide VerifyRecovery, RequestsRecorded, DeletionsRecorded, VersionsGrow, RowsShowLatest, RowsHaveOrigin, RecordsPlaced, VersionsLinked;
    assert ConflictMatches(t, conflictId);
  }

  /** The resolution that closed a conflict lists it. */
  lemma CloserResolves(t: Tables, conflictId: string, c: Change)
    requires Invariant(t) && conflictId in t.conflicts && t.conflicts[conflictId].resolvedSeq.Some?
    requires ServedAs(t, t.conflicts[conflictId].resolvedSeq.value, c)
    ensures Resolves(c, conflictId, t.conflicts[conflictId].observationId)
  {
    var i := t.conflicts[conflictId].resolvedSeq.value;
    ConflictsOfInvariant(t, conflictId);
    hide Invariant;
    ChangeIsTraced(t, i);
    hide ValidateMutation, AcceptedMutation, SnapshotOf, ErasedProject, VerifyChangeHash, Lower, ValidateChangeEnvelope,
      CreatedBy, ChangeMatches, DeletionRecorded, IsCanonicalUuid;
  }

  lemma {:induction false} ResolverOfIsFirst(log: seq<Change>, conflictId: string, recordId: string)
    requires Numbered(log)
    ensures var r := ResolverOf(log, conflictId, recordId);
            && (r.Some? ==> 1 <= r.value <= |log| && Resolves(log[r.value - 1], conflictId, recordId))
            && (r.None? ==> forall k | 0 <= k < |log| :: !Resolves(log[k], conflictId, recordId))
    decreases |log|
  {
    hide Resolves;
    if log != [] {
      var n := |log| - 1;
      ResolverOfIsFirst(log[..n], conflictId, recordId);
      assert forall k | 0 <= k < n :: log[..n][k] == log[k];
    }
  }

  lemma ShownConflict(t: Tables, local: Local, id: string)
    requires WhollyReadable(t) && Mirrors(local, WholeLog(t)) && id in t.conflicts
    ensures ConflictAgrees(t, local, id)
  {
    hide Log, Servable, BornInConflict, ProjectMirrors, SessionMirrors, ObservationMirrors, ServedAs, VerifyRecovery, RequestsRecorded,
      DeletionsRecorded, VersionsGrow, RowsShowLatest, RowsHaveOrigin, RecordsPlaced, Resolves, IsCanonicalUuid, VersionsLinked;
    WholeLogServed(t);
    var log := WholeLog(t);
    var f := t.conflicts[id];
    assert ConflictMatches(t, id);
    Dense(t, f.createdSeq);
    var c := log[f.createdSeq - 1];
    ServedConflict(t, id, c);
    assert ConflictMirrors(local, log, f.createdSeq);
    ResolverOfIsFirst(log, id, f.observationId);
    var r := ResolverOf(log, id, f.observationId);
    if r.Some? {
      ResolverCloses(t, r.value, log[r.value - 1], id);
    } else if f.resolvedSeq.Some? {
      Dense(t, f.resolvedSeq.value);
      CloserResolves(t, id, log[f.resolvedSeq.value - 1]);
    }
  }

  lemma ServedConflict(t: Tables, id: string, c: Change)
    requires Invariant(t) && id in t.conflicts && ServedAs(t, t.conflicts[id].createdSeq, c)
    ensures c.disposition == ConflictChange && c.conflictId == id
    ensures c.mutation.recordId == t.conflicts[id].observationId && c.canonicalVersion == t.conflicts[id].canonicalVersion
  {
    hide VerifyRecovery, RequestsRecorded, DeletionsRecorded, VersionsGrow, RowsShowLatest, RowsHaveOrigin, RecordsPlaced,
      ValidateMutation, AcceptedMutation, SnapshotOf, ErasedProject, VerifyChangeHash, Lower, Admitted, ValidateChangeEnvelope, PayloadMutation, VersionsLinked;
    assert ConflictMatches(t, id);
  }

  lemma LocalConflictIsServers(t: Tables, local: Local, i: int)
    requires WhollyReadable(t) && Mirrors(local, WholeLog(t)) && i in local.conflicts
    ensures exists id :: CreatedBy(t, id, i)
  {
    hide Log, Servable, BornInConflict, ProjectMirrors, SessionMirrors, ObservationMirrors, VerifyRecovery, RequestsRecorded,
      DeletionsRecorded, VersionsGrow, RowsShowLatest, RowsHaveOrigin, RecordsPlaced, ValidateMutation, AcceptedMutation, SnapshotOf,
      ErasedProject, VerifyChangeHash, Lower, Admitted, ValidateChangeEnvelope, PayloadMutation, ConflictMatches, VersionsLinked;
    WholeLogServed(t);
    assert ConflictMirrors(local, WholeLog(t), i);
    assert ServedAs(t, i, WholeLog(t)[i - 1]);
    assert CreatedBy(t, WholeLog(t)[i - 1].conflictId, i);
  }

  /** A device that replayed the whole history without refusal agrees with the server's tables. */
  lemma ReplicaAgrees(t: Tables)
    requires WhollyReadable(t) && ReplayLog(WholeLog(t)).Applied?
    ensures Agrees(t, ReplayLog(WholeLog(t)).local)
  {
    hide WhollyReadable, Mirrors, Log, ServedAs, Coherent, ReplayLog, ProjectAgrees, SessionAgrees, ObservationAgrees, ConflictAgrees, CreatedBy;
    WholeLogServed(t);
    var log := WholeLog(t);
    forall k | 0 <= k < |log| ensures Coherent(log[k]) {
      ServedIsCoherent(t, k + 1, log[k]);
    }
    ReplayMirrors(log);
    var local := ReplayLog(log).local;
    forall id ensures ProjectAgrees(t, local, id) && SessionAgrees(t, local, id) && ObservationAgrees(t, local, id) {
      ShownProject(t, local, id);
      ShownSession(t, local, id);
      ShownObservation(t, local, id);
    }
    forall id | id in t.conflicts ensures ConflictAgrees(t, local, id) {
      ShownConflict(t, local, id);
    }
    forall i | i in local.conflicts ensures exists id :: CreatedBy(t, id, i) {
      LocalConflictIsServers(t, local, i);
    }
  }
}
