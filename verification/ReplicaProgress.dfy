/**
 When a device can take the next change of the history. Versions, conflict ids and
 tombstones always line up; what may stand in the way is what only the device checks:
 its topic index, reference scopes, identity, and times it cannot store.
 */
module ReplicaProgress {
  import opened Options
  import opened Uuids
  import opened SyncService
  import opened Tables
  import opened Repository
  import opened Recovery
  import opened Readable
  import opened Paging
  import opened Replica
  import opened ReplicaMirror
  import opened ReplicaRefinement

  /** How the change at i relates to the last accepted one before it. */
  predicate LinesUp(last: Option<Change>, c: Change) {
    if c.disposition == ConflictChange then last.Some? ==> last.value.canonicalVersion == c.canonicalVersion
    else if c.mutation.kind == Create then last.None? && c.mutation.baseVersion == 0 && c.canonicalVersion == 1
    else
      && c.canonicalVersion == c.mutation.baseVersion + 1
      && (last.Some? ==> last.value.canonicalVersion == c.mutation.baseVersion)
      && (last.None? ==> c.mutation.recordKind == ObservationKind && c.mutation.baseVersion == 1)
  }

  /** The versions of the change at i and of what came before it, as the server recorded them. */
  ghost predicate VersionsInOrder(t: Tables, i: int) {
    && 1 <= i <= |t.versions| && i in t.changes
    && LinkedAt(t, i - 1)
    && (forall j | 0 <= j < |t.versions| :: 1 <= t.versions[j].recordVersion)
    && (forall j, k | 0 <= j < k < |t.versions| && SameRecord(t.versions[j], t.versions[k])
          && t.versions[j].disposition == AcceptedChange && t.versions[k].disposition == AcceptedChange ::
          t.versions[j].recordVersion < t.versions[k].recordVersion)
  }

  lemma VersionsAreInOrder(t: Tables, i: int)
    requires Invariant(t) && i in t.changes
    ensures VersionsInOrder(t, i)
  {
    hide VerifyRecovery, RequestsRecorded, DeletionsRecorded, RowsShowLatest, RowsHaveOrigin, ConflictsMatch, RecordsPlaced, LinkedAt;
    Dense2(t, i);
    forall j | 0 <= j < |t.versions| ensures 1 <= t.versions[j].recordVersion {
      assert RowNotBehind(t, t.versions[j]);
    }
  }

  lemma Dense2(t: Tables, i: int)
    requires Invariant(t) && i in t.changes
    ensures 1 <= i <= |t.versions|
  {
    hide RequestsRecorded, DeletionsRecorded, RowsShowLatest, RowsHaveOrigin, ConflictsMatch, RecordsPlaced, VersionsGrow, VersionsLinked,
      ChangesMatch, MutationsMatch, TombstonesMatch, ResolvesMatch;
  }

  /** Version arithmetic: the last accepted version before an accepted one is its base. n counts from zero. */
  lemma PredecessorIsBase(t: Tables, n: nat, k: int)
    requires VersionsInOrder(t, n + 1) && t.versions[n].disposition == AcceptedChange
    requires t.versions[n].recordVersion == t.versions[n].baseVersion + 1
    requires -1 <= k < n
    requires 0 <= k ==> AcceptedBefore(t, n, k)
    requires forall j | k < j < n :: !AcceptedBefore(t, n, j)
    ensures 0 <= k ==> 0 < t.versions[n].baseVersion && t.versions[k].recordVersion == t.versions[n].baseVersion
    ensures k < 0 && 0 < t.versions[n].baseVersion ==> t.versions[n].recordKind == ObservationKind && t.versions[n].baseVersion == 1
  {
    var v := t.versions[n];
    if 0 < v.baseVersion && AcceptedAt(t, v.recordKind, v.recordId, v.baseVersion) {
      var j :| 0 <= j < |t.versions| && IsVersionOf(t.versions[j], v.recordKind, v.recordId, v.baseVersion)
        && t.versions[j].disposition == AcceptedChange;
      assert AcceptedBefore(t, n, j);
    }
  }

  lemma ConflictIsAtLatest(t: Tables, n: nat, k: int)
    requires VersionsInOrder(t, n + 1) && t.versions[n].disposition == ConflictChange
    requires 0 <= k < n && AcceptedBefore(t, n, k)
    requires forall j | k < j < n :: !AcceptedBefore(t, n, j)
    ensures t.versions[k].recordVersion == t.changes[n + 1].canonicalVersion
  {
    assert FiledAtLatest(t, n);
    var j :| AcceptedBefore(t, n, j) && t.versions[j].recordVersion == t.changes[n + 1].canonicalVersion;
    assert t.versions[k].recordVersion <= t.changes[n + 1].canonicalVersion;
  }

  ghost predicate ShowsVersions(t: Tables, log: seq<Change>) {
    |log| == |t.versions| && forall k | 0 <= k < |log| :: ChangeShowsVersion(log[k], t.versions[k])
  }

  /** What the change at i says of its own versions. */
  predicate OwnVersions(t: Tables, i: int, c: Change)
    requires 1 <= i <= |t.versions| && i in t.changes
  {
    && c.canonicalVersion == t.changes[i].canonicalVersion
    && t.versions[i - 1].disposition != Unstated
    && c.mutation.baseVersion == t.versions[i - 1].baseVersion
    && t.versions[i - 1].recordVersion == t.versions[i - 1].baseVersion + 1
    && (c.mutation.kind == Create ==> c.mutation.baseVersion == 0)
    && (c.mutation.kind != Create ==> 0 < c.mutation.baseVersion)
  }

  lemma LinesUpInLog(t: Tables, n: nat, log: seq<Change>)
    requires VersionsInOrder(t, n + 1) && ShowsVersions(t, log) && OwnVersions(t, n + 1, log[n])
    ensures LinesUp(LastFor(log[..n], log[n].mutation.recordKind, log[n].mutation.recordId), log[n])
  {
    hide AcceptedAt, LinkedAt;
    var c := log[n];
    var kind, id := c.mutation.recordKind, c.mutation.recordId;
    var before := log[..n];
    LastForIsLatest(before, kind, id);
    assert ChangeShowsVersion(c, t.versions[n]);
    forall j | 0 <= j < n ensures before[j] == log[j] && (AcceptedOf(before[j], kind, id) <==> AcceptedBefore(t, n, j)) {
      ShownIsAccepted(log[j], t.versions[j], kind, id);
    }
    var last := LastFor(before, kind, id);
    if last.Some? {
      var k :| 0 <= k < n && before[k] == last.value && AcceptedOf(before[k], kind, id)
        && forall j | k < j < n :: !AcceptedOf(before[j], kind, id);
      assert ChangeShowsVersion(log[k], t.versions[k]);
      if c.disposition == ConflictChange {
        ConflictIsAtLatest(t, n, k);
      } else {
        PredecessorIsBase(t, n, k);
      }
    } else if c.disposition != ConflictChange {
      PredecessorIsBase(t, n, -1);
    }
  }

  lemma ServedOwnVersions(t: Tables, i: int, c: Change)
    requires ServedAs(t, i, c)
    ensures OwnVersions(t, i, c)
  {
    hide ErasedProject, VerifyChangeHash, Lower, LowerAll, ValidateMutation, AcceptedMutation, ValidateChangeEnvelope, CreatedBy,
      SnapshotOf, PayloadMutation;
  }

  /** Every change of a readable history continues the versions of the changes before it. */
  lemma HistoryLinesUp(t: Tables, i: int)
    requires WhollyReadable(t) && 1 <= i <= |WholeLog(t)|
    ensures var log := WholeLog(t);
            LinesUp(LastFor(log[..i - 1], log[i - 1].mutation.recordKind, log[i - 1].mutation.recordId), log[i - 1])
  {
    hide Log, ServedAs, LinesUp, OwnVersions, VersionsInOrder, ChangeShowsVersion, Invariant, LastFor;
    WholeLogServed(t);
    var log := WholeLog(t);
    forall k | 0 <= k < |log| ensures ChangeShowsVersion(log[k], t.versions[k]) {
      ServedShowsVersion(t, k + 1, log[k]);
    }
    assert ServedAs(t, i, log[i - 1]);
    ServedInHistory(t, i, log[i - 1]);
    VersionsAreInOrder(t, i);
    assert 1 <= i <= |t.versions| && i in t.changes;
    ServedOwnVersions(t, i, log[i - 1]);
    LinesUpInLog(t, i - 1, log);
  }

  lemma ServedInHistory(t: Tables, i: int, c: Change)
    requires ServedAs(t, i, c)
    ensures 1 <= i <= |t.versions| && i in t.changes
  {
    hide ErasedProject, VerifyChangeHash, ValidateMutation, AcceptedMutation, ValidateChangeEnvelope, CreatedBy, SnapshotOf, PayloadMutation, Admitted;
  }

  // ------------------------------------------------------- what may refuse

  /** What the device itself demands of content it is about to store. */
  predicate ContentWelcome(local: Local, o: Observation) {
    SurroundingsReady(local, o) && !TopicHeld(local, o.id, BodyOf(o))
  }

  /** An update also has to find its row, with its identity unchanged. */
  predicate UpdateWelcome(local: Local, o: Observation) {
    && ContentWelcome(local, o)
    && o.id in local.observations
    && SameIdentity(local.observations[o.id].body, BodyOf(o))
  }

  /** The device's own conditions on a change: nothing here is about versions, conflict ids or tombstones of the record. */
  predicate Welcome(local: Local, c: Change)
    requires Coherent(c)
  {
    var m := c.mutation;
    var id := m.recordId;
    if c.disposition == ConflictChange then
      id in local.observations ==>
        local.observations[id].body.projectId == m.observation.value.projectId && local.observations[id].body.scope == m.observation.value.scope
    else if m.kind == Tombstone then id in local.observations && StorableTime(m.tombstone.value.deletedAt)
    else if m.kind == Resolve then UpdateWelcome(local, Content(m).value)
    else
      match m.recordKind
      case ProjectKind => true
      case SessionKind =>
        && m.session.value.projectId in local.projects
        && (m.kind != Create ==> id in local.sessions && local.sessions[id].projectId == m.session.value.projectId)
      case ObservationKind =>
        if m.kind == Create then ContentWelcome(local, Content(m).value) else UpdateWelcome(local, Content(m).value)
  }

  /** The change at i against a device that mirrors everything before it. */
  ghost predicate Next(t: Tables, local: Local, i: int) {
    && WhollyReadable(t) && 1 <= i <= |WholeLog(t)|
    && Mirrors(local, WholeLog(t)[..i - 1])
  }

  lemma NextIsServed(t: Tables, local: Local, i: int)
    requires Next(t, local, i)
    ensures ServedAs(t, i, WholeLog(t)[i - 1]) && Coherent(WholeLog(t)[i - 1]) && WholeLog(t)[i - 1].sequence == i
    ensures Numbered(WholeLog(t)) && |WholeLog(t)| == |t.versions|
    ensures forall k | 0 <= k < i - 1 :: WholeLog(t)[..i - 1][k] == WholeLog(t)[k]
    ensures forall k | 0 <= k < |WholeLog(t)| :: ServedAs(t, k + 1, WholeLog(t)[k])
    ensures var c := WholeLog(t)[i - 1];
            LinesUp(LastFor(WholeLog(t)[..i - 1], c.mutation.recordKind, c.mutation.recordId), c)
  {
    hide Log, ServedAs, LinesUp, Mirrors, Coherent, LastFor, Invariant, Servable;
    WholeLogServed(t);
    assert ServedAs(t, i, WholeLog(t)[i - 1]);
    ServedIsCoherent(t, i, WholeLog(t)[i - 1]);
    HistoryLinesUp(t, i);
  }

  lemma ConflictIdFresh(t: Tables, local: Local, i: int)
    requires Next(t, local, i) && WholeLog(t)[i - 1].disposition == ConflictChange
    ensures i !in local.conflicts && !ConflictIdTaken(local, WholeLog(t)[i - 1].conflictId)
  {
    hide WholeLog, Invariant, Servable, ProjectMirrors, SessionMirrors, ObservationMirrors, ServedAs, LinesUp, Coherent, LastFor;
    NextIsServed(t, local, i);
    var log := WholeLog(t);
    assert ConflictMirrors(local, log[..i - 1], i);
    ServedConflictIsCreated(t, i, log[i - 1]);
    forall j | j in local.conflicts ensures local.conflicts[j].conflictId != log[i - 1].conflictId {
      assert ConflictMirrors(local, log[..i - 1], j);
      ServedConflictIsCreated(t, j, log[j - 1]);
    }
  }

  lemma ServedConflictIsCreated(t: Tables, i: int, c: Change)
    requires ServedAs(t, i, c) && c.disposition == ConflictChange
    ensures CreatedBy(t, c.conflictId, i)
  {
    hide ErasedProject, VerifyChangeHash, ValidateMutation, AcceptedMutation, ValidateChangeEnvelope, SnapshotOf, PayloadMutation, Admitted;
  }

  /** A record that is deleted next has no tombstone yet. */
  lemma NotYetDeleted(t: Tables, local: Local, i: int)
    requires Next(t, local, i)
    requires WholeLog(t)[i - 1].disposition != ConflictChange && WholeLog(t)[i - 1].mutation.kind == Tombstone
    ensures i !in local.tombstones && !HasTombstone(local, WholeLog(t)[i - 1].mutation.recordId)
  {
    hide WholeLog, Invariant, Servable, ProjectMirrors, SessionMirrors, ConflictMirrors, ServedAs, LinesUp, HasTombstone;
    NextIsServed(t, local, i);
    var log := WholeLog(t);
    var id := log[i - 1].mutation.recordId;
    assert ObservationMirrors(local, log[..i - 1], id);
    LastForIsLatest(log[..i - 1], ObservationKind, id);
    if HasTombstone(local, id) {
      var k :| 0 <= k < i - 1 && log[..i - 1][k] == LastFor(log[..i - 1], ObservationKind, id).value
        && AcceptedOf(log[..i - 1][k], ObservationKind, id);
      assert ServedAs(t, k + 1, log[k]);
      DeletedOnce(t, k + 1, log[k], i, log[i - 1]);
    }
  }

  lemma DeletedOnce(t: Tables, i: int, c: Change, j: int, d: Change)
    requires Invariant(t) && ServedAs(t, i, c) && ServedAs(t, j, d)
    requires c.mutation.kind == Tombstone && d.mutation.kind == Tombstone && c.mutation.recordId == d.mutation.recordId
    ensures i == j
  {
    hide Invariant, ErasedProject, VerifyChangeHash, ValidateMutation, AcceptedMutation, ValidateChangeEnvelope, SnapshotOf, PayloadMutation,
      Admitted, DeletionRecorded, CreatedBy, ChangeMatches;
    ChangeIsTraced(t, i);
    ChangeIsTraced(t, j);
    OneDeletion(t, t.changes[i].source, t.changes[j].source);
  }

  /** The conflicts a resolution lists are open on the device, and distinct. */
  lemma ListedConflictsOpen(t: Tables, local: Local, i: int)
    requires Next(t, local, i)
    requires WholeLog(t)[i - 1].disposition != ConflictChange && WholeLog(t)[i - 1].mutation.kind == Resolve
    requires WholeLog(t)[i - 1].mutation.resolution.Some?
    ensures var c := WholeLog(t)[i - 1];
            var ids := c.mutation.resolution.value.conflictIds;
            Distinct(ids) && forall k | 0 <= k < |ids| :: HasOpenConflict(local, ids[k], c.mutation.recordId)
  {
    hide WholeLog, Invariant, Servable, ProjectMirrors, SessionMirrors, ObservationMirrors, ServedAs, LinesUp, HasOpenConflict, Distinct, Coherent;
    NextIsServed(t, local, i);
    var log := WholeLog(t);
    var c := log[i - 1];
    var ids := c.mutation.resolution.value.conflictIds;
    ResolvedByServer(t, i, c);
    forall k | 0 <= k < |ids| ensures HasOpenConflict(local, ids[k], c.mutation.recordId) {
      var f := t.conflicts[ids[k]];
      var created := f.createdSeq;
      assert ServedAs(t, created, log[created - 1]);
      ServedConflict(t, ids[k], log[created - 1]);
      assert ConflictMirrors(local, log[..i - 1], created);
      ResolverOfIsFirst(log[..i - 1], ids[k], c.mutation.recordId);
      var r := ResolverOf(log[..i - 1], ids[k], c.mutation.recordId);
      if r.Some? {
        assert ServedAs(t, r.value, log[r.value - 1]);
        ResolverCloses(t, r.value, log[r.value - 1], ids[k]);
      }
      assert OpenConflict(local, ids[k], c.mutation.recordId, created);
      OpenIsOpen(local, ids[k], c.mutation.recordId, created);
    }
  }

  lemma OpenIsOpen(local: Local, conflictId: string, recordId: string, i: int)
    requires OpenConflict(local, conflictId, recordId, i)
    ensures HasOpenConflict(local, conflictId, recordId)
  {
  }

  lemma ResolvedByServer(t: Tables, i: int, c: Change)
    requires Invariant(t) && ServedAs(t, i, c) && c.disposition != ConflictChange && c.mutation.kind == Resolve && c.mutation.resolution.Some?
    ensures var ids := c.mutation.resolution.value.conflictIds;
            && Distinct(ids)
            && forall k | 0 <= k < |ids| ::
                 && ids[k] in t.conflicts
                 && t.conflicts[ids[k]].observationId == c.mutation.recordId
                 && t.conflicts[ids[k]].resolvedSeq == Some(i)
                 && 1 <= t.conflicts[ids[k]].createdSeq < i
  {
    hide ValidateMutation, AcceptedMutation, SnapshotOf, ErasedProject, VerifyChangeHash, Lower, Admitted, ValidateChangeEnvelope,
      CreatedBy, ChangeMatches, DeletionRecorded, Invariant, ResolveMatches, Distinct;
    ChangeIsTraced(t, i);
    var key := t.changes[i].source;
    ResolveKeepsArrays(t, key);
    ResolvedIdsDistinct(t, i);
    var ids := c.mutation.resolution.value.conflictIds;
    assert ids == t.mutations[key].resolutionConflictIds.value;
    forall k | 0 <= k < |ids| ensures ids[k] in t.conflicts && 1 <= t.conflicts[ids[k]].createdSeq < i {
      ConflictOrder(t, ids[k]);
    }
  }

  lemma ConflictOrder(t: Tables, id: string)
    requires Invariant(t) && id in t.conflicts
    ensures 1 <= t.conflicts[id].createdSeq
    ensures t.conflicts[id].resolvedSeq.Some? ==> t.conflicts[id].createdSeq < t.conflicts[id].resolvedSeq.value
  {
    hide VersionsGrow, RowsShowLatest, RowsHaveOrigin, VersionsLinked, RequestsRecorded, DeletionsRecorded, RecordsPlaced, IsCanonicalUuid;
    assert ConflictMatches(t, id);
  }

  // ------------------------------------------------------ exact condition

  /** Facts about the next change that make every check but the device's own succeed. */
  predicate VersionsFit(local: Local, c: Change) {
    var id := c.mutation.recordId;
    match c.mutation.recordKind
    case ProjectKind =>
      if c.mutation.kind == Create then id !in local.projects && c.mutation.baseVersion == 0 && c.canonicalVersion == 1
      else id in local.projects && local.projects[id] == c.mutation.baseVersion && c.canonicalVersion == c.mutation.baseVersion + 1
    case SessionKind =>
      if c.mutation.kind == Create then id !in local.sessions && c.canonicalVersion == 1
      else id in local.sessions && local.sessions[id].version == c.mutation.baseVersion && c.canonicalVersion == c.mutation.baseVersion + 1
    case ObservationKind =>
      if c.disposition == ConflictChange then id in local.observations ==> local.observations[id].version == c.canonicalVersion
      else if c.mutation.kind == Create then id !in local.observations && c.mutation.baseVersion == 0 && c.canonicalVersion == 1
      else
        && c.canonicalVersion == c.mutation.baseVersion + 1
        && (id in local.observations ==> local.observations[id].version == c.mutation.baseVersion)
  }

  lemma NextVersionsFit(t: Tables, local: Local, i: int)
    requires Next(t, local, i)
    ensures VersionsFit(local, WholeLog(t)[i - 1])
  {
    hide WholeLog, Invariant, Servable, ServedAs, LastFor, HasTombstone;
    NextIsServed(t, local, i);
    var c := WholeLog(t)[i - 1];
    var id := c.mutation.recordId;
    assert ProjectMirrors(local, WholeLog(t)[..i - 1], id);
    assert SessionMirrors(local, WholeLog(t)[..i - 1], id);
    assert ObservationMirrors(local, WholeLog(t)[..i - 1], id);
  }

  lemma OrdinaryAppliesExactly(local: Local, c: Change)
    requires Coherent(c) && VersionsFit(local, c) && c.disposition != ConflictChange && c.mutation.kind != Tombstone && c.mutation.kind != Resolve
    ensures Apply(local, c).Applied? <==> Welcome(local, c)
  {
    hide SurroundingsReady, TopicHeld, BodyOf, SameIdentity;
  }

  lemma ResolutionAppliesExactly(local: Local, c: Change)
    requires Coherent(c) && VersionsFit(local, c) && c.disposition != ConflictChange && c.mutation.kind == Resolve
    requires c.mutation.resolution.Some?
    requires Distinct(c.mutation.resolution.value.conflictIds)
    requires forall k | 0 <= k < |c.mutation.resolution.value.conflictIds| ::
      HasOpenConflict(local, c.mutation.resolution.value.conflictIds[k], c.mutation.recordId)
    ensures Apply(local, c).Applied? <==> Welcome(local, c)
  {
    hide SurroundingsReady, TopicHeld, BodyOf, SameIdentity, HasOpenConflict, Closed, Distinct;
  }

  lemma DeletionAppliesExactly(local: Local, c: Change)
    requires Coherent(c) && VersionsFit(local, c) && c.disposition != ConflictChange && c.mutation.kind == Tombstone
    requires c.sequence !in local.tombstones && !HasTombstone(local, c.mutation.recordId)
    ensures Apply(local, c).Applied? <==> Welcome(local, c)
  {
  }

  lemma ConflictAppliesExactly(local: Local, c: Change)
    requires Coherent(c) && VersionsFit(local, c) && c.disposition == ConflictChange
    requires c.sequence !in local.conflicts && !ConflictIdTaken(local, c.conflictId)
    ensures Apply(local, c).Applied? <==> Welcome(local, c)
  {
    hide ConflictIdTaken, Flagged;
  }

  /** A device that mirrors the history so far takes the next change if and only if its own conditions allow it. */
  lemma NextAppliesExactly(t: Tables, local: Local, i: int)
    requires Next(t, local, i)
    ensures Coherent(WholeLog(t)[i - 1])
    ensures Apply(local, WholeLog(t)[i - 1]).Applied? <==> Welcome(local, WholeLog(t)[i - 1])
  {
    hide WholeLog, Invariant, Servable, ServedAs, LinesUp, LastFor, HasTombstone, Apply, Welcome, VersionsFit, HasOpenConflict, ConflictIdTaken,
      Mirrors;
    NextIsServed(t, local, i);
    NextVersionsFit(t, local, i);
    var c := WholeLog(t)[i - 1];
    if c.disposition == ConflictChange {
      ConflictIdFresh(t, local, i);
      ConflictAppliesExactly(local, c);
    } else if c.mutation.kind == Tombstone {
      NotYetDeleted(t, local, i);
      DeletionAppliesExactly(local, c);
    } else if c.mutation.kind == Resolve {
      ListedConflictsOpen(t, local, i);
      ResolutionAppliesExactly(local, c);
    } else {
      OrdinaryAppliesExactly(local, c);
    }
  }

  /** Replaying n changes of a readable history succeeds if and only if each one was welcome when it came. */
  lemma {:induction false} ReplaySucceedsExactly(t: Tables, n: nat)
    requires WhollyReadable(t) && n <= |WholeLog(t)|
    ensures forall k | 0 <= k < n :: Coherent(WholeLog(t)[k])
    ensures ReplayLog(WholeLog(t)[..n]).Applied? <==>
      forall k | 0 <= k < n :: ReplayLog(WholeLog(t)[..k]).Applied? && Welcome(ReplayLog(WholeLog(t)[..k]).local, WholeLog(t)[k])
    decreases n
  {
    hide WholeLog, WhollyReadable, Apply, Welcome, Mirrors, Coherent;
    if 0 < n {
      var log := WholeLog(t);
      ReplaySucceedsExactly(t, n - 1);
      assert log[..n][..n - 1] == log[..n - 1];
      LogIsCoherent(t);
      if ReplayLog(log[..n - 1]).Applied? {
        assert forall k | 0 <= k < n - 1 :: log[..n - 1][k] == log[k];
        ReplayMirrors(log[..n - 1]);
        NextAppliesExactly(t, ReplayLog(log[..n - 1]).local, n);
      }
    }
  }

  lemma LogIsCoherent(t: Tables)
    requires WhollyReadable(t)
    ensures Numbered(WholeLog(t)) && forall k | 0 <= k < |WholeLog(t)| :: Coherent(WholeLog(t)[k])
  {
    hide WholeLog, Invariant, Servable, ServedAs, Coherent;
    WholeLogServed(t);
    forall k | 0 <= k < |WholeLog(t)| ensures Coherent(WholeLog(t)[k]) {
      ServedIsCoherent(t, k + 1, WholeLog(t)[k]);
    }
  }
}
