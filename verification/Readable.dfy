/** What the history serves for each change, and when it can serve it at all. */
module Readable {
  import opened Options
  import opened Uuids
  import opened SyncService
  import opened Tables
  import opened Repository
  import opened Recovery
  import opened PushInvariant
  import opened History
  import opened Pull

  /** A deletion whose erased version was never accepted: the record was born in a conflict. */
  ghost predicate Orphan(t: Tables, i: int)
    requires i in t.changes && t.changes[i].source in t.mutations
  {
    var m := t.mutations[t.changes[i].source];
    m.kind == Tombstone && !AcceptedAt(t, ObservationKind, t.changes[i].recordId, m.baseVersion)
  }

  // ------------------------------------------------------------ versions

  lemma {:induction false} LastAcceptedExactly(versions: seq<VersionRow>, kind: RecordKind, id: string, version: int)
    ensures LastAccepted(versions, kind, id, version).Some? <==>
      exists i :: 0 <= i < |versions| && IsVersionOf(versions[i], kind, id, version) && versions[i].disposition == AcceptedChange
    ensures LastAccepted(versions, kind, id, version).Some? ==>
      exists i :: 0 <= i < |versions| && IsVersionOf(versions[i], kind, id, version) && versions[i].disposition == AcceptedChange
        && versions[i].snapshot == LastAccepted(versions, kind, id, version).value
  {
    if versions != [] {
      var n := |versions| - 1;
      LastAcceptedExactly(versions[..n], kind, id, version);
      if !(IsVersionOf(versions[n], kind, id, version) && versions[n].disposition == AcceptedChange) {
        assert forall i | 0 <= i < n :: versions[..n][i] == versions[i];
      }
    }
  }

  /** The three rows of a change and the request behind them. */
  ghost predicate Traced(t: Tables, i: int) {
    && i in t.changes
    && t.changes[i].source in t.mutations
    && 1 <= i <= |t.versions|
    && var c := t.changes[i];
       var m := t.mutations[c.source];
       var v := t.versions[i - 1];
       var request := m.requestHash;
       && c.versionId == i - 1
       && v.source == c.source
       && v.recordKind == c.recordKind == request.recordKind
       && v.recordId == c.recordId == m.recordId == request.recordId
       && v.disposition == c.changeKind == m.disposition && c.changeKind != Unstated
       && v.recordVersion == m.baseVersion + 1
       && v.baseVersion == m.baseVersion == request.baseVersion != MAX_INT64
       && m.canonicalSeq == i
       && 1 <= m.canonicalVersion == c.canonicalVersion
       && (c.changeKind == AcceptedChange ==> c.canonicalVersion == v.recordVersion)
       && (c.changeKind == ConflictChange ==> request.recordKind == ObservationKind && (request.kind == Create || request.kind == Update))
       && m.kind == request.kind
       && ValidateMutation(request) == Valid && AcceptedMutation(request) && Admitted(request)
       && Lower(request.mutationId) == c.source.mutationId
       && m.resolutionConflictIds == ResolutionColumn(PayloadMutation(request))
       && Some(v.snapshot) == SnapshotOf(PayloadMutation(request))
  }

  lemma ChangeIsTraced(t: Tables, i: int)
    requires Invariant(t) && i in t.changes
    ensures ChangeMatches(t, i) && Traced(t, i) && DeletionRecorded(t, t.changes[i].source)
  {
    hide ValidateMutation, AcceptedMutation, SnapshotOf, PayloadMutation, VersionsGrow, RowsShowLatest, RowsHaveOrigin, ConflictsMatch,
      RecordsPlaced, TombstonesMatch, ResolvesMatch, Admitted, DeletionRecorded, VersionsLinked;
    assert ChangeMatches(t, i);
    assert MutationMatches(t, t.changes[i].source) && RequestRecorded(t, t.changes[i].source);
    ValidIsAdmitted(t.mutations[t.changes[i].source].requestHash);
  }

  /** An accepted version below a deletion is a live observation in some project. */
  lemma PredecessorIsLive(t: Tables, i: int, k: int)
    requires Invariant(t) && i in t.changes && Traced(t, i) && t.mutations[t.changes[i].source].kind == Tombstone
    requires 0 <= k < |t.versions|
    requires IsVersionOf(t.versions[k], ObservationKind, t.changes[i].recordId, t.mutations[t.changes[i].source].baseVersion)
    requires t.versions[k].disposition == AcceptedChange
    ensures t.versions[k].snapshot.ObservationSnapshot? && t.versions[k].snapshot.observation.projectId != ""
  {
    assert SequencesDense(t) && k + 1 in t.changes;
    ChangeIsTraced(t, i);
    ChangeIsTraced(t, k + 1);
    hide Invariant, ValidateMutation, AcceptedMutation, ChangeMatches, SnapshotOf, PayloadMutation, Admitted, DeletionRecorded;
    var key := t.changes[k + 1].source;
    SnapshotKinds(t.mutations[key].requestHash);
    OneDeletion(t, key, t.changes[i].source);
  }

  lemma OneDeletion(t: Tables, k1: MutationKey, k2: MutationKey)
    requires k1 in t.mutations && k2 in t.mutations && DeletionRecorded(t, k1) && DeletionRecorded(t, k2)
    ensures t.mutations[k1].kind == Tombstone && t.mutations[k2].kind == Tombstone && t.mutations[k1].recordId == t.mutations[k2].recordId
      ==> k1 == k2
  {
  }

  lemma SnapshotKinds(m: Mutation)
    requires Admitted(m)
    ensures match m.recordKind
            case ProjectKind => m.project.Some? && SnapshotOf(PayloadMutation(m)) == Some(ProjectSnapshot(m.project.value))
            case SessionKind => m.session.Some? && SnapshotOf(PayloadMutation(m)) == Some(SessionSnapshot(m.session.value))
            case ObservationKind =>
              if m.kind == Tombstone then m.tombstone.Some? && SnapshotOf(PayloadMutation(m)) == Some(TombstoneSnapshot(m.tombstone.value))
              else
                && PayloadMutation(m).observation.Some?
                && PayloadMutation(m).observation.value.projectId != ""
                && SnapshotOf(PayloadMutation(m)) == Some(ObservationSnapshot(PayloadMutation(m).observation.value))
  {
  }

  // -------------------------------------------------------- what is served

  /** The request as every device will read it: ids in stored form, a deletion with the project it erased from. */
  function ServedMutation(request: Mutation, project: string): Mutation {
    request.(
      mutationId := Lower(request.mutationId),
      tombstone := if request.tombstone.Some? then Some(request.tombstone.value.(projectId := project)) else None,
      resolution :=
        if request.resolution.Some? then Some(request.resolution.value.(conflictIds := LowerAll(request.resolution.value.conflictIds)))
        else None)
  }

  lemma ServedMutationIsValid(request: Mutation, project: string)
    requires ValidateMutation(request) == Valid && Admitted(request)
    requires request.resolution.Some? ==> Distinct(LowerAll(request.resolution.value.conflictIds))
    ensures ValidateMutation(ServedMutation(request, project)) == Valid
  {
    hide ByteLength, ValidId, ValidObservation, ObservationExceedsLimits, Lower;
    LowerIsCanonical(request.mutationId);
    if request.resolution.Some? {
      var ids := request.resolution.value.conflictIds;
      forall k | 0 <= k < |ids| ensures IsUuid(LowerAll(ids)[k]) {
        LowerIsCanonical(ids[k]);
      }
      hide IsUuid;
    }
  }

  /** The erased version's project, for a deletion. */
  function ErasedProject(t: Tables, i: int): string
    requires i in t.changes && t.changes[i].source in t.mutations
  {
    var m := t.mutations[t.changes[i].source];
    var previous := LastAccepted(t.versions, t.changes[i].recordKind, t.changes[i].recordId, m.baseVersion);
    if m.kind == Tombstone && previous.Some? then AsObservation(previous.value).projectId else ""
  }

  lemma OrphanHasNoPredecessor(t: Tables, i: int)
    requires Invariant(t) && i in t.changes && Traced(t, i)
    requires t.mutations[t.changes[i].source].kind == Tombstone
    ensures t.changes[i].recordKind == ObservationKind
    ensures Orphan(t, i) <==>
      LastAccepted(t.versions, ObservationKind, t.changes[i].recordId, t.mutations[t.changes[i].source].baseVersion).None?
    ensures !Orphan(t, i) ==>
      && ErasedProject(t, i) != ""
      && JsonProjectId(LastAccepted(t.versions, ObservationKind, t.changes[i].recordId, t.mutations[t.changes[i].source].baseVersion).value)
         == Some(ErasedProject(t, i))
  {
    hide Invariant, ValidateMutation, AcceptedMutation, SnapshotOf, PayloadMutation, LastAccepted;
    var m := t.mutations[t.changes[i].source];
    LastAcceptedExactly(t.versions, ObservationKind, t.changes[i].recordId, m.baseVersion);
    if !Orphan(t, i) {
      var k :| 0 <= k < |t.versions| && IsVersionOf(t.versions[k], ObservationKind, t.changes[i].recordId, m.baseVersion)
        && t.versions[k].disposition == AcceptedChange
        && t.versions[k].snapshot == LastAccepted(t.versions, ObservationKind, t.changes[i].recordId, m.baseVersion).value;
      PredecessorIsLive(t, i, k);
    }
  }

  lemma TombstoneIsMatched(t: Tables, id: string)
    requires Invariant(t) && id in t.tombstones
    ensures TombstoneMatches(t, id)
  {
    hide VersionsGrow, RowsShowLatest, RowsHaveOrigin, VersionsLinked, RequestsRecorded, DeletionsRecorded, RecordsPlaced, ConflictsMatch,
      ResolvesMatch, ChangesMatch, MutationsMatch, TombstoneMatches;
  }

  lemma DeletionTimeKept(t: Tables, i: int)
    requires Invariant(t) && i in t.changes && Traced(t, i)
    requires t.mutations[t.changes[i].source].kind == Tombstone
    ensures RowAt(t, i).Some? && RowAt(t, i).value.deletedAt.Some?
    ensures RowAt(t, i).value.snapshot.TombstoneSnapshot?
    ensures TimestampsWithinMicrosecond(RowAt(t, i).value.snapshot.tombstone.deletedAt, RowAt(t, i).value.deletedAt.value)
  {
    hide Invariant, ValidateMutation, AcceptedMutation, PayloadMutation, LastAccepted, CreatedConflicts, SnapshotOf, ChangeMatches;
    ChangeIsTraced(t, i);
    TombstoneIsMatched(t, t.changes[i].recordId);
    SnapshotKinds(t.mutations[t.changes[i].source].requestHash);
  }

  /** The row and the request agree wherever the decoder looks. */
  predicate RowCarries(row: PullRow, request: Mutation) {
    && row.kind == request.kind && row.recordKind == request.recordKind && row.recordId == request.recordId
    && row.mutationId == Lower(request.mutationId) && row.base == request.baseVersion
    && row.conflictIds == ConflictIds(PayloadMutation(request))
    && Some(row.snapshot) == SnapshotOf(PayloadMutation(request))
    && (row.kind == Tombstone ==> row.deletedAt.Some? && TimestampsWithinMicrosecond(AsTombstone(row.snapshot).deletedAt, row.deletedAt.value))
  }

  lemma DecoderInvertsEncoder(row: PullRow, request: Mutation)
    requires RowCarries(row, request) && Admitted(request) && PayloadCount(request) == 1
    ensures PullMutation(row) ==
      if row.kind == Tombstone && (row.previous.None? || AsObservation(row.previous.value).projectId == "") then None
      else Some(ServedMutation(request, if row.previous.Some? then AsObservation(row.previous.value).projectId else ""))
  {
    hide IsUuid, Lower, TimestampsWithinMicrosecond;
  }

  lemma RowFields(t: Tables, i: int)
    requires i in t.changes && ChangeMatches(t, i)
    ensures RowAt(t, i).Some?
    ensures var row := RowAt(t, i).value;
            var c := t.changes[i];
            var m := t.mutations[c.source];
            && row.kind == m.kind && row.recordKind == c.recordKind && row.recordId == c.recordId
            && row.mutationId == c.source.mutationId && row.base == m.baseVersion
            && row.conflictIds == (if m.resolutionConflictIds.Some? then m.resolutionConflictIds.value else [])
            && row.snapshot == t.versions[c.versionId].snapshot
  {
    hide LastAccepted, CreatedConflicts, DeletedAt;
  }

  lemma RowCarriesRequest(t: Tables, i: int)
    requires Invariant(t) && i in t.changes
    ensures Traced(t, i) && RowAt(t, i).Some? && RowCarries(RowAt(t, i).value, t.mutations[t.changes[i].source].requestHash)
  {
    hide Invariant, ChangeMatches, RowAt, AcceptedMutation, ValidateMutation, TimestampsWithinMicrosecond, SnapshotOf, Admitted,
      DeletionRecorded, PayloadMutation;
    ChangeIsTraced(t, i);
    RowFields(t, i);
    if t.mutations[t.changes[i].source].kind == Tombstone {
      DeletionTimeKept(t, i);
    }
  }

  lemma ValidHasOnePayload(m: Mutation)
    requires ValidateMutation(m) == Valid
    ensures PayloadCount(m) == 1
  {
  }

  lemma RowPrevious(t: Tables, i: int)
    requires RowAt(t, i).Some?
    ensures var row := RowAt(t, i).value;
            && row.kind == t.mutations[t.changes[i].source].kind
            && ErasedProject(t, i) ==
               (if row.kind == Tombstone && row.previous.Some? then AsObservation(row.previous.value).projectId else "")
            && (row.kind != Tombstone ==> row.previous.None?)
            && (row.kind == Tombstone ==>
                  row.previous ==
                  LastAccepted(t.versions, t.changes[i].recordKind, t.changes[i].recordId, t.mutations[t.changes[i].source].baseVersion))
  {
    hide LastAccepted, CreatedConflicts;
  }

  /** The pull query and decoder give back exactly the request that was pushed, unless it is an orphan deletion. */
  lemma PullMutationGivesRequest(t: Tables, i: int)
    requires Invariant(t) && i in t.changes
    ensures Traced(t, i) && RowAt(t, i).Some?
    ensures PullMutation(RowAt(t, i).value) ==
      if Orphan(t, i) then None
      else Some(ServedMutation(t.mutations[t.changes[i].source].requestHash, ErasedProject(t, i)))
  {
    RowCarriesRequest(t, i);
    var request := t.mutations[t.changes[i].source].requestHash;
    RowPrevious(t, i);
    hide Invariant, AcceptedMutation, ValidateMutation, RowCarries, Admitted, PullMutation, ServedMutation, RowAt, LastAccepted,
      ErasedProject, AsObservation, SnapshotOf, PayloadMutation, PayloadCount;
    ValidHasOnePayload(request);
    DecoderInvertsEncoder(RowAt(t, i).value, request);
    if request.kind == Tombstone {
      OrphanHasNoPredecessor(t, i);
    }
  }

  lemma CreatedConflictsExactly(t: Tables, i: int)
    requires Invariant(t) && i in t.changes
    ensures t.changes[i].changeKind == AcceptedChange ==> CreatedConflicts(t, i) == {}
    ensures t.changes[i].changeKind == ConflictChange ==> exists f :: CreatedBy(t, f, i) && CreatedConflicts(t, i) == {f} && IsCanonicalUuid(f)
  {
    hide VerifyRecovery, VersionsGrow, RowsShowLatest, RowsHaveOrigin, RequestsRecorded, RecordsPlaced, IsCanonicalUuid, VersionsLinked, DeletionsRecorded;
    forall f | f in CreatedConflicts(t, i) ensures t.changes[i].changeKind == ConflictChange {
      assert ConflictMatches(t, f);
    }
    if t.changes[i].changeKind == ConflictChange {
      var f :| CreatedBy(t, f, i);
      assert ConflictMatches(t, f);
      forall g | g in CreatedConflicts(t, i) ensures g == f {
      }
      assert CreatedConflicts(t, i) == {f};
    }
  }

  /** What a device is told about change i of the history. */
  ghost predicate ServedAs(t: Tables, i: int, c: Change) {
    && Traced(t, i)
    && c.sequence == i
    && c.canonicalVersion == t.changes[i].canonicalVersion
    && c.mutation == ServedMutation(t.mutations[t.changes[i].source].requestHash, ErasedProject(t, i))
    && ValidateMutation(c.mutation) == Valid
    && ValidateChangeEnvelope(c)
    && VerifyChangeHash(c)
    && if t.changes[i].changeKind == ConflictChange then
         c.hashVersion == Some(2) && c.disposition == ConflictChange && CreatedBy(t, c.conflictId, i)
       else
         c.conflictId == "" && c.disposition == (if c.hashVersion == Some(2) then AcceptedChange else Unstated)
  }

  /** What the envelope says about how the server received the change. */
  predicate EnvelopeSays(row: PullRow, c: Change) {
    && c.sequence == row.sequence && c.canonicalVersion == row.canonicalVersion
    && (if row.changeKind == ConflictChange then
          c.hashVersion == Some(2) && c.disposition == ConflictChange && c.conflictId in row.createdConflicts
        else c.conflictId == "" && c.disposition == (if c.hashVersion == Some(2) then AcceptedChange else Unstated))
  }

  lemma EnvelopeIsValid(row: PullRow, m: Mutation)
    requires PullMutation(row) == Some(m) && ValidateMutation(m) == Valid
    requires row.changeKind != Unstated && 1 <= row.sequence && 1 <= row.canonicalVersion
    requires row.changeKind == AcceptedChange ==> row.createdConflicts == {}
    requires row.changeKind == ConflictChange ==> m.recordKind == ObservationKind && (m.kind == Create || m.kind == Update)
    requires row.changeKind == ConflictChange ==> exists f :: row.createdConflicts == {f} && IsUuid(f)
    ensures BuildChange(row).Some?
    ensures var c := BuildChange(row).value;
            c.mutation == m && EnvelopeSays(row, c) && ValidateChangeEnvelope(c) && VerifyChangeHash(c)
  {
    hide IsUuid, PullMutation, ValidateMutation;
  }

  /** A change can be served if and only if it is not an orphan deletion; then it says exactly what was pushed. */
  lemma ReadableExactly(t: Tables, i: int)
    requires Invariant(t) && i in t.changes
    ensures Traced(t, i) && RowAt(t, i).Some?
    ensures BuildChange(RowAt(t, i).value).Some? <==> !Orphan(t, i)
    ensures !Orphan(t, i) ==> ServedAs(t, i, BuildChange(RowAt(t, i).value).value)
  {
    PullMutationGivesRequest(t, i);
    hide Invariant, RowAt, Orphan, ErasedProject, PullMutation, ChangeMatches, ValidateMutation, AcceptedMutation, Admitted,
      CreatedConflicts, SnapshotOf, PayloadMutation, ConflictMatches, BuildChange, ServedMutation, IsUuid, LowerAll,
      ValidateChangeEnvelope, VerifyChangeHash, DeletionRecorded;
    CreatedConflictsExactly(t, i);
    ChangeIsTraced(t, i);
    RowSource(t, i);
    ResolvedIdsDistinct(t, i);
    var request := t.mutations[t.changes[i].source].requestHash;
    if !Orphan(t, i) {
      ServedMutationIsValid(request, ErasedProject(t, i));
      ServedMutationKind(request, ErasedProject(t, i));
      EnvelopeIsValid(RowAt(t, i).value, ServedMutation(request, ErasedProject(t, i)));
    } else {
      assert BuildChange(RowAt(t, i).value).None? by { UnreadableRow(RowAt(t, i).value); }
    }
  }

  lemma UnreadableRow(row: PullRow)
    requires PullMutation(row).None?
    ensures BuildChange(row).None?
  {
  }

  lemma ServedMutationKind(request: Mutation, project: string)
    ensures var m := ServedMutation(request, project);
            m.recordKind == request.recordKind && m.kind == request.kind && m.recordId == request.recordId && m.baseVersion == request.baseVersion
  {
  }

  lemma RowSource(t: Tables, i: int)
    requires RowAt(t, i).Some?
    ensures var row := RowAt(t, i).value;
            && row.sequence == i && row.changeKind == t.changes[i].changeKind
            && row.canonicalVersion == t.changes[i].canonicalVersion && row.createdConflicts == CreatedConflicts(t, i)
  {
    hide LastAccepted, CreatedConflicts;
  }

  lemma ResolvedIdsDistinct(t: Tables, i: int)
    requires Invariant(t) && i in t.changes && Traced(t, i)
    ensures var request := t.mutations[t.changes[i].source].requestHash;
            request.resolution.Some? ==> Distinct(LowerAll(request.resolution.value.conflictIds))
  {
    hide VersionsGrow, RowsShowLatest, RowsHaveOrigin, RecordsPlaced, ConflictsMatch, TombstonesMatch, ValidateMutation, AcceptedMutation,
      SnapshotOf, ChangesMatch, MutationsMatch, VersionsLinked, DeletionsRecorded;
    assert ResolveMatches(t, t.changes[i].source);
    ValidHasOnePayload(t.mutations[t.changes[i].source].requestHash);
  }

  // ------------------------------------------------------------ stability

  lemma CreatedConflictsStable(t: Tables, u: Tables, i: int)
    requires Invariant(t) && Invariant(u) && Follows(t, u) && i in t.changes
    ensures i in u.changes && CreatedConflicts(u, i) == CreatedConflicts(t, i)
  {
    hide VerifyRecovery, VersionsGrow, RowsShowLatest, RowsHaveOrigin, RequestsRecorded, DeletionsRecorded, RecordsPlaced,
      IsCanonicalUuid, TombstonedStay, RecordsStay, RevokedStay, VersionsLinked;
    forall f | f in CreatedConflicts(u, i) ensures f in CreatedConflicts(t, i) {
      assert ConflictMatches(u, f);
      var g :| CreatedBy(t, g, i);
      assert CreatedBy(u, g, i);
    }
    forall f | f in CreatedConflicts(t, i) ensures f in CreatedConflicts(u, i) {
    }
  }

  lemma LaterIsGreater(t: Tables, j: int, k: int)
    requires VersionsGrow(t) && 0 <= j < k < |t.versions| && SameRecord(t.versions[j], t.versions[k])
    requires t.versions[j].disposition == AcceptedChange && t.versions[k].disposition == AcceptedChange
    ensures t.versions[j].recordVersion < t.versions[k].recordVersion
  {
    hide RowNotBehind;
  }

  lemma PredecessorStable(t: Tables, u: Tables, i: int)
    requires Invariant(t) && Invariant(u) && Follows(t, u) && i in t.changes && Traced(t, i)
    requires t.changes[i].changeKind == AcceptedChange
    ensures var c := t.changes[i];
            LastAccepted(u.versions, c.recordKind, c.recordId, t.mutations[c.source].baseVersion)
            == LastAccepted(t.versions, c.recordKind, c.recordId, t.mutations[c.source].baseVersion)
  {
    hide VerifyRecovery, RowsShowLatest, RowsHaveOrigin, RequestsRecorded, DeletionsRecorded, RecordsPlaced, ConflictsMatch,
      TombstonedStay, RecordsStay, RevokedStay, ConflictsOnlyClose, AcceptedMutation, ValidateMutation, Admitted, SnapshotOf,
      PayloadMutation, VersionsGrow, LastAccepted, VersionsLinked;
    var c := t.changes[i];
    var base := t.mutations[c.source].baseVersion;
    assert u.versions[..|t.versions|] == t.versions;
    assert u.versions[i - 1] == t.versions[i - 1];
    forall k | |t.versions| <= k < |u.versions|
      ensures !(IsVersionOf(u.versions[k], c.recordKind, c.recordId, base) && u.versions[k].disposition == AcceptedChange)
    {
      if IsVersionOf(u.versions[k], c.recordKind, c.recordId, base) && u.versions[k].disposition == AcceptedChange {
        LaterIsGreater(u, i - 1, k);
      }
    }
    LastAcceptedIgnores(u.versions, |t.versions|, c.recordKind, c.recordId, base);
  }

  lemma {:induction false} LastAcceptedIgnores(versions: seq<VersionRow>, n: nat, kind: RecordKind, id: string, version: int)
    requires n <= |versions|
    requires forall k | n <= k < |versions| :: !(IsVersionOf(versions[k], kind, id, version) && versions[k].disposition == AcceptedChange)
    ensures LastAccepted(versions, kind, id, version) == LastAccepted(versions[..n], kind, id, version)
  {
    if n == |versions| {
      assert versions[..n] == versions;
    } else {
      LastAcceptedIgnores(versions[..|versions| - 1], n, kind, id, version);
      assert versions[..|versions| - 1][..n] == versions[..n];
    }
  }

  /** No later push changes what a change is served as. */
  lemma RowStable(t: Tables, u: Tables, i: int)
    requires Invariant(t) && Invariant(u) && Follows(t, u) && i in t.changes
    ensures i in u.changes && RowAt(t, i).Some? && RowAt(u, i) == RowAt(t, i)
  {
    hide Invariant, ConflictsOnlyClose, RecordsStay, TombstonedStay, RevokedStay, ChangeMatches, LastAccepted, CreatedConflicts,
      AcceptedMutation, ValidateMutation, Admitted, SnapshotOf, PayloadMutation, DeletionRecorded, Follows;
    ChangeIsTraced(t, i);
    SourceStable(t, u, i);
    ChangeIsTraced(u, i);
    CreatedConflictsStable(t, u, i);
    if t.mutations[t.changes[i].source].kind == Tombstone {
      PredecessorStable(t, u, i);
    }
    DeletionTimeStable(t, u, i);
  }

  lemma SourceStable(t: Tables, u: Tables, i: int)
    requires Follows(t, u) && Traced(t, i)
    ensures i in u.changes && u.changes[i] == t.changes[i] && t.changes[i].source in u.mutations
    ensures u.mutations[t.changes[i].source] == t.mutations[t.changes[i].source]
    ensures |t.versions| <= |u.versions| && u.versions[i - 1] == t.versions[i - 1]
  {
    hide AcceptedMutation, ValidateMutation, Admitted, SnapshotOf, PayloadMutation;
  }

  lemma DeletionOfChange(t: Tables, id: string, i: int)
    requires Invariant(t) && id in t.tombstones && i in t.changes && t.tombstones[id].versionId == i - 1
    ensures t.tombstones[id].source == t.changes[i].source && t.changes[i].source in t.mutations
    ensures t.mutations[t.changes[i].source].kind == Tombstone && t.changes[i].recordId == id
    ensures t.mutations[t.changes[i].source].recordId == id
  {
    hide RowsShowLatest, RowsHaveOrigin, RequestsRecorded, DeletionsRecorded, RecordsPlaced, ConflictsMatch, VersionsGrow,
      ResolvesMatch, MutationsMatch, VersionsLinked;
    assert TombstoneMatches(t, id);
  }

  lemma DeletionTimeStable(t: Tables, u: Tables, i: int)
    requires Invariant(t) && Invariant(u) && Follows(t, u) && i in t.changes && i in u.changes && u.changes[i] == t.changes[i]
    requires Traced(t, i) && Traced(u, i)
    ensures DeletedAt(u, i) == DeletedAt(t, i)
  {
    hide RowsShowLatest, RowsHaveOrigin, RequestsRecorded, RecordsPlaced, ConflictsMatch, VersionsGrow, VerifyRecovery,
      Extends, ConflictsOnlyClose, RecordsStay, RevokedStay, AcceptedMutation, ValidateMutation, Admitted, SnapshotOf, PayloadMutation, VersionsLinked;
    var id := t.changes[i].recordId;
    if id in u.tombstones && u.tombstones[id].versionId == i - 1 {
      DeletionOfChange(u, id, i);
      SourceStable(t, u, i);
      assert DeletionRecorded(t, t.changes[i].source);
    }
  }
}
