/**
 What a push answers and writes, said of the tables and the mutation alone: every answer with
 its exact condition, and the rows it leaves.
 */
module PushAnswers {
  import opened Options
  import opened Uuids
  import opened SyncService
  import opened Tables
  import opened Repository
  import opened Recovery

  // -------------------------------------------------------------- conditions

  predicate Enrolled(t: Tables, device: string) {
    device != NIL_UUID && device in t.devices
  }

  /** The request is one the service takes, from a device that may send it. */
  predicate Taken(t: Tables, device: string, m: Mutation) {
    Enrolled(t, device) && !t.devices[device] && ValidateMutation(m) == Valid && AcceptedMutation(m)
  }

  /** It is taken, and its id is new for the device. */
  predicate Fresh(t: Tables, device: string, m: Mutation) {
    Taken(t, device, m) && MutationKey(device, Lower(m.mutationId)) !in t.mutations
  }

  predicate There(t: Tables, m: Mutation) {
    match m.recordKind
    case ProjectKind => m.recordId in t.projects
    case SessionKind => m.recordId in t.sessions
    case ObservationKind => m.recordId in t.observations
  }

  /** The record's row is on the version the mutation is based on. */
  predicate OnBase(t: Tables, m: Mutation) {
    match m.recordKind
    case ProjectKind => m.recordId in t.projects && t.projects[m.recordId].version == m.baseVersion
    case SessionKind => m.recordId in t.sessions && t.sessions[m.recordId].version == m.baseVersion
    case ObservationKind => m.recordId in t.observations && t.observations[m.recordId].version == m.baseVersion
  }

  /** The observation a mutation would write: its own, or the winner of a resolution. */
  function Written(m: Mutation): Option<Observation> {
    if m.kind != Resolve then m.observation else if m.resolution.Some? then m.resolution.value.observation else None
  }

  /** The conflicts a resolution lists, as they are stored. */
  function Listed(m: Mutation): seq<string> {
    if m.kind == Resolve && m.resolution.Some? then
      seq(|m.resolution.value.conflictIds|, i requires 0 <= i < |m.resolution.value.conflictIds| => Lower(m.resolution.value.conflictIds[i]))
    else []
  }

  /** An active observation other than this record has the same project, scope and topic. */
  predicate TopicElsewhere(t: Tables, id: string, o: Observation) {
    && o.topicKey != ""
    && exists other :: other in t.observations && other != id
         && t.observations[other].body.lifecycle == Active
         && t.observations[other].body.projectId == o.projectId
         && t.observations[other].body.scope == o.scope
         && t.observations[other].body.topicKey == o.topicKey
  }

  predicate Collides(t: Tables, m: Mutation) {
    Written(m).Some? && TopicElsewhere(t, m.recordId, Written(m).value)
  }

  /** Project and session are there, references are of the project, and no update takes a referred-to record away. */
  predicate SurroundingsMet(t: Tables, m: Mutation) {
    && (m.session.Some? ==>
          && m.session.value.projectId in t.projects
          && (m.kind == Update ==>
                forall id | id in t.observations && t.observations[id].body.sessionId == m.recordId ::
                  t.observations[id].body.projectId == m.session.value.projectId))
    && (Written(m).Some? ==>
          var o := Written(m).value;
          && o.projectId in t.projects
          && (o.sessionId != "" ==> o.sessionId in t.sessions && t.sessions[o.sessionId].projectId == o.projectId)
          && (forall i | 0 <= i < |o.references| ::
                && o.references[i] != m.recordId && o.references[i] in t.observations
                && t.observations[o.references[i]].body.projectId == o.projectId)
          && (m.kind == Update ==>
                forall id | id in t.observations && m.recordId in t.observations[id].body.references ::
                  t.observations[id].body.projectId == o.projectId))
  }

  predicate ListedAreOurs(t: Tables, m: Mutation) {
    && (forall i, j | 0 <= i < j < |Listed(m)| :: Listed(m)[i] != Listed(m)[j])
    && (forall i | 0 <= i < |Listed(m)| :: Listed(m)[i] in t.conflicts && t.conflicts[Listed(m)[i]].observationId == m.recordId)
  }

  predicate ListedAreOpen(t: Tables, m: Mutation) {
    forall i | 0 <= i < |Listed(m)| :: Listed(m)[i] in t.conflicts && t.conflicts[Listed(m)[i]].resolvedSeq.None?
  }

  /** The base does not exist: a creation of what is there, any other change of what is not, or of a deleted version. */
  predicate BaseMissing(t: Tables, m: Mutation) {
    if m.kind == Create then There(t, m)
    else
      || !There(t, m) || m.baseVersion == MAX_INT64
      || (m.recordKind == ObservationKind && m.kind != Tombstone && OnBase(t, m) && t.observations[m.recordId].body.lifecycle == Tombstoned)
  }

  /** Something the change rests on is missing, or for an archive or a resolution the topic is taken. */
  predicate PrerequisiteMissing(t: Tables, m: Mutation) {
    || !SurroundingsMet(t, m)
    || ((m.kind == Archive || m.kind == Resolve) && Collides(t, m))
    || (m.kind == Resolve && !ListedAreOurs(t, m))
    || (m.kind == Resolve && m.recordId in t.observations && t.observations[m.recordId].version == m.baseVersion
        && (t.observations[m.recordId].body.lifecycle != Active || !ListedAreOpen(t, m)))
  }

  /** Another device was first: at the record, for an update, or at the topic. */
  predicate Overtaken(t: Tables, m: Mutation) {
    && m.recordKind == ObservationKind
    && ((m.kind == Create && Collides(t, m)) || (m.kind == Update && (!OnBase(t, m) || Collides(t, m))))
  }

  /** The record has moved on, and the kind of change cannot compete. */
  predicate Stale(t: Tables, m: Mutation) {
    m.kind != Create && !OnBase(t, m) && !(m.recordKind == ObservationKind && m.kind == Update)
  }

  predicate Standing(t: Tables, device: string, m: Mutation) {
    Fresh(t, device, m) && !BaseMissing(t, m) && !PrerequisiteMissing(t, m)
  }

  /** The same mutation id is behind the same version of the record, from another device. */
  predicate IdSpent(t: Tables, m: Mutation) {
    exists k :: 0 <= k < |t.versions|
      && t.versions[k].recordKind == m.recordKind && t.versions[k].recordId == m.recordId
      && t.versions[k].recordVersion == m.baseVersion + 1 && t.versions[k].source.mutationId == Lower(m.mutationId)
  }

  // ------------------------------------------------------- the same by parts

  lemma TargetIs(t: Tables, m: Mutation)
    ensures Target(t, m.recordKind, m.recordId).Some? <==> There(t, m)
    ensures Target(t, m.recordKind, m.recordId) == Some(m.baseVersion) <==> OnBase(t, m)
  {
  }

  lemma PayloadIs(m: Mutation)
    requires ValidateMutation(m) == Valid && AcceptedMutation(m)
    ensures PayloadMutation(m).observation == Written(m)
    ensures ConflictIds(PayloadMutation(m)) == Listed(m)
    ensures var p := PayloadMutation(m);
            && p.session == m.session && p.kind == m.kind
            && p.recordId == m.recordId && p.recordKind == m.recordKind && p.baseVersion == m.baseVersion
    ensures Written(m).Some? ==> m.recordKind == ObservationKind && m.kind != Tombstone
  {
    hide ByteLength, ValidOptionalText, ValidContent, MutationExceedsLimits, ValidObservation, ValidConflictIds, IsUuid, Lower;
  }

  lemma CollisionIs(t: Tables, m: Mutation)
    requires ValidateMutation(m) == Valid && AcceptedMutation(m)
    ensures TopicTaken(t, PayloadMutation(m)) <==> Collides(t, m)
  {
    hide ValidateMutation, AcceptedMutation, PayloadMutation;
    PayloadIs(m);
    if Written(m).Some? {
      var o := Written(m).value;
      if TopicTaken(t, PayloadMutation(m)) {
        var id :| id in TopicHolders(t, o) && id != m.recordId;
        assert id in t.observations;
      }
      if Collides(t, m) {
        var other :| other in t.observations && other != m.recordId
          && t.observations[other].body.lifecycle == Active
          && t.observations[other].body.projectId == o.projectId
          && t.observations[other].body.scope == o.scope
          && t.observations[other].body.topicKey == o.topicKey;
        assert other in TopicHolders(t, o);
      }
    }
  }

  lemma SurroundingsAre(t: Tables, m: Mutation)
    requires ValidateMutation(m) == Valid && AcceptedMutation(m)
    ensures PrerequisitesHold(t, PayloadMutation(m)) <==> SurroundingsMet(t, m)
  {
    hide ValidateMutation, AcceptedMutation, PayloadMutation;
    PayloadIs(m);
  }

  lemma ListedAre(t: Tables, m: Mutation)
    requires ValidateMutation(m) == Valid && AcceptedMutation(m)
    ensures var ids := ConflictIds(PayloadMutation(m));
            && (Distinct(ids) && IdsExist(t, ids, m.recordId) <==> ListedAreOurs(t, m))
            && (ListedAreOurs(t, m) ==> (IdsUnresolved(t, ids, m.recordId) <==> ListedAreOpen(t, m)))
  {
    hide ValidateMutation, AcceptedMutation, PayloadMutation, Listed;
    PayloadIs(m);
  }

  // ------------------------------------------------------------------ answers

  /** Which mutations are answered at all: the others break a constraint and roll back. */
  predicate RollsBack(t: Tables, device: string, m: Mutation, conflictId: string) {
    && Standing(t, device, m) && !Stale(t, m)
    && (|| IdSpent(t, m)
        || (Overtaken(t, m) && conflictId in t.conflicts)
        || (!Overtaken(t, m) && m.kind == Tombstone && m.recordId in t.tombstones))
  }

  lemma SpentIs(t: Tables, m: Mutation)
    ensures VersionRowClash(t.versions, m.recordKind, m.recordId, m.baseVersion + 1, Lower(m.mutationId)) <==> IdSpent(t, m)
  {
    hide Lower;
    if VersionRowClash(t.versions, m.recordKind, m.recordId, m.baseVersion + 1, Lower(m.mutationId)) {
      var k :| 0 <= k < |t.versions| && SameVersionIdentity(t.versions[k], m.recordKind, m.recordId, m.baseVersion + 1, Lower(m.mutationId));
    }
    if IdSpent(t, m) {
      var k :| 0 <= k < |t.versions|
        && t.versions[k].recordKind == m.recordKind && t.versions[k].recordId == m.recordId
        && t.versions[k].recordVersion == m.baseVersion + 1 && t.versions[k].source.mutationId == Lower(m.mutationId);
      assert SameVersionIdentity(t.versions[k], m.recordKind, m.recordId, m.baseVersion + 1, Lower(m.mutationId));
    }
  }

  /** The verdict on a fresh request, by the conditions alone. */
  lemma FreshVerdict(t: Tables, device: string, m: Mutation)
    requires Fresh(t, device, m)
    ensures var d := Decide(t, device, m);
            && (d == Refuse(InvalidBase) <==> BaseMissing(t, m))
            && (d == Refuse(InvalidPrerequisite) <==> !BaseMissing(t, m) && PrerequisiteMissing(t, m))
            && (d == Refuse(StaleBase) <==> Standing(t, device, m) && Stale(t, m))
            && (d.Compete? <==> Standing(t, device, m) && Overtaken(t, m))
            && (d.Advance? <==> Standing(t, device, m) && !Stale(t, m) && !Overtaken(t, m))
            && (d.Compete? || d.Advance? ==> d.payload == PayloadMutation(m))
            && !d.Replay?
  {
    PayloadIs(m);
    TargetIs(t, m);
    CollisionIs(t, m);
    SurroundingsAre(t, m);
    ListedAre(t, m);
    FreshBase(m);
    hide ValidateMutation, AcceptedMutation, PayloadMutation, PrerequisitesHold, TopicTaken, SurroundingsMet, Collides, IdsExist, IdsUnresolved,
      Distinct, ListedAreOurs, ListedAreOpen, Written, Listed, Target, There, Lower, OnBase;
    if m.recordKind == ObservationKind {
      ObservationRowIs(t, m);
    }
  }

  lemma FreshBase(m: Mutation)
    requires ValidateMutation(m) == Valid && AcceptedMutation(m)
    ensures m.kind == Create ==> m.baseVersion == 0
    ensures m.kind != Create && m.kind != Update ==> m.recordKind == ObservationKind
  {
    hide ByteLength, ValidOptionalText, ValidContent, MutationExceedsLimits, ValidObservation, ValidConflictIds, IsUuid, ValidPayload, ValidId;
  }

  lemma ObservationRowIs(t: Tables, m: Mutation)
    requires m.recordKind == ObservationKind
    ensures OnBase(t, m) <==> m.recordId in t.observations && t.observations[m.recordId].version == m.baseVersion
    ensures There(t, m) <==> m.recordId in t.observations
    ensures HasLifecycle(t, m.recordId, Tombstoned) <==> m.recordId in t.observations && t.observations[m.recordId].body.lifecycle == Tombstoned
    ensures HasLifecycle(t, m.recordId, Active) <==> m.recordId in t.observations && t.observations[m.recordId].body.lifecycle == Active
  {
  }

  predicate Answers(r: Result, m: Mutation, code: ResultCode) {
    r == Result(m.mutationId, Rejected, false, code, None, 0)
  }

  lemma KnownVerdict(t: Tables, device: string, m: Mutation)
    requires Invariant(t) && Taken(t, device, m) && MutationKey(device, Lower(m.mutationId)) in t.mutations
    ensures var row := t.mutations[MutationKey(device, Lower(m.mutationId))];
            Decide(t, device, m) == if row.requestHash != m then Refuse(MutationIdHashMismatch) else Replay(row)
  {
    hide ValidateMutation, AcceptedMutation, PayloadMutation, Lower, TopicTaken, PrerequisitesHold;
    KnownIsRecorded(t, MutationKey(device, Lower(m.mutationId)));
  }

  /** A recorded mutation was accepted or filed as a conflict, at a sequence. */
  lemma KnownIsRecorded(t: Tables, key: MutationKey)
    requires Invariant(t) && key in t.mutations
    ensures t.mutations[key].disposition != Unstated && 1 <= t.mutations[key].canonicalSeq
  {
    hide VersionsGrow, RowsShowLatest, RowsHaveOrigin, RecordsPlaced, ConflictsMatch, ResolvesMatch, RequestsRecorded, VersionsLinked, DeletionsRecorded;
  }

  /** Every refusal code, exactly. */
  lemma RefusedExactly(t: Tables, device: string, m: Mutation, conflictId: string)
    requires Invariant(t) && Push(t, device, m, conflictId).Committed?
    ensures var r := Push(t, device, m, conflictId).result;
            && (Answers(r, m, InvalidDevice) <==> !Enrolled(t, device))
            && (Answers(r, m, Revoked) <==> Enrolled(t, device) && t.devices[device])
            && (Answers(r, m, UnsupportedSemantic) <==>
                  Enrolled(t, device) && !t.devices[device] && !(ValidateMutation(m) == Valid && AcceptedMutation(m)))
            && (Answers(r, m, MutationIdHashMismatch) <==>
                  && Taken(t, device, m) && MutationKey(device, Lower(m.mutationId)) in t.mutations
                  && t.mutations[MutationKey(device, Lower(m.mutationId))].requestHash != m)
            && (Answers(r, m, InvalidBase) <==> Fresh(t, device, m) && BaseMissing(t, m))
            && (Answers(r, m, InvalidPrerequisite) <==> Fresh(t, device, m) && !BaseMissing(t, m) && PrerequisiteMissing(t, m))
            && (Answers(r, m, StaleBase) <==> Standing(t, device, m) && Stale(t, m))
            && (r.disposition == Rejected ==>
                  exists code :: Answers(r, m, code) && code in {InvalidDevice, Revoked, UnsupportedSemantic, MutationIdHashMismatch,
                                                                 InvalidBase, InvalidPrerequisite, StaleBase})
    ensures Push(t, device, m, conflictId).result.disposition == Rejected ==> Push(t, device, m, conflictId).tables == t
  {
    hide Decide, ValidateMutation, AcceptedMutation, BaseMissing, PrerequisiteMissing, Stale, Overtaken, Lower, Invariant, BreaksConstraint, SnapshotOf;
    if Taken(t, device, m) {
      if MutationKey(device, Lower(m.mutationId)) in t.mutations {
        KnownVerdict(t, device, m);
      } else {
        FreshVerdict(t, device, m);
      }
    } else {
      StrangerVerdict(t, device, m);
    }
  }

  lemma StrangerVerdict(t: Tables, device: string, m: Mutation)
    requires !Taken(t, device, m)
    ensures Decide(t, device, m) == Refuse(
      if !Enrolled(t, device) then InvalidDevice else if t.devices[device] then Revoked else UnsupportedSemantic)
  {
    hide ValidateMutation, AcceptedMutation, PayloadMutation, Lower, TopicTaken, PrerequisitesHold;
  }

  /** A push is answered unless its id is spent, its conflict id is taken, or it deletes what was deleted. */
  lemma RollsBackExactly(t: Tables, device: string, m: Mutation, conflictId: string)
    requires Invariant(t) && conflictId != NIL_UUID
    ensures Push(t, device, m, conflictId).Failed? <==> RollsBack(t, device, m, conflictId)
  {
    hide Decide, ValidateMutation, AcceptedMutation, BaseMissing, PrerequisiteMissing, Stale, Overtaken, Lower, Invariant, VersionRowClash, SnapshotOf,
      PayloadMutation, IdSpent;
    if Taken(t, device, m) {
      SpentIs(t, m);
      if MutationKey(device, Lower(m.mutationId)) in t.mutations {
        KnownVerdict(t, device, m);
      } else {
        FreshVerdict(t, device, m);
        PayloadHasSnapshot(m);
      }
    } else {
      StrangerVerdict(t, device, m);
    }
  }

  lemma PayloadHasSnapshot(m: Mutation)
    requires ValidateMutation(m) == Valid && AcceptedMutation(m)
    ensures SnapshotOf(PayloadMutation(m)).Some?
  {
    hide ValidateMutation, AcceptedMutation, PayloadMutation, SnapshotOf, ShownBy, Listed, Written, Canonical;
    PayloadColumns(m);
  }

  /** Every answer that takes the request, exactly. */
  lemma TakenExactly(t: Tables, device: string, m: Mutation, conflictId: string)
    requires Invariant(t) && Push(t, device, m, conflictId).Committed?
    ensures var r := Push(t, device, m, conflictId).result;
            var key := MutationKey(device, Lower(m.mutationId));
            && (r.disposition == Accepted <==> Standing(t, device, m) && !Stale(t, m) && !Overtaken(t, m))
            && (r.disposition == Conflict <==>
                  || (Standing(t, device, m) && Overtaken(t, m))
                  || (Taken(t, device, m) && key in t.mutations && t.mutations[key].requestHash == m && t.mutations[key].disposition == ConflictChange))
            && (r.disposition == PreviouslyAccepted <==>
                  Taken(t, device, m) && key in t.mutations && t.mutations[key].requestHash == m && t.mutations[key].disposition == AcceptedChange)
            && (Taken(t, device, m) && key in t.mutations && t.mutations[key].requestHash == m ==>
                  && r.sequence == Some(t.mutations[key].canonicalSeq) && r.version == t.mutations[key].canonicalVersion
                  && Push(t, device, m, conflictId).tables == t)
            && (Standing(t, device, m) && !Stale(t, m) ==> r.sequence == Some(t.nextSeq))
            && (r.disposition == Accepted ==> r.version == m.baseVersion + 1)
  {
    hide Decide, ValidateMutation, AcceptedMutation, BaseMissing, PrerequisiteMissing, Stale, Overtaken, Lower, Invariant, BreaksConstraint, SnapshotOf;
    if Taken(t, device, m) {
      if MutationKey(device, Lower(m.mutationId)) in t.mutations {
        KnownVerdict(t, device, m);
        KnownIsRecorded(t, MutationKey(device, Lower(m.mutationId)));
      } else {
        FreshVerdict(t, device, m);
      }
    } else {
      StrangerVerdict(t, device, m);
    }
  }

  // ------------------------------------------------------------------ effects

  /** The history after a change: one more sequence, change, mutation and version. */
  ghost predicate Extended(t: Tables, u: Tables, device: string, m: Mutation, kind: ChangeDisposition, version: int, content: Snapshot) {
    var key := MutationKey(device, Lower(m.mutationId));
    && u.nextSeq == t.nextSeq + 1 && u.devices == t.devices
    && u.changes == t.changes[t.nextSeq := ChangeRow(key, kind, m.recordKind, m.recordId, version, |t.versions|)]
    && u.mutations == t.mutations[key := MutationRow(m, m.kind, m.recordId, m.baseVersion, kind, t.nextSeq, version,
                                                     if m.kind == Resolve then Some(Listed(m)) else None)]
    && u.versions == t.versions + [VersionRow(m.recordKind, m.recordId, m.baseVersion + 1, key, m.baseVersion, kind, content)]
  }

  /** What the version row of a mutation holds. */
  predicate ShownBy(m: Mutation, content: Snapshot) {
    match m.recordKind
    case ProjectKind => m.project.Some? && content == ProjectSnapshot(m.project.value)
    case SessionKind => m.session.Some? && content == SessionSnapshot(m.session.value)
    case ObservationKind =>
      if m.kind == Tombstone then m.tombstone.Some? && content == TombstoneSnapshot(m.tombstone.value)
      else Written(m).Some? && content == ObservationSnapshot(Written(m).value)
  }

  /** The only row an accepted change touches, and how. */
  ghost predicate RowWritten(t: Tables, u: Tables, m: Mutation) {
    var version := m.baseVersion + 1;
    match m.recordKind
    case ProjectKind =>
      && m.project.Some? && u.projects == t.projects[m.recordId := ProjectRow(version, m.project.value)]
      && u.sessions == t.sessions && u.observations == t.observations
    case SessionKind =>
      && m.session.Some? && u.sessions == t.sessions[m.recordId := SessionRow(m.session.value.projectId, version)]
      && u.projects == t.projects && u.observations == t.observations
    case ObservationKind =>
      && u.projects == t.projects && u.sessions == t.sessions
      && if m.kind == Tombstone then
           && m.recordId in t.observations
           && u.observations == t.observations[m.recordId := ObservationRow(
                t.observations[m.recordId].body.(content := "", topicKey := "", references := [], lifecycle := Tombstoned, review := Clear), version)]
         else
           Written(m).Some? && u.observations == t.observations[m.recordId := ObservationRow(Written(m).value, version)]
  }

  /** Deletions and conflicts after an accepted change: a deletion adds one, a resolution closes what it lists. */
  ghost predicate BooksWritten(t: Tables, u: Tables, device: string, m: Mutation) {
    && u.conflicts.Keys == t.conflicts.Keys
    && (forall id | id in t.conflicts ::
          u.conflicts[id] == if m.kind == Resolve && id in Listed(m) then t.conflicts[id].(resolvedSeq := Some(t.nextSeq)) else t.conflicts[id])
    && (if m.kind != Tombstone then u.tombstones == t.tombstones
        else
          && m.tombstone.Some?
          && u.tombstones == t.tombstones[m.recordId := TombstoneRow(|t.versions|, MutationKey(device, Lower(m.mutationId)),
                                                                     m.tombstone.value.deletedAt / 1000 * 1000)])
  }

  lemma PayloadColumns(m: Mutation)
    requires ValidateMutation(m) == Valid && AcceptedMutation(m)
    ensures ResolutionColumn(PayloadMutation(m)) == if m.kind == Resolve then Some(Listed(m)) else None
    ensures SnapshotOf(PayloadMutation(m)).Some? && ShownBy(m, SnapshotOf(PayloadMutation(m)).value)
    ensures PayloadMutation(m).project == m.project && PayloadMutation(m).session == m.session
    ensures m.recordKind == ProjectKind ==> m.project.Some?
    ensures m.recordKind == SessionKind ==> m.session.Some?
    ensures m.kind == Tombstone ==> m.tombstone.Some? && m.recordKind == ObservationKind
    ensures m.recordKind == ObservationKind && m.kind != Tombstone ==>
      Written(m).Some? && Canonical(PayloadMutation(m)) == Written(m).value && Written(m).value.review == Clear
  {
    ValidIsAdmitted(m);
    PayloadShape(m);
    PayloadIs(m);
    hide ValidateMutation, LowerAll, ValidConflictIds, IsUuid, Lower;
  }

  /** What an accepted push leaves, in full. */
  lemma AcceptedLeaves(t: Tables, device: string, m: Mutation, conflictId: string)
    requires Invariant(t) && Standing(t, device, m) && !Stale(t, m) && !Overtaken(t, m) && Push(t, device, m, conflictId).Committed?
    ensures var u := Push(t, device, m, conflictId).tables;
            && (exists content :: ShownBy(m, content) && Extended(t, u, device, m, AcceptedChange, m.baseVersion + 1, content))
            && RowWritten(t, u, m) && BooksWritten(t, u, device, m)
  {
    hide Decide, ValidateMutation, AcceptedMutation, BaseMissing, PrerequisiteMissing, Stale, Overtaken, Lower, Invariant, BreaksConstraint, SnapshotOf,
      PayloadMutation, Listed, Written, AdvanceTables, Extended, RowWritten, BooksWritten, ShownBy;
    FreshVerdict(t, device, m);
    PayloadHasSnapshot(m);
    AdvancedLeaves(t, device, m);
  }

  lemma AdvancedLeaves(t: Tables, device: string, m: Mutation)
    requires Standing(t, device, m) && !Stale(t, m) && !Overtaken(t, m) && SnapshotOf(PayloadMutation(m)).Some?
    ensures var p := PayloadMutation(m);
            var u := AdvanceTables(t, device, m, p, SnapshotOf(p).value);
            && ShownBy(m, SnapshotOf(p).value)
            && Extended(t, u, device, m, AcceptedChange, m.baseVersion + 1, SnapshotOf(p).value)
            && RowWritten(t, u, m) && BooksWritten(t, u, device, m)
  {
    hide ValidateMutation, AcceptedMutation, BaseMissing, PrerequisiteMissing, Stale, Overtaken, Lower, SnapshotOf, PayloadMutation, Listed, Written,
      AdvanceTables, Extended, RowWritten, BooksWritten, ShownBy, Canonical;
    PayloadColumns(m);
    AdvancedExtends(t, device, m);
    AdvancedRow(t, device, m);
    AdvancedBooks(t, device, m);
  }

  lemma AdvancedExtends(t: Tables, device: string, m: Mutation)
    requires ValidateMutation(m) == Valid && AcceptedMutation(m) && SnapshotOf(PayloadMutation(m)).Some?
    ensures var p := PayloadMutation(m);
            Extended(t, AdvanceTables(t, device, m, p, SnapshotOf(p).value), device, m, AcceptedChange, m.baseVersion + 1, SnapshotOf(p).value)
  {
    hide ValidateMutation, AcceptedMutation, Lower, SnapshotOf, PayloadMutation, Listed, Written, ShownBy, Canonical, ResolutionColumn,
      WrittenProjects, WrittenSessions, WrittenObservations, WrittenTombstones, ClosedConflicts, ConflictIds;
    PayloadColumns(m);
  }

  lemma AdvancedRow(t: Tables, device: string, m: Mutation)
    requires ValidateMutation(m) == Valid && AcceptedMutation(m) && !BaseMissing(t, m) && SnapshotOf(PayloadMutation(m)).Some?
    ensures var p := PayloadMutation(m); RowWritten(t, AdvanceTables(t, device, m, p, SnapshotOf(p).value), m)
  {
    hide ValidateMutation, AcceptedMutation, Lower, SnapshotOf, PayloadMutation, Listed, Written, ShownBy, Canonical, Append, WrittenTombstones,
      ClosedConflicts, ConflictIds, OnBase;
    PayloadIs(m);
    PayloadColumns(m);
    FreshBase(m);
  }

  lemma AdvancedBooks(t: Tables, device: string, m: Mutation)
    requires ValidateMutation(m) == Valid && AcceptedMutation(m) && !PrerequisiteMissing(t, m) && !BaseMissing(t, m) && !Stale(t, m)
    requires SnapshotOf(PayloadMutation(m)).Some?
    ensures var p := PayloadMutation(m); BooksWritten(t, AdvanceTables(t, device, m, p, SnapshotOf(p).value), device, m)
  {
    hide ValidateMutation, AcceptedMutation, Lower, SnapshotOf, PayloadMutation, Listed, Written, ShownBy, Canonical, Append, WrittenProjects,
      WrittenSessions, WrittenObservations, ClosedConflicts, ConflictIds, OnBase, BaseMissing, PrerequisiteMissing, Stale;
    PayloadColumns(m);
    OpenAreClosed(t, m);
  }

  /** A standing resolution closes every conflict it lists: all were open and of its record. */
  lemma OpenAreClosed(t: Tables, m: Mutation)
    requires ValidateMutation(m) == Valid && AcceptedMutation(m) && !PrerequisiteMissing(t, m) && !BaseMissing(t, m) && !Stale(t, m)
    ensures var closed := ClosedConflicts(t.conflicts, ConflictIds(PayloadMutation(m)), m.recordId, t.nextSeq);
            && closed.Keys == t.conflicts.Keys
            && forall id | id in t.conflicts ::
                 closed[id] == if m.kind == Resolve && id in Listed(m) then t.conflicts[id].(resolvedSeq := Some(t.nextSeq)) else t.conflicts[id]
  {
    PayloadIs(m);
    FreshBase(m);
    hide ValidateMutation, AcceptedMutation, PayloadMutation, SurroundingsMet, Collides;
    if m.kind != Resolve {
      assert Listed(m) == [];
    } else {
      hide Listed;
      forall id | id in t.conflicts && id in Listed(m) ensures t.conflicts[id].observationId == m.recordId && t.conflicts[id].resolvedSeq.None? {
        var i :| 0 <= i < |Listed(m)| && Listed(m)[i] == id;
      }
    }
  }

  /**
   What a conflicting push leaves: the competing version with its content, an open conflict on the
   version the record stands on, and the record under review; of an unknown record an archived row.
   */
  lemma ConflictLeaves(t: Tables, device: string, m: Mutation, conflictId: string)
    requires Invariant(t) && Standing(t, device, m) && Overtaken(t, m) && Push(t, device, m, conflictId).Committed?
    ensures var u := Push(t, device, m, conflictId).tables;
            var known := m.recordId in t.observations;
            var version := if known then t.observations[m.recordId].version else 1;
            && m.observation.Some?
            && Push(t, device, m, conflictId).result == Result(m.mutationId, Conflict, false, NoCode, Some(t.nextSeq), version)
            && Extended(t, u, device, m, ConflictChange, version, ObservationSnapshot(m.observation.value))
            && u.conflicts == t.conflicts[conflictId := ConflictRow(m.recordId, version, |t.versions|, t.nextSeq, None)]
            && u.projects == t.projects && u.sessions == t.sessions && u.tombstones == t.tombstones
            && u.observations == (if !known then t.observations[m.recordId := ObservationRow(m.observation.value.(lifecycle := Archived, review := NeedsReview), 1)]
                                  else if t.observations[m.recordId].body.lifecycle == Tombstoned then t.observations
                                  else t.observations[m.recordId := t.observations[m.recordId].(body := t.observations[m.recordId].body.(review := NeedsReview))])
  {
    hide Decide, ValidateMutation, AcceptedMutation, PrerequisiteMissing, Stale, Lower, Invariant, BreaksConstraint, SnapshotOf, Collides,
      PayloadMutation, Listed, CompeteTables, Extended, Written, BaseMissing, Overtaken;
    FreshVerdict(t, device, m);
    PayloadHasSnapshot(m);
    CompetedLeaves(t, device, m, conflictId);
  }

  lemma CompetedLeaves(t: Tables, device: string, m: Mutation, conflictId: string)
    requires Standing(t, device, m) && Overtaken(t, m) && SnapshotOf(PayloadMutation(m)).Some?
    ensures var u := CompeteTables(t, device, m, PayloadMutation(m), SnapshotOf(PayloadMutation(m)).value, conflictId);
            var known := m.recordId in t.observations;
            var version := if known then t.observations[m.recordId].version else 1;
            && m.observation.Some? && CompetingVersion(t, m) == version
            && Extended(t, u, device, m, ConflictChange, version, ObservationSnapshot(m.observation.value))
            && u.conflicts == t.conflicts[conflictId := ConflictRow(m.recordId, version, |t.versions|, t.nextSeq, None)]
            && u.projects == t.projects && u.sessions == t.sessions && u.tombstones == t.tombstones
            && u.observations == (if !known then t.observations[m.recordId := ObservationRow(m.observation.value.(lifecycle := Archived, review := NeedsReview), 1)]
                                  else if t.observations[m.recordId].body.lifecycle == Tombstoned then t.observations
                                  else t.observations[m.recordId := t.observations[m.recordId].(body := t.observations[m.recordId].body.(review := NeedsReview))])
  {
    hide ValidateMutation, AcceptedMutation, PrerequisiteMissing, Stale, Lower, SnapshotOf, Collides, PayloadMutation, Listed, ResolutionColumn, Canonical,
      SurroundingsMet, OnBase;
    PayloadIs(m);
    PayloadColumns(m);
    FreshBase(m);
    var p := PayloadMutation(m);
    var u := CompeteTables(t, device, m, p, SnapshotOf(p).value, conflictId);
    var version := if m.recordId in t.observations then t.observations[m.recordId].version else 1;
    assert p.observation == m.observation && m.observation.Some?;
    assert CompetingVersion(t, m) == version;
    assert SnapshotOf(p).value == ObservationSnapshot(m.observation.value);
    assert u.observations == MarkedObservations(t.observations, p);
    assert u.mutations == t.mutations[MutationKey(device, Lower(m.mutationId)) := MutationRow(m, m.kind, m.recordId, m.baseVersion, ConflictChange, t.nextSeq, version, None)];
  }
}
