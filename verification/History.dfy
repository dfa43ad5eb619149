/**
 Whole runs of the server: any devices, any interleaving, any mix of accepted,
 competing, refused, replayed and failed pushes.
 */
module History {
  import opened Options
  import opened Uuids
  import opened SyncService
  import opened Tables
  import opened Repository
  import opened Recovery
  import opened PushInvariant

  /** The row lock on next_seq makes each push one step. A push carries the id its conflict would get. */
  datatype Event =
    | IssueDevice(device: string)
    | RevokeDevice(device: string)
    | PushMutation(device: string, mutation: Mutation, conflictId: string)

  predicate Plausible(e: Event) {
    e.PushMutation? ==> IsCanonicalUuid(e.conflictId)
  }

  ghost predicate AllPlausible(events: seq<Event>) {
    forall i | 0 <= i < |events| :: Plausible(events[i])
  }

  function Step(t: Tables, e: Event): Tables {
    match e
    case IssueDevice(device) => if device in t.devices then t else t.(devices := t.devices[device := false])
    case RevokeDevice(device) => if device in t.devices then t.(devices := t.devices[device := true]) else t
    case PushMutation(device, m, conflictId) =>
      var outcome := Push(t, device, m, conflictId);
      if outcome.Committed? then outcome.tables else t
  }

  function Run(t: Tables, events: seq<Event>): Tables
    decreases |events|
  {
    if events == [] then t else Run(Step(t, events[0]), events[1..])
  }

  // ------------------------------------------------------- what only grows

  ghost predicate ConflictsOnlyClose(t: Tables, u: Tables) {
    forall f | f in t.conflicts :: f in u.conflicts && ConflictKept(t.conflicts[f], u.conflicts[f])
  }

  ghost predicate RecordsStay(t: Tables, u: Tables) {
    forall kind, id | Target(t, kind, id).Some? ::
      Target(u, kind, id).Some? && Target(t, kind, id).value <= Target(u, kind, id).value
  }

  ghost predicate TombstonedStay(t: Tables, u: Tables) {
    && (forall id | HasLifecycle(t, id, Tombstoned) :: id in u.observations && u.observations[id] == t.observations[id])
    && (forall id | id in t.tombstones :: id in u.tombstones && u.tombstones[id] == t.tombstones[id])
  }

  ghost predicate RevokedStay(t: Tables, u: Tables) {
    forall d | d in t.devices :: d in u.devices && (t.devices[d] ==> u.devices[d])
  }

  /** u is a later state of the history t. */
  ghost predicate Follows(t: Tables, u: Tables) {
    && Extends(t, u)
    && ConflictsOnlyClose(t, u)
    && RecordsStay(t, u)
    && TombstonedStay(t, u)
    && RevokedStay(t, u)
  }

  lemma FollowsTransitively(t: Tables, u: Tables, w: Tables)
    requires Follows(t, u) && Follows(u, w)
    ensures Follows(t, w)
  {
  }

  lemma AdvanceFollows(t: Tables, u: Tables, device: string, m: Mutation, payload: Mutation, snapshot: Snapshot)
    requires Advances(t, u, device, m, payload, snapshot)
    ensures Follows(t, u)
  {
    hide Advances, Extends, RecordsStay, TombstonedStay, ConflictsOnlyClose, RevokedStay, Appended, ChangesMatch, MutationsMatch;
    AdvanceExtends(t, u, device, m, payload, snapshot);
    AdvanceKeepsRecords(t, u, device, m, payload, snapshot);
    AdvanceKeepsTombstoned(t, u, device, m, payload, snapshot);
  }

  lemma AdvanceKeepsRecords(t: Tables, u: Tables, device: string, m: Mutation, payload: Mutation, snapshot: Snapshot)
    requires Advances(t, u, device, m, payload, snapshot)
    ensures RecordsStay(t, u) && ConflictsOnlyClose(t, u) && RevokedStay(t, u)
  {
    hide ValidateMutation, AcceptedMutation, PrerequisitesHold, VersionRowClash, TopicTaken, RequestsRecorded, ClosedConflicts,
      VersionsGrow, RowsShowLatest, RowsHaveOrigin, ConflictsMatch, RecordsPlaced, ResolvesMatch, TombstoneMatches,
      ChangesMatch, MutationsMatch, Admitted, PayloadMutation, SnapshotOf, Extends, Appended,
      WrittenObservations, WrittenProjects, WrittenSessions, WrittenTombstones, VersionsLinked, DeletionsRecorded;
    AdvanceMovesRow(t, u, device, m, payload, snapshot);
    ClosedConflictsShape(t.conflicts, ConflictIds(payload), m.recordId, t.nextSeq);
  }

  lemma AdvanceKeepsTombstoned(t: Tables, u: Tables, device: string, m: Mutation, payload: Mutation, snapshot: Snapshot)
    requires Advances(t, u, device, m, payload, snapshot)
    ensures TombstonedStay(t, u)
  {
    hide ValidateMutation, AcceptedMutation, PrerequisitesHold, VersionRowClash, TopicTaken, RequestsRecorded, ClosedConflicts,
      VersionsGrow, RowsShowLatest, RowsHaveOrigin, ConflictsMatch, RecordsPlaced, ResolvesMatch, TombstoneMatches,
      ChangesMatch, MutationsMatch, Admitted, PayloadMutation, SnapshotOf, Extends, Appended,
      WrittenObservations, WrittenProjects, WrittenSessions, WrittenTombstones, VersionsLinked, DeletionsRecorded;
    AdvanceMovesRow(t, u, device, m, payload, snapshot);
  }

  lemma CompeteFollows(t: Tables, u: Tables, device: string, m: Mutation, snapshot: Snapshot, conflictId: string)
    requires Competes(t, u, device, m, snapshot, conflictId)
    ensures Follows(t, u)
  {
    hide Competes, Extends, RecordsStay, TombstonedStay, ConflictsOnlyClose, RevokedStay, Appended, ChangesMatch, MutationsMatch;
    CompeteExtends(t, u, device, m, snapshot, conflictId);
    CompeteKeepsRecords(t, u, device, m, snapshot, conflictId);
    CompeteKeepsTombstoned(t, u, device, m, snapshot, conflictId);
  }

  lemma CompeteKeepsRecords(t: Tables, u: Tables, device: string, m: Mutation, snapshot: Snapshot, conflictId: string)
    requires Competes(t, u, device, m, snapshot, conflictId)
    ensures RecordsStay(t, u) && ConflictsOnlyClose(t, u) && RevokedStay(t, u)
  {
    hide ValidateMutation, AcceptedMutation, PrerequisitesHold, VersionRowClash, TopicTaken, RequestsRecorded,
      VersionsGrow, RowsShowLatest, RowsHaveOrigin, ConflictsMatch, RecordsPlaced, ResolvesMatch, TombstoneMatches,
      ChangesMatch, MutationsMatch, Admitted, PayloadMutation, SnapshotOf, Extends, Appended, VersionsLinked, DeletionsRecorded;
    CompeteMarksRow(t, u, device, m, snapshot, conflictId);
  }

  lemma CompeteKeepsTombstoned(t: Tables, u: Tables, device: string, m: Mutation, snapshot: Snapshot, conflictId: string)
    requires Competes(t, u, device, m, snapshot, conflictId)
    ensures TombstonedStay(t, u)
  {
    hide ValidateMutation, AcceptedMutation, PrerequisitesHold, VersionRowClash, TopicTaken, RequestsRecorded,
      VersionsGrow, RowsShowLatest, RowsHaveOrigin, ConflictsMatch, RecordsPlaced, ResolvesMatch, TombstoneMatches,
      ChangesMatch, MutationsMatch, Admitted, PayloadMutation, SnapshotOf, Extends, Appended, VersionsLinked, DeletionsRecorded;
    CompeteMarksRow(t, u, device, m, snapshot, conflictId);
  }

  lemma PushFollows(t: Tables, device: string, m: Mutation, conflictId: string)
    requires Invariant(t) && IsCanonicalUuid(conflictId) && Push(t, device, m, conflictId).Committed?
    ensures Follows(t, Push(t, device, m, conflictId).tables)
  {
    hide Invariant, Decide, BreaksConstraint, AdvanceTables, CompeteTables, MayAdvance, MayCompete, Follows;
    var outcome := Push(t, device, m, conflictId);
    match Decide(t, device, m)
    case Refuse(_) => StaysItself(t);
    case Replay(_) => StaysItself(t);
    case Advance(payload) =>
      AdvanceDecided(t, device, m, payload, conflictId);
      AdvanceFollows(t, outcome.tables, device, m, payload, SnapshotOf(payload).value);
    case Compete(payload) =>
      CompeteDecided(t, device, m, payload, conflictId);
      CompeteFollows(t, outcome.tables, device, m, SnapshotOf(payload).value, conflictId);
  }

  lemma StaysItself(t: Tables)
    requires Invariant(t)
    ensures Follows(t, t)
  {
    hide Invariant, Follows;
    DevicesAreApart(t, t);
  }

  lemma StepFollows(t: Tables, e: Event)
    requires Invariant(t) && Plausible(e)
    ensures Invariant(Step(t, e)) && Follows(t, Step(t, e))
  {
    hide Invariant, Push, Follows;
    match e
    case IssueDevice(_) => DevicesAreApart(t, Step(t, e));
    case RevokeDevice(_) => DevicesAreApart(t, Step(t, e));
    case PushMutation(device, m, conflictId) =>
      PushKeepsInvariant(t, device, m, conflictId);
      if Push(t, device, m, conflictId).Committed? {
        PushFollows(t, device, m, conflictId);
      } else {
        StaysItself(t);
      }
  }

  /** No part of the invariant reads the devices table. */
  lemma DevicesAreApart(t: Tables, u: Tables)
    requires Invariant(t) && u == t.(devices := u.devices) && RevokedStay(t, u)
    ensures Invariant(u) && Follows(t, u)
  {
    hide VerifyRecovery, RequestsRecorded, VersionsGrow, RowsShowLatest, RowsHaveOrigin, ConflictsMatch, RecordsPlaced, VersionsLinked, DeletionsRecorded;
    DevicesAreApartFromHistory(t, u);
    DevicesAreApartFromRequests(t, u);
    DevicesAreApartFromRecords(t, u);
  }

  lemma DevicesAreApartFromHistory(t: Tables, u: Tables)
    requires VerifyRecovery(t) && u == t.(devices := u.devices)
    ensures VerifyRecovery(u)
  {
    forall i | i in u.changes ensures ChangeMatches(u, i) {
      assert ChangeMatches(t, i);
    }
    forall key | key in u.mutations ensures MutationMatches(u, key) && ResolveMatches(u, key) {
      assert MutationMatches(t, key) && ResolveMatches(t, key);
    }
    forall id | id in u.tombstones ensures TombstoneMatches(u, id) {
      assert TombstoneMatches(t, id);
    }
    assert forall id :: HasLifecycle(u, id, Tombstoned) == HasLifecycle(t, id, Tombstoned);
  }

  lemma DevicesAreApartFromRequests(t: Tables, u: Tables)
    requires RequestsRecorded(t) && DeletionsRecorded(t) && ConflictsMatch(t) && u == t.(devices := u.devices)
    ensures RequestsRecorded(u) && DeletionsRecorded(u) && ConflictsMatch(u)
  {
    hide ValidateMutation, AcceptedMutation, SnapshotOf, PayloadMutation;
    forall key | key in u.mutations ensures RequestRecorded(u, key) {
      assert RequestRecorded(t, key);
    }
    forall key | key in u.mutations ensures DeletionRecorded(u, key) {
      assert DeletionRecorded(t, key);
    }
    forall id | id in u.conflicts ensures ConflictMatches(u, id) {
      assert ConflictMatches(t, id);
    }
    forall i | i in u.changes && u.changes[i].changeKind == ConflictChange ensures exists id :: CreatedBy(u, id, i) {
      var id :| CreatedBy(t, id, i);
      assert CreatedBy(u, id, i);
    }
  }

  lemma DevicesAreApartFromRecords(t: Tables, u: Tables)
    requires VersionsGrow(t) && RowsShowLatest(t) && RowsHaveOrigin(t) && VersionsLinked(t) && RecordsPlaced(t)
    requires u == t.(devices := u.devices)
    ensures VersionsGrow(u) && RowsShowLatest(u) && RowsHaveOrigin(u) && VersionsLinked(u) && RecordsPlaced(u)
  {
    hide AcceptedAt, HoldsTopic, ObservationPlaced, RowNotBehind, RowShows, LinkedAt;
    forall kind, id, version ensures AcceptedAt(u, kind, id, version) == AcceptedAt(t, kind, id, version) {
      SameVersions(t, u, kind, id, version);
    }
    forall i | 0 <= i < |u.versions| ensures LinkedAt(u, i) {
      assert LinkedAt(t, i) && Extends(t, u);
      OldVersionsLinked(t, u, i);
    }
    forall i | 0 <= i < |u.versions| ensures RowNotBehind(u, u.versions[i]) && RowShows(u, u.versions[i]) {
      assert RowNotBehind(t, t.versions[i]) && RowShows(t, t.versions[i]);
      SameRows(t, u, u.versions[i]);
    }
    forall id | id in u.observations ensures ObservationPlaced(u, u.observations[id].body) {
      assert ObservationPlaced(t, t.observations[id].body);
      SamePlaces(t, u, t.observations[id].body);
    }
  }

  lemma SameRows(t: Tables, u: Tables, v: VersionRow)
    requires u == t.(devices := u.devices)
    ensures RowNotBehind(t, v) == RowNotBehind(u, v) && (RowNotBehind(t, v) ==> RowShows(t, v) == RowShows(u, v))
  {
  }

  lemma SamePlaces(t: Tables, u: Tables, o: Observation)
    requires u == t.(devices := u.devices)
    ensures ObservationPlaced(t, o) == ObservationPlaced(u, o)
  {
  }

  lemma SameVersions(t: Tables, u: Tables, kind: RecordKind, id: string, version: int)
    requires u.versions == t.versions
    ensures AcceptedAt(u, kind, id, version) == AcceptedAt(t, kind, id, version)
  {
  }

  /** Every run keeps the invariant and only ever extends the history. */
  lemma {:induction false} RunKeepsInvariant(t: Tables, events: seq<Event>)
    requires Invariant(t) && AllPlausible(events)
    ensures Invariant(Run(t, events)) && Follows(t, Run(t, events))
    decreases |events|
  {
    hide Invariant, Follows, Step;
    if events == [] {
      DevicesAreApart(t, t) by {
        assert RevokedStay(t, t);
      }
    } else {
      StepFollows(t, events[0]);
      RunKeepsInvariant(Step(t, events[0]), events[1..]);
      FollowsTransitively(t, Step(t, events[0]), Run(t, events));
    }
  }

  /** The recovery check passes on every database a run can produce. */
  lemma ReachableVerifies(events: seq<Event>)
    requires AllPlausible(events)
    ensures VerifyRecovery(Run(EMPTY_OWNER, events))
  {
    EmptyOwnerInvariant();
    RunKeepsInvariant(EMPTY_OWNER, events);
  }

  // ---------------------------------------------------------- guarantees

  /** A device's mutation id stands behind at most one change, however often it was sent. */
  lemma ExactlyOnce(events: seq<Event>, i: int, j: int)
    requires AllPlausible(events)
    requires i in Run(EMPTY_OWNER, events).changes && j in Run(EMPTY_OWNER, events).changes
    requires Run(EMPTY_OWNER, events).changes[i].source == Run(EMPTY_OWNER, events).changes[j].source
    ensures i == j
  {
    hide Run;
    ReachableVerifies(events);
    var t := Run(EMPTY_OWNER, events);
    assert ChangeMatches(t, i) && ChangeMatches(t, j);
  }

  predicate Acknowledged(r: Result) {
    r.disposition == Accepted || r.disposition == PreviouslyAccepted || r.disposition == Conflict
  }

  /** The answer to a repetition of a mutation first answered by r. */
  function Repeated(r: Result): Result {
    if r.disposition == Conflict then r else r.(disposition := PreviouslyAccepted)
  }

  /** An acknowledged mutation is on record under the sequence and version it was answered with. */
  predicate OnRecord(t: Tables, device: string, m: Mutation, r: Result) {
    && KeyOf(device, m) in t.mutations
    && var row := t.mutations[KeyOf(device, m)];
       && row.requestHash == m
       && r == Result(m.mutationId, r.disposition, false, NoCode, Some(row.canonicalSeq), row.canonicalVersion)
       && Acknowledged(r)
       && (row.disposition == ConflictChange <==> r.disposition == Conflict)
  }

  lemma AcknowledgedIsOnRecord(t: Tables, device: string, m: Mutation, conflictId: string)
    requires Push(t, device, m, conflictId).Committed? && Acknowledged(Push(t, device, m, conflictId).result)
    ensures OnRecord(Push(t, device, m, conflictId).tables, device, m, Push(t, device, m, conflictId).result)
  {
    hide ValidateMutation, AcceptedMutation, PrerequisitesHold, TopicTaken, BreaksConstraint, SnapshotOf;
  }

  /**
   Whatever happens in between, repeating an acknowledged mutation from a device
   that is still active returns the original sequence and version, and changes nothing.
   */
  lemma ReplayAnswersTheSame(t: Tables, device: string, m: Mutation, conflictId: string, events: seq<Event>, conflictId': string)
    requires Invariant(t) && IsCanonicalUuid(conflictId) && AllPlausible(events)
    requires Push(t, device, m, conflictId).Committed? && Acknowledged(Push(t, device, m, conflictId).result)
    requires Authorised(Run(Push(t, device, m, conflictId).tables, events), device)
    ensures var r := Push(t, device, m, conflictId).result;
            var u := Run(Push(t, device, m, conflictId).tables, events);
            Push(u, device, m, conflictId') == Committed(u, Repeated(r))
  {
    var outcome := Push(t, device, m, conflictId);
    var u := Run(outcome.tables, events);
    AcknowledgedIsOnRecord(t, device, m, conflictId);
    PushKeepsInvariant(t, device, m, conflictId);
    RunKeepsInvariant(outcome.tables, events);
    OnRecordReplays(u, device, m, outcome.result, conflictId') by {
      hide Run, Push, Invariant;
    }
  }

  lemma OnRecordReplays(u: Tables, device: string, m: Mutation, r: Result, conflictId: string)
    requires Invariant(u) && OnRecord(u, device, m, r) && Authorised(u, device)
    ensures Push(u, device, m, conflictId) == Committed(u, Repeated(r))
  {
    hide ValidateMutation, AcceptedMutation, SnapshotOf, PayloadMutation, VersionsGrow, RowsShowLatest, RowsHaveOrigin, ConflictsMatch, RecordsPlaced, VersionsLinked, DeletionsRecorded;
    var key := KeyOf(device, m);
    assert RequestRecorded(u, key) && MutationMatches(u, key);
    assert ChangeMatches(u, u.mutations[key].canonicalSeq);
  }

  /** A different mutation under a used id is refused and changes nothing. */
  lemma ReusedIdRefused(t: Tables, device: string, m: Mutation, conflictId: string)
    requires KeyOf(device, m) in t.mutations && t.mutations[KeyOf(device, m)].requestHash != m && Authorised(t, device)
    ensures Push(t, device, m, conflictId).Committed? && Push(t, device, m, conflictId).tables == t
    ensures Push(t, device, m, conflictId).result.code in {MutationIdHashMismatch, UnsupportedSemantic}
  {
    hide ValidateMutation, AcceptedMutation, SnapshotOf, PayloadMutation, PrerequisitesHold, TopicTaken;
  }

  lemma StrangerChangesNothing(t: Tables, device: string, m: Mutation, conflictId: string)
    requires !Authorised(t, device)
    ensures Push(t, device, m, conflictId) == Committed(t, Refusal(m, if device != NIL_UUID && device in t.devices then Revoked else InvalidDevice))
  {
  }

  /** No later push touches a tombstoned observation, its erased text or its tombstone. */
  lemma TombstonedForever(t: Tables, events: seq<Event>, id: string)
    requires Invariant(t) && AllPlausible(events) && HasLifecycle(t, id, Tombstoned)
    ensures id in Run(t, events).observations && Run(t, events).observations[id] == t.observations[id]
    ensures id in t.tombstones && id in Run(t, events).tombstones && Run(t, events).tombstones[id] == t.tombstones[id]
  {
    hide Run, VersionsGrow, RowsShowLatest, RowsHaveOrigin, ConflictsMatch, RecordsPlaced, RequestsRecorded, TombstoneMatches, VersionsLinked, DeletionsRecorded;
    RunKeepsInvariant(t, events);
  }

  /** A conflict is closed at most once, after it was created, by a resolution that listed it. */
  lemma ClosedOnce(t: Tables, events: seq<Event>, id: string)
    requires Invariant(t) && AllPlausible(events) && id in t.conflicts && t.conflicts[id].resolvedSeq.Some?
    ensures t.conflicts[id].createdSeq < t.conflicts[id].resolvedSeq.value
    ensures ConflictMatches(t, id)
    ensures id in Run(t, events).conflicts && Run(t, events).conflicts[id] == t.conflicts[id]
  {
    hide Run, VersionsGrow, RowsShowLatest, RowsHaveOrigin, RecordsPlaced, RequestsRecorded, VerifyRecovery, VersionsLinked, DeletionsRecorded;
    RunKeepsInvariant(t, events);
    assert ConflictMatches(t, id);
  }

  /** Some other device used the same mutation id for the same record and base. */
  ghost predicate IdTakenByAnother(t: Tables, device: string, m: Mutation) {
    exists other :: other != device && MutationKey(other, Lower(m.mutationId)) in t.mutations
      && SameTarget(t.mutations[MutationKey(other, Lower(m.mutationId))], m)
  }

  predicate SameTarget(row: MutationRow, m: Mutation) {
    row.requestHash.recordKind == m.recordKind && row.recordId == m.recordId && row.baseVersion == m.baseVersion
  }

  /**
   The transaction rolls back in exactly three cases: a second tombstone of one
   record, a mutation id another device already spent on this record and base, or a
   conflict id that is not fresh.
   */
  lemma PushFailsExactly(t: Tables, device: string, m: Mutation, conflictId: string)
    requires Invariant(t) && IsCanonicalUuid(conflictId)
    ensures Push(t, device, m, conflictId).Failed? <==>
      match Decide(t, device, m)
      case Advance(_) => IdTakenByAnother(t, device, m) || (m.kind == Tombstone && HasLifecycle(t, m.recordId, Tombstoned))
      case Compete(_) => IdTakenByAnother(t, device, m) || conflictId in t.conflicts
      case _ => false
  {
    hide Invariant;
    hide ValidateMutation, AcceptedMutation, PrerequisitesHold, TopicTaken, IdsExist, IdsUnresolved, VersionRowClash;
    var d := Decide(t, device, m);
    if d.Advance? || d.Compete? {
      ValidIsAdmitted(m);
      PayloadShape(m);
      ClashIsAnothersId(t, device, m);
      TombstonedHasRow(t, m.recordId);
    }
  }

  lemma TombstonedHasRow(t: Tables, id: string)
    requires Invariant(t)
    ensures id in t.tombstones <==> HasLifecycle(t, id, Tombstoned)
  {
  }

  lemma ClashIsAnothersId(t: Tables, device: string, m: Mutation)
    requires Invariant(t) && KeyOf(device, m) !in t.mutations
    ensures VersionRowClash(t.versions, m.recordKind, m.recordId, m.baseVersion + 1, Lower(m.mutationId)) <==> IdTakenByAnother(t, device, m)
  {
    hide Invariant, VersionRowClash, IdTakenByAnother;
    if VersionRowClash(t.versions, m.recordKind, m.recordId, m.baseVersion + 1, Lower(m.mutationId)) {
      ClashingRowIsAnothers(t, device, m);
    }
    if IdTakenByAnother(t, device, m) {
      AnothersRowClashes(t, device, m);
    }
  }

  lemma ClashingRowIsAnothers(t: Tables, device: string, m: Mutation)
    requires Invariant(t) && KeyOf(device, m) !in t.mutations
    requires VersionRowClash(t.versions, m.recordKind, m.recordId, m.baseVersion + 1, Lower(m.mutationId))
    ensures IdTakenByAnother(t, device, m)
  {
    hide VersionsGrow, RowsShowLatest, RowsHaveOrigin, ConflictsMatch, RecordsPlaced, TombstonesMatch, ResolvesMatch,
      ValidateMutation, AcceptedMutation, SnapshotOf, PayloadMutation, VersionsLinked, DeletionsRecorded;
    var i :| 0 <= i < |t.versions| && SameVersionIdentity(t.versions[i], m.recordKind, m.recordId, m.baseVersion + 1, Lower(m.mutationId));
    assert i + 1 in t.changes && ChangeMatches(t, i + 1);
    var key := t.versions[i].source;
    assert RequestRecorded(t, key);
    assert key == MutationKey(key.device, Lower(m.mutationId));
  }

  lemma AnothersRowClashes(t: Tables, device: string, m: Mutation)
    requires Invariant(t) && IdTakenByAnother(t, device, m)
    ensures VersionRowClash(t.versions, m.recordKind, m.recordId, m.baseVersion + 1, Lower(m.mutationId))
  {
    hide VersionsGrow, RowsShowLatest, RowsHaveOrigin, ConflictsMatch, RecordsPlaced, TombstonesMatch, ResolvesMatch,
      ValidateMutation, AcceptedMutation, SnapshotOf, PayloadMutation, VersionsLinked, DeletionsRecorded;
    var other :| other != device && MutationKey(other, Lower(m.mutationId)) in t.mutations
      && SameTarget(t.mutations[MutationKey(other, Lower(m.mutationId))], m);
    var key := MutationKey(other, Lower(m.mutationId));
    assert RequestRecorded(t, key) && MutationMatches(t, key);
    var sequence := t.mutations[key].canonicalSeq;
    assert ChangeMatches(t, sequence);
    assert SameVersionIdentity(t.versions[sequence - 1], m.recordKind, m.recordId, m.baseVersion + 1, Lower(m.mutationId));
  }
}
