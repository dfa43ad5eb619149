/**
 The push transaction of internal/syncpg/repository.go: what it decides, what it
 writes, and the statements that write it.
 */
module Repository {
  import opened Options
  import opened Uuids
  import opened SyncService
  import opened Tables

  // ------------------------------------------------------------ decision

  /** What the transaction does with a mutation, before it writes anything. */
  datatype Verdict =
    | Refuse(code: ResultCode)
    | Replay(row: MutationRow)
    | Compete(payload: Mutation)
    | Advance(payload: Mutation)

  predicate AcceptedMutation(m: Mutation) {
    if m.recordKind != ObservationKind then m.kind == Create || m.kind == Update
    else match m.kind
      case Create | Update =>
        m.observation.Some? && m.observation.value.lifecycle == Active && m.observation.value.review == Clear
      case Archive =>
        m.observation.Some? && m.observation.value.lifecycle == Archived && m.observation.value.review == Clear
      case Tombstone => true
      case Resolve =>
        && m.resolution.Some? && m.resolution.value.observation.Some?
        && m.resolution.value.observation.value.lifecycle == Active
        && m.resolution.value.observation.value.review == Clear
  }

  function LowerAll(ids: seq<string>): (r: seq<string>)
    ensures |r| == |ids|
    ensures forall i | 0 <= i < |ids| :: r[i] == Lower(ids[i])
  {
    seq(|ids|, i requires 0 <= i < |ids| => Lower(ids[i]))
  }

  /** The mutation with a resolution's ids in stored form and its winner as the observation. */
  function PayloadMutation(m: Mutation): Mutation {
    if m.kind == Resolve && m.resolution.Some? then
      m.(resolution := Some(m.resolution.value.(conflictIds := LowerAll(m.resolution.value.conflictIds))),
         observation := m.resolution.value.observation)
    else m
  }

  function ConflictIds(payload: Mutation): seq<string> {
    if payload.kind == Resolve && payload.resolution.Some? then payload.resolution.value.conflictIds else []
  }

  predicate IdsExist(t: Tables, ids: seq<string>, recordId: string) {
    forall i | 0 <= i < |ids| :: ConflictOf(t, ids[i], recordId)
  }

  predicate IdsUnresolved(t: Tables, ids: seq<string>, recordId: string) {
    forall i | 0 <= i < |ids| :: UnresolvedConflictOf(t, ids[i], recordId)
  }

  function Decide(t: Tables, device: string, m: Mutation): Verdict {
    var key := MutationKey(device, Lower(m.mutationId));
    var payload := PayloadMutation(m);
    var target := Target(t, m.recordKind, m.recordId);
    if device == NIL_UUID || device !in t.devices then Refuse(InvalidDevice)
    else if t.devices[device] then Refuse(Revoked)
    else if ValidateMutation(m) != Valid || !AcceptedMutation(m) then Refuse(UnsupportedSemantic)
    else if key in t.mutations then
      (if t.mutations[key].requestHash != m then Refuse(MutationIdHashMismatch)
       else if t.mutations[key].disposition == Unstated || t.mutations[key].canonicalSeq < 1 then Refuse(InvalidReplay)
       else Replay(t.mutations[key]))
    else if m.kind == Create && (m.baseVersion != 0 || target.Some?) then Refuse(InvalidBase)
    else if m.kind != Create && (target.None? || m.baseVersion == MAX_INT64) then Refuse(InvalidBase)
    else if && m.recordKind == ObservationKind && m.kind != Tombstone && target == Some(m.baseVersion)
            && HasLifecycle(t, m.recordId, Tombstoned) then Refuse(InvalidBase)
    else if m.kind == Resolve && (!Distinct(ConflictIds(payload)) || !IdsExist(t, ConflictIds(payload), m.recordId)) then
      Refuse(InvalidPrerequisite)
    else if !PrerequisitesHold(t, payload) then Refuse(InvalidPrerequisite)
    else if TopicTaken(t, payload) && m.kind != Create && m.kind != Update then Refuse(InvalidPrerequisite)
    else if && m.recordKind == ObservationKind
            && ((m.kind == Update && target != Some(m.baseVersion)) || TopicTaken(t, payload)) then Compete(payload)
    else if m.kind != Create && target != Some(m.baseVersion) then Refuse(StaleBase)
    else if m.kind == Resolve
            && (!HasLifecycle(t, m.recordId, Active) || !IdsUnresolved(t, ConflictIds(payload), m.recordId)) then
      Refuse(InvalidPrerequisite)
    else Advance(payload)
  }

  /** What validation and acceptance say of the payload that is about to be written. */
  predicate Admitted(m: Mutation) {
    && IsUuid(m.mutationId)
    && ValidBaseVersion(m.kind, m.baseVersion)
    && (m.recordKind != ObservationKind ==> m.kind == Create || m.kind == Update)
    && match m.recordKind
       case ProjectKind => m.project.Some? && m.project.value.id == m.recordId && m.session.None? && m.observation.None?
       case SessionKind =>
         && m.session.Some? && m.session.value.id == m.recordId && m.observation.None?
         && m.session.value.projectId != ""
       case ObservationKind =>
         && m.session.None?
         && (m.kind == Tombstone <==> m.tombstone.Some?)
         && (m.kind == Resolve <==> m.resolution.Some?)
         && (m.kind == Tombstone || m.kind == Resolve ==> m.observation.None?)
         && (m.kind != Tombstone ==> PayloadMutation(m).observation.Some? && AdmittedObservation(m, PayloadMutation(m).observation.value))
         && (m.kind == Resolve ==> ValidConflictIds(m.resolution.value.conflictIds))
  }

  predicate AdmittedObservation(m: Mutation, o: Observation) {
    && o.id == m.recordId
    && o.projectId != ""
    && Distinct(o.references)
    && o.lifecycle == (if m.kind == Archive then Archived else Active)
    && o.review == Clear
  }

  lemma ValidIsAdmitted(m: Mutation)
    requires ValidateMutation(m) == Valid && AcceptedMutation(m)
    ensures Admitted(m)
  {
    hide ByteLength, ValidOptionalText, ValidContent, MutationExceedsLimits;
  }

  // -------------------------------------------------------------- writes

  function SnapshotOf(m: Mutation): Option<Snapshot> {
    match m.recordKind
    case ProjectKind => if m.project.Some? then Some(ProjectSnapshot(m.project.value)) else None
    case SessionKind => if m.session.Some? then Some(SessionSnapshot(m.session.value)) else None
    case ObservationKind =>
      if m.tombstone.Some? then Some(TombstoneSnapshot(m.tombstone.value))
      else if m.observation.Some? then Some(ObservationSnapshot(m.observation.value))
      else None
  }

  lemma PayloadShape(m: Mutation)
    requires Admitted(m)
    ensures var p := PayloadMutation(m);
            && p.kind == m.kind && p.recordKind == m.recordKind && p.recordId == m.recordId
            && (m.kind != Resolve ==> p == m)
            && (m.kind == Tombstone ==> m.recordKind == ObservationKind && m.tombstone.Some?)
            && (m.recordKind == ObservationKind && m.kind != Tombstone ==>
                  p.observation.Some? && m.tombstone.None? && SnapshotOf(p) == Some(ObservationSnapshot(p.observation.value)))
            && SnapshotOf(p).Some?
  {
  }

  function ResolutionColumn(payload: Mutation): Option<seq<string>> {
    if payload.kind == Resolve && payload.resolution.Some? then Some(payload.resolution.value.conflictIds) else None
  }

  /** The row's body after a tombstone. */
  function Erased(o: Observation): Observation {
    o.(content := "", topicKey := "", references := [], lifecycle := Tombstoned, review := Clear)
  }

  /** The row's body after an accepted create, update, archive or resolve. */
  function Canonical(m: Mutation): Observation
    requires m.observation.Some?
  {
    m.observation.value.(lifecycle := if m.kind == Archive then Archived else Active, review := Clear)
  }

  /** projects after an accepted write: other kinds leave it alone. */
  function WrittenProjects(projects: map<string, ProjectRow>, m: Mutation, version: int): map<string, ProjectRow> {
    if m.recordKind == ProjectKind && m.project.Some? then projects[m.recordId := ProjectRow(version, m.project.value)]
    else projects
  }

  function WrittenSessions(sessions: map<string, SessionRow>, m: Mutation, version: int): map<string, SessionRow> {
    if m.recordKind == SessionKind && m.session.Some? then
      sessions[m.recordId := SessionRow(m.session.value.projectId, version)]
    else sessions
  }

  function WrittenObservations(observations: map<string, ObservationRow>, m: Mutation, version: int): map<string, ObservationRow> {
    if m.recordKind != ObservationKind then observations
    else if m.kind == Tombstone then
      (if m.recordId in observations then
         observations[m.recordId := ObservationRow(Erased(observations[m.recordId].body), version)]
       else observations)
    else if m.observation.Some? then observations[m.recordId := ObservationRow(Canonical(m), version)]
    else observations
  }

  /** What a competing write leaves in observations. */
  function MarkedObservations(observations: map<string, ObservationRow>, m: Mutation): map<string, ObservationRow> {
    if m.recordId in observations then
      var row := observations[m.recordId];
      if row.body.lifecycle == Tombstoned then observations
      else observations[m.recordId := row.(body := row.body.(review := NeedsReview))]
    else if m.observation.Some? then
      observations[m.recordId :=
        ObservationRow(m.observation.value.(lifecycle := Archived, review := NeedsReview), m.baseVersion + 1)]
    else observations
  }

  /** Appends one change with its mutation and version rows, and advances next_seq. */
  function Append(t: Tables, device: string, m: Mutation, payload: Mutation, kind: ChangeDisposition, version: int, snapshot: Snapshot): Tables {
    var key := MutationKey(device, Lower(m.mutationId));
    t.(mutations := t.mutations[key :=
         MutationRow(m, m.kind, m.recordId, m.baseVersion, kind, t.nextSeq, version, ResolutionColumn(payload))],
       versions := t.versions +
         [VersionRow(m.recordKind, m.recordId, m.baseVersion + 1, key, m.baseVersion, kind, snapshot)],
       changes := t.changes[t.nextSeq :=
         ChangeRow(key, kind, m.recordKind, m.recordId, version, |t.versions|)],
       nextSeq := t.nextSeq + 1)
  }

  /** The listed open conflicts of the record, closed at this sequence. Only a resolution lists any. */
  function ClosedConflicts(conflicts: map<string, ConflictRow>, ids: seq<string>, recordId: string, sequence: int): map<string, ConflictRow> {
    map id | id in conflicts ::
      if id in ids && conflicts[id].observationId == recordId && conflicts[id].resolvedSeq.None? then
        conflicts[id].(resolvedSeq := Some(sequence))
      else conflicts[id]
  }

  function WrittenTombstones(tombstones: map<string, TombstoneRow>, m: Mutation, key: MutationKey, versionId: int): map<string, TombstoneRow> {
    if m.kind == Tombstone && m.tombstone.Some? then
      tombstones[m.recordId := TombstoneRow(versionId, key, StoredTime(m.tombstone.value.deletedAt))]
    else tombstones
  }

  function AdvanceTables(t: Tables, device: string, m: Mutation, payload: Mutation, snapshot: Snapshot): Tables {
    var version := m.baseVersion + 1;
    Append(t, device, m, payload, AcceptedChange, version, snapshot).(
      projects := WrittenProjects(t.projects, payload, version),
      sessions := WrittenSessions(t.sessions, payload, version),
      observations := WrittenObservations(t.observations, payload, version),
      tombstones := WrittenTombstones(t.tombstones, m, MutationKey(device, Lower(m.mutationId)), |t.versions|),
      conflicts := ClosedConflicts(t.conflicts, ConflictIds(payload), m.recordId, t.nextSeq))
  }

  /** timestamptz keeps microseconds. */
  function StoredTime(time: Time): Time {
    time / 1000 * 1000
  }

  /** The version a competing write is filed under: the record's own, or 1 for a record it brings into being. */
  function CompetingVersion(t: Tables, m: Mutation): int {
    if m.recordId in t.observations then t.observations[m.recordId].version else m.baseVersion + 1
  }

  function CompeteTables(t: Tables, device: string, m: Mutation, payload: Mutation, snapshot: Snapshot, conflictId: string): Tables {
    var canonical := CompetingVersion(t, m);
    Append(t, device, m, payload, ConflictChange, canonical, snapshot).(
      observations := MarkedObservations(t.observations, payload),
      conflicts := t.conflicts[conflictId := ConflictRow(m.recordId, canonical, |t.versions|, t.nextSeq, None)])
  }

  /** One push: a result with the tables it commits, or a rolled-back transaction. */
  datatype Outcome = Failed | Committed(tables: Tables, result: Result)

  function Refusal(m: Mutation, code: ResultCode): Result {
    Result(m.mutationId, Rejected, false, code, None, 0)
  }

  predicate BreaksConstraint(t: Tables, m: Mutation, verdict: Verdict, conflictId: string) {
    match verdict
    case Compete(_) =>
      || VersionRowClash(t.versions, m.recordKind, m.recordId, m.baseVersion + 1, Lower(m.mutationId))
      || conflictId == NIL_UUID || conflictId in t.conflicts
    case Advance(_) =>
      || VersionRowClash(t.versions, m.recordKind, m.recordId, m.baseVersion + 1, Lower(m.mutationId))
      || (m.kind == Tombstone && m.recordId in t.tombstones)
    case _ => false
  }

  function Push(t: Tables, device: string, m: Mutation, conflictId: string): Outcome {
    var verdict := Decide(t, device, m);
    match verdict
    case Refuse(code) => Committed(t, Refusal(m, code))
    case Replay(row) =>
      Committed(t, Result(m.mutationId, if row.disposition == ConflictChange then Conflict else PreviouslyAccepted,
                          false, NoCode, Some(row.canonicalSeq), row.canonicalVersion))
    case Compete(payload) =>
      if BreaksConstraint(t, m, verdict, conflictId) || SnapshotOf(payload).None? then Failed
      else Committed(CompeteTables(t, device, m, payload, SnapshotOf(payload).value, conflictId),
                     Result(m.mutationId, Conflict, false, NoCode, Some(t.nextSeq), CompetingVersion(t, m)))
    case Advance(payload) =>
      if BreaksConstraint(t, m, verdict, conflictId) || SnapshotOf(payload).None? then Failed
      else Committed(AdvanceTables(t, device, m, payload, SnapshotOf(payload).value),
                     Result(m.mutationId, Accepted, false, NoCode, Some(t.nextSeq), m.baseVersion + 1))
  }
}
