/** The owner's database as the push transaction updates it, statement by statement. */
module PushTransaction {
  import opened Options
  import opened Uuids
  import opened SyncService
  import opened Tables
  import opened Repository

  datatype Reply = RolledBack | Answer(result: Result)

  class Database {
    var nextSeq: int
    var devices: map<string, bool>
    var projects: map<string, ProjectRow>
    var sessions: map<string, SessionRow>
    var observations: map<string, ObservationRow>
    var mutations: map<MutationKey, MutationRow>
    var versions: seq<VersionRow>
    var changes: map<int, ChangeRow>
    var conflicts: map<string, ConflictRow>
    var tombstones: map<string, TombstoneRow>

    function State(): Tables
      reads this
    {
      Tables(nextSeq, devices, projects, sessions, observations, mutations, versions, changes, conflicts, tombstones)
    }

    constructor ()
      ensures State() == EMPTY_OWNER
    {
      nextSeq := 1;
      devices, projects, sessions, observations := map[], map[], map[], map[];
      mutations, versions, changes, conflicts, tombstones := map[], [], map[], map[], map[];
    }

    method Rollback(saved: Tables)
      modifies this
      ensures State() == saved
    {
      nextSeq, devices, projects, sessions := saved.nextSeq, saved.devices, saved.projects, saved.sessions;
      observations, mutations, versions := saved.observations, saved.mutations, saved.versions;
      changes, conflicts, tombstones := saved.changes, saved.conflicts, saved.tombstones;
    }

    /** The query returns whichever row it meets first; unique topics make that choice irrelevant. */
    method LockTopic(m: Mutation) returns (collision: bool)
      requires TopicsUnique(State())
      ensures collision == TopicTaken(State(), m)
    {
      if m.observation.None? || m.observation.value.topicKey == "" {
        return false;
      }
      var holders := TopicHolders(State(), m.observation.value);
      if holders == {} {
        return false;
      }
      var id :| id in holders;
      forall other | other in holders ensures other == id {
        assert HoldsTopic(observations[other], observations[id].body);
      }
      collision := id != m.recordId;
    }

    method WriteTombstone(m: Mutation, version: int)
      requires m.recordKind == ObservationKind && m.kind == Tombstone
      modifies this`observations
      ensures projects == WrittenProjects(projects, m, version)
      ensures sessions == WrittenSessions(sessions, m, version)
      ensures observations == WrittenObservations(old(observations), m, version)
    {
      if m.recordId in observations {
        observations := observations[m.recordId := ObservationRow(Erased(observations[m.recordId].body), version)];
      }
    }

    method WriteCanonical(m: Mutation, version: int)
      requires m.kind != Tombstone
      requires SnapshotOf(m).Some? && (m.recordKind == ObservationKind ==> m.observation.Some?)
      modifies this`projects, this`sessions, this`observations
      ensures projects == WrittenProjects(old(projects), m, version)
      ensures sessions == WrittenSessions(old(sessions), m, version)
      ensures observations == WrittenObservations(old(observations), m, version)
    {
      match m.recordKind {
        case ProjectKind =>
          projects := projects[m.recordId := ProjectRow(version, m.project.value)];
        case SessionKind =>
          sessions := sessions[m.recordId := SessionRow(m.session.value.projectId, version)];
        case ObservationKind =>
          var lifecycle := Active;
          if m.kind == Archive {
            lifecycle := Archived;
          }
          var body := m.observation.value.(lifecycle := lifecycle, review := Clear, references := []);
          observations := observations[m.recordId := ObservationRow(body, version)];
          InsertReferences(m.recordId, m.observation.value.references);
      }
    }

    method InsertReferences(id: string, references: seq<string>)
      requires id in observations && observations[id].body.references == []
      modifies this`observations
      ensures observations == old(observations)[id :=
        old(observations)[id].(body := old(observations)[id].body.(references := references))]
    {
      var i := 0;
      while i < |references|
        invariant 0 <= i <= |references|
        invariant observations == old(observations)[id :=
          old(observations)[id].(body := old(observations)[id].body.(references := references[..i]))]
      {
        assert references[..i + 1] == references[..i] + [references[i]];
        var row := observations[id];
        observations := observations[id := row.(body := row.body.(references := row.body.references + [references[i]]))];
        i := i + 1;
      }
      assert references[..i] == references;
    }

    /** INSERT INTO record_versions, refused when the unique key is taken. */
    method InsertVersion(row: VersionRow) returns (ok: bool, id: int)
      modifies this`versions
      ensures ok == !old(VersionRowClash(versions, row.recordKind, row.recordId, row.recordVersion, row.source.mutationId))
      ensures ok ==> versions == old(versions) + [row] && id == |old(versions)|
      ensures !ok ==> versions == old(versions)
    {
      if VersionRowClash(versions, row.recordKind, row.recordId, row.recordVersion, row.source.mutationId) {
        return false, 0;
      }
      id := |versions|;
      versions := versions + [row];
      ok := true;
    }

    /** A competing create inserts an archived row for review; any other competitor flags the row it met. */
    method MarkRecord(m: Mutation)
      requires m.observation.Some?
      modifies this`observations
      ensures observations == MarkedObservations(old(observations), m)
    {
      if m.recordId !in observations {
        var body := m.observation.value.(lifecycle := Archived, review := NeedsReview);
        observations := observations[m.recordId := ObservationRow(body, m.baseVersion + 1)];
      } else if observations[m.recordId].body.lifecycle != Tombstoned {
        var row := observations[m.recordId];
        observations := observations[m.recordId := row.(body := row.body.(review := NeedsReview))];
      }
    }

    method WriteConflict(device: string, m: Mutation, payload: Mutation, conflictId: string) returns (reply: Reply)
      requires m.recordKind == ObservationKind && m.kind != Resolve && payload == m && m.observation.Some? && m.tombstone.None?
      modifies this
      ensures
        if old(BreaksConstraint(State(), m, Compete(payload), conflictId)) then
          reply == RolledBack && State() == old(State())
        else
          && State() == old(CompeteTables(State(), device, m, payload, ObservationSnapshot(m.observation.value), conflictId))
          && reply == Answer(Result(m.mutationId, Conflict, false, NoCode, Some(old(nextSeq)), old(CompetingVersion(State(), m))))
    {
      hide VersionRowClash, MarkedObservations;
      var saved := State();
      var sequence := nextSeq;
      var key := MutationKey(device, Lower(m.mutationId));
      var version := m.baseVersion + 1;
      var canonical := if m.recordId in observations then observations[m.recordId].version else version;
      mutations := mutations[key :=
        MutationRow(m, m.kind, m.recordId, m.baseVersion, ConflictChange, sequence, canonical, ResolutionColumn(payload))];
      MarkRecord(payload);
      var ok, versionId := InsertVersion(VersionRow(ObservationKind, m.recordId, version, key, m.baseVersion,
                                                    ConflictChange, ObservationSnapshot(m.observation.value)));
      if !ok {
        Rollback(saved);
        return RolledBack;
      }
      changes := changes[sequence := ChangeRow(key, ConflictChange, ObservationKind, m.recordId, canonical, versionId)];
      if conflictId == NIL_UUID || conflictId in conflicts {
        Rollback(saved);
        return RolledBack;
      }
      conflicts := conflicts[conflictId := ConflictRow(m.recordId, canonical, versionId, sequence, None)];
      nextSeq := sequence + 1;
      reply := Answer(Result(m.mutationId, Conflict, false, NoCode, Some(sequence), canonical));
    }

    method WriteRecord(m: Mutation, version: int)
      requires SnapshotOf(m).Some? && (m.recordKind == ObservationKind && m.kind != Tombstone ==> m.observation.Some?)
      requires m.kind == Tombstone ==> m.recordKind == ObservationKind
      modifies this`projects, this`sessions, this`observations
      ensures projects == WrittenProjects(old(projects), m, version)
      ensures sessions == WrittenSessions(old(sessions), m, version)
      ensures observations == WrittenObservations(old(observations), m, version)
    {
      if m.kind == Tombstone {
        WriteTombstone(m, version);
      } else {
        WriteCanonical(m, version);
      }
    }

    /** The tombstone a deletion leaves, or the conflicts a resolution closes. */
    method WriteLinks(m: Mutation, payload: Mutation, key: MutationKey, versionId: int, sequence: int) returns (ok: bool)
      requires m.kind == Tombstone ==> m.tombstone.Some?
      requires payload.kind == m.kind
      modifies this`tombstones, this`conflicts
      ensures ok == !(m.kind == Tombstone && m.recordId in old(tombstones))
      ensures ok ==> tombstones == WrittenTombstones(old(tombstones), m, key, versionId)
      ensures ok ==> conflicts == ClosedConflicts(old(conflicts), ConflictIds(payload), m.recordId, sequence)
    {
      if m.kind == Tombstone {
        if m.recordId in tombstones {
          return false;
        }
        tombstones := tombstones[m.recordId := TombstoneRow(versionId, key, StoredTime(m.tombstone.value.deletedAt))];
      }
      if m.kind == Resolve {
        conflicts := ClosedConflicts(conflicts, ConflictIds(payload), m.recordId, sequence);
      } else {
        assert ClosedConflicts(conflicts, [], m.recordId, sequence) == conflicts;
      }
      ok := true;
    }

    method WriteAccepted(device: string, m: Mutation, payload: Mutation, snapshot: Snapshot) returns (reply: Reply)
      requires payload.kind == m.kind && payload.recordKind == m.recordKind && SnapshotOf(payload) == Some(snapshot)
      requires m.recordKind == ObservationKind && m.kind != Tombstone ==> payload.observation.Some?
      requires m.kind == Tombstone ==> m.recordKind == ObservationKind && m.tombstone.Some?
      modifies this
      ensures reply.RolledBack? == BreaksConstraint(old(State()), m, Advance(payload), "")
      ensures reply.RolledBack? ==> State() == old(State())
      ensures reply.Answer? ==>
        && State() == AdvanceTables(old(State()), device, m, payload, snapshot)
        && reply.result == Result(m.mutationId, Accepted, false, NoCode, Some(old(nextSeq)), m.baseVersion + 1)
    {
      hide VersionRowClash, ClosedConflicts, WrittenTombstones, WrittenProjects, WrittenSessions, WrittenObservations, SnapshotOf;
      var saved := State();
      var sequence := nextSeq;
      var key := MutationKey(device, Lower(m.mutationId));
      var version := m.baseVersion + 1;
      mutations := mutations[key :=
        MutationRow(m, m.kind, m.recordId, m.baseVersion, AcceptedChange, sequence, version, ResolutionColumn(payload))];
      var ok, versionId := InsertVersion(VersionRow(m.recordKind, m.recordId, version, key, m.baseVersion,
                                                    AcceptedChange, snapshot));
      if !ok {
        Rollback(saved);
        return RolledBack;
      }
      WriteRecord(payload, version);
      changes := changes[sequence := ChangeRow(key, AcceptedChange, m.recordKind, m.recordId, version, versionId)];
      ok := WriteLinks(m, payload, key, versionId, sequence);
      if !ok {
        Rollback(saved);
        return RolledBack;
      }
      nextSeq := sequence + 1;
      reply := Answer(Result(m.mutationId, Accepted, false, NoCode, Some(sequence), version));
    }

    method PushOne(device: string, m: Mutation, conflictId: string) returns (reply: Reply)
      requires TopicsUnique(State())
      modifies this
      ensures match old(Push(State(), device, m, conflictId))
              case Failed => reply == RolledBack && State() == old(State())
              case Committed(tables, result) => reply == Answer(result) && State() == tables
    {
      hide VersionRowClash, ValidateMutation, PrerequisitesHold, TopicTaken, IdsExist, IdsUnresolved, Distinct, HasLifecycle,
        Admitted, PayloadMutation, SnapshotOf, ConflictIds, AcceptedMutation, Target, AdvanceTables, CompeteTables;
      if device == NIL_UUID || device !in devices {
        return Answer(Refusal(m, InvalidDevice));
      }
      if devices[device] {
        return Answer(Refusal(m, Revoked));
      }
      if ValidateMutation(m) != Valid || !AcceptedMutation(m) {
        return Answer(Refusal(m, UnsupportedSemantic));
      }
      ValidIsAdmitted(m);
      PayloadShape(m);
      var key := MutationKey(device, Lower(m.mutationId));
      if key in mutations {
        var stored := mutations[key];
        if stored.requestHash != m {
          return Answer(Refusal(m, MutationIdHashMismatch));
        }
        if stored.disposition == Unstated || stored.canonicalSeq < 1 {
          return Answer(Refusal(m, InvalidReplay));
        }
        var disposition := PreviouslyAccepted;
        if stored.disposition == ConflictChange {
          disposition := Conflict;
        }
        return Answer(Result(m.mutationId, disposition, false, NoCode, Some(stored.canonicalSeq), stored.canonicalVersion));
      }
      var target := Target(State(), m.recordKind, m.recordId);
      if m.kind == Create && (m.baseVersion != 0 || target.Some?) {
        return Answer(Refusal(m, InvalidBase));
      }
      if m.kind != Create && (target.None? || m.baseVersion == MAX_INT64) {
        return Answer(Refusal(m, InvalidBase));
      }
      if target.Some? && m.recordKind == ObservationKind && m.kind != Tombstone && target.value == m.baseVersion {
        if HasLifecycle(State(), m.recordId, Tombstoned) {
          return Answer(Refusal(m, InvalidBase));
        }
      }
      var payload := PayloadMutation(m);
      if m.kind == Resolve {
        if !Distinct(ConflictIds(payload)) || !IdsExist(State(), ConflictIds(payload), m.recordId) {
          return Answer(Refusal(m, InvalidPrerequisite));
        }
      }
      if !PrerequisitesHold(State(), payload) {
        return Answer(Refusal(m, InvalidPrerequisite));
      }
      var topicCollision := LockTopic(payload);
      if topicCollision && m.kind != Create && m.kind != Update {
        return Answer(Refusal(m, InvalidPrerequisite));
      }
      if m.recordKind == ObservationKind
         && ((m.kind == Update && target.value != m.baseVersion) || topicCollision) {
        reply := WriteConflict(device, m, payload, conflictId);
        return;
      }
      if m.kind != Create && target.value != m.baseVersion {
        return Answer(Refusal(m, StaleBase));
      }
      if m.kind == Resolve {
        if !HasLifecycle(State(), m.recordId, Active) || !IdsUnresolved(State(), ConflictIds(payload), m.recordId) {
          return Answer(Refusal(m, InvalidPrerequisite));
        }
      }
      reply := WriteAccepted(device, m, payload, SnapshotOf(payload).value);
    }
  }
}
