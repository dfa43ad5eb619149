/** The device's tables as applyPulledMutation updates them, one statement at a time (internal/memory/sync.go). */
module ReplicaStore {
  import opened SyncService
  import opened Replica

  class Store {
    var projects: map<string, int>
    var sessions: map<string, LocalSession>
    var observations: map<string, LocalRow>
    var conflicts: map<int, LocalConflict>
    var tombstones: map<int, LocalTombstone>

    function State(): Local
      reads this
    {
      Local(projects, sessions, observations, conflicts, tombstones)
    }

    constructor ()
      ensures State() == EMPTY_STORE
    {
      projects, sessions, observations, conflicts, tombstones := map[], map[], map[], map[], map[];
    }

    method Rollback(saved: Local)
      modifies this
      ensures State() == saved
    {
      projects, sessions, observations := saved.projects, saved.sessions, saved.observations;
      conflicts, tombstones := saved.conflicts, saved.tombstones;
    }

    method ValidateReferences(o: Observation) returns (ok: bool)
      ensures ok <==> ReferencesValid(State(), o)
    {
      hide HasTombstone;
      var seen: set<string> := {};
      var i := 0;
      while i < |o.references|
        invariant 0 <= i <= |o.references|
        invariant forall s :: s in seen <==> exists k :: 0 <= k < i && o.references[k] == s
        invariant forall j, k | 0 <= j < k < i :: o.references[j] != o.references[k]
        invariant forall k | 0 <= k < i :: ReferenceAllowed(State(), o.id, o.references[k], o)
      {
        var id := o.references[i];
        if id == "" || id == o.id || id in seen {
          return false;
        }
        seen := seen + {id};
        if id !in observations {
          return false;
        }
        if observations[id].body.projectId != o.projectId || observations[id].body.scope != o.scope {
          return false;
        }
        if HasTombstone(State(), id) {
          return false;
        }
        i := i + 1;
      }
      ok := true;
    }

    /** DELETE FROM observation_refs, then one INSERT per reference. */
    method ReplaceReferences(id: string, references: seq<string>)
      requires id in observations
      modifies this`observations
      ensures observations == old(observations)[id :=
        old(observations)[id].(body := old(observations)[id].body.(references := References(references)))]
    {
      var row := observations[id];
      observations := observations[id := row.(body := row.body.(references := {}))];
      var i := 0;
      assert References(references[..0]) == {};
      while i < |references|
        invariant 0 <= i <= |references|
        invariant observations == old(observations)[id := row.(body := row.body.(references := References(references[..i])))]
      {
        assert References(references[..i + 1]) == References(references[..i]) + {references[i]} by {
          assert references[..i + 1] == references[..i] + [references[i]];
        }
        var current := observations[id];
        observations := observations[id := current.(body := current.body.(references := current.body.references + {references[i]}))];
        i := i + 1;
      }
      assert references[..i] == references;
    }

    method ApplyPulledObservation(o: Observation, kind: MutationKind, base: int, canonical: int) returns (ok: bool)
      modifies this`observations
      ensures var r := ApplyObservation(old(State()), o, kind, base, canonical);
              (ok <==> r.Applied?) && (ok ==> State() == r.local) && (!ok ==> State() == old(State()))
    {
      hide HasTombstone, TopicHeld, ReferencesValid, TimesStorable, References;
      if !TimesStorable(o) {
        return false;
      }
      if o.projectId !in projects {
        return false;
      }
      if o.sessionId != "" && !(o.sessionId in sessions && sessions[o.sessionId].projectId == o.projectId) {
        return false;
      }
      if HasTombstone(State(), o.id) {
        return false;
      }
      var valid := ValidateReferences(o);
      if !valid {
        return false;
      }
      var body := BodyOf(o).(references := {});
      TopicIgnoresReferences(State(), o);
      if TopicHeld(State(), o.id, body) {
        return false;
      }
      if kind == Create {
        if o.id in observations || base != 0 || canonical != 1 {
          return false;
        }
        observations := observations[o.id := LocalRow(body, 0)];
      } else {
        if o.id !in observations || !SameIdentity(observations[o.id].body, body) {
          return false;
        }
        if observations[o.id].version != base || canonical != observations[o.id].version + 1 {
          return false;
        }
        observations := observations[o.id := observations[o.id].(body := body)];
      }
      ReplaceReferences(o.id, o.references);
      observations := observations[o.id := observations[o.id].(version := canonical)];
      ok := true;
    }

    method ApplyPulledIdentity(id: string, kind: MutationKind, base: int, canonical: int) returns (ok: bool)
      modifies this`projects
      ensures var r := ApplyProject(old(State()), id, kind, base, canonical);
              (ok <==> r.Applied?) && (ok ==> State() == r.local) && (!ok ==> State() == old(State()))
    {
      if kind == Create {
        if id in projects || base != 0 || canonical != 1 {
          return false;
        }
      } else {
        if id !in projects || projects[id] != base || canonical != base + 1 {
          return false;
        }
      }
      projects := projects[id := canonical];
      ok := true;
    }

    method ApplyPulledSession(s: Session, kind: MutationKind, base: int, canonical: int) returns (ok: bool)
      modifies this`sessions
      ensures var r := ApplySession(old(State()), s, kind, base, canonical);
              (ok <==> r.Applied?) && (ok ==> State() == r.local) && (!ok ==> State() == old(State()))
    {
      if s.projectId !in projects {
        return false;
      }
      if kind == Create {
        if s.id in sessions || canonical != 1 {
          return false;
        }
        sessions := sessions[s.id := LocalSession(s.projectId, 1)];
        return true;
      }
      if s.id !in sessions {
        return false;
      }
      var row := sessions[s.id];
      if row.projectId != s.projectId || row.version != base || canonical != row.version + 1 {
        return false;
      }
      sessions := sessions[s.id := row.(version := canonical)];
      ok := true;
    }

    method ApplyPulledConflict(c: Change) returns (ok: bool)
      requires c.mutation.observation.Some?
      modifies this
      ensures var r := ApplyConflict(old(State()), c);
              (ok <==> r.Applied?) && (ok ==> State() == r.local) && (!ok ==> State() == old(State()))
    {
      hide ConflictIdTaken;
      var saved := State();
      var o := c.mutation.observation.value;
      var id := c.mutation.recordId;
      if id in observations {
        var row := observations[id];
        if row.body.projectId != o.projectId || row.body.scope != o.scope {
          return false;
        }
        if row.version != c.canonicalVersion {
          return false;
        }
        if row.body.state == LocalActive {
          observations := observations[id := row.(body := row.body.(state := LocalNeedsReview))];
        }
      }
      if c.sequence in conflicts {
        if conflicts[c.sequence] != NewConflict(c) {
          Rollback(saved);
          return false;
        }
      } else {
        if ConflictIdTaken(saved, c.conflictId) {
          Rollback(saved);
          return false;
        }
        conflicts := conflicts[c.sequence := NewConflict(c)];
      }
      ok := true;
    }

    method ApplyPulledTombstone(c: Change) returns (ok: bool)
      requires c.mutation.tombstone.Some?
      modifies this`observations, this`tombstones
      ensures var r := ApplyTombstone(old(State()), c);
              (ok <==> r.Applied?) && (ok ==> State() == r.local) && (!ok ==> State() == old(State()))
      ensures ok ==>
        && c.mutation.recordId in observations
        && observations[c.mutation.recordId].body.topicKey == "" && observations[c.mutation.recordId].body.references == {}
    {
      var id := c.mutation.recordId;
      if id !in observations {
        return false;
      }
      var version := observations[id].version;
      if version != c.mutation.baseVersion || c.canonicalVersion != version + 1 {
        return false;
      }
      var deleted := c.mutation.tombstone.value.deletedAt;
      if !StorableTime(deleted) {
        return false;
      }
      if c.sequence in tombstones
         || exists i :: i in tombstones && tombstones[i].recordId == id && tombstones[i].version == c.canonicalVersion {
        return false;
      }
      tombstones := tombstones[c.sequence := LocalTombstone(id, c.canonicalVersion, deleted)];
      observations := observations[id := observations[id].(body := observations[id].body.(topicKey := ""))];
      observations := observations[id := observations[id].(body := observations[id].body.(references := {}))];
      observations := observations[id := observations[id].(version := c.canonicalVersion)];
      ok := true;
    }

    /** Each listed conflict once, and open on the record. */
    method CheckListedConflicts(ids: seq<string>, recordId: string) returns (ok: bool)
      ensures ok <==> Distinct(ids) && forall k | 0 <= k < |ids| :: HasOpenConflict(State(), ids[k], recordId)
    {
      hide HasOpenConflict;
      var seen: set<string> := {};
      var i := 0;
      while i < |ids|
        invariant 0 <= i <= |ids|
        invariant forall s :: s in seen <==> exists k :: 0 <= k < i && ids[k] == s
        invariant forall j, k | 0 <= j < k < i :: ids[j] != ids[k]
        invariant forall k | 0 <= k < i :: HasOpenConflict(State(), ids[k], recordId)
      {
        if ids[i] in seen {
          return false;
        }
        seen := seen + {ids[i]};
        if !HasOpenConflict(State(), ids[i], recordId) {
          return false;
        }
        i := i + 1;
      }
      ok := true;
    }

    method ApplyPulledResolve(c: Change) returns (ok: bool)
      requires c.mutation.resolution.Some? && c.mutation.resolution.value.observation.Some?
      modifies this`observations, this`conflicts
      ensures var r := ApplyResolve(old(State()), c);
              (ok <==> r.Applied?) && (ok ==> State() == r.local) && (!ok ==> State() == old(State()))
    {
      hide HasOpenConflict, SurroundingsReady, Closed;
      var ids := c.mutation.resolution.value.conflictIds;
      var listed := CheckListedConflicts(ids, c.mutation.recordId);
      if !listed {
        return false;
      }
      var applied := ApplyPulledObservation(c.mutation.resolution.value.observation.value, Update, c.mutation.baseVersion, c.canonicalVersion);
      if !applied {
        return false;
      }
      conflicts := Closed(conflicts, ids, c.mutation.recordId, c.sequence);
      ok := true;
    }

    /** A refused change leaves the tables as they were; the page is rolled back with it. */
    method ApplyPulledMutation(c: Change) returns (ok: bool)
      modifies this
      ensures var r := Apply(old(State()), c);
              (ok <==> r.Applied?) && (ok ==> State() == r.local) && (!ok ==> State() == old(State()))
    {
      hide ApplyConflict, ApplyTombstone, ApplyResolve, ApplyProject, ApplySession, ApplyObservation;
      var m := c.mutation;
      if c.disposition == ConflictChange {
        if m.observation.None? {
          return false;
        }
        ok := ApplyPulledConflict(c);
      } else if m.kind == Tombstone {
        if m.tombstone.None? {
          return false;
        }
        ok := ApplyPulledTombstone(c);
      } else if m.kind == Resolve {
        if m.resolution.None? || m.resolution.value.observation.None? {
          return false;
        }
        ok := ApplyPulledResolve(c);
      } else {
        match m.recordKind {
          case ProjectKind =>
            ok := ApplyPulledIdentity(m.recordId, m.kind, m.baseVersion, c.canonicalVersion);
          case SessionKind =>
            if m.session.None? {
              return false;
            }
            ok := ApplyPulledSession(m.session.value, m.kind, m.baseVersion, c.canonicalVersion);
          case ObservationKind =>
            if m.observation.None? {
              return false;
            }
            ok := ApplyPulledObservation(m.observation.value, m.kind, m.baseVersion, c.canonicalVersion);
        }
      }
    }
  }

  lemma TopicIgnoresReferences(local: Local, o: Observation)
    ensures TopicHeld(local, o.id, BodyOf(o).(references := {})) <==> TopicHeld(local, o.id, BodyOf(o))
  {
  }
}
