/** The store's writes to an observation and its index row, one statement at a time (internal/memory/sqlite.go, provider_session.go, forget.go). */
module SearchStore {
  import opened SyncService
  import opened Replica
  import opened ReplicaStore
  import opened LocalTopics
  import opened SearchIndex

  class IndexedStore {
    var tables: Store
    var index: Index

    function State(): Searchable
      reads this, tables
    {
      Searchable(tables.State(), index)
    }

    /** The unique topic index holds. */
    ghost predicate Valid()
      reads this, tables
    {
      LocalTopicsUnique(tables.State())
    }

    constructor ()
      ensures Valid() && State() == Searchable(EMPTY_STORE, map[]) && fresh(tables)
    {
      tables := new Store();
      index := map[];
      new;
      EmptyTopics();
    }

    method Rollback(saved: Searchable)
      modifies this, tables
      ensures State() == saved && tables == old(tables)
    {
      tables.Rollback(saved.local);
      index := saved.index;
    }

    /** The boundary triggers and the foreign key on sessions. */
    method CreateOwners(o: Observation) returns (ok: bool)
      modifies tables
      ensures ok <==> WithOwners(old(tables.State()), o).Some?
      ensures ok ==> State() == old(State()).(local := WithOwners(old(tables.State()), o).value)
      ensures index == old(index)
    {
      if o.projectId !in tables.projects {
        tables.projects := tables.projects[o.projectId := 0];
      }
      if o.sessionId != "" {
        if o.sessionId !in tables.sessions {
          tables.sessions := tables.sessions[o.sessionId := LocalSession(o.projectId, 0)];
        } else if tables.sessions[o.sessionId].projectId != o.projectId {
          return false;
        }
      }
      ok := true;
    }

    /** insertObservation: the row, its index row and its references. */
    method InsertObservation(o: Observation) returns (ok: bool)
      requires Valid()
      modifies this, tables
      ensures Valid() && tables == old(tables)
      ensures ok <==> Insert(old(State()), o).Some?
      ensures State() == if ok then Insert(old(State()), o).value else old(State())
    {
      hide LocalTopicsUnique, TopicHeld, WithOwners, References;
      var saved := State();
      if o.id in tables.observations || TopicHeld(tables.State(), o.id, BodyOf(o)) {
        return false;
      }
      var owned := CreateOwners(o);
      if !owned {
        Rollback(saved);
        return false;
      }
      OwnersOnly(saved.local, o);
      tables.observations := tables.observations[o.id := LocalRow(BodyOf(o).(references := {}), 0)];
      index := Inserted(index, o.id, IndexRow(o.title, o.topicKey, o.category, o.content));
      tables.ReplaceReferences(o.id, o.references);
      RowKeepsTopics(saved.local, o.id, LocalRow(BodyOf(o), 0), tables.State());
      ok := true;
    }

    /** updateTx; a failure rolls the transaction back. */
    method UpdateTx(id: string, o: Observation, now: Time, queued: bool) returns (ok: bool)
      requires Valid() && id in tables.observations
      modifies this, tables
      ensures Valid() && tables == old(tables)
      ensures ok <==> UpdateRow(old(State()), id, o, now, queued).Some?
      ensures State() == if ok then UpdateRow(old(State()), id, o, now, queued).value else old(State())
    {
      hide LocalTopicsUnique, TopicHeld, WithOwners, References, HasTombstone, ReferencesValid;
      var saved := State();
      var existing := tables.observations[id];
      if IsSummary(existing.body) || HasTombstone(tables.State(), id) {
        return false;
      }
      if existing.body.projectId != o.projectId || existing.body.scope != o.scope || existing.body.provenance != o.provenance
         || (existing.body.createdAt != o.createdAt && o.createdAt != ZERO_TIME) {
        return false;
      }
      if existing.body.state == LocalArchived {
        return false;
      }
      var valid := tables.ValidateReferences(o.(id := id));
      if !valid {
        return false;
      }
      var item := o.(id := id, createdAt := existing.body.createdAt, updatedAt := now);
      if TopicHeld(tables.State(), id, BodyOf(item)) {
        return false;
      }
      var owned := CreateOwners(item);
      if !owned {
        Rollback(saved);
        return false;
      }
      OwnersOnly(saved.local, item);
      tables.observations := tables.observations[id := LocalRow(BodyOf(item).(references := {}), existing.version)];
      tables.ReplaceReferences(id, item.references);
      index := Deleted(index, id);
      if StateOf(item) != LocalArchived {
        index := Inserted(index, id, IndexRow(item.title, item.topicKey, item.category, item.content));
      }
      if !queued {
        Rollback(saved);
        return false;
      }
      RowKeepsTopics(saved.local, id, LocalRow(BodyOf(item), existing.version), tables.State());
      ok := true;
    }

    method SaveObservation(o: Observation, newId: string, now: Time, queued: bool) returns (ok: bool)
      requires Valid()
      modifies this, tables
      ensures Valid() && tables == old(tables)
      ensures ok <==> Save(old(State()), o, newId, now, queued).Some?
      ensures State() == if ok then Save(old(State()), o, newId, now, queued).value else old(State())
    {
      hide LocalTopicsUnique, ItemValid, UpdateRow, Insert, HasTombstone, ReferencesValid;
      var saved := State();
      if !ItemValid(o) || (o.id != "" && HasTombstone(tables.State(), o.id)) {
        return false;
      }
      if o.topicKey != "" && exists id :: id in tables.observations && HoldsTopic(tables.State(), id, o) {
        var id :| id in tables.observations && HoldsTopic(tables.State(), id, o);
        OneHolder(saved, o, id, newId, now);
        ok := UpdateTx(id, o, now, queued);
        return;
      }
      NoHolder(saved, o, newId, now);
      var item := o.(id := if o.id == "" then newId else o.id);
      var valid := tables.ValidateReferences(item);
      if !valid {
        return false;
      }
      item := item.(createdAt := now, updatedAt := now);
      if HasTombstone(tables.State(), item.id) || !queued {
        return false;
      }
      ok := InsertObservation(item);
    }

    /** Store.Update */
    method UpdateObservation(o: Observation, now: Time, queued: bool) returns (ok: bool)
      requires Valid()
      modifies this, tables
      ensures Valid() && tables == old(tables)
      ensures ok <==> UpdateItem(old(State()), o, now, queued).Some?
      ensures State() == if ok then UpdateItem(old(State()), o, now, queued).value else old(State())
    {
      hide LocalTopicsUnique, ItemValid, UpdateRow;
      if !ItemValid(o) || o.id == "" || o.id !in tables.observations {
        return false;
      }
      ok := UpdateTx(o.id, o, now, queued);
    }

    /** Store.UpdateObservation */
    method ReplaceContent(id: string, project: string, content: string, expected: Time, now: Time, queued: bool) returns (ok: bool)
      requires Valid()
      modifies this, tables
      ensures Valid() && tables == old(tables)
      ensures ok <==> UpdateContent(old(State()), id, project, content, expected, now, queued).Some?
      ensures State() == if ok then UpdateContent(old(State()), id, project, content, expected, now, queued).value else old(State())
    {
      hide LocalTopicsUnique, HasTombstone, ReplacementText;
      var saved := State();
      if id == "" || project == "" || expected == ZERO_TIME || !ReplacementText(content) {
        return false;
      }
      if id !in tables.observations || tables.observations[id].body.projectId != project || IsSummary(tables.observations[id].body) {
        return false;
      }
      var row := tables.observations[id];
      var at := now;
      if at <= row.body.updatedAt {
        at := row.body.updatedAt + 1;
      }
      if row.body.updatedAt != expected {
        return false;
      }
      tables.observations := tables.observations[id := row.(body := row.body.(content := content, updatedAt := at))];
      var indexed := RowsFor(index, id) != [];
      index := Deleted(index, id);
      if indexed {
        index := Inserted(index, id, IndexRow(row.body.title, row.body.topicKey, row.body.category, content));
      }
      SameDeletions(saved.local, tables.State());
      if HasTombstone(tables.State(), id) || !queued {
        Rollback(saved);
        return false;
      }
      FewerTopics(saved.local, tables.State());
      ok := true;
    }

    /** Store.Forget */
    method ForgetObservation(id: string, project: string, scope: string, now: Time, queued: bool) returns (ok: bool)
      requires Valid()
      modifies this, tables
      ensures Valid() && tables == old(tables)
      ensures ok <==> Forget(old(State()), id, project, scope, now, queued).Some?
      ensures State() == if ok then Forget(old(State()), id, project, scope, now, queued).value else old(State())
    {
      hide LocalTopicsUnique, HasTombstone;
      var saved := State();
      if id == "" || project == "" || (scope != "project" && scope != "personal") {
        return false;
      }
      if id !in tables.observations || tables.observations[id].body.projectId != project || tables.observations[id].body.scope != scope {
        return false;
      }
      var row := tables.observations[id];
      if row.body.state != LocalArchived {
        row := row.(body := row.body.(state := LocalArchived, updatedAt := now));
      }
      tables.observations := tables.observations[id := row];
      index := Deleted(index, id);
      SameDeletions(saved.local, tables.State());
      if HasTombstone(tables.State(), id) || !queued {
        Rollback(saved);
        return false;
      }
      FewerTopics(saved.local, tables.State());
      ok := true;
    }

    /** The summary of a completed provider session. */
    method WriteSummary(id: string, project: string, summary: string, now: Time, queued: bool) returns (ok: bool)
      requires Valid()
      modifies this, tables
      ensures Valid() && tables == old(tables)
      ensures ok <==> EndSession(old(State()), id, project, summary, now, queued).Some?
      ensures State() == if ok then EndSession(old(State()), id, project, summary, now, queued).value else old(State())
    {
      hide LocalTopicsUnique, HasTombstone, Insert;
      if HasTombstone(tables.State(), id) || !queued {
        return false;
      }
      ok := InsertObservation(SummaryItem(id, project, summary, now));
    }

    /** The index statements of applyPulledObservation. */
    method IndexPulled(o: Observation, kind: MutationKind)
      modifies this`index
      ensures index == PulledRowIndex(old(index), o, kind)
    {
      var archived := StateOf(o) == LocalArchived;
      if kind == Create {
        index := Inserted(index, o.id, IndexRow(o.title, o.topicKey, o.category, o.content));
        if archived {
          index := Deleted(index, o.id);
        }
      } else {
        index := Deleted(index, o.id);
        if !archived {
          index := Inserted(index, o.id, IndexRow(o.title, o.topicKey, o.category, o.content));
        }
      }
    }

    /** applyPulledMutation, rows and index. */
    method ApplyPulled(c: Change) returns (ok: bool)
      requires Valid()
      modifies this, tables
      ensures Valid() && tables == old(tables)
      ensures ok <==> Pull(old(State()), c).Some?
      ensures State() == if ok then Pull(old(State()), c).value else old(State())
    {
      hide LocalTopicsUnique, Apply, PulledRowIndex;
      var before := tables.State();
      ok := tables.ApplyPulledMutation(c);
      if !ok {
        return;
      }
      ApplyKeepsTopics(before, c);
      var m := c.mutation;
      if c.disposition == ConflictChange {
        return;
      }
      if m.kind == Tombstone {
        index := Deleted(index, m.recordId);
      } else if m.kind == Resolve {
        if m.resolution.Some? && m.resolution.value.observation.Some? {
          IndexPulled(m.resolution.value.observation.value, Update);
        }
      } else if m.recordKind == ObservationKind && m.observation.Some? {
        IndexPulled(m.observation.value, m.kind);
      }
    }
  }

  /** The index on topics leaves one row to update. */
  lemma OneHolder(s: Searchable, o: Observation, id: string, newId: string, now: Time)
    requires LocalTopicsUnique(s.local) && ItemValid(o) && (o.id != "" ==> !HasTombstone(s.local, o.id))
    requires o.topicKey != "" && HoldsTopic(s.local, id, o)
    ensures SaveAs(s, o, newId, now) == Updates(id)
  {
    hide ItemValid, HasTombstone;
    forall other | HoldsTopic(s.local, other, o) ensures other == id {
      assert other == id || !TopicsClash(s.local.observations[other].body, s.local.observations[id].body);
    }
  }

  lemma NoHolder(s: Searchable, o: Observation, newId: string, now: Time)
    requires ItemValid(o) && (o.id != "" ==> !HasTombstone(s.local, o.id))
    requires o.topicKey == "" || forall id | id in s.local.observations :: !HoldsTopic(s.local, id, o)
    ensures var item := o.(id := if o.id == "" then newId else o.id);
            SaveAs(s, o, newId, now) == if ReferencesValid(s.local, item) then Inserts(item.(createdAt := now, updatedAt := now)) else Refused
  {
    hide ItemValid, HasTombstone, ReferencesValid;
  }
}
