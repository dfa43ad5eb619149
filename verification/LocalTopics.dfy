/** The device's unique index over (project, scope, topic), kept by whatever is applied (internal/memory/migrations/003_global_projects.sql). */
module LocalTopics {
  import opened SyncService
  import opened Replica

  predicate TopicsClash(a: LocalObservation, b: LocalObservation) {
    a.topicKey != "" && SameTopic(a, b)
  }

  predicate LocalTopicsUnique(local: Local) {
    forall i, j | i in local.observations && j in local.observations && i != j ::
      !TopicsClash(local.observations[i].body, local.observations[j].body)
  }

  lemma EmptyTopics()
    ensures LocalTopicsUnique(EMPTY_STORE)
  {
  }

  /** A row whose topic nothing else holds may be written. */
  lemma RowKeepsTopics(local: Local, id: string, row: LocalRow, after: Local)
    requires LocalTopicsUnique(local) && !TopicHeld(local, id, row.body)
    requires after.observations == local.observations[id := row]
    ensures LocalTopicsUnique(after)
  {
    forall i, j | i in after.observations && j in after.observations && i != j
      ensures !TopicsClash(after.observations[i].body, after.observations[j].body)
    {
      if i == id {
        assert j in local.observations && j != id;
      } else if j == id {
        assert i in local.observations && i != id;
      }
    }
  }

  /** Rows that lose their topic, or keep it, clash no more than before. */
  lemma FewerTopics(local: Local, after: Local)
    requires LocalTopicsUnique(local) && after.observations.Keys == local.observations.Keys
    requires forall i | i in local.observations ::
      || after.observations[i].body.topicKey == ""
      || (SameTopic(after.observations[i].body, local.observations[i].body))
    ensures LocalTopicsUnique(after)
  {
    forall i, j | i in after.observations && j in after.observations && i != j
      ensures !TopicsClash(after.observations[i].body, after.observations[j].body)
    {
      assert !TopicsClash(local.observations[i].body, local.observations[j].body);
    }
  }

  lemma ObservationKeepsTopics(local: Local, o: Observation, kind: MutationKind, base: int, canonical: int)
    requires LocalTopicsUnique(local) && ApplyObservation(local, o, kind, base, canonical).Applied?
    ensures LocalTopicsUnique(ApplyObservation(local, o, kind, base, canonical).local)
  {
    hide SurroundingsReady, TopicHeld, LocalTopicsUnique, SameIdentity;
    RowKeepsTopics(local, o.id, LocalRow(BodyOf(o), canonical), ApplyObservation(local, o, kind, base, canonical).local);
  }

  lemma ConflictKeepsTopics(local: Local, c: Change)
    requires LocalTopicsUnique(local) && c.mutation.observation.Some? && ApplyConflict(local, c).Applied?
    ensures LocalTopicsUnique(ApplyConflict(local, c).local)
  {
    hide ConflictIdTaken, LocalTopicsUnique;
    FewerTopics(local, ApplyConflict(local, c).local);
  }

  lemma TombstoneKeepsTopics(local: Local, c: Change)
    requires LocalTopicsUnique(local) && c.mutation.tombstone.Some? && ApplyTombstone(local, c).Applied?
    ensures LocalTopicsUnique(ApplyTombstone(local, c).local)
  {
    hide LocalTopicsUnique;
    FewerTopics(local, ApplyTombstone(local, c).local);
  }

  lemma ResolveKeepsTopics(local: Local, c: Change)
    requires LocalTopicsUnique(local) && c.mutation.resolution.Some? && c.mutation.resolution.value.observation.Some?
    requires ApplyResolve(local, c).Applied?
    ensures LocalTopicsUnique(ApplyResolve(local, c).local)
  {
    hide LocalTopicsUnique, ApplyObservation, HasOpenConflict, Closed;
    var o := c.mutation.resolution.value.observation.value;
    ObservationKeepsTopics(local, o, Update, c.mutation.baseVersion, c.canonicalVersion);
    FewerTopics(ApplyObservation(local, o, Update, c.mutation.baseVersion, c.canonicalVersion).local, ApplyResolve(local, c).local);
  }

  /** Rows change topic only through applied content, which the index checks. */
  lemma ApplyKeepsTopics(local: Local, c: Change)
    requires LocalTopicsUnique(local) && Apply(local, c).Applied?
    ensures LocalTopicsUnique(Apply(local, c).local)
  {
    hide ApplyObservation, ApplyConflict, ApplyTombstone, ApplyResolve, LocalTopicsUnique;
    var m := c.mutation;
    if c.disposition == ConflictChange {
      ConflictKeepsTopics(local, c);
    } else if m.kind == Tombstone {
      TombstoneKeepsTopics(local, c);
    } else if m.kind == Resolve {
      ResolveKeepsTopics(local, c);
    } else if m.recordKind == ObservationKind {
      ObservationKeepsTopics(local, m.observation.value, m.kind, m.baseVersion, c.canonicalVersion);
    } else {
      FewerTopics(local, Apply(local, c).local);
    }
  }
}
