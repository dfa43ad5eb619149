/** A device's rows and deletions, said field by field: the vocabulary in which its writes are judged. */
module LocalRows {
  import opened SyncService
  import opened Replica

  /** The row says field by field what was to be written. */
  ghost predicate RowSays(row: LocalRow, o: Observation, createdAt: Time, updatedAt: Time, version: int) {
    && Shows(row.body, o.(createdAt := createdAt, updatedAt := updatedAt))
    && (row.body.state == LocalArchived <==> o.lifecycle == Archived)
    && (row.body.state == LocalNeedsReview <==> o.lifecycle != Archived && o.review == NeedsReview)
    && row.version == version
  }

  predicate Erased(local: Local, id: string) {
    exists i :: i in local.tombstones && local.tombstones[i].recordId == id
  }

  /** The row stands in the topic, in whatever state. */
  predicate StandsIn(local: Local, id: string, o: Observation) {
    && id in local.observations
    && local.observations[id].body.projectId == o.projectId
    && local.observations[id].body.scope == o.scope
    && local.observations[id].body.topicKey == o.topicKey
  }

  predicate TopicFree(local: Local, id: string, o: Observation) {
    o.topicKey == "" || forall other | other in local.observations && other != id :: !StandsIn(local, other, o)
  }

  /** Each reference once, to another row of the same project and scope that is not deleted. */
  predicate RefersWell(local: Local, id: string, o: Observation) {
    && (forall i, j | 0 <= i < j < |o.references| :: o.references[i] != o.references[j])
    && forall i | 0 <= i < |o.references| ::
         && o.references[i] != "" && o.references[i] != id
         && o.references[i] in local.observations
         && local.observations[o.references[i]].body.projectId == o.projectId
         && local.observations[o.references[i]].body.scope == o.scope
         && !Erased(local, o.references[i])
  }

  /** No other row differs. */
  predicate OtherRowsStay(local: Local, after: Local, id: string) {
    && after.observations.Keys - {id} == local.observations.Keys - {id}
    && forall other | other in local.observations && other != id :: other in after.observations && after.observations[other] == local.observations[other]
  }

  lemma ErasedIs(local: Local)
    ensures forall id :: HasTombstone(local, id) <==> Erased(local, id)
  {
  }

  lemma RefersIs(local: Local, id: string, o: Observation)
    ensures ReferencesValid(local, o.(id := id)) <==> RefersWell(local, id, o)
  {
    ErasedIs(local);
    hide HasTombstone, Erased;
  }

  lemma TopicIs(local: Local, id: string, o: Observation, item: Observation)
    requires item == o.(id := id, createdAt := item.createdAt, updatedAt := item.updatedAt)
    ensures TopicHeld(local, id, BodyOf(item)) <==> !TopicFree(local, id, o)
  {
    hide References;
    if TopicHeld(local, id, BodyOf(item)) {
      var other :| other in local.observations && other != id && SameTopic(local.observations[other].body, BodyOf(item));
      assert StandsIn(local, other, o);
    }
    if !TopicFree(local, id, o) {
      var other :| other in local.observations && other != id && StandsIn(local, other, o);
      assert SameTopic(local.observations[other].body, BodyOf(item));
    }
  }

  lemma BodySays(o: Observation, item: Observation, version: int)
    requires item == o.(id := item.id, createdAt := item.createdAt, updatedAt := item.updatedAt)
    ensures RowSays(LocalRow(BodyOf(item), version), o, item.createdAt, item.updatedAt, version)
  {
  }
}
