/** When a device takes a pulled change, and what it leaves of it: said of the tables alone (internal/memory/sync.go). */
module PulledChanges {
  import opened Options
  import opened Uuids
  import opened SyncService
  import opened Replica
  import opened LocalRows

  // --------------------------------------------------------------- conditions

  /** Both times, and the review date if there is one, are positive and fit an int64. */
  predicate TimesFit(o: Observation) {
    && 0 < o.createdAt <= o.updatedAt <= MAX_INT64
    && (o.reviewAfter.Some? ==> 0 < o.reviewAfter.value <= MAX_INT64)
  }

  /** Project and session are there and fit, nothing was deleted, each reference is good and the topic is free. */
  predicate Placeable(local: Local, o: Observation) {
    && TimesFit(o)
    && o.projectId in local.projects
    && (o.sessionId != "" ==> o.sessionId in local.sessions && local.sessions[o.sessionId].projectId == o.projectId)
    && !Erased(local, o.id) && RefersWell(local, o.id, o) && TopicFree(local, o.id, o)
  }

  /** The row the content comes to replace: the same project, scope and creation time, on the version before. */
  predicate Continues(local: Local, o: Observation, base: int, canonical: int) {
    && o.id in local.observations
    && local.observations[o.id].body.projectId == o.projectId
    && local.observations[o.id].body.scope == o.scope
    && local.observations[o.id].body.createdAt == o.createdAt
    && local.observations[o.id].version == base && canonical == base + 1
  }

  predicate OpenOn(local: Local, conflictId: string, recordId: string) {
    exists i :: i in local.conflicts && local.conflicts[i].conflictId == conflictId && local.conflicts[i].recordId == recordId
                && local.conflicts[i].resolvedSeq.None?
  }

  /** The conflict's row, if there is one, is the one it is about; the sequence and the id are its own. */
  predicate ConflictFits(local: Local, c: Change)
    requires c.mutation.observation.Some?
  {
    var o := c.mutation.observation.value;
    var id := c.mutation.recordId;
    && (id in local.observations ==>
          && local.observations[id].body.projectId == o.projectId && local.observations[id].body.scope == o.scope
          && local.observations[id].version == c.canonicalVersion)
    && (if c.sequence in local.conflicts then ConflictRow(local.conflicts[c.sequence], c, None)
        else forall i | i in local.conflicts :: local.conflicts[i].conflictId != c.conflictId)
  }

  predicate ConflictRow(row: LocalConflict, c: Change, resolvedSeq: Option<int>) {
    && row.conflictId == c.conflictId && row.recordId == c.mutation.recordId && row.canonicalVersion == c.canonicalVersion
    && row.competitor == Lower(c.mutation.mutationId) && row.snapshot == c.mutation && row.resolvedSeq == resolvedSeq
  }

  predicate DeletionFits(local: Local, c: Change)
    requires c.mutation.tombstone.Some?
  {
    var id := c.mutation.recordId;
    && id in local.observations && local.observations[id].version == c.mutation.baseVersion && c.canonicalVersion == c.mutation.baseVersion + 1
    && 0 < c.mutation.tombstone.value.deletedAt <= MAX_INT64
    && c.sequence !in local.tombstones
    && forall i | i in local.tombstones :: !(local.tombstones[i].recordId == id && local.tombstones[i].version == c.canonicalVersion)
  }

  predicate ResolutionFits(local: Local, c: Change)
    requires c.mutation.resolution.Some? && c.mutation.resolution.value.observation.Some?
  {
    var ids := c.mutation.resolution.value.conflictIds;
    var o := c.mutation.resolution.value.observation.value;
    && (forall j, k | 0 <= j < k < |ids| :: ids[j] != ids[k])
    && (forall k | 0 <= k < |ids| :: OpenOn(local, ids[k], c.mutation.recordId))
    && Placeable(local, o) && Continues(local, o, c.mutation.baseVersion, c.canonicalVersion)
  }

  predicate OwnerFits(local: Local, c: Change) {
    var m := c.mutation;
    match m.recordKind
    case ProjectKind =>
      if m.kind == Create then m.recordId !in local.projects && m.baseVersion == 0 && c.canonicalVersion == 1
      else m.recordId in local.projects && local.projects[m.recordId] == m.baseVersion && c.canonicalVersion == m.baseVersion + 1
    case SessionKind =>
      && m.session.Some? && m.session.value.projectId in local.projects
      && var id := m.session.value.id;
         if m.kind == Create then id !in local.sessions && c.canonicalVersion == 1
         else
           && id in local.sessions && local.sessions[id].projectId == m.session.value.projectId
           && local.sessions[id].version == m.baseVersion && c.canonicalVersion == m.baseVersion + 1
    case ObservationKind => false
  }

  predicate SnapshotFits(local: Local, c: Change) {
    && c.mutation.observation.Some?
    && var o := c.mutation.observation.value;
       && Placeable(local, o)
       && if c.mutation.kind == Create then o.id !in local.observations && c.mutation.baseVersion == 0 && c.canonicalVersion == 1
          else Continues(local, o, c.mutation.baseVersion, c.canonicalVersion)
  }

  /** Everything a device asks of a change before it takes it. */
  predicate Takes(local: Local, c: Change) {
    if c.disposition == ConflictChange then c.mutation.observation.Some? && ConflictFits(local, c)
    else
      match c.mutation.kind
      case Tombstone => c.mutation.tombstone.Some? && DeletionFits(local, c)
      case Resolve => c.mutation.resolution.Some? && c.mutation.resolution.value.observation.Some? && ResolutionFits(local, c)
      case _ => if c.mutation.recordKind == ObservationKind then SnapshotFits(local, c) else OwnerFits(local, c)
  }

  // ------------------------------------------------------------------ effects

  predicate SameTables(local: Local, u: Local) {
    u.projects == local.projects && u.sessions == local.sessions && u.conflicts == local.conflicts && u.tombstones == local.tombstones
  }

  /** The record's row says what was pulled, on the new version; no other row moved. */
  ghost predicate ContentTaken(local: Local, u: Local, o: Observation, canonical: int) {
    && o.id in u.observations && RowSays(u.observations[o.id], o, o.createdAt, o.updatedAt, canonical)
    && OtherRowsStay(local, u, o.id)
  }

  /** A live row is under review from here on; an archived one, and every other field and row, is as before. */
  ghost predicate Reviewed(local: Local, u: Local, id: string) {
    && u.observations.Keys == local.observations.Keys
    && OtherRowsStay(local, u, id)
    && (id in local.observations ==>
          && u.observations[id].body.state == (if local.observations[id].body.state == LocalArchived then LocalArchived else LocalNeedsReview)
          && u.observations[id] == local.observations[id].(body := local.observations[id].body.(state := u.observations[id].body.state)))
  }

  /** The conflict is on file once, under its sequence. */
  predicate Filed(local: Local, u: Local, c: Change) {
    && c.sequence in u.conflicts && ConflictRow(u.conflicts[c.sequence], c, None)
    && u.conflicts.Keys == local.conflicts.Keys + {c.sequence}
    && forall i | i in local.conflicts :: u.conflicts[i] == local.conflicts[i]
  }

  /** Exactly the listed open conflicts of the record are closed, by this change. */
  predicate ClosedListed(local: Local, u: Local, c: Change)
    requires c.mutation.resolution.Some?
  {
    var ids := c.mutation.resolution.value.conflictIds;
    && u.conflicts.Keys == local.conflicts.Keys
    && forall i | i in local.conflicts ::
         var before := local.conflicts[i];
         if before.conflictId in ids && before.recordId == c.mutation.recordId && before.resolvedSeq.None? then
           u.conflicts[i] == before.(resolvedSeq := Some(c.sequence))
         else u.conflicts[i] == before
  }

  predicate OwnerTaken(local: Local, u: Local, c: Change) {
    && u.observations == local.observations && u.conflicts == local.conflicts && u.tombstones == local.tombstones
    && match c.mutation.recordKind
       case ProjectKind => u.sessions == local.sessions && u.projects == local.projects[c.mutation.recordId := c.canonicalVersion]
       case SessionKind =>
         && u.projects == local.projects && c.mutation.session.Some?
         && u.sessions == local.sessions[c.mutation.session.value.id := LocalSession(c.mutation.session.value.projectId, c.canonicalVersion)]
       case ObservationKind => false
  }

  ghost predicate DeletionTaken(local: Local, u: Local, c: Change)
    requires c.mutation.tombstone.Some?
  {
    var id := c.mutation.recordId;
    && id in local.observations && id in u.observations && OtherRowsStay(local, u, id)
    && u.observations[id].version == c.canonicalVersion
    && u.observations[id].body.topicKey == "" && u.observations[id].body.references == {}
    && u.observations[id].body
       == local.observations[id].body.(topicKey := u.observations[id].body.topicKey, references := u.observations[id].body.references)
    && u.tombstones == local.tombstones[c.sequence := LocalTombstone(id, c.canonicalVersion, c.mutation.tombstone.value.deletedAt)]
    && u.projects == local.projects && u.sessions == local.sessions && u.conflicts == local.conflicts
  }

  /** What a device has of a change it took. */
  ghost predicate Took(local: Local, u: Local, c: Change) {
    if c.disposition == ConflictChange then
      && Reviewed(local, u, c.mutation.recordId) && Filed(local, u, c)
      && u.projects == local.projects && u.sessions == local.sessions && u.tombstones == local.tombstones
    else
      match c.mutation.kind
      case Tombstone => c.mutation.tombstone.Some? && DeletionTaken(local, u, c)
      case Resolve =>
        && c.mutation.resolution.Some? && c.mutation.resolution.value.observation.Some?
        && ContentTaken(local, u, c.mutation.resolution.value.observation.value, c.canonicalVersion) && ClosedListed(local, u, c)
        && u.projects == local.projects && u.sessions == local.sessions && u.tombstones == local.tombstones
      case _ =>
        if c.mutation.recordKind == ObservationKind then
          c.mutation.observation.Some? && ContentTaken(local, u, c.mutation.observation.value, c.canonicalVersion) && SameTables(local, u)
        else OwnerTaken(local, u, c)
  }

  // -------------------------------------------------------------------- proofs

  lemma PlaceableIs(local: Local, o: Observation)
    ensures SurroundingsReady(local, o) && !TopicHeld(local, o.id, BodyOf(o)) <==> Placeable(local, o)
  {
    hide HasTombstone, Erased, ReferencesValid, RefersWell, TopicHeld, TopicFree;
    ErasedIs(local);
    RefersIs(local, o.id, o);
    TopicIs(local, o.id, o, o);
    assert o.(id := o.id) == o;
  }

  lemma ContentAppliesExactly(local: Local, o: Observation, kind: MutationKind, base: int, canonical: int)
    ensures var r := ApplyObservation(local, o, kind, base, canonical);
            && (r.Applied? <==>
                  && Placeable(local, o)
                  && if kind == Create then o.id !in local.observations && base == 0 && canonical == 1 else Continues(local, o, base, canonical))
            && (r.Applied? ==> ContentTaken(local, r.local, o, canonical) && SameTables(local, r.local))
  {
    hide SurroundingsReady, Placeable, TopicHeld, References, RowSays;
    PlaceableIs(local, o);
    BodySays(o, o, canonical);
  }

  lemma OpenIs(local: Local, conflictId: string, recordId: string)
    ensures HasOpenConflict(local, conflictId, recordId) <==> OpenOn(local, conflictId, recordId)
  {
    if OpenOn(local, conflictId, recordId) {
      var i :| i in local.conflicts && local.conflicts[i].conflictId == conflictId && local.conflicts[i].recordId == recordId
        && local.conflicts[i].resolvedSeq.None?;
      assert OpenConflict(local, conflictId, recordId, i);
    }
  }

  lemma ResolutionAppliesExactly(local: Local, c: Change)
    requires c.mutation.resolution.Some? && c.mutation.resolution.value.observation.Some?
    ensures var r := ApplyResolve(local, c);
            && (r.Applied? <==> ResolutionFits(local, c))
            && (r.Applied? ==>
                  && ContentTaken(local, r.local, c.mutation.resolution.value.observation.value, c.canonicalVersion) && ClosedListed(local, r.local, c)
                  && r.local.projects == local.projects && r.local.sessions == local.sessions && r.local.tombstones == local.tombstones)
  {
    hide ApplyObservation, Placeable, Continues, HasOpenConflict, OpenOn, RowSays;
    var ids := c.mutation.resolution.value.conflictIds;
    ContentAppliesExactly(local, c.mutation.resolution.value.observation.value, Update, c.mutation.baseVersion, c.canonicalVersion);
    forall k | 0 <= k < |ids| ensures HasOpenConflict(local, ids[k], c.mutation.recordId) <==> OpenOn(local, ids[k], c.mutation.recordId) {
      OpenIs(local, ids[k], c.mutation.recordId);
    }
  }

  lemma ConflictAppliesExactly(local: Local, c: Change)
    requires c.mutation.observation.Some?
    ensures var r := ApplyConflict(local, c);
            && (r.Applied? <==> ConflictFits(local, c))
            && (r.Applied? ==>
                  && Reviewed(local, r.local, c.mutation.recordId) && Filed(local, r.local, c)
                  && r.local.projects == local.projects && r.local.sessions == local.sessions && r.local.tombstones == local.tombstones)
  {
  }

  lemma DeletionAppliesExactly(local: Local, c: Change)
    requires c.mutation.tombstone.Some?
    ensures var r := ApplyTombstone(local, c);
            (r.Applied? <==> DeletionFits(local, c)) && (r.Applied? ==> DeletionTaken(local, r.local, c))
  {
  }

  /** A device takes a change if and only if it fits what the device has, and then has of it what it says. */
  lemma ChangeAppliesExactly(local: Local, c: Change)
    ensures Apply(local, c).Applied? <==> Takes(local, c)
    ensures Apply(local, c).Applied? ==> Took(local, Apply(local, c).local, c)
  {
    hide ApplyObservation, ApplyConflict, ApplyTombstone, ApplyResolve, Placeable, Continues, ConflictFits, DeletionFits, ResolutionFits,
      Reviewed, Filed, ContentTaken, ClosedListed, DeletionTaken;
    var m := c.mutation;
    if c.disposition == ConflictChange {
      if m.observation.Some? {
        ConflictAppliesExactly(local, c);
      }
    } else if m.kind == Tombstone {
      if m.tombstone.Some? {
        DeletionAppliesExactly(local, c);
      }
    } else if m.kind == Resolve {
      if m.resolution.Some? && m.resolution.value.observation.Some? {
        ResolutionAppliesExactly(local, c);
      }
    } else if m.recordKind == ObservationKind && m.observation.Some? {
      ContentAppliesExactly(local, m.observation.value, m.kind, m.baseVersion, c.canonicalVersion);
    }
  }
}
