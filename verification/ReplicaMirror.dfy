/** A device that applied a log from the start mirrors that log: one lemma per table. */
module ReplicaMirror {
  import opened Options
  import opened SyncService
  import opened Replica

  // -------------------------------------------------------- reading a log

  predicate AcceptedOf(c: Change, kind: RecordKind, id: string) {
    c.disposition != ConflictChange && c.mutation.recordKind == kind && c.mutation.recordId == id
  }

  predicate ConflictOn(c: Change, id: string) {
    c.disposition == ConflictChange && c.mutation.recordId == id
  }

  /** The last accepted change of a record. */
  function LastFor(log: seq<Change>, kind: RecordKind, id: string): Option<Change> {
    if log == [] then None
    else if AcceptedOf(log[|log| - 1], kind, id) then Some(log[|log| - 1])
    else LastFor(log[..|log| - 1], kind, id)
  }

  /** A conflict on the observation came after its last accepted change. */
  predicate FlaggedSince(log: seq<Change>, id: string) {
    if log == [] then false
    else if AcceptedOf(log[|log| - 1], ObservationKind, id) then false
    else ConflictOn(log[|log| - 1], id) || FlaggedSince(log[..|log| - 1], id)
  }

  /** An accepted change that left content: anything but a deletion. */
  predicate WrittenBy(c: Change, id: string) {
    AcceptedOf(c, ObservationKind, id) && c.mutation.kind != Tombstone
  }

  /** The last change that left content of the observation. */
  function LastWritten(log: seq<Change>, id: string): Option<Change> {
    if log == [] then None
    else if WrittenBy(log[|log| - 1], id) then Some(log[|log| - 1])
    else LastWritten(log[..|log| - 1], id)
  }

  /** A conflict on the observation came after that, before or behind its deletion. */
  predicate FlaggedSinceWritten(log: seq<Change>, id: string) {
    if log == [] then false
    else if WrittenBy(log[|log| - 1], id) then false
    else ConflictOn(log[|log| - 1], id) || FlaggedSinceWritten(log[..|log| - 1], id)
  }

  predicate Resolves(c: Change, conflictId: string, recordId: string) {
    && AcceptedOf(c, ObservationKind, recordId)
    && c.mutation.kind == Resolve && c.mutation.resolution.Some?
    && conflictId in c.mutation.resolution.value.conflictIds
  }

  /** The first resolution that lists a conflict of a record. */
  function ResolverOf(log: seq<Change>, conflictId: string, recordId: string): Option<int> {
    if log == [] then None
    else
      var earlier := ResolverOf(log[..|log| - 1], conflictId, recordId);
      if earlier.Some? then earlier
      else if Resolves(log[|log| - 1], conflictId, recordId) then Some(log[|log| - 1].sequence)
      else None
  }

  /** The live content an accepted change left. */
  function Content(m: Mutation): Option<Observation> {
    if m.kind == Resolve && m.resolution.Some? then m.resolution.value.observation else m.observation
  }

  predicate Numbered(log: seq<Change>) {
    forall k | 0 <= k < |log| :: log[k].sequence == k + 1
  }

  /** The payload of a change is about its record, as validation makes sure. */
  predicate Coherent(c: Change) {
    var m := c.mutation;
    && (c.disposition == ConflictChange ==> m.recordKind == ObservationKind && m.observation.Some? && m.kind != Tombstone && m.kind != Resolve)
    && (m.kind == Archive || m.kind == Tombstone || m.kind == Resolve ==> m.recordKind == ObservationKind)
    && (m.recordKind == SessionKind ==> m.session.Some? && m.session.value.id == m.recordId)
    && (m.recordKind == ObservationKind && m.kind != Tombstone ==> Content(m).Some? && Content(m).value.id == m.recordId)
    && (m.kind == Tombstone ==> m.tombstone.Some?)
    && (m.kind == Resolve ==> m.resolution.Some?)
  }

  // --------------------------------------------------------------- mirror

  predicate ProjectMirrors(local: Local, log: seq<Change>, id: string) {
    var last := LastFor(log, ProjectKind, id);
    && (id in local.projects <==> last.Some?)
    && (last.Some? ==> local.projects[id] == last.value.canonicalVersion)
  }

  predicate SessionMirrors(local: Local, log: seq<Change>, id: string) {
    var last := LastFor(log, SessionKind, id);
    && (id in local.sessions <==> last.Some?)
    && (last.Some? ==>
          && last.value.mutation.session.Some?
          && local.sessions[id] == LocalSession(last.value.mutation.session.value.projectId, last.value.canonicalVersion))
  }

  /** The state a row should be in: as its content says, or under review since a conflict. */
  function ExpectedState(log: seq<Change>, id: string, o: Observation): LocalState {
    if StateOf(o) == LocalActive && FlaggedSince(log, id) then LocalNeedsReview else StateOf(o)
  }

  /** A deleted row keeps what was last written, but for its topic and its references. */
  predicate DeletedRowMirrors(row: LocalObservation, log: seq<Change>, id: string) {
    var written := LastWritten(log, id);
    && row.topicKey == "" && row.references == {}
    && written.Some? && Content(written.value.mutation).Some?
    && var o := Content(written.value.mutation).value;
       row == BodyOf(o).(topicKey := "", references := {},
                         state := if StateOf(o) == LocalActive && FlaggedSinceWritten(log, id) then LocalNeedsReview else StateOf(o))
  }

  predicate ObservationMirrors(local: Local, log: seq<Change>, id: string) {
    var last := LastFor(log, ObservationKind, id);
    && (id in local.observations <==> last.Some?)
    && (last.Some? ==>
          && local.observations[id].version == last.value.canonicalVersion
          && (HasTombstone(local, id) <==> last.value.mutation.kind == Tombstone)
          && (last.value.mutation.kind != Tombstone ==>
                && Content(last.value.mutation).Some?
                && local.observations[id].body ==
                   BodyOf(Content(last.value.mutation).value).(state := ExpectedState(log, id, Content(last.value.mutation).value)))
          && (last.value.mutation.kind == Tombstone ==> DeletedRowMirrors(local.observations[id].body, log, id)))
    && (HasTombstone(local, id) ==> last.Some?)
  }

  predicate ConflictMirrors(local: Local, log: seq<Change>, i: int) {
    && (i in local.conflicts <==> 1 <= i <= |log| && log[i - 1].disposition == ConflictChange)
    && (i in local.conflicts ==>
          local.conflicts[i] ==
          NewConflict(log[i - 1]).(resolvedSeq := ResolverOf(log, log[i - 1].conflictId, log[i - 1].mutation.recordId)))
  }

  ghost predicate Mirrors(local: Local, log: seq<Change>) {
    && (forall id :: ProjectMirrors(local, log, id))
    && (forall id :: SessionMirrors(local, log, id))
    && (forall id :: ObservationMirrors(local, log, id))
    && (forall i :: ConflictMirrors(local, log, i))
    && (forall i | i in local.tombstones :: 1 <= i <= |log|)
    && (forall conflictId, recordId | ResolverOf(log, conflictId, recordId).Some? :: ConflictIdTaken(local, conflictId))
  }

  lemma LastForStep(log: seq<Change>, c: Change, kind: RecordKind, id: string)
    ensures LastFor(log + [c], kind, id) == if AcceptedOf(c, kind, id) then Some(c) else LastFor(log, kind, id)
    ensures FlaggedSince(log + [c], id) == (!AcceptedOf(c, ObservationKind, id) && (ConflictOn(c, id) || FlaggedSince(log, id)))
  {
    assert (log + [c])[..|log|] == log;
  }

  lemma LastWrittenStep(log: seq<Change>, c: Change, id: string)
    ensures LastWritten(log + [c], id) == if WrittenBy(c, id) then Some(c) else LastWritten(log, id)
    ensures FlaggedSinceWritten(log + [c], id) == (!WrittenBy(c, id) && (ConflictOn(c, id) || FlaggedSinceWritten(log, id)))
  {
    assert (log + [c])[..|log|] == log;
  }

  /** Where nothing was deleted since, the last accepted change is the last written one. */
  lemma {:induction false} LastIsWritten(log: seq<Change>, id: string)
    requires LastFor(log, ObservationKind, id).Some? && LastFor(log, ObservationKind, id).value.mutation.kind != Tombstone
    ensures LastWritten(log, id) == LastFor(log, ObservationKind, id)
    ensures FlaggedSinceWritten(log, id) == FlaggedSince(log, id)
    decreases |log|
  {
    if log != [] && !AcceptedOf(log[|log| - 1], ObservationKind, id) {
      LastIsWritten(log[..|log| - 1], id);
    }
  }

  lemma ResolverOfStep(log: seq<Change>, c: Change, conflictId: string, recordId: string)
    ensures ResolverOf(log + [c], conflictId, recordId) ==
      if ResolverOf(log, conflictId, recordId).Some? then ResolverOf(log, conflictId, recordId)
      else if Resolves(c, conflictId, recordId) then Some(c.sequence) else None
  {
    assert (log + [c])[..|log|] == log;
  }

  // ------------------------------------------------ what one change moves

  /** The tables of other kinds, and other rows of the same kind, stay as they were. */
  ghost predicate OnlyRecordMoves(a: Local, b: Local, c: Change) {
    var m := c.mutation;
    && (m.recordKind != ProjectKind ==> b.projects == a.projects)
    && (m.recordKind != SessionKind ==> b.sessions == a.sessions)
    && (m.recordKind != ObservationKind ==> b.observations == a.observations)
    && (forall id | id != m.recordId :: (id in a.projects <==> id in b.projects) && (id in a.projects ==> b.projects[id] == a.projects[id]))
    && (forall id | id != m.recordId :: (id in a.sessions <==> id in b.sessions) && (id in a.sessions ==> b.sessions[id] == a.sessions[id]))
    && (forall id | id != m.recordId ::
          (id in a.observations <==> id in b.observations) && (id in a.observations ==> b.observations[id] == a.observations[id]))
    && (b.tombstones == a.tombstones || (m.kind == Tombstone && c.disposition != ConflictChange))
  }

  lemma ConflictMovesRecord(local: Local, c: Change)
    requires Coherent(c) && c.disposition == ConflictChange && Apply(local, c).Applied?
    ensures OnlyRecordMoves(local, Apply(local, c).local, c)
  {
    hide ConflictIdTaken, ApplyObservation, ApplyProject, ApplySession, ApplyTombstone, ApplyResolve;
  }

  lemma DeletionMovesRecord(local: Local, c: Change)
    requires Coherent(c) && c.disposition != ConflictChange && c.mutation.kind == Tombstone && Apply(local, c).Applied?
    ensures OnlyRecordMoves(local, Apply(local, c).local, c)
  {
    hide ConflictIdTaken, ApplyObservation, ApplyProject, ApplySession, ApplyConflict, ApplyResolve;
  }

  lemma ObservationMovesRecord(local: Local, o: Observation, kind: MutationKind, base: int, canonical: int)
    requires ApplyObservation(local, o, kind, base, canonical).Applied?
    ensures var b := ApplyObservation(local, o, kind, base, canonical).local;
            && b == local.(observations := b.observations)
            && forall id | id != o.id ::
                 (id in local.observations <==> id in b.observations) && (id in local.observations ==> b.observations[id] == local.observations[id])
  {
    hide SurroundingsReady, TopicHeld, BodyOf, SameIdentity;
  }

  lemma ResolutionMovesRecord(local: Local, c: Change)
    requires Coherent(c) && c.disposition != ConflictChange && c.mutation.kind == Resolve && Apply(local, c).Applied?
    ensures OnlyRecordMoves(local, Apply(local, c).local, c)
  {
    hide ApplyObservation, ApplyProject, ApplySession, ApplyConflict, ApplyTombstone, HasOpenConflict, Closed;
    ObservationMovesRecord(local, c.mutation.resolution.value.observation.value, Update, c.mutation.baseVersion, c.canonicalVersion);
  }

  lemma ApplyMovesRecord(local: Local, c: Change)
    requires Coherent(c) && Apply(local, c).Applied?
    ensures OnlyRecordMoves(local, Apply(local, c).local, c)
  {
    hide ApplyObservation, ApplyConflict, ApplyTombstone, ApplyResolve;
    var m := c.mutation;
    if c.disposition == ConflictChange {
      ConflictMovesRecord(local, c);
    } else if m.kind == Tombstone {
      DeletionMovesRecord(local, c);
    } else if m.kind == Resolve {
      ResolutionMovesRecord(local, c);
    } else if m.recordKind == ObservationKind {
      ObservationMovesRecord(local, m.observation.value, m.kind, m.baseVersion, c.canonicalVersion);
    }
  }

  lemma ProjectStep(local: Local, log: seq<Change>, c: Change, id: string)
    requires ProjectMirrors(local, log, id) && Coherent(c) && Apply(local, c).Applied?
    ensures ProjectMirrors(Apply(local, c).local, log + [c], id)
  {
    hide ApplyObservation, ApplySession, ApplyConflict, ApplyTombstone, ApplyResolve;
    ApplyMovesRecord(local, c);
    LastForStep(log, c, ProjectKind, id);
  }

  lemma SessionStep(local: Local, log: seq<Change>, c: Change, id: string)
    requires SessionMirrors(local, log, id) && Coherent(c) && Apply(local, c).Applied?
    ensures SessionMirrors(Apply(local, c).local, log + [c], id)
  {
    hide ApplyObservation, ApplyProject, ApplyConflict, ApplyTombstone, ApplyResolve;
    ApplyMovesRecord(local, c);
    LastForStep(log, c, SessionKind, id);
  }

  lemma OtherTombstones(local: Local, c: Change, id: string)
    requires Coherent(c) && Apply(local, c).Applied?
    ensures HasTombstone(Apply(local, c).local, id) <==>
      HasTombstone(local, id) || (c.disposition != ConflictChange && c.mutation.kind == Tombstone && id == c.mutation.recordId)
  {
    hide SurroundingsReady, TopicHeld, BodyOf, HasOpenConflict, ConflictIdTaken, Closed, Flagged;
    var after := Apply(local, c).local;
    if c.disposition != ConflictChange && c.mutation.kind == Tombstone {
      assert c.sequence in after.tombstones;
      assert forall i | i in local.tombstones :: i in after.tombstones && after.tombstones[i] == local.tombstones[i];
    } else {
      assert after.tombstones == local.tombstones;
    }
  }

  lemma OtherObservationStep(local: Local, log: seq<Change>, c: Change, id: string)
    requires ObservationMirrors(local, log, id) && Coherent(c) && Apply(local, c).Applied?
    requires id != c.mutation.recordId || c.mutation.recordKind != ObservationKind
    ensures ObservationMirrors(Apply(local, c).local, log + [c], id)
  {
    hide Apply, BodyOf, Content, HasTombstone;
    ApplyMovesRecord(local, c);
    LastForStep(log, c, ObservationKind, id);
    LastWrittenStep(log, c, id);
    OtherTombstones(local, c, id);
  }

  lemma FlaggedObservationStep(local: Local, log: seq<Change>, c: Change)
    requires ObservationMirrors(local, log, c.mutation.recordId) && Coherent(c) && Apply(local, c).Applied?
    requires c.disposition == ConflictChange
    ensures ObservationMirrors(Apply(local, c).local, log + [c], c.mutation.recordId)
  {
    hide HasTombstone, ConflictIdTaken, References;
    LastForStep(log, c, ObservationKind, c.mutation.recordId);
    LastWrittenStep(log, c, c.mutation.recordId);
    OtherTombstones(local, c, c.mutation.recordId);
  }

  lemma DeletedObservationStep(local: Local, log: seq<Change>, c: Change)
    requires ObservationMirrors(local, log, c.mutation.recordId) && Coherent(c) && Apply(local, c).Applied?
    requires c.disposition != ConflictChange && c.mutation.kind == Tombstone
    ensures ObservationMirrors(Apply(local, c).local, log + [c], c.mutation.recordId)
  {
    hide HasTombstone, References;
    var id := c.mutation.recordId;
    LastForStep(log, c, ObservationKind, id);
    LastWrittenStep(log, c, id);
    OtherTombstones(local, c, id);
    DeletionLeaves(local, c);
    if LastFor(log, ObservationKind, id).value.mutation.kind != Tombstone {
      LastIsWritten(log, id);
    }
  }

  /** A deletion takes the row's topic and references and moves its version; every other field, row and table is as it was. */
  lemma DeletionLeaves(local: Local, c: Change)
    requires Coherent(c) && c.disposition != ConflictChange && c.mutation.kind == Tombstone && Apply(local, c).Applied?
    ensures var u := Apply(local, c).local;
            var id := c.mutation.recordId;
            && id in local.observations && u.observations.Keys == local.observations.Keys
            && u.observations[id].version == c.canonicalVersion
            && u.observations[id].body.topicKey == "" && u.observations[id].body.references == {}
            && u.observations[id].body
               == local.observations[id].body.(topicKey := u.observations[id].body.topicKey, references := u.observations[id].body.references)
            && (forall other | other in local.observations && other != id :: u.observations[other] == local.observations[other])
            && u.projects == local.projects && u.sessions == local.sessions && u.conflicts == local.conflicts
            && c.sequence !in local.tombstones
            && u.tombstones == local.tombstones[c.sequence := LocalTombstone(id, c.canonicalVersion, c.mutation.tombstone.value.deletedAt)]
  {
    hide ApplyObservation, ApplyProject, ApplySession, ApplyConflict, ApplyResolve;
  }

  lemma WrittenObservationStep(local: Local, log: seq<Change>, c: Change)
    requires ObservationMirrors(local, log, c.mutation.recordId) && Coherent(c) && Apply(local, c).Applied?
    requires c.disposition != ConflictChange && c.mutation.recordKind == ObservationKind && c.mutation.kind != Tombstone
    ensures ObservationMirrors(Apply(local, c).local, log + [c], c.mutation.recordId)
  {
    hide HasTombstone, TopicHeld, ReferencesValid, TimesStorable, HasOpenConflict, Closed, References, SameIdentity;
    LastForStep(log, c, ObservationKind, c.mutation.recordId);
    LastWrittenStep(log, c, c.mutation.recordId);
    OtherTombstones(local, c, c.mutation.recordId);
  }

  lemma ObservationStep(local: Local, log: seq<Change>, c: Change, id: string)
    requires ObservationMirrors(local, log, id) && Coherent(c) && Apply(local, c).Applied?
    ensures ObservationMirrors(Apply(local, c).local, log + [c], id)
  {
    hide Apply, ObservationMirrors;
    if id != c.mutation.recordId || c.mutation.recordKind != ObservationKind {
      OtherObservationStep(local, log, c, id);
    } else if c.disposition == ConflictChange {
      FlaggedObservationStep(local, log, c);
    } else if c.mutation.kind == Tombstone {
      DeletedObservationStep(local, log, c);
    } else {
      WrittenObservationStep(local, log, c);
    }
  }

  // ------------------------------------------------------------ conflicts

  lemma ApplyMovesConflicts(local: Local, c: Change)
    requires Coherent(c) && Apply(local, c).Applied?
    ensures c.disposition == ConflictChange ==>
      && Apply(local, c).local.conflicts == local.conflicts[c.sequence := NewConflict(c)]
      && (c.sequence !in local.conflicts ==> !ConflictIdTaken(local, c.conflictId))
      && (c.sequence in local.conflicts ==> local.conflicts[c.sequence] == NewConflict(c))
    ensures c.disposition != ConflictChange && c.mutation.kind == Resolve ==>
      && c.mutation.resolution.Some?
      && Apply(local, c).local.conflicts == Closed(local.conflicts, c.mutation.resolution.value.conflictIds, c.mutation.recordId, c.sequence)
      && forall k | 0 <= k < |c.mutation.resolution.value.conflictIds| ::
           HasOpenConflict(local, c.mutation.resolution.value.conflictIds[k], c.mutation.recordId)
    ensures c.disposition != ConflictChange && c.mutation.kind != Resolve ==> Apply(local, c).local.conflicts == local.conflicts
  {
    hide SurroundingsReady, TopicHeld, BodyOf, HasOpenConflict, ConflictIdTaken, Closed, Flagged, HasTombstone, SameIdentity;
  }

  lemma ConflictStep(local: Local, log: seq<Change>, c: Change, i: int)
    requires Mirrors(local, log) && Coherent(c) && Apply(local, c).Applied?
    requires Numbered(log) && c.sequence == |log| + 1
    ensures ConflictMirrors(Apply(local, c).local, log + [c], i)
  {
    hide Apply, ProjectMirrors, SessionMirrors, ObservationMirrors, HasTombstone, HasOpenConflict, ConflictIdTaken;
    ApplyMovesConflicts(local, c);
    assert ConflictMirrors(local, log, i) && ConflictMirrors(local, log, |log| + 1);
    if 1 <= i <= |log| && log[i - 1].disposition == ConflictChange {
      assert (log + [c])[i - 1] == log[i - 1];
      ResolverOfStep(log, c, log[i - 1].conflictId, log[i - 1].mutation.recordId);
    } else if i == |log| + 1 && c.disposition == ConflictChange {
      ResolverOfStep(log, c, c.conflictId, c.mutation.recordId);
    }
  }

  lemma ResolverStep(local: Local, log: seq<Change>, c: Change, conflictId: string, recordId: string)
    requires Mirrors(local, log) && Coherent(c) && Apply(local, c).Applied?
    requires ResolverOf(log + [c], conflictId, recordId).Some?
    ensures ConflictIdTaken(Apply(local, c).local, conflictId)
  {
    hide Apply, ProjectMirrors, SessionMirrors, ObservationMirrors, HasTombstone, ConflictMirrors;
    ResolverOfStep(log, c, conflictId, recordId);
    ApplyMovesConflicts(local, c);
    if ResolverOf(log, conflictId, recordId).None? {
      var ids := c.mutation.resolution.value.conflictIds;
      var k :| 0 <= k < |ids| && ids[k] == conflictId;
      assert HasOpenConflict(local, ids[k], c.mutation.recordId);
    }
    IdsStayTaken(local, Apply(local, c).local, c, conflictId);
  }

  lemma IdsStayTaken(a: Local, b: Local, c: Change, conflictId: string)
    requires ConflictIdTaken(a, conflictId)
    requires c.disposition == ConflictChange ==>
      b.conflicts == a.conflicts[c.sequence := NewConflict(c)] && (c.sequence in a.conflicts ==> a.conflicts[c.sequence] == NewConflict(c))
    requires c.disposition != ConflictChange ==>
      b.conflicts == a.conflicts || exists ids: seq<string>, recordId: string :: b.conflicts == Closed(a.conflicts, ids, recordId, c.sequence)
    ensures ConflictIdTaken(b, conflictId)
  {
    var i :| i in a.conflicts && a.conflicts[i].conflictId == conflictId;
    assert i in b.conflicts && b.conflicts[i].conflictId == conflictId;
  }

  lemma MirrorStep(local: Local, log: seq<Change>, c: Change)
    requires Mirrors(local, log) && Coherent(c) && Apply(local, c).Applied?
    requires Numbered(log) && c.sequence == |log| + 1
    ensures Mirrors(Apply(local, c).local, log + [c])
  {
    hide Apply, ProjectMirrors, SessionMirrors, ObservationMirrors, ConflictMirrors, ConflictIdTaken, ResolverOf, Coherent;
    var after := Apply(local, c).local;
    forall id ensures ProjectMirrors(after, log + [c], id) {
      ProjectStep(local, log, c, id);
    }
    forall id ensures SessionMirrors(after, log + [c], id) {
      SessionStep(local, log, c, id);
    }
    forall id ensures ObservationMirrors(after, log + [c], id) {
      ObservationStep(local, log, c, id);
    }
    forall i ensures ConflictMirrors(after, log + [c], i) {
      ConflictStep(local, log, c, i);
    }
    forall conflictId, recordId | ResolverOf(log + [c], conflictId, recordId).Some? ensures ConflictIdTaken(after, conflictId) {
      ResolverStep(local, log, c, conflictId, recordId);
    }
    TombstoneSequences(local, c);
  }

  lemma TombstoneSequences(local: Local, c: Change)
    requires Coherent(c) && Apply(local, c).Applied?
    ensures forall i | i in Apply(local, c).local.tombstones :: i in local.tombstones || i == c.sequence
  {
    hide SurroundingsReady, TopicHeld, BodyOf, HasOpenConflict, ConflictIdTaken, Closed, Flagged, HasTombstone, SameIdentity;
  }

  /** A successful replay mirrors the log it replayed. */
  lemma {:induction false} ReplayMirrors(log: seq<Change>)
    requires Numbered(log) && forall k | 0 <= k < |log| :: Coherent(log[k])
    requires ReplayLog(log).Applied?
    ensures Mirrors(ReplayLog(log).local, log)
    decreases |log|
  {
    hide Apply, Coherent;
    if log != [] {
      hide Mirrors;
      var n := |log| - 1;
      ReplayMirrors(log[..n]);
      MirrorStep(ReplayLog(log[..n]).local, log[..n], log[n]);
      assert log[..n] + [log[n]] == log;
    }
  }
}
