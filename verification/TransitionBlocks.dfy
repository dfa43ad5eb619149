/** When a transition cannot go on: exact conditions, and the states it does not leave. */
module TransitionBlocks {
  import opened Options
  import opened Uuids
  import opened SyncService
  import opened Replica
  import opened TransitionOrder
  import opened Transition
  import opened TransitionSafety
  import opened TransitionRuns
  import Inbox
  import Outbox

  // ------------------------------------------------------------- snapshots

  /** Every live observation of the project names only live observations of the project. */
  predicate ReferencesLive(b: Binding, local: Local) {
    forall id | id in local.observations && id in ObservationIds(b, local) ::
      local.observations[id].body.references <= ObservationIds(b, local)
  }

  function Items(b: Binding, local: Local): seq<Mutation> {
    ObservationItems(b, local, b.listing(ObservationIds(b, local)))
  }

  lemma ItemsAre(b: Binding, local: Local)
    requires ListingExact(b)
    ensures Lists(b.listing(ObservationIds(b, local)), ObservationIds(b, local))
    ensures forall i | 0 <= i < |Items(b, local)| ::
      && b.listing(ObservationIds(b, local))[i] in local.observations
      && Items(b, local)[i] == ObservationSnapshot(b, b.listing(ObservationIds(b, local))[i],
                                                   local.observations[b.listing(ObservationIds(b, local))[i]].body)
  {
    hide HasTombstone, ObservationSnapshot;
    var ids := b.listing(ObservationIds(b, local));
    assert Lists(ids, ObservationIds(b, local));
    assert forall i | 0 <= i < |ids| :: ids[i] in ids;
  }

  lemma PresentIsLive(b: Binding, local: Local, id: string)
    requires ListingExact(b)
    ensures Present(Items(b, local), id) <==> id in ObservationIds(b, local)
  {
    hide HasTombstone, ObservationIds;
    ItemsAre(b, local);
    var ids := b.listing(ObservationIds(b, local));
    if id in ObservationIds(b, local) {
      var i :| 0 <= i < |ids| && ids[i] == id;
      assert Items(b, local)[i].recordId == id;
    }
  }

  lemma ItemReferences(b: Binding, local: Local, i: int)
    requires ListingExact(b) && 0 <= i < |Items(b, local)|
    ensures var id := b.listing(ObservationIds(b, local))[i];
            && id in local.observations && id in ObservationIds(b, local)
            && Lists(RefsOf(Items(b, local)[i]), local.observations[id].body.references)
  {
    hide ObservationIds;
    ItemsAre(b, local);
    var ids := b.listing(ObservationIds(b, local));
    assert ids[i] in ids;
  }

  /** The items are well formed exactly when no id is empty and every reference is live. */
  lemma ItemsWellFormed(b: Binding, local: Local)
    requires ListingExact(b)
    ensures WellFormed(Items(b, local)) <==> "" !in ObservationIds(b, local) && ReferencesLive(b, local)
  {
    hide ObservationIds, Present, Items;
    ItemsAre(b, local);
    var items := Items(b, local);
    var ids := b.listing(ObservationIds(b, local));
    ItemNames(b, local);
    if "" !in ObservationIds(b, local) && ReferencesLive(b, local) {
      forall i, k | 0 <= i < |items| && 0 <= k < |RefsOf(items[i])| ensures Present(items, RefsOf(items[i])[k]) {
        ItemReferences(b, local, i);
        assert RefsOf(items[i])[k] in RefsOf(items[i]);
        PresentIsLive(b, local, RefsOf(items[i])[k]);
      }
      forall i | 0 <= i < |items| ensures TransitionOrder.Identified(items[i]) {
        assert ids[i] in ids;
      }
    }
    if WellFormed(items) {
      forall id, r | id in local.observations && id in ObservationIds(b, local) && r in local.observations[id].body.references
        ensures r in ObservationIds(b, local)
      {
        var i :| 0 <= i < |ids| && ids[i] == id;
        ItemReferences(b, local, i);
        assert r in RefsOf(items[i]);
        var k :| 0 <= k < |RefsOf(items[i])| && RefsOf(items[i])[k] == r;
        PresentIsLive(b, local, r);
      }
      forall i | 0 <= i < |ids| ensures ids[i] != "" {
        assert TransitionOrder.Identified(items[i]);
      }
    }
  }

  lemma ItemNames(b: Binding, local: Local)
    requires ListingExact(b)
    ensures |Items(b, local)| == |b.listing(ObservationIds(b, local))| && IdsDistinct(Items(b, local))
    ensures forall i | 0 <= i < |Items(b, local)| ::
      && Items(b, local)[i].recordId == b.listing(ObservationIds(b, local))[i]
      && Items(b, local)[i].observation.Some? && Items(b, local)[i].observation.value.id == Items(b, local)[i].recordId
  {
    hide HasTombstone, ObservationIds;
    ItemsAre(b, local);
  }

  /**
   A project can be snapshotted if and only if it exists, its live observations refer
   only to each other, and their references have no cycle.
   */
  lemma SnapshotsExactly(b: Binding, local: Local)
    requires ListingExact(b)
    ensures Snapshots(b, local).Some? <==>
            && b.project in local.projects
            && "" !in ObservationIds(b, local) && ReferencesLive(b, local)
            && !exists walk :: Cycle(Items(b, local), walk)
  {
    hide ObservationIds, ReferencesLive, Topological, Cycle, LexAtMost;
    ItemsWellFormed(b, local);
    var items := Items(b, local);
    if WellFormed(items) {
      OrderableExactly(items);
      if exists other :: Topological(items, other) {
        var order := LeastExists(items);
      }
    }
  }

  lemma LeastExists(items: seq<Mutation>) returns (order: seq<int>)
    requires WellFormed(items) && exists other :: Topological(items, other)
    ensures LeastOrder(items, order)
  {
    hide Topological, Greedy, Stuck, WellFormed;
    NothingPlaced(items);
    order := GreedyOrder(items, []);
    if |order| < |items| {
      var other :| Topological(items, other);
      OrderIsNeverStuck(items, Elements(order), other);
      assert false;
    }
    GreedyIsTopological(items, order);
    forall other | Topological(items, other) ensures LexAtMost(order, other) {
      GreedyIsLeast(items, order, other);
    }
  }

  lemma NothingPlaced(items: seq<Mutation>)
    ensures Greedy(items, [])
  {
  }

  /** A reference to an observation deleted elsewhere keeps the project out of every transition, and in one that is pulling. */
  lemma DeletedReferenceBlocks(b: Binding, s: ProjectSync, id: string, r: string, e: Event)
    requires ListingExact(b) && Fits(b, e) && (e.PrepareEvent? || e.FinalizeEvent?)
    requires id in s.local.observations && id in ObservationIds(b, s.local)
    requires r in s.local.observations[id].body.references && HasTombstone(s.local, r)
    requires e.FinalizeEvent? ==> s.transition.Some? && s.transition.value.status == Pulling
    ensures Attempt(b, s, e).None?
  {
    hide HasTombstone, EnqueueAll, PublishUnseen, Recover, Generation;
    assert r !in ObservationIds(b, s.local);
    SnapshotsExactly(b, s.local);
  }

  /** The snapshot list puts every observation behind the ones it names. */
  lemma SnapshotsInOrder(b: Binding, local: Local, i: int, r: string)
    requires ListingExact(b) && Snapshots(b, local).Some?
    requires 0 <= i < |Snapshots(b, local).value| && r in RefsOf(Snapshots(b, local).value[i])
    ensures exists j :: 0 <= j < i && KeyOf(Snapshots(b, local).value[j]) == Key(ObservationKind, r)
  {
    hide LeastOrder, Snapshots, ListingExact, SessionItems, Items, ObservationItems, RefsOf;
    var order := SnapshotOrder(b, local);
    var items := ObservationItems(b, local, b.listing(ObservationIds(b, local)));
    assert items == Items(b, local) by { ItemsDefined(b, local); }
    LeastOrderIndices(items, order);
    ReferencesBehind(b, local, items, order, SessionItems(b, b.listing(SessionIds(b, local))), i, r);
  }

  lemma ItemsDefined(b: Binding, local: Local)
    ensures Items(b, local) == ObservationItems(b, local, b.listing(ObservationIds(b, local)))
  {
    hide ObservationItems;
  }

  lemma ReferencesBehind(b: Binding, local: Local, items: seq<Mutation>, order: seq<int>, sessions: seq<Mutation>, i: int, r: string)
    requires ListingExact(b) && Snapshots(b, local).Some? && items == Items(b, local) && LeastOrder(items, order)
    requires forall p | 0 <= p < |order| :: 0 <= order[p] < |items|
    requires sessions == SessionItems(b, b.listing(SessionIds(b, local)))
    requires var list := [ProjectSnapshot(b)] + sessions + Pick(items, order); 0 <= i < |list| && r in RefsOf(list[i])
    ensures var list := [ProjectSnapshot(b)] + sessions + Pick(items, order);
            exists j :: 0 <= j < i && KeyOf(list[j]) == Key(ObservationKind, r)
  {
    hide LeastOrder, Snapshots, ListingExact, Items;
    var picked := Pick(items, order);
    var list := [ProjectSnapshot(b)] + sessions + picked;
    var n := 1 + |sessions|;
    ListParts(b, sessions, picked, i);
    if i >= n {
      var p := i - n;
      OrderedReference(b, local, items, order, p, r);
      var q :| 0 <= q < p && items[order[q]].recordId == r;
      ListParts(b, sessions, picked, n + q);
      assert KeyOf(list[n + q]) == Key(ObservationKind, r);
    }
  }

  lemma ListParts(b: Binding, sessions: seq<Mutation>, picked: seq<Mutation>, i: int)
    requires 0 <= i < 1 + |sessions| + |picked|
    requires forall p | 0 <= p < |sessions| :: sessions[p].observation.None?
    ensures var list := [ProjectSnapshot(b)] + sessions + picked;
            && (i <= |sessions| ==> RefsOf(list[i]) == [])
            && (i > |sessions| ==> list[i] == picked[i - 1 - |sessions|])
  {
  }

  lemma OrderedReference(b: Binding, local: Local, items: seq<Mutation>, order: seq<int>, p: int, r: string)
    requires ListingExact(b) && items == Items(b, local) && Snapshots(b, local).Some? && LeastOrder(items, order)
    requires 0 <= p < |order| && 0 <= order[p] < |items| && r in RefsOf(items[order[p]])
    ensures forall q | 0 <= q < |order| :: 0 <= order[q] < |items| && items[order[q]].recordKind == ObservationKind
    ensures exists q :: 0 <= q < p && items[order[q]].recordId == r
  {
    hide ObservationIds, LexAtMost, Items;
    ItemsAre(b, local);
    LeastOrderIndices(items, order);
    assert WellFormed(items) by { SnapshotsWellFormed(b, local); }
    var k :| 0 <= k < |RefsOf(items[order[p]])| && RefsOf(items[order[p]])[k] == r;
    assert Present(items, r);
    var j :| 0 <= j < |items| && items[j].recordId == r;
    assert Needs(items, order[p], j);
    assert j in order[..p];
  }

  lemma SnapshotsWellFormed(b: Binding, local: Local)
    requires Snapshots(b, local).Some?
    ensures WellFormed(Items(b, local))
  {
    hide WellFormed, LeastOrder;
  }

  // ------------------------------------------------------------- finalizing

  /** While pulling, no unseen record is found changed or gone: only a missing remote project, the order or the queue can refuse. */
  lemma NeverFoundChanged(b: Binding, s: ProjectSync, key: Key)
    requires ListingExact(b) && TransitionValid(b, s) && InProgress(s) && Snapshots(b, s.local).Some? && Unseen(s, key)
    ensures exists i :: 0 <= i < |Snapshots(b, s.local).value| && Snapshots(b, s.local).value[i] == s.records[key].payload
  {
    hide Snapshots, SnapshotNow, VersionOf;
    SnapshotsCover(b, s.local);
    PartsOfValid(b, s);
    var list := Snapshots(b, s.local).value;
    assert SnapshotNow(b, s.local, key) == Some(s.records[key].payload);
    var i :| 0 <= i < |list| && KeyOf(list[i]) == key;
  }

  // ----------------------------------------------------------- global pulls

  /** An accepted change puts its record on the next version. */
  lemma AcceptedMovesVersion(b: Binding, local: Local, c: Change)
    requires AboutRecord(b, c) && c.disposition != ConflictChange && Apply(local, c).Applied? && OfProject(b, local, KeyOf(c.mutation))
    ensures VersionOf(Apply(local, c).local, KeyOf(c.mutation)) == VersionOf(local, KeyOf(c.mutation)) + 1
  {
    hide HasTombstone, TopicHeld, ReferencesValid, SameIdentity, TimesStorable, HasOpenConflict, Closed;
  }

  /** The content a change brings for an observation. */
  function Content(m: Mutation): Option<Observation> {
    if m.kind != Resolve then m.observation else if m.resolution.Some? then m.resolution.value.observation else None
  }

  /**
   What a globally pulled change may be to a snapshotted record: a conflict on a row already under
   review or archived, or an accepted change of a record not echoed yet that repeats its content.
   */
  predicate Unnoticed(s: ProjectSync, c: Change) {
    var key := KeyOf(c.mutation);
    && key in s.records
    && if c.disposition == ConflictChange then key.id in s.local.observations && s.local.observations[key.id].body.state != LocalActive
       else
         && !s.records[key].seen
         && (key.kind == ObservationKind ==>
               && c.mutation.kind != Tombstone && Content(c.mutation).Some? && key.id in s.local.observations
               && BodyOf(Content(c.mutation).value) == s.local.observations[key.id].body)
  }

  /**
   A global pull does not ask whether a project is in transition. Exactly: the transition holds
   afterwards if and only if the change is about a record outside the snapshot, or goes unnoticed.
   */
  lemma GlobalChangeKeepsExactly(b: Binding, s: ProjectSync, c: Change)
    requires ListingExact(b) && TransitionValid(b, s) && InProgress(s) && AboutRecord(b, c) && Apply(s.local, c).Applied?
    ensures TransitionValid(b, s.(local := Apply(s.local, c).local)) <==> KeyOf(c.mutation) !in s.records || Unnoticed(s, c)
  {
    hide Apply, SnapshotNow, VersionOf, QueueOfSnapshot, OfProject, AboutRecord, Unnoticed, ListingExact;
    var u := s.(local := Apply(s.local, c).local);
    var key := KeyOf(c.mutation);
    forall k | k in s.records && k != key ensures SameRecord(b, s.local, u.local, k) {
      ApplyTouchesItself(b, s.local, c, k);
    }
    if key in s.records {
      SnapshottedIsOfProject(b, s.local, key);
      OwnRecordExactly(b, s, c);
    }
  }

  /** The record the change is about: still as snapshotted, and still on its version if it was echoed. */
  lemma OwnRecordExactly(b: Binding, s: ProjectSync, c: Change)
    requires ListingExact(b) && AboutRecord(b, c) && Apply(s.local, c).Applied? && KeyOf(c.mutation) in s.records
    requires SnapshotNow(b, s.local, KeyOf(c.mutation)) == Some(s.records[KeyOf(c.mutation)].payload)
    requires s.records[KeyOf(c.mutation)].seen ==> VersionOf(s.local, KeyOf(c.mutation)) == 1
    ensures var key := KeyOf(c.mutation);
            var after := Apply(s.local, c).local;
            SnapshotNow(b, after, key) == Some(s.records[key].payload) && (s.records[key].seen ==> VersionOf(after, key) == 1) <==> Unnoticed(s, c)
  {
    hide ListingExact, AboutRecord, Apply, SnapshotNow, VersionOf;
    var key := KeyOf(c.mutation);
    SnapshottedIsOfProject(b, s.local, key);
    if c.disposition == ConflictChange {
      ConflictNoticed(b, s.local, c);
    } else {
      AcceptedMovesVersion(b, s.local, c);
      if key.kind == ObservationKind {
        if c.mutation.kind == Tombstone {
          DeletionNoticed(b, s.local, c);
        } else {
          ContentNoticed(b, s.local, c);
        }
      } else {
        IdentityUnnoticed(b, s.local, c);
      }
    }
  }

  lemma ConflictNoticed(b: Binding, local: Local, c: Change)
    requires AboutRecord(b, c) && c.disposition == ConflictChange && Apply(local, c).Applied?
    requires SnapshotNow(b, local, KeyOf(c.mutation)).Some?
    ensures var key := KeyOf(c.mutation);
            var after := Apply(local, c).local;
            && key.id in local.observations && VersionOf(after, key) == VersionOf(local, key)
            && (SnapshotNow(b, after, key) == SnapshotNow(b, local, key) <==> local.observations[key.id].body.state != LocalActive)
  {
    hide ConflictIdTaken;
    SameTombstones(local, Apply(local, c).local);
    hide HasTombstone;
  }

  lemma DeletionNoticed(b: Binding, local: Local, c: Change)
    requires AboutRecord(b, c) && c.disposition != ConflictChange && c.mutation.kind == Tombstone && Apply(local, c).Applied?
    ensures SnapshotNow(b, Apply(local, c).local, KeyOf(c.mutation)).None?
  {
    var after := Apply(local, c).local;
    assert c.sequence in after.tombstones && after.tombstones[c.sequence].recordId == c.mutation.recordId;
  }

  /** What was pulled is snapshotted as it came, but for the order of its references and the review of what is archived. */
  lemma PulledIsSnapshotted(b: Binding, o: Observation)
    requires ListingExact(b) && o.lifecycle != Tombstoned
    ensures var m := ObservationSnapshot(b, o.id, BodyOf(o));
            && m.kind == Create && m.recordKind == ObservationKind && m.recordId == o.id && m.observation.Some?
            && (forall r :: r in m.observation.value.references <==> r in o.references)
            && Distinct(m.observation.value.references)
            && m.observation.value
               == o.(references := m.observation.value.references, review := if o.lifecycle == Archived then Clear else o.review)
  {
    var ids := b.listing(References(o.references));
    assert Lists(ids, References(o.references));
  }

  /** Two rows that give the same snapshot are the same. */
  lemma SnapshotTellsRows(b: Binding, id: string, row: LocalObservation, other: LocalObservation)
    requires ListingExact(b)
    ensures ObservationSnapshot(b, id, row) == ObservationSnapshot(b, id, other) <==> row == other
  {
    assert Lists(b.listing(row.references), row.references) && Lists(b.listing(other.references), other.references);
    if ObservationSnapshot(b, id, row) == ObservationSnapshot(b, id, other) {
      hide ListingExact;
      var o := ObservationSnapshot(b, id, row).observation.value;
      assert o.references == b.listing(row.references) == b.listing(other.references);
      assert row.references == other.references;
      assert row.state == other.state;
    }
  }

  lemma ContentNoticed(b: Binding, local: Local, c: Change)
    requires ListingExact(b) && AboutRecord(b, c) && c.disposition != ConflictChange && c.mutation.kind != Tombstone
    requires c.mutation.recordKind == ObservationKind && Apply(local, c).Applied? && SnapshotNow(b, local, KeyOf(c.mutation)).Some?
    ensures var key := KeyOf(c.mutation);
            && Content(c.mutation).Some? && key.id in local.observations
            && (SnapshotNow(b, Apply(local, c).local, key) == SnapshotNow(b, local, key) <==>
                  BodyOf(Content(c.mutation).value) == local.observations[key.id].body)
  {
    hide ListingExact, BodyOf, ObservationSnapshot;
    var key := KeyOf(c.mutation);
    var after := Apply(local, c).local;
    AppliedRow(b, local, c);
    SameTombstones(local, after);
    hide HasTombstone, Apply;
    SnapshotTellsRows(b, key.id, local.observations[key.id].body, after.observations[key.id].body);
  }

  /** The row an accepted change of an observation leaves. */
  lemma AppliedRow(b: Binding, local: Local, c: Change)
    requires AboutRecord(b, c) && c.disposition != ConflictChange && c.mutation.kind != Tombstone && c.mutation.recordKind == ObservationKind
    requires c.mutation.recordId in local.observations && Apply(local, c).Applied?
    ensures var after := Apply(local, c).local;
            && Content(c.mutation).Some? && c.mutation.recordId in after.observations && after.tombstones == local.tombstones
            && after.observations[c.mutation.recordId].body == BodyOf(Content(c.mutation).value)
            && after.observations[c.mutation.recordId].body.projectId == local.observations[c.mutation.recordId].body.projectId
  {
    hide HasTombstone, TopicHeld, ReferencesValid, TimesStorable, HasOpenConflict, Closed, References;
  }

  lemma IdentityUnnoticed(b: Binding, local: Local, c: Change)
    requires AboutRecord(b, c) && c.disposition != ConflictChange && c.mutation.recordKind != ObservationKind
    requires Apply(local, c).Applied? && SnapshotNow(b, local, KeyOf(c.mutation)).Some?
    ensures SnapshotNow(b, Apply(local, c).local, KeyOf(c.mutation)) == SnapshotNow(b, local, KeyOf(c.mutation))
  {
    hide HasTombstone, ObservationSnapshot;
  }

  lemma SnapshottedIsOfProject(b: Binding, local: Local, key: Key)
    requires SnapshotNow(b, local, key).Some?
    ensures OfProject(b, local, key)
  {
    hide HasTombstone, ObservationSnapshot;
  }

  /** A change of a record of this project, or of another project's own record. */
  predicate AboutItself(b: Binding, c: Change) {
    AboutRecord(b, c) || (c.mutation.recordKind == ProjectKind && c.mutation.recordId != b.project && AboutRecord(b.(project := c.mutation.recordId), c))
  }

  lemma ForeignProjectUntouched(b: Binding, local: Local, c: Change, key: Key)
    requires c.mutation.recordKind == ProjectKind && c.mutation.recordId != b.project && AboutRecord(b.(project := c.mutation.recordId), c)
    requires Apply(local, c).Applied? && (key.kind == ProjectKind ==> key.id == b.project)
    ensures SameRecord(b, local, Apply(local, c).local, key)
  {
    hide ObservationSnapshot;
    SameTombstones(local, Apply(local, c).local);
    hide HasTombstone;
  }

  /** An accepted resolution: the one change that is applied over work of others, and rebases what is queued. */
  predicate Resolves(c: Change) {
    c.disposition != ConflictChange && c.mutation.kind == Resolve
  }

  /** rebasePendingConflictOutbox on the first k entries: of the record only the newest stays, on the version. */
  function RebasedRecord(queue: seq<Mutation>, key: Key, version: int, k: nat): seq<Mutation>
    requires k <= |queue|
  {
    if k == 0 then []
    else
      RebasedRecord(queue, key, version, k - 1)
      + if KeyOf(queue[k - 1]) != key then [queue[k - 1]]
        else if NewestOf(queue, k - 1) then [Outbox.Rebased(queue[k - 1], version)]
        else []
  }

  predicate RebaseFits(queue: seq<Mutation>, key: Key, version: int) {
    forall i | 0 <= i < |queue| && KeyOf(queue[i]) == key && NewestOf(queue, i) :: ValidateMutation(Outbox.Rebased(queue[i], version)) == Valid
  }

  datatype Pulled = Held | Skipped | Took(s: ProjectSync)

  /**
   One change of a global page, as applyPulledPage takes it: held back when its receipt contradicts
   it or while work of others is queued on its record, skipped when it is the device's own, and
   otherwise applied. claimed: a queued entry of the record is leased. Global ids are local ids.
   */
  function GlobalChange(s: ProjectSync, c: Change, claimed: bool): Pulled {
    var key := KeyOf(c.mutation);
    var own := OwnReceipt(s.receipts, c);
    if own.None? then Held
    else if IsQueued(s.queue, key) && !own.value && c.mutation.kind != Resolve then Held
    else if own.value && c.disposition != ConflictChange then Skipped
    else if Apply(s.local, c).NotApplied? then Held
    else if Resolves(c) then
      if (claimed && IsQueued(s.queue, key)) || !RebaseFits(s.queue, key, c.canonicalVersion) then Held
      else Took(s.(local := Apply(s.local, c).local, queue := RebasedRecord(s.queue, key, c.canonicalVersion, |s.queue|)))
    else Took(s.(local := Apply(s.local, c).local))
  }

  /** The global inbox's own loop takes a change exactly so, where no queued work is rebased. */
  lemma GlobalFollowsInbox(s: ProjectSync, c: Change, claimed: bool, d: Inbox.Durable, historyId: string, position: int)
    requires d.local == s.local && c.sequence == position + 1 && Inbox.InboxKey(historyId, c.sequence) !in d.inbox
    requires Resolves(c) ==> !IsQueued(s.queue, KeyOf(c.mutation))
    ensures var r := GlobalChange(s, c, claimed);
            Inbox.ApplyChanges(d, historyId, [c], position, Inbox.DefaultPage, (x: Change) => IsQueued(s.queue, KeyOf(x.mutation)),
                               (x: Change) => OwnReceipt(s.receipts, x), false)
            == if r.Held? then Inbox.Broken
               else
                 Inbox.Stopped(d.(local := if r.Took? then r.s.local else s.local, inbox := d.inbox[Inbox.InboxKey(historyId, c.sequence) := c.changeHash]),
                               c.sequence, true, false)
  {
    hide Apply, IsQueued, OwnReceipt;
    assert [c][1..] == [];
    if Resolves(c) {
      NothingToRebase(s.queue, KeyOf(c.mutation), c.canonicalVersion, |s.queue|);
    }
  }

  lemma {:induction false} NothingToRebase(queue: seq<Mutation>, key: Key, version: int, k: nat)
    requires k <= |queue| && !IsQueued(queue, key)
    ensures RebasedRecord(queue, key, version, k) == queue[..k] && RebaseFits(queue, key, version)
  {
    hide ValidateMutation;
    if k > 0 {
      NothingToRebase(queue, key, version, k - 1);
    }
  }

  lemma {:induction false} NewestIsRebased(queue: seq<Mutation>, key: Key, version: int, i: int, k: nat)
    requires 0 <= i < k <= |queue| && KeyOf(queue[i]) == key && NewestOf(queue, i)
    ensures Outbox.Rebased(queue[i], version) in RebasedRecord(queue, key, version, k)
  {
    hide Outbox.Rebased;
    if i < k - 1 {
      NewestIsRebased(queue, key, version, i, k - 1);
    }
  }

  /** A rebased entry is no longer the creation that was snapshotted. */
  lemma RebasedIsNoSnapshot(b: Binding, s: ProjectSync, key: Key, version: int)
    requires RecordsNamed(b, s) && QueueOfSnapshot(s.records, s.queue) && IsQueued(s.queue, key)
    ensures !QueueOfSnapshot(s.records, RebasedRecord(s.queue, key, version, |s.queue|))
  {
    var i :| 0 <= i < |s.queue| && KeyOf(s.queue[i]) == key;
    assert NewestOf(s.queue, i);
    NewestIsRebased(s.queue, key, version, i, |s.queue|);
    var rebased := RebasedRecord(s.queue, key, version, |s.queue|);
    var j :| 0 <= j < |rebased| && rebased[j] == Outbox.Rebased(s.queue[i], version);
    assert rebased[j].kind != Create && KeyOf(rebased[j]) == key;
  }

  /** What happens to a project: its own operations, and the changes of global pages. */
  datatype Visit = Scoped(e: Event) | Global(c: Change, claimed: bool)

  ghost predicate VisitFits(b: Binding, v: Visit) {
    match v
    case Scoped(e) => Fits(b, e)
    case Global(c, _) => AboutItself(b, c)
  }

  ghost function Visited(b: Binding, s: ProjectSync, v: Visit): ProjectSync
    requires VisitFits(b, v)
  {
    match v
    case Scoped(e) => Step(b, s, e)
    case Global(c, claimed) => var r := GlobalChange(s, c, claimed); if r.Took? then r.s else s
  }

  /**
   A global change that the transition in progress does not survive: it is taken, its record is
   snapshotted, and it changes what the snapshot shows or rebases the snapshot's entry.
   */
  predicate Noticed(b: Binding, s: ProjectSync, v: Visit) {
    && v.Global? && InProgress(s) && GlobalChange(s, v.c, v.claimed).Took?
    && KeyOf(v.c.mutation) in s.records && AboutRecord(b, v.c)
    && (!Unnoticed(s, v.c) || (Resolves(v.c) && IsQueued(s.queue, KeyOf(v.c.mutation))))
  }

  lemma SnapshotIsOwn(b: Binding, s: ProjectSync, key: Key)
    requires TransitionValid(b, s) && InProgress(s) && key in s.records && key.kind == ProjectKind
    ensures key.id == b.project
  {
    hide QueueOfSnapshot, VersionOf, CursorValid;
    assert SnapshotNow(b, s.local, key).Some?;
  }

  lemma OnlySnapshotsQueued(b: Binding, s: ProjectSync, key: Key)
    requires TransitionValid(b, s) && InProgress(s) && key !in s.records
    ensures !IsQueued(s.queue, key)
  {
    hide RecordsNamed, RecordsKept, CursorValid;
  }

  /** A change that is taken: its queue is as it was unless a resolution rebases it. */
  lemma TakenExactly(b: Binding, s: ProjectSync, c: Change, claimed: bool)
    requires ListingExact(b) && TransitionValid(b, s) && InProgress(s) && AboutRecord(b, c) && GlobalChange(s, c, claimed).Took?
    ensures TransitionValid(b, GlobalChange(s, c, claimed).s) <==> !Noticed(b, s, Global(c, claimed))
  {
    hide ListingExact, Apply, SnapshotNow, VersionOf, AboutRecord, Unnoticed, QueueOfSnapshot, RecordsNamed, RecordsKept, IsQueued, OwnReceipt, RebaseFits,
      CursorReadable, InboxWithin, RebasedRecord;
    var key := KeyOf(c.mutation);
    GlobalChangeKeepsExactly(b, s, c);
    if key !in s.records {
      OnlySnapshotsQueued(b, s, key);
    }
    if Resolves(c) {
      if IsQueued(s.queue, key) {
        RebasedIsNoSnapshot(b, s, key, c.canonicalVersion);
      } else {
        NothingToRebase(s.queue, key, c.canonicalVersion, |s.queue|);
        assert s.queue[..|s.queue|] == s.queue;
      }
    }
  }

  lemma VisitKeepsValidExactly(b: Binding, s: ProjectSync, v: Visit)
    requires ListingExact(b) && TransitionValid(b, s) && VisitFits(b, v)
    ensures TransitionValid(b, Visited(b, s, v)) <==> !Noticed(b, s, v)
  {
    hide ListingExact, Step, TransitionValid, GlobalChange, AboutRecord, Unnoticed, IsQueued;
    match v
    case Scoped(e) => StepKeepsValid(b, s, e);
    case Global(c, claimed) =>
      if GlobalChange(s, c, claimed).Took? {
        if !InProgress(s) {
          IdleIsFree(b, s, c, claimed);
        } else if AboutRecord(b, c) {
          TakenExactly(b, s, c, claimed);
        } else {
          ForeignIsFree(b, s, c, claimed);
        }
      }
  }

  lemma ForeignIsFree(b: Binding, s: ProjectSync, c: Change, claimed: bool)
    requires TransitionValid(b, s) && InProgress(s) && GlobalChange(s, c, claimed).Took?
    requires c.mutation.recordKind == ProjectKind && c.mutation.recordId != b.project && AboutRecord(b.(project := c.mutation.recordId), c)
    ensures TransitionValid(b, GlobalChange(s, c, claimed).s)
  {
    hide Apply, SnapshotNow, VersionOf, QueueOfSnapshot, RecordsNamed, IsQueued, OwnReceipt, CursorValid;
    forall k | k in s.records ensures SameRecord(b, s.local, Apply(s.local, c).local, k) {
      if k.kind == ProjectKind {
        SnapshotIsOwn(b, s, k);
      }
      ForeignProjectUntouched(b, s.local, c, k);
    }
    SameRecordsValid(b, s, Apply(s.local, c).local);
  }

  lemma IdleIsFree(b: Binding, s: ProjectSync, c: Change, claimed: bool)
    requires TransitionValid(b, s) && !InProgress(s) && GlobalChange(s, c, claimed).Took?
    ensures TransitionValid(b, GlobalChange(s, c, claimed).s)
  {
    hide QueueOfSnapshot, SnapshotNow, VersionOf, Apply, IsQueued, OwnReceipt, RebasedRecord, RebaseFits;
  }

  lemma SameRecordsValid(b: Binding, s: ProjectSync, local: Local)
    requires TransitionValid(b, s) && forall k | k in s.records :: SameRecord(b, s.local, local, k)
    ensures TransitionValid(b, s.(local := local))
  {
    hide QueueOfSnapshot, SnapshotNow, VersionOf;
  }

  /**
   Over any run of a project's operations with global pulls in between, the transition holds in
   every state if and only if no global change that is taken is noticed: every other run keeps
   contents as snapshotted and echoed records on their version.
   */
  lemma {:induction false} VisitsKeepValidExactly(b: Binding, states: seq<ProjectSync>, visits: seq<Visit>)
    requires ListingExact(b) && |states| == |visits| + 1 && TransitionValid(b, states[0])
    requires forall k | 0 <= k < |visits| :: VisitFits(b, visits[k]) && states[k + 1] == Visited(b, states[k], visits[k])
    ensures (forall k | 0 <= k < |states| :: TransitionValid(b, states[k])) <==>
      forall k | 0 <= k < |visits| :: !Noticed(b, states[k], visits[k])
    decreases |visits|
  {
    hide ListingExact, TransitionValid, Visited, VisitFits, Noticed;
    if visits != [] {
      var n := |visits| - 1;
      var front := states[..n + 1];
      VisitsKeepValidExactly(b, front, visits[..n]);
      assert forall k | 0 <= k < n :: visits[..n][k] == visits[k] && front[k] == states[k];
      if forall k | 0 <= k < |visits| :: !Noticed(b, states[k], visits[k]) {
        assert TransitionValid(b, front[n]);
        VisitKeepsValidExactly(b, states[n], visits[n]);
        forall k | 0 <= k < |states| ensures TransitionValid(b, states[k]) {
          if k <= n {
            assert TransitionValid(b, front[k]);
          }
        }
      }
      if forall k | 0 <= k < |states| :: TransitionValid(b, states[k]) {
        forall k | 0 <= k < |front| ensures TransitionValid(b, front[k]) {
          assert front[k] == states[k];
        }
        VisitKeepsValidExactly(b, states[n], visits[n]);
        assert TransitionValid(b, states[n + 1]) && !Noticed(b, states[n], visits[n]);
        forall k | 0 <= k < |visits| ensures !Noticed(b, states[k], visits[k]) {
          if k < n {
            assert !Noticed(b, front[k], visits[..n][k]);
          }
        }
      }
    }
  }

  // --------------------------------------------------------- echoes and results

  /** An accepted result that fits an entry is recorded if and only if the record is still on version 0. */
  lemma AcceptedIsRecordedExactly(b: Binding, s: ProjectSync, i: int, result: Result, identity: Time)
    requires TransitionValid(b, s) && InProgress(s) && 0 <= i < |s.queue| && MayAct(s, identity)
    requires FinalResult(result) && Outbox.IsAccepted(result) && result.version == 1 && result.mutationId == s.queue[i].mutationId
    requires s.queue[i].mutationId !in s.receipts && !Outbox.SequenceTaken(s.receipts, result.sequence)
    ensures RecordResult(s, i, result, identity).Some? <==> VersionOf(s.local, KeyOf(s.queue[i])) == 0
    ensures s.records[KeyOf(s.queue[i])].seen ==> RecordResult(s, i, result, identity).None?
  {
    hide VersionOf, WithVersion, SnapshotNow, RecordsNamed, FinalResult, Outbox.SequenceTaken, MayAct, Rest;
    PartsOfValid(b, s);
    QueuedIsSnapshot(s, i);
    NamedBase(b, s, KeyOf(s.queue[i]));
  }

  lemma NamedBase(b: Binding, s: ProjectSync, key: Key)
    requires RecordsNamed(b, s) && key in s.records
    ensures s.records[key].payload.baseVersion == 0
  {
  }

  /** An entry whose echo arrived before its result. */
  predicate Stranded(s: ProjectSync, key: Key) {
    InProgress(s) && key in s.records && s.records[key].seen && IsQueued(s.queue, key)
  }

  /** The result of an entry of the record that is not an acceptance. */
  predicate Unaccepted(s: ProjectSync, e: Event, key: Key) {
    e.ResultEvent? && 0 <= e.index < |s.queue| && KeyOf(s.queue[e.index]) == key && !Outbox.IsAccepted(e.result)
  }

  lemma StrandedStays(b: Binding, s: ProjectSync, e: Event, key: Key)
    requires ListingExact(b) && TransitionValid(b, s) && Fits(b, e) && Stranded(s, key) && !Unaccepted(s, e, key)
    ensures Stranded(Step(b, s, e), key)
  {
    hide Prepare, Finalize, ApplyFirst, MappedPage, ListingExact, SnapshotNow, VersionOf, WithVersion, Rest, ProjectCursor, IsQueued, OfProject,
         QueueOfSnapshot, RecordsNamed, FinalResult, Outbox.SequenceTaken;
    if Attempt(b, s, e).Some? {
      match e
      case PrepareEvent(mode, confirmed, bound, claimed, now, ids) => PrepareIsLater(b, s, mode, confirmed, bound, claimed, now, ids);
      case FinalizeEvent(identity, now, ids, moreIds) => FinalizeKeepsStranded(b, s, identity, now, ids, moreIds, key);
      case PageEvent(page, mapped, identity) =>
        SameLength(b, page, mapped);
        FirstSeenGrows(b, s, page, mapped, ProjectCursor(s, page.cursor.historyId).value.0, |page.changes|);
      case ResultEvent(index, result, identity) =>
        ResultKeepsRecords(b, s, index, result, identity);
        PartsOfValid(b, s);
        RemovedFits(s.records, s.queue, index);
        if KeyOf(s.queue[index]) == key {
          SeenRefusesAccepted(b, s, index, result, identity);
          assert false;
        }
      case LocalEvent(to) =>
    }
  }

  lemma SeenRefusesAccepted(b: Binding, s: ProjectSync, i: int, result: Result, identity: Time)
    requires TransitionValid(b, s) && InProgress(s) && 0 <= i < |s.queue| && Outbox.IsAccepted(result)
    requires KeyOf(s.queue[i]) in s.records && s.records[KeyOf(s.queue[i])].seen
    ensures RecordResult(s, i, result, identity).None?
  {
    hide VersionOf, WithVersion, SnapshotNow, RecordsNamed, FinalResult, Outbox.SequenceTaken, MayAct, Rest;
    PartsOfValid(b, s);
    QueuedIsSnapshot(s, i);
    NamedBase(b, s, KeyOf(s.queue[i]));
  }

  lemma FinalizeKeepsStranded(b: Binding, s: ProjectSync, identity: Time, now: Time, ids: nat -> string, moreIds: nat -> string, key: Key)
    requires ListingExact(b) && TransitionValid(b, s) && Stranded(s, key) && Finalize(b, s, identity, now, ids, moreIds).Some?
    ensures Stranded(Finalize(b, s, identity, now, ids, moreIds).value, key)
  {
    hide Published, Recover, ListingExact, SnapshotNow, VersionOf, RecordsNamed, QueueOfSnapshot;
    if s.cursor.value.position == s.cursor.value.watermark {
      PublishedQueue(b, s, ids);
      PublishedKeepsValid(b, s, ids);
      PartsOfValid(b, s);
      if s.transition.value.mode == Rejoin {
        RecoverKeeps(b, s, moreIds);
        QueuedPrefix(s.queue, Recover(b, s, moreIds).value.queue, key);
      }
    }
  }

  lemma QueuedPrefix(queue: seq<Mutation>, longer: seq<Mutation>, key: Key)
    requires queue <= longer && IsQueued(queue, key)
    ensures IsQueued(longer, key)
  {
    var i :| 0 <= i < |queue| && KeyOf(queue[i]) == key;
    assert KeyOf(longer[i]) == key;
  }

  /**
   If a record's echo is applied before its push result is recorded, every later
   acceptance of the entry is refused, and the transition never completes.
   */
  lemma {:induction false} EchoBeforeResultStrands(b: Binding, states: seq<ProjectSync>, events: seq<Event>, i: nat, j: nat, key: Key)
    requires ListingExact(b) && Run(b, states, events) && TransitionValid(b, states[0]) && i <= j < |states|
    requires Stranded(states[i], key)
    requires forall k | i <= k < j :: !Unaccepted(states[k], events[k], key)
    ensures Stranded(states[j], key) && InProgress(states[j])
    decreases j - i
  {
    hide Step, TransitionValid, ListingExact, Unaccepted, Stranded;
    if i < j {
      EchoBeforeResultStrands(b, states, events, i, j - 1, key);
      RunKeepsValid(b, states, events, j - 1);
      StrandedStays(b, states[j - 1], events[j - 1], key);
    }
    StrandedIsInProgress(states[j], key);
  }

  /** A record that was echoed with nothing of it queued. */
  predicate Cleared(s: ProjectSync, key: Key) {
    InProgress(s) && key in s.records && s.records[key].seen && !IsQueued(s.queue, key)
  }

  lemma EnqueueOther(s: ProjectSync, m: Mutation, key: Key)
    requires Enqueue(s, m).Some? && KeyOf(m) != key && !IsQueued(s.queue, key)
    ensures !IsQueued(Enqueue(s, m).value.queue, key) && Enqueue(s, m).value.records == s.records
  {
    hide IsCanonicalUuid, ValidateMutation;
  }

  lemma {:induction false} RecoverAllSkipsSeen(b: Binding, s: ProjectSync, current: seq<Mutation>, ids: nat -> string, k: nat, key: Key)
    requires k <= |current| && RecoverAll(b, s, current, ids, k).Some? && !Unseen(s, key) && !IsQueued(s.queue, key)
    ensures !IsQueued(RecoverAll(b, s, current, ids, k).value.queue, key)
  {
    hide IsQueued, AcceptedOnce, CreationReceipts, RefusedForPrerequisite, PrerequisitesOnTheWay, Enqueue, OfProject, VersionOf;
    if k > 0 {
      RecoverAllSkipsSeen(b, s, current, ids, k - 1, key);
      var before := RecoverAll(b, s, current, ids, k - 1).value;
      var m := current[k - 1];
      if Candidate(s, KeyOf(m)) && !AcceptedOnce(before, KeyOf(m)) {
        EnqueueOther(before, WithId(m, ids(k - 1)), key);
      }
    }
  }

  /** A finalization queues nothing that was echoed. */
  lemma FinalizeKeepsCleared(b: Binding, s: ProjectSync, identity: Time, now: Time, ids: nat -> string, moreIds: nat -> string, key: Key)
    requires ListingExact(b) && TransitionValid(b, s) && Cleared(s, key) && Finalize(b, s, identity, now, ids, moreIds).Some?
    ensures var u := Finalize(b, s, identity, now, ids, moreIds).value; InProgress(u) ==> Cleared(u, key)
  {
    hide Published, ListingExact, SnapshotNow, VersionOf, RecordsNamed, QueueOfSnapshot, Snapshots, RecoverAll, IsQueued;
    if s.cursor.value.position == s.cursor.value.watermark {
      PublishedKeepsValid(b, s, ids);
      if s.transition.value.status == Pulling {
        RejoinPublishesExactly(b, s, ids);
      } else {
        PublishedAlready(b, s, ids);
      }
      var published := Published(b, s, ids).value;
      assert Cleared(published, key);
      if s.transition.value.mode == Rejoin && exists k :: k in published.records && Candidate(published, k) {
        var current := Snapshots(b, published.local).value;
        RecoverAllSkipsSeen(b, published, current, moreIds, |current|, key);
        PartsOfValid(b, published);
        RecoverKeeps(b, published, moreIds);
      }
    }
  }

  lemma PublishedAlready(b: Binding, s: ProjectSync, ids: nat -> string)
    requires s.transition.Some? && s.transition.value.status != Pulling
    ensures Published(b, s, ids) == Some(s)
  {
  }

  lemma ClearedStays(b: Binding, s: ProjectSync, e: Event, key: Key)
    requires ListingExact(b) && TransitionValid(b, s) && Fits(b, e) && Cleared(s, key) && InProgress(Step(b, s, e))
    ensures Cleared(Step(b, s, e), key)
  {
    hide Prepare, Finalize, ApplyFirst, MappedPage, ListingExact, SnapshotNow, VersionOf, WithVersion, Rest, ProjectCursor, IsQueued, OfProject,
         QueueOfSnapshot, RecordsNamed, FinalResult, Outbox.SequenceTaken;
    if Attempt(b, s, e).Some? {
      match e
      case PrepareEvent(mode, confirmed, bound, claimed, now, ids) => PrepareIsLater(b, s, mode, confirmed, bound, claimed, now, ids);
      case FinalizeEvent(identity, now, ids, moreIds) => FinalizeKeepsCleared(b, s, identity, now, ids, moreIds, key);
      case PageEvent(page, mapped, identity) =>
        SameLength(b, page, mapped);
        FirstSeenGrows(b, s, page, mapped, ProjectCursor(s, page.cursor.historyId).value.0, |page.changes|);
      case ResultEvent(index, result, identity) =>
        ResultKeepsRecords(b, s, index, result, identity);
        PartsOfValid(b, s);
        RemovedFits(s.records, s.queue, index);
      case LocalEvent(to) =>
    }
  }

  /**
   Within a generation an echoed record waits for a result it can no longer take exactly when it was
   still queued at its echo, as long as no refusal or conflict took the entry away.
   */
  lemma {:induction false} EchoStrandsExactly(b: Binding, states: seq<ProjectSync>, events: seq<Event>, i: nat, j: nat, key: Key)
    requires ListingExact(b) && Run(b, states, events) && TransitionValid(b, states[0]) && i <= j < |states|
    requires InProgress(states[j]) && GenerationOf(states[i]) == GenerationOf(states[j])
    requires key in states[i].records && states[i].records[key].seen
    requires forall k | i <= k < j :: !Unaccepted(states[k], events[k], key)
    ensures InProgress(states[i])
    ensures Stranded(states[j], key) <==> IsQueued(states[i].queue, key)
    ensures Cleared(states[j], key) <==> !IsQueued(states[i].queue, key)
    decreases j - i
  {
    hide Step, TransitionValid, ListingExact, Unaccepted, IsQueued;
    RunIsOnward(b, states, events, i, j);
    if i < j {
      RunIsOnward(b, states, events, i, j - 1);
      RunIsOnward(b, states, events, j - 1, j);
      EchoStrandsExactly(b, states, events, i, j - 1, key);
      RunKeepsValid(b, states, events, j - 1);
      if IsQueued(states[i].queue, key) {
        StrandedStays(b, states[j - 1], events[j - 1], key);
      } else {
        ClearedStays(b, states[j - 1], events[j - 1], key);
      }
    }
  }

  lemma StrandedIsInProgress(s: ProjectSync, key: Key)
    requires Stranded(s, key)
    ensures InProgress(s)
  {
  }

  // ------------------------------------------------------------- reapplying

  lemma {:induction false} KnownChangesAreSkipped(b: Binding, s: ProjectSync, page: PullPage, mapped: seq<Option<Change>>, position: int, k: nat)
    requires k <= |page.changes| == |mapped|
    requires forall j | 0 <= j < |page.changes| ::
      && page.changes[j].sequence <= position
      && Inbox.InboxKey(page.cursor.historyId, page.changes[j].sequence) in s.inbox
      && s.inbox[Inbox.InboxKey(page.cursor.historyId, page.changes[j].sequence)] == page.changes[j].changeHash
    ensures ApplyFirst(b, s, page, mapped, position, k) == Some(s)
  {
    hide ApplyMapped;
    if k > 0 {
      KnownChangesAreSkipped(b, s, page, mapped, position, k - 1);
    }
  }

  /** A page applied a second time changes nothing. */
  lemma ReappliedPageChangesNothing(b: Binding, s: ProjectSync, page: PullPage, mapped: seq<Option<Change>>, identity: Time, again: Time)
    requires MappedPage(b, page, mapped) && ApplyProjectPage(b, s, page, mapped, identity).Some?
    requires var u := ApplyProjectPage(b, s, page, mapped, identity).value; MayAct(u, again) && b.project in u.local.projects
    ensures var u := ApplyProjectPage(b, s, page, mapped, identity).value;
            ApplyProjectPage(b, u, page, mapped, again) == Some(u)
  {
    hide AboutRecord, ApplyFirst, MayAct, Protocol.ValidPulledChange, Protocol.ValidateProjectPullChange, IsCanonicalUuid;
    var u := ApplyProjectPage(b, s, page, mapped, identity).value;
    PageKeepsCursor(b, s, page, mapped, identity);
    var start := ProjectCursor(s, page.cursor.historyId).value;
    FirstInbox(b, s, page, mapped, start.0, |mapped|);
    KnownChangesAreSkipped(b, u, page, mapped, page.cursor.position, |mapped|);
  }
}
