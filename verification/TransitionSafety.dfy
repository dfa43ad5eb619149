/** What every operation keeps while a project is in transition, and what whole runs can rely on. */
module TransitionSafety {
  import opened Options
  import opened Uuids
  import opened SyncService
  import opened Replica
  import opened Transition
  import Inbox
  import Outbox
  import Protocol

  // ------------------------------------------------------------ invariant

  /** The snapshot names each record as a first creation. */
  ghost predicate RecordsNamed(b: Binding, s: ProjectSync) {
    && Key(ProjectKind, b.project) in s.records
    && forall key | key in s.records ::
         && KeyOf(s.records[key].payload) == key
         && s.records[key].payload.kind == Create && s.records[key].payload.baseVersion == 0 && s.records[key].payload.mutationId == ""
  }

  /** No record has changed since it was snapshotted, and one that was echoed is at the version of its creation. */
  ghost predicate RecordsKept(b: Binding, s: ProjectSync) {
    forall key | key in s.records ::
      && SnapshotNow(b, s.local, key) == Some(s.records[key].payload)
      && (s.records[key].seen ==> VersionOf(s.local, key) == 1)
  }

  predicate KeysDistinct(queue: seq<Mutation>) {
    forall i, j | 0 <= i < j < |queue| :: KeyOf(queue[i]) != KeyOf(queue[j])
  }

  /** Only snapshotted creations are queued, one for a record at most. */
  ghost predicate QueueOfSnapshot(records: map<Key, Snapshot>, queue: seq<Mutation>) {
    && KeysDistinct(queue)
    && forall i | 0 <= i < |queue| :: KeyOf(queue[i]) in records && Anonymous(queue[i]) == records[KeyOf(queue[i])].payload
  }

  ghost predicate IncarnationValid(t: Incarnation) {
    && 0 < t.createdAt
    && (t.mode == Reseed ==> t.status != Pulling)
    && (t.status == Completed <==> t.completedAt.Some?)
    && (t.completedAt.Some? ==> t.createdAt <= t.completedAt.value)
  }

  ghost predicate CursorValid(s: ProjectSync) {
    if s.cursor.None? then s.inbox == map[] else CursorReadable(s.cursor.value) && InboxWithin(s.inbox, s.cursor.value)
  }

  ghost predicate RecordsValid(b: Binding, s: ProjectSync) {
    if s.transition.None? then s.records == map[]
    else
      && IncarnationValid(s.transition.value)
      && RecordsNamed(b, s)
      && (s.transition.value.status == Completed ==> AllSeen(s))
      && (s.transition.value.status == Pulling ==> s.queue == [])
      && (InProgress(s) ==> RecordsKept(b, s) && QueueOfSnapshot(s.records, s.queue))
  }

  ghost predicate TransitionValid(b: Binding, s: ProjectSync) {
    CursorValid(s) && RecordsValid(b, s)
  }

  // ------------------------------------------------------------- versions

  lemma VersionOnly(b: Binding, local: Local, key: Key, version: int)
    ensures forall k :: SnapshotNow(b, WithVersion(local, key, version), k) == SnapshotNow(b, local, k)
    ensures forall k | k != key :: VersionOf(WithVersion(local, key, version), k) == VersionOf(local, k)
    ensures forall k :: OfProject(b, WithVersion(local, key, version), k) == OfProject(b, local, k)
    ensures OfProject(b, local, key) ==> VersionOf(WithVersion(local, key, version), key) == version
  {
    forall k
      ensures SnapshotNow(b, WithVersion(local, key, version), k) == SnapshotNow(b, local, k)
      ensures k != key ==> VersionOf(WithVersion(local, key, version), k) == VersionOf(local, k)
      ensures OfProject(b, WithVersion(local, key, version), k) == OfProject(b, local, k)
      ensures k == key && OfProject(b, local, key) ==> VersionOf(WithVersion(local, key, version), key) == version
    {
      VersionOnlyAt(b, local, key, version, k);
    }
  }

  lemma VersionOnlyAt(b: Binding, local: Local, key: Key, version: int, k: Key)
    ensures SnapshotNow(b, WithVersion(local, key, version), k) == SnapshotNow(b, local, k)
    ensures k != key ==> VersionOf(WithVersion(local, key, version), k) == VersionOf(local, k)
    ensures OfProject(b, WithVersion(local, key, version), k) == OfProject(b, local, k)
    ensures k == key && OfProject(b, local, key) ==> VersionOf(WithVersion(local, key, version), key) == version
  {
    hide SnapshotNow, VersionOf, WithVersion, OfProject;
    match key.kind
    case ProjectKind => ProjectVersionOnly(b, local, key, version, k);
    case SessionKind => SessionVersionOnly(b, local, key, version, k);
    case ObservationKind => ObservationVersionOnly(b, local, key, version, k);
  }

  lemma ProjectVersionOnly(b: Binding, local: Local, key: Key, version: int, k: Key)
    requires key.kind == ProjectKind
    ensures SnapshotNow(b, WithVersion(local, key, version), k) == SnapshotNow(b, local, k)
    ensures k != key ==> VersionOf(WithVersion(local, key, version), k) == VersionOf(local, k)
    ensures OfProject(b, WithVersion(local, key, version), k) == OfProject(b, local, k)
    ensures k == key && OfProject(b, local, key) ==> VersionOf(WithVersion(local, key, version), key) == version
  {
    hide ObservationSnapshot;
    SameTombstones(local, WithVersion(local, key, version));
    hide HasTombstone;
  }

  lemma SessionVersionOnly(b: Binding, local: Local, key: Key, version: int, k: Key)
    requires key.kind == SessionKind
    ensures SnapshotNow(b, WithVersion(local, key, version), k) == SnapshotNow(b, local, k)
    ensures k != key ==> VersionOf(WithVersion(local, key, version), k) == VersionOf(local, k)
    ensures OfProject(b, WithVersion(local, key, version), k) == OfProject(b, local, k)
    ensures k == key && OfProject(b, local, key) ==> VersionOf(WithVersion(local, key, version), key) == version
  {
    hide ObservationSnapshot;
    SameTombstones(local, WithVersion(local, key, version));
    hide HasTombstone;
  }

  lemma ObservationVersionOnly(b: Binding, local: Local, key: Key, version: int, k: Key)
    requires key.kind == ObservationKind
    ensures SnapshotNow(b, WithVersion(local, key, version), k) == SnapshotNow(b, local, k)
    ensures k != key ==> VersionOf(WithVersion(local, key, version), k) == VersionOf(local, k)
    ensures OfProject(b, WithVersion(local, key, version), k) == OfProject(b, local, k)
    ensures k == key && OfProject(b, local, key) ==> VersionOf(WithVersion(local, key, version), key) == version
  {
    hide ObservationSnapshot;
    SameTombstones(local, WithVersion(local, key, version));
    hide HasTombstone;
  }

  lemma SameTombstones(local: Local, other: Local)
    requires other.tombstones == local.tombstones
    ensures forall id :: HasTombstone(other, id) == HasTombstone(local, id)
  {
  }

  lemma ResetOnly(b: Binding, local: Local)
    ensures forall k :: SnapshotNow(b, ResetVersions(b, local), k) == SnapshotNow(b, local, k)
    ensures forall k | OfProject(b, local, k) :: VersionOf(ResetVersions(b, local), k) == 0
  {
    hide ObservationSnapshot;
    SameTombstones(local, ResetVersions(b, local));
    hide HasTombstone;
  }

  lemma SnapshotOfProject(b: Binding, local: Local, key: Key)
    requires SnapshotNow(b, local, key).Some?
    ensures OfProject(b, local, key) && KeyOf(SnapshotNow(b, local, key).value) == key
    ensures var m := SnapshotNow(b, local, key).value; m.kind == Create && m.baseVersion == 0 && m.mutationId == ""
  {
  }

  // -------------------------------------------------------------- prepare

  lemma {:induction false} TakenHolds(list: seq<Mutation>)
    requires KeysDistinct(list)
    ensures forall i | 0 <= i < |list| :: KeyOf(list[i]) in Taken(list) && Taken(list)[KeyOf(list[i])] == Snapshot(list[i], false)
    ensures forall key | key in Taken(list) :: exists i :: 0 <= i < |list| && KeyOf(list[i]) == key
    decreases |list|
  {
    if list != [] {
      var front := list[..|list| - 1];
      TakenHolds(front);
      forall key | key in Taken(list) ensures exists i :: 0 <= i < |list| && KeyOf(list[i]) == key {
        if key == KeyOf(list[|list| - 1]) {
        } else {
          assert key in Taken(front);
          var i :| 0 <= i < |front| && KeyOf(front[i]) == key;
          assert KeyOf(list[i]) == key;
        }
      }
      forall i | 0 <= i < |list| ensures KeyOf(list[i]) in Taken(list) && Taken(list)[KeyOf(list[i])] == Snapshot(list[i], false) {
        if i < |front| {
          assert list[i] == front[i];
        }
      }
    }
  }

  /** The first k mutations under their drawn ids. */
  function Numbered(list: seq<Mutation>, ids: nat -> string, k: nat): (queue: seq<Mutation>)
    requires k <= |list|
    ensures |queue| == k && forall i | 0 <= i < k :: queue[i] == WithId(list[i], ids(i))
  {
    seq(k, i requires 0 <= i < k => WithId(list[i], ids(i)))
  }

  /** An emptied queue takes a list of different records whole and in order. */
  lemma {:induction false} EnqueuedAll(s: ProjectSync, list: seq<Mutation>, ids: nat -> string, k: nat)
    requires s.queue == [] && KeysDistinct(list) && k <= |list|
    requires EnqueueAll(s, list, ids, k).Some?
    ensures EnqueueAll(s, list, ids, k).value == s.(queue := Numbered(list, ids, k))
  {
    hide ValidateMutation, IsCanonicalUuid, Numbered;
    if k > 0 {
      EnqueuedAll(s, list, ids, k - 1);
      var before := Numbered(list, ids, k - 1);
      var m := WithId(list[k - 1], ids(k - 1));
      forall i | 0 <= i < |before| ensures before[i] != m {
        assert KeyOf(before[i]) == KeyOf(list[i]) && KeyOf(list[i]) != KeyOf(list[k - 1]);
      }
      assert before + [m] == Numbered(list, ids, k);
    }
  }

  /** A reseed queues every record of the project once, in snapshot order, on version 0. */
  lemma ReseedQueuesEverything(b: Binding, s: ProjectSync, confirmed: bool, bound: bool, claimed: bool, now: Time, ids: nat -> string)
    requires ListingExact(b) && Prepare(b, s, Reseed, confirmed, bound, claimed, now, ids).Some?
    ensures var u := Prepare(b, s, Reseed, confirmed, bound, claimed, now, ids).value;
            && confirmed && Snapshots(b, s.local).Some?
            && u.queue == Numbered(Snapshots(b, s.local).value, ids, |Snapshots(b, s.local).value|)
            && u.local == ResetVersions(b, s.local)
            && u.records == Taken(Snapshots(b, s.local).value)
            && u.transition == Some(Incarnation(Reseed, Publishing, Generation(s.transition, now).value, None))
            && u.cursor.None? && u.inbox == map[]
            && forall key | key in u.records :: OfProject(b, s.local, key) && VersionOf(u.local, key) == 0
  {
    hide Snapshots, SnapshotNow, ResetVersions, Generation, ForeignReceipts;
    SnapshotsCover(b, s.local);
    var list := Snapshots(b, s.local).value;
    var prepared := s.(
      local := ResetVersions(b, s.local),
      transition := Some(Incarnation(Reseed, Publishing, Generation(s.transition, now).value, None)),
      records := Taken(list), queue := [], receipts := ForeignReceipts(b, s), cursor := None, inbox := map[]);
    EnqueuedAll(prepared, list, ids, |list|);
    TakenHolds(list);
    ResetOnly(b, s.local);
    forall key | key in Taken(list) ensures OfProject(b, s.local, key) {
      var i :| 0 <= i < |list| && KeyOf(list[i]) == key;
      SnapshotOfProject(b, s.local, key);
    }
  }

  lemma TakenIsNamed(b: Binding, local: Local, list: seq<Mutation>)
    requires Covers(b, local, list) && |list| > 0 && list[0] == ProjectSnapshot(b)
    ensures forall key | key in Taken(list) ::
      && KeyOf(Taken(list)[key].payload) == key && !Taken(list)[key].seen
      && SnapshotNow(b, local, key) == Some(Taken(list)[key].payload)
      && Taken(list)[key].payload.kind == Create && Taken(list)[key].payload.baseVersion == 0 && Taken(list)[key].payload.mutationId == ""
    ensures Key(ProjectKind, b.project) in Taken(list)
  {
    hide SnapshotNow;
    TakenHolds(list);
    assert KeyOf(list[0]) == Key(ProjectKind, b.project);
    forall key | key in Taken(list)
      ensures
        && KeyOf(Taken(list)[key].payload) == key && !Taken(list)[key].seen
        && SnapshotNow(b, local, key) == Some(Taken(list)[key].payload)
        && Taken(list)[key].payload.kind == Create && Taken(list)[key].payload.baseVersion == 0 && Taken(list)[key].payload.mutationId == ""
    {
      var i :| 0 <= i < |list| && KeyOf(list[i]) == key;
      SnapshotOfProject(b, local, key);
    }
  }

  lemma NumberedFits(list: seq<Mutation>, ids: nat -> string)
    requires KeysDistinct(list) && forall i | 0 <= i < |list| :: list[i].mutationId == ""
    ensures QueueOfSnapshot(Taken(list), Numbered(list, ids, |list|))
  {
    hide Taken, Numbered;
    TakenHolds(list);
    var queue := Numbered(list, ids, |list|);
    forall i | 0 <= i < |queue| ensures KeyOf(queue[i]) in Taken(list) && Anonymous(queue[i]) == Taken(list)[KeyOf(queue[i])].payload {
      assert KeyOf(queue[i]) == KeyOf(list[i]) && Anonymous(queue[i]) == list[i];
    }
    forall i, j | 0 <= i < j < |queue| ensures KeyOf(queue[i]) != KeyOf(queue[j]) {
      assert KeyOf(queue[i]) == KeyOf(list[i]) && KeyOf(queue[j]) == KeyOf(list[j]);
    }
  }

  lemma PrepareKeepsValid(b: Binding, s: ProjectSync, mode: Mode, confirmed: bool, bound: bool, claimed: bool, now: Time, ids: nat -> string)
    requires ListingExact(b) && TransitionValid(b, s) && Prepare(b, s, mode, confirmed, bound, claimed, now, ids).Some?
    ensures TransitionValid(b, Prepare(b, s, mode, confirmed, bound, claimed, now, ids).value)
  {
    hide Snapshots, SnapshotNow, ResetVersions, ForeignReceipts, Covers, QueueOfSnapshot;
    var u := Prepare(b, s, mode, confirmed, bound, claimed, now, ids).value;
    SnapshotsCover(b, s.local);
    var list := Snapshots(b, s.local).value;
    CoveredList(b, s.local, list);
    TakenIsNamed(b, s.local, list);
    if mode == Reseed {
      ReseedQueuesEverything(b, s, confirmed, bound, claimed, now, ids);
      NumberedFits(list, ids);
      ResetOnly(b, s.local);
    } else {
      EmptyFits(u.records);
    }
  }

  lemma CoveredList(b: Binding, local: Local, list: seq<Mutation>)
    requires Covers(b, local, list)
    ensures KeysDistinct(list) && forall i | 0 <= i < |list| :: list[i].mutationId == ""
  {
    forall i | 0 <= i < |list| ensures list[i].mutationId == "" {
      SnapshotOfProject(b, local, KeyOf(list[i]));
    }
  }

  lemma EmptyFits(records: map<Key, Snapshot>)
    ensures QueueOfSnapshot(records, [])
  {
  }

  // ------------------------------------------------------------- finalize

  lemma EnqueueExtends(s: ProjectSync, m: Mutation)
    requires Enqueue(s, m).Some?
    ensures Enqueue(s, m).value == s.(queue := Enqueue(s, m).value.queue)
    ensures Enqueue(s, m).value.queue == s.queue + [m] || (Enqueue(s, m).value.queue == s.queue && m in s.queue)
    ensures IsQueued(Enqueue(s, m).value.queue, KeyOf(m))
  {
    hide ValidateMutation, IsCanonicalUuid;
    var q := Enqueue(s, m).value.queue;
    if m in s.queue {
      var i :| 0 <= i < |s.queue| && s.queue[i] == m;
      assert KeyOf(q[i]) == KeyOf(m);
    } else {
      assert KeyOf(q[|s.queue|]) == KeyOf(m);
    }
  }

  /** An entry that stands for one of the first k unseen records of a list. */
  ghost predicate StandsFor(s: ProjectSync, entry: Mutation, current: seq<Mutation>, k: nat)
    requires k <= |current|
  {
    exists p :: 0 <= p < k && StandsAt(s, entry, current[p])
  }

  predicate StandsAt(s: ProjectSync, entry: Mutation, m: Mutation) {
    KeyOf(entry) == KeyOf(m) && Anonymous(entry) == m && Unseen(s, KeyOf(m)) && s.records[KeyOf(m)].payload == m
  }

  ghost predicate QueueUpTo(s: ProjectSync, queue: seq<Mutation>, current: seq<Mutation>, k: nat)
    requires k <= |current|
  {
    && KeysDistinct(queue)
    && (forall i | 0 <= i < |queue| :: StandsFor(s, queue[i], current, k))
    && (forall p | 0 <= p < k && Unseen(s, KeyOf(current[p])) :: IsQueued(queue, KeyOf(current[p])))
  }

  lemma StandsKey(s: ProjectSync, entry: Mutation, m: Mutation)
    requires StandsAt(s, entry, m)
    ensures KeyOf(entry) == KeyOf(m)
  {
  }

  lemma QueuedNext(s: ProjectSync, queue: seq<Mutation>, current: seq<Mutation>, k: nat, m: Mutation)
    requires k < |current| && KeysDistinct(current) && QueueUpTo(s, queue, current, k)
    requires StandsAt(s, m, current[k])
    ensures m !in queue && QueueUpTo(s, queue + [m], current, k + 1)
  {
    hide StandsAt, Unseen;
    StandsKey(s, m, current[k]);
    var longer := queue + [m];
    forall i | 0 <= i < |queue| ensures KeyOf(queue[i]) != KeyOf(m) && StandsFor(s, queue[i], current, k + 1) {
      assert StandsFor(s, queue[i], current, k);
      var p :| 0 <= p < k && StandsAt(s, queue[i], current[p]);
      StandsKey(s, queue[i], current[p]);
    }
    assert StandsFor(s, m, current, k + 1);
    forall p | 0 <= p < k + 1 && Unseen(s, KeyOf(current[p])) ensures IsQueued(longer, KeyOf(current[p])) {
      if p < k {
        var i :| 0 <= i < |queue| && KeyOf(queue[i]) == KeyOf(current[p]);
        assert KeyOf(longer[i]) == KeyOf(current[p]);
      } else {
        assert KeyOf(longer[|queue|]) == KeyOf(current[p]);
      }
    }
  }

  lemma QueuedSame(s: ProjectSync, queue: seq<Mutation>, current: seq<Mutation>, k: nat)
    requires k < |current| && QueueUpTo(s, queue, current, k) && !Unseen(s, KeyOf(current[k]))
    ensures QueueUpTo(s, queue, current, k + 1)
  {
    hide Unseen, StandsAt;
    forall i | 0 <= i < |queue| ensures StandsFor(s, queue[i], current, k + 1) {
      assert StandsFor(s, queue[i], current, k);
    }
  }

  /** A round of publishing queues the unseen records, resets their versions and touches nothing else. */
  lemma {:induction false} PublishedUpTo(b: Binding, s: ProjectSync, current: seq<Mutation>, ids: nat -> string, k: nat)
    requires k <= |current| && KeysDistinct(current) && (forall i | 0 <= i < |current| :: current[i].mutationId == "")
    requires s.queue == [] && PublishUnseen(s, current, ids, k).Some?
    requires forall i | 0 <= i < |current| :: OfProject(b, s.local, KeyOf(current[i]))
    ensures var u := PublishUnseen(s, current, ids, k).value;
            && u == s.(local := u.local, queue := u.queue)
            && (forall key :: SnapshotNow(b, u.local, key) == SnapshotNow(b, s.local, key) && OfProject(b, u.local, key) == OfProject(b, s.local, key))
            && (forall key | !Unseen(s, key) :: VersionOf(u.local, key) == VersionOf(s.local, key))
            && (forall p | 0 <= p < k && Unseen(s, KeyOf(current[p])) :: VersionOf(u.local, KeyOf(current[p])) == 0)
            && QueueUpTo(s, u.queue, current, k)
  {
    hide SnapshotNow, VersionOf, WithVersion, OfProject, QueueUpTo, Unseen, Enqueue;
    if k == 0 {
      EmptyUpTo(s, current);
    } else {
      PublishedUpTo(b, s, current, ids, k - 1);
      var before := PublishUnseen(s, current, ids, k - 1).value;
      var m := current[k - 1];
      if Unseen(s, KeyOf(m)) {
        VersionOnly(b, before.local, KeyOf(m), 0);
        var entry := WithId(m, ids(k - 1));
        EnqueueExtends(before.(local := WithVersion(before.local, KeyOf(m), 0)), entry);
        assert StandsAt(s, entry, m);
        QueuedNext(s, before.queue, current, k - 1, entry);
      } else {
        QueuedSame(s, before.queue, current, k - 1);
      }
    }
  }

  lemma EmptyUpTo(s: ProjectSync, current: seq<Mutation>)
    ensures QueueUpTo(s, [], current, 0)
  {
  }

  lemma UpToIsOfSnapshot(s: ProjectSync, queue: seq<Mutation>, current: seq<Mutation>)
    requires QueueUpTo(s, queue, current, |current|)
    ensures QueueOfSnapshot(s.records, queue)
    ensures forall key | IsQueued(queue, key) :: Unseen(s, key)
  {
    forall i | 0 <= i < |queue|
      ensures KeyOf(queue[i]) in s.records && Anonymous(queue[i]) == s.records[KeyOf(queue[i])].payload && Unseen(s, KeyOf(queue[i]))
    {
      assert StandsFor(s, queue[i], current, |current|);
      var p :| 0 <= p < |current| && StandsAt(s, queue[i], current[p]);
    }
  }

  /**
   A rejoin publishes exactly what the remote did not have: afterwards a record is
   queued if and only if it had not been seen, on version 0, and the others keep
   their versions.
   */
  lemma RejoinPublishesExactly(b: Binding, s: ProjectSync, ids: nat -> string)
    requires ListingExact(b) && TransitionValid(b, s) && s.transition.Some? && s.transition.value.status == Pulling
    requires Published(b, s, ids).Some?
    ensures var u := Published(b, s, ids).value;
            && u == s.(local := u.local, queue := u.queue, transition := Some(s.transition.value.(status := Publishing)))
            && (forall key | key in s.records :: IsQueued(u.queue, key) <==> Unseen(s, key))
            && (forall key | key in s.records :: VersionOf(u.local, key) == if Unseen(s, key) then 0 else 1)
            && (forall key :: SnapshotNow(b, u.local, key) == SnapshotNow(b, s.local, key))
            && QueueOfSnapshot(s.records, u.queue)
  {
    hide Snapshots, SnapshotNow, VersionOf, QueueUpTo, QueueOfSnapshot, Covers, OfProject, RecordsNamed, RecordsKept, IsQueued, PublishUnseen;
    SnapshotsCover(b, s.local);
    var current := Snapshots(b, s.local).value;
    CoveredList(b, s.local, current);
    CoveredAreOfProject(b, s.local, current);
    PublishedUpTo(b, s, current, ids, |current|);
    var u := PublishUnseen(s, current, ids, |current|).value;
    UpToIsOfSnapshot(s, u.queue, current);
    forall key | key in s.records
      ensures (IsQueued(u.queue, key) <==> Unseen(s, key)) && VersionOf(u.local, key) == if Unseen(s, key) then 0 else 1
    {
      PublishedRecord(b, s, u, current, key);
    }
  }

  lemma PublishedRecord(b: Binding, s: ProjectSync, u: ProjectSync, current: seq<Mutation>, key: Key)
    requires key in s.records && RecordsKept(b, s) && QueueUpTo(s, u.queue, current, |current|)
    requires forall k | IsQueued(u.queue, k) :: Unseen(s, k)
    requires forall k | !Unseen(s, k) :: VersionOf(u.local, k) == VersionOf(s.local, k)
    requires forall p | 0 <= p < |current| && Unseen(s, KeyOf(current[p])) :: VersionOf(u.local, KeyOf(current[p])) == 0
    requires Unseen(s, key) ==> exists p :: 0 <= p < |current| && KeyOf(current[p]) == key
    ensures (IsQueued(u.queue, key) <==> Unseen(s, key)) && VersionOf(u.local, key) == if Unseen(s, key) then 0 else 1
  {
    hide VersionOf, SnapshotNow, IsQueued;
  }

  lemma CoveredAreOfProject(b: Binding, local: Local, list: seq<Mutation>)
    requires Covers(b, local, list)
    ensures forall i | 0 <= i < |list| :: OfProject(b, local, KeyOf(list[i]))
  {
    forall i | 0 <= i < |list| ensures OfProject(b, local, KeyOf(list[i])) {
      SnapshotOfProject(b, local, KeyOf(list[i]));
    }
  }

  predicate KeyAmong(key: Key, current: seq<Mutation>, k: nat)
    requires k <= |current|
  {
    exists p :: 0 <= p < k && KeyOf(current[p]) == key
  }

  /** Entries added behind a queue stand for records that had none. */
  ghost predicate Extends(s: ProjectSync, queue: seq<Mutation>, current: seq<Mutation>, k: nat)
    requires k <= |current|
  {
    && s.queue <= queue
    && QueueOfSnapshot(s.records, queue)
    && forall i | |s.queue| <= i < |queue| :: KeyAmong(KeyOf(queue[i]), current, k)
  }

  lemma ExtendedBy(s: ProjectSync, queue: seq<Mutation>, current: seq<Mutation>, k: nat, m: Mutation)
    requires k < |current| && KeysDistinct(current) && Extends(s, queue, current, k)
    requires KeyOf(m) == KeyOf(current[k]) && KeyOf(m) in s.records && Anonymous(m) == s.records[KeyOf(m)].payload
    requires !IsQueued(s.queue, KeyOf(m))
    ensures m !in queue && Extends(s, queue + [m], current, k + 1)
  {
    var longer := queue + [m];
    forall i | 0 <= i < |queue| ensures KeyOf(queue[i]) != KeyOf(m) {
      if i < |s.queue| {
        assert queue[i] == s.queue[i];
      } else {
        assert KeyAmong(KeyOf(queue[i]), current, k);
      }
    }
    forall i | |s.queue| <= i < |longer| ensures KeyAmong(KeyOf(longer[i]), current, k + 1) {
      if i < |queue| {
        assert KeyAmong(KeyOf(queue[i]), current, k);
      } else {
        assert KeyOf(longer[i]) == KeyOf(current[k]);
      }
    }
  }

  lemma ExtendedNext(s: ProjectSync, queue: seq<Mutation>, current: seq<Mutation>, k: nat)
    requires k < |current| && Extends(s, queue, current, k)
    ensures Extends(s, queue, current, k + 1)
  {
    forall i | |s.queue| <= i < |queue| ensures KeyAmong(KeyOf(queue[i]), current, k + 1) {
      assert KeyAmong(KeyOf(queue[i]), current, k);
    }
  }

  /** Recovery only queues snapshots again; it changes no row, record or receipt. */
  lemma {:induction false} RecoveredUpTo(b: Binding, s: ProjectSync, current: seq<Mutation>, ids: nat -> string, k: nat)
    requires k <= |current| && KeysDistinct(current) && QueueOfSnapshot(s.records, s.queue)
    requires forall key | key in s.records :: s.records[key].payload.mutationId == ""
    requires RecoverAll(b, s, current, ids, k).Some?
    ensures var u := RecoverAll(b, s, current, ids, k).value; u == s.(queue := u.queue) && Extends(s, u.queue, current, k)
  {
    hide QueueOfSnapshot, Extends, Enqueue, AcceptedOnce, CreationReceipts, RefusedForPrerequisite, PrerequisitesOnTheWay, IsQueued, Unseen;
    if k == 0 {
      NothingAdded(s, current);
    } else {
      RecoveredUpTo(b, s, current, ids, k - 1);
      var before := RecoverAll(b, s, current, ids, k - 1).value;
      var m := current[k - 1];
      ExtendedNext(s, before.queue, current, k - 1);
      if Candidate(s, KeyOf(m)) && !AcceptedOnce(before, KeyOf(m)) {
        var entry := WithId(m, ids(k - 1));
        EnqueueExtends(before, entry);
        ExtendedBy(s, before.queue, current, k - 1, entry);
      }
    }
  }

  lemma NothingAdded(s: ProjectSync, current: seq<Mutation>)
    requires QueueOfSnapshot(s.records, s.queue)
    ensures Extends(s, s.queue, current, 0)
  {
  }

  lemma RecoverKeeps(b: Binding, s: ProjectSync, ids: nat -> string)
    requires ListingExact(b) && QueueOfSnapshot(s.records, s.queue) && RecordsNamed(b, s)
    requires Recover(b, s, ids).Some?
    ensures var u := Recover(b, s, ids).value; u == s.(queue := u.queue) && s.queue <= u.queue && QueueOfSnapshot(s.records, u.queue)
    ensures AllSeen(s) ==> Recover(b, s, ids).value == s
  {
    hide QueueOfSnapshot, Snapshots, Covers, RecoverAll, IsQueued;
    if exists key :: key in s.records && Candidate(s, key) {
      SnapshotsCover(b, s.local);
      var current := Snapshots(b, s.local).value;
      CoveredList(b, s.local, current);
      RecoveredUpTo(b, s, current, ids, |current|);
    }
  }

  lemma PublishedKeepsValid(b: Binding, s: ProjectSync, ids: nat -> string)
    requires ListingExact(b) && TransitionValid(b, s) && InProgress(s) && Published(b, s, ids).Some?
    ensures var u := Published(b, s, ids).value;
            && TransitionValid(b, u) && u.transition.Some? && u.transition.value == s.transition.value.(status := Publishing)
            && u == s.(local := u.local, queue := u.queue, transition := u.transition)
  {
    hide SnapshotNow, VersionOf, QueueOfSnapshot, RecordsNamed, IsQueued;
    if s.transition.value.status == Pulling {
      RejoinPublishesExactly(b, s, ids);
      SameNames(b, s, Published(b, s, ids).value);
    }
  }

  lemma SameNames(b: Binding, s: ProjectSync, u: ProjectSync)
    requires RecordsNamed(b, s) && u.records.Keys == s.records.Keys
    requires forall key | key in s.records :: u.records[key].payload == s.records[key].payload
    ensures RecordsNamed(b, u)
  {
  }

  lemma QueueKeepsValid(b: Binding, s: ProjectSync, u: ProjectSync)
    requires TransitionValid(b, s) && u == s.(queue := u.queue) && InProgress(s) && s.transition.value.status == Publishing
    requires QueueOfSnapshot(s.records, u.queue)
    ensures TransitionValid(b, u)
  {
    hide SnapshotNow, VersionOf, QueueOfSnapshot, RecordsNamed, IsQueued;
    SameNames(b, s, u);
  }

  lemma SettledKeepsValid(b: Binding, s: ProjectSync, now: Time)
    requires TransitionValid(b, s) && InProgress(s) && s.transition.value.status == Publishing
    ensures TransitionValid(b, Settled(s, now))
  {
    hide SnapshotNow, VersionOf, QueueOfSnapshot, RecordsNamed;
    SameNames(b, s, Settled(s, now));
  }

  lemma FinalizeKeepsValid(b: Binding, s: ProjectSync, identity: Time, now: Time, ids: nat -> string, moreIds: nat -> string)
    requires ListingExact(b) && TransitionValid(b, s) && Finalize(b, s, identity, now, ids, moreIds).Some?
    ensures TransitionValid(b, Finalize(b, s, identity, now, ids, moreIds).value)
  {
    hide Published, Recover, Settled, RecordsKept, QueueOfSnapshot, RecordsNamed, CursorValid, AllSeen;
    if InProgress(s) && s.cursor.value.position == s.cursor.value.watermark {
      PublishedKeepsValid(b, s, ids);
      var published := Published(b, s, ids).value;
      if s.transition.value.mode == Rejoin {
        RecoverKeeps(b, published, moreIds);
        QueueKeepsValid(b, published, Recover(b, published, moreIds).value);
        SettledKeepsValid(b, Recover(b, published, moreIds).value, now);
      } else {
        SettledKeepsValid(b, published, now);
      }
    }
  }

  // --------------------------------------------------------------- pulls

  /** What a snapshot can see of a record. */
  predicate SameRecord(b: Binding, local: Local, after: Local, key: Key) {
    SnapshotNow(b, after, key) == SnapshotNow(b, local, key) && VersionOf(after, key) == VersionOf(local, key)
  }

  lemma ObservationElsewhere(b: Binding, local: Local, after: Local, id: string, key: Key)
    requires after.projects == local.projects && after.sessions == local.sessions
    requires forall other | other != id ::
      (other in after.observations <==> other in local.observations)
      && (other in local.observations ==> after.observations[other] == local.observations[other])
      && HasTombstone(after, other) == HasTombstone(local, other)
    requires key != Key(ObservationKind, id)
    ensures SameRecord(b, local, after, key)
  {
    hide HasTombstone, ObservationSnapshot;
    if key.kind == ObservationKind {
      assert key == Key(ObservationKind, key.id);
    }
  }

  lemma ObservationTouchesItself(b: Binding, local: Local, o: Observation, kind: MutationKind, base: int, canonical: int, key: Key)
    requires ApplyObservation(local, o, kind, base, canonical).Applied? && key != Key(ObservationKind, o.id)
    ensures SameRecord(b, local, ApplyObservation(local, o, kind, base, canonical).local, key)
    ensures ApplyObservation(local, o, kind, base, canonical).local.tombstones == local.tombstones
  {
    hide SurroundingsReady, BodyOf, TopicHeld, SameIdentity, SameRecord, HasTombstone;
    var after := ApplyObservation(local, o, kind, base, canonical).local;
    SameTombstones(local, after);
    ObservationElsewhere(b, local, after, o.id, key);
  }

  lemma TombstoneTouchesItself(b: Binding, local: Local, c: Change, key: Key)
    requires c.mutation.tombstone.Some? && ApplyTombstone(local, c).Applied? && key != Key(ObservationKind, c.mutation.recordId)
    ensures SameRecord(b, local, ApplyTombstone(local, c).local, key)
  {
    hide SameRecord;
    var id := c.mutation.recordId;
    var after := ApplyTombstone(local, c).local;
    forall other | other != id ensures HasTombstone(after, other) == HasTombstone(local, other) {
      OtherTombstones(local, after, c.sequence, id, other);
    }
    ObservationElsewhere(b, local, after, id, key);
  }

  lemma OtherTombstones(local: Local, after: Local, sequence: int, id: string, other: string)
    requires sequence !in local.tombstones && sequence in after.tombstones && after.tombstones[sequence].recordId == id && other != id
    requires after.tombstones - {sequence} == local.tombstones
    ensures HasTombstone(after, other) == HasTombstone(local, other)
  {
    if i :| i in local.tombstones && local.tombstones[i].recordId == other {
      assert i in (after.tombstones - {sequence}) && after.tombstones[i].recordId == other;
    }
    if i :| i in after.tombstones && after.tombstones[i].recordId == other {
      assert i in (after.tombstones - {sequence}) && local.tombstones[i].recordId == other;
    }
  }

  lemma ConflictTouchesItself(b: Binding, local: Local, c: Change, key: Key)
    requires c.mutation.observation.Some? && ApplyConflict(local, c).Applied? && key != Key(ObservationKind, c.mutation.recordId)
    ensures SameRecord(b, local, ApplyConflict(local, c).local, key)
  {
    hide SameRecord, ConflictIdTaken, HasTombstone;
    var after := ApplyConflict(local, c).local;
    SameTombstones(local, after);
    ObservationElsewhere(b, local, after, c.mutation.recordId, key);
  }

  lemma ResolveTouchesItself(b: Binding, local: Local, c: Change, key: Key)
    requires c.mutation.resolution.Some? && c.mutation.resolution.value.observation.Some?
    requires c.mutation.resolution.value.observation.value.id == c.mutation.recordId
    requires ApplyResolve(local, c).Applied? && key != Key(ObservationKind, c.mutation.recordId)
    ensures SameRecord(b, local, ApplyResolve(local, c).local, key)
  {
    hide ApplyObservation, HasOpenConflict, Closed, HasTombstone, ObservationSnapshot;
    var o := c.mutation.resolution.value.observation.value;
    ObservationTouchesItself(b, local, o, Update, c.mutation.baseVersion, c.canonicalVersion, key);
    var winner := ApplyObservation(local, o, Update, c.mutation.baseVersion, c.canonicalVersion).local;
    SameTombstones(winner, ApplyResolve(local, c).local);
  }

  lemma IdentityTouchesItself(b: Binding, local: Local, after: Local, id: string, key: Key)
    requires after.observations == local.observations && after.tombstones == local.tombstones
    requires || (after.sessions == local.sessions && id in after.projects && after.projects == local.projects[id := after.projects[id]])
             || (after.projects == local.projects && id in after.sessions && after.sessions == local.sessions[id := after.sessions[id]])
    requires key.id != id || (key.kind == SessionKind && after.sessions == local.sessions)
             || (key.kind == ProjectKind && after.projects == local.projects) || key.kind == ObservationKind
    ensures SameRecord(b, local, after, key)
  {
    hide ObservationSnapshot;
    SameTombstones(local, after);
    hide HasTombstone;
  }

  /** applyPulledMutation reaches no record but the change's own. */
  lemma ApplyTouchesItself(b: Binding, local: Local, c: Change, key: Key)
    requires AboutRecord(b, c) && Apply(local, c).Applied? && key != KeyOf(c.mutation)
    ensures SameRecord(b, local, Apply(local, c).local, key)
  {
    hide ApplyObservation, ApplyTombstone, ApplyConflict, ApplyResolve, SameRecord;
    var m := c.mutation;
    if c.disposition == ConflictChange {
      ConflictTouchesItself(b, local, c, key);
    } else if m.kind == Tombstone {
      TombstoneTouchesItself(b, local, c, key);
    } else if m.kind == Resolve {
      ResolveTouchesItself(b, local, c, key);
    } else {
      match m.recordKind
      case ProjectKind => IdentityTouchesItself(b, local, Apply(local, c).local, m.recordId, key);
      case SessionKind => IdentityTouchesItself(b, local, Apply(local, c).local, m.recordId, key);
      case ObservationKind => ObservationTouchesItself(b, local, m.observation.value, m.kind, m.baseVersion, c.canonicalVersion, key);
    }
  }

  lemma OrdinaryTouchesItself(b: Binding, s: ProjectSync, c: Change, key: Key)
    requires AboutRecord(b, c) && ApplyOrdinary(s, c).Some? && key != KeyOf(c.mutation)
    ensures SameRecord(b, s.local, ApplyOrdinary(s, c).value, key)
  {
    hide Apply, SameRecord, OwnReceipt;
    var after := ApplyOrdinary(s, c).value;
    if after == s.local {
      Itself(b, s.local, key);
    } else if c.mutation.recordKind == ProjectKind && c.mutation.kind == Create {
      IdentityTouchesItself(b, s.local, after, c.mutation.recordId, key);
    } else {
      ApplyTouchesItself(b, s.local, c, key);
    }
  }

  lemma Itself(b: Binding, local: Local, key: Key)
    ensures SameRecord(b, local, local, key)
  {
    hide SnapshotNow, VersionOf;
  }

  /** An echo leaves its record as it was, on version 1. */
  lemma EchoKeepsRecords(b: Binding, s: ProjectSync, c: Change)
    requires RecordsValid(b, s) && HandlePulled(b, s, c).Echoed?
    ensures RecordsValid(b, HandlePulled(b, s, c).s)
  {
    hide SnapshotNow, VersionOf, WithVersion, OfProject, QueueOfSnapshot, RecordsNamed;
    var key := KeyOf(c.mutation);
    VersionOnly(b, s.local, key, 1);
    var u := HandlePulled(b, s, c).s;
    SameNames(b, s, u);
    SamePayloads(s.records, u.records, s.queue);
  }

  lemma SamePayloads(records: map<Key, Snapshot>, after: map<Key, Snapshot>, queue: seq<Mutation>)
    requires QueueOfSnapshot(records, queue) && after.Keys == records.Keys
    requires forall key | key in records :: after[key].payload == records[key].payload
    ensures QueueOfSnapshot(after, queue)
  {
    forall i | 0 <= i < |queue| ensures KeyOf(queue[i]) in after && Anonymous(queue[i]) == after[KeyOf(queue[i])].payload {
      assert KeyOf(queue[i]) in records;
    }
  }

  lemma LocalKeepsRecords(b: Binding, s: ProjectSync, local: Local)
    requires RecordsValid(b, s)
    requires InProgress(s) ==> forall key | key in s.records :: SameRecord(b, s.local, local, key)
    ensures RecordsValid(b, s.(local := local))
  {
    hide SnapshotNow, VersionOf, QueueOfSnapshot;
    if s.transition.Some? {
      SameNames(b, s, s.(local := local));
    }
  }

  lemma InboxKeepsRecords(b: Binding, s: ProjectSync, u: ProjectSync)
    requires RecordsValid(b, s) && u == s.(cursor := u.cursor, inbox := u.inbox)
    ensures RecordsValid(b, u)
  {
    hide SnapshotNow, VersionOf, QueueOfSnapshot;
    if s.transition.Some? {
      SameNames(b, s, u);
    }
  }

  lemma MappedKeepsRecords(b: Binding, s: ProjectSync, historyId: string, c: Change)
    requires RecordsValid(b, s) && AboutRecord(b, c) && ApplyMapped(b, s, historyId, c).Some?
    ensures RecordsValid(b, ApplyMapped(b, s, historyId, c).value)
  {
    hide RecordsValid, ApplyOrdinary, SameRecord, AboutRecord;
    var u := ApplyMapped(b, s, historyId, c).value;
    if HandlePulled(b, s, c).Echoed? {
      EchoKeepsRecords(b, s, c);
      InboxKeepsRecords(b, HandlePulled(b, s, c).s, u);
    } else {
      forall key | InProgress(s) && key in s.records ensures SameRecord(b, s.local, u.local, key) {
        OrdinaryTouchesItself(b, s, c, key);
      }
      LocalKeepsRecords(b, s, u.local);
      InboxKeepsRecords(b, s.(local := u.local), u);
    }
  }

  lemma {:induction false} FirstKeepRecords(b: Binding, s: ProjectSync, page: PullPage, mapped: seq<Option<Change>>, position: int, k: nat)
    requires RecordsValid(b, s) && MappedPage(b, page, mapped) && k <= |mapped|
    requires ApplyFirst(b, s, page, mapped, position, k).Some?
    ensures RecordsValid(b, ApplyFirst(b, s, page, mapped, position, k).value)
  {
    hide RecordsValid, ApplyMapped, AboutRecord;
    if k > 0 {
      FirstKeepRecords(b, s, page, mapped, position, k - 1);
      if page.changes[k - 1].sequence > position {
        MappedKeepsRecords(b, ApplyFirst(b, s, page, mapped, position, k - 1).value, page.cursor.historyId, mapped[k - 1].value);
      }
    }
  }

  lemma MappedInbox(b: Binding, s: ProjectSync, historyId: string, c: Change)
    requires ApplyMapped(b, s, historyId, c).Some?
    ensures var u := ApplyMapped(b, s, historyId, c).value;
            u.inbox == s.inbox[Inbox.InboxKey(historyId, c.sequence) := c.changeHash] && u.cursor == s.cursor
  {
    hide ApplyOrdinary;
  }

  /** A page enters its new changes, and only those. */
  lemma {:induction false} FirstInbox(b: Binding, s: ProjectSync, page: PullPage, mapped: seq<Option<Change>>, position: int, k: nat)
    requires MappedPage(b, page, mapped) && k <= |mapped|
    requires ApplyFirst(b, s, page, mapped, position, k).Some?
    ensures var u := ApplyFirst(b, s, page, mapped, position, k).value;
            && u.cursor == s.cursor
            && (forall key | key in s.inbox :: key in u.inbox)
            && (forall key | key in u.inbox && key !in s.inbox ::
                  key.historyId == page.cursor.historyId && exists j :: 0 <= j < k && page.changes[j].sequence == key.sequence)
            && (forall j | 0 <= j < k ::
                  && Inbox.InboxKey(page.cursor.historyId, page.changes[j].sequence) in u.inbox
                  && u.inbox[Inbox.InboxKey(page.cursor.historyId, page.changes[j].sequence)] == page.changes[j].changeHash)
            && (forall key | key in s.inbox :: u.inbox[key] == s.inbox[key])
  {
    hide ApplyMapped, AboutRecord;
    if k > 0 {
      FirstInbox(b, s, page, mapped, position, k - 1);
      var before := ApplyFirst(b, s, page, mapped, position, k - 1).value;
      if page.changes[k - 1].sequence > position {
        MappedInbox(b, before, page.cursor.historyId, mapped[k - 1].value);
        NewEntry(b, before, page.cursor.historyId, mapped[k - 1].value);
      }
    }
  }

  lemma NewEntry(b: Binding, s: ProjectSync, historyId: string, c: Change)
    requires ApplyMapped(b, s, historyId, c).Some?
    ensures Inbox.InboxKey(historyId, c.sequence) !in s.inbox
  {
    hide ApplyOrdinary, HandlePulled;
  }

  lemma PageKeepsCursor(b: Binding, s: ProjectSync, page: PullPage, mapped: seq<Option<Change>>, identity: Time)
    requires MappedPage(b, page, mapped) && ApplyProjectPage(b, s, page, mapped, identity).Some?
    ensures CursorValid(ApplyProjectPage(b, s, page, mapped, identity).value)
  {
    hide Protocol.ValidPulledChange, Protocol.ValidateProjectPullChange, IsCanonicalUuid, ApplyFirst, AboutRecord;
    var start := ProjectCursor(s, page.cursor.historyId).value;
    FirstInbox(b, s, page, mapped, start.0, |mapped|);
  }

  lemma PageKeepsValid(b: Binding, s: ProjectSync, page: PullPage, mapped: seq<Option<Change>>, identity: Time)
    requires TransitionValid(b, s) && MappedPage(b, page, mapped) && ApplyProjectPage(b, s, page, mapped, identity).Some?
    ensures TransitionValid(b, ApplyProjectPage(b, s, page, mapped, identity).value)
  {
    hide ProjectPulledPage, ApplyFirst, RecordsValid, CursorValid, AboutRecord, ProjectCursor, MayAct;
    PageKeepsCursor(b, s, page, mapped, identity);
    var start := ProjectCursor(s, page.cursor.historyId).value;
    FirstKeepRecords(b, s, page, mapped, start.0, |page.changes|);
    var applied := ApplyFirst(b, s, page, mapped, start.0, |page.changes|).value;
    InboxKeepsRecords(b, applied, applied.(cursor := Some(page.cursor)));
  }

  // --------------------------------------------------------- push results

  /** Where no record is queued twice, a result only takes its entry out. */
  lemma {:induction false} RestIsRemoval(queue: seq<Mutation>, done: int, result: Result, k: nat)
    requires KeysDistinct(queue) && 0 <= done < |queue| && k <= |queue|
    ensures Rest(queue, done, result, k) == if k <= done then queue[..k] else queue[..done] + queue[done + 1..k]
  {
    if k > 0 {
      RestIsRemoval(queue, done, result, k - 1);
      if k - 1 > done {
        assert KeyOf(queue[done]) != KeyOf(queue[k - 1]);
      }
    }
  }

  lemma RemovedFits(records: map<Key, Snapshot>, queue: seq<Mutation>, done: int)
    requires QueueOfSnapshot(records, queue) && 0 <= done < |queue|
    ensures QueueOfSnapshot(records, queue[..done] + queue[done + 1..])
    ensures forall key :: IsQueued(queue[..done] + queue[done + 1..], key) <==> key != KeyOf(queue[done]) && IsQueued(queue, key)
  {
    var rest := queue[..done] + queue[done + 1..];
    assert forall i | 0 <= i < |rest| :: rest[i] == queue[if i < done then i else i + 1];
    forall key ensures IsQueued(rest, key) <==> key != KeyOf(queue[done]) && IsQueued(queue, key) {
      if i :| 0 <= i < |queue| && KeyOf(queue[i]) == key && key != KeyOf(queue[done]) {
        assert KeyOf(rest[if i < done then i else i - 1]) == key;
      }
      if i :| 0 <= i < |rest| && KeyOf(rest[i]) == key {
        assert KeyOf(queue[if i < done then i else i + 1]) == key;
      }
    }
  }

  lemma ResultKeepsRecords(b: Binding, s: ProjectSync, i: int, result: Result, identity: Time)
    requires RecordsValid(b, s) && InProgress(s) && 0 <= i < |s.queue| && RecordResult(s, i, result, identity).Some?
    ensures RecordsValid(b, RecordResult(s, i, result, identity).value)
    ensures RecordResult(s, i, result, identity).value.queue == s.queue[..i] + s.queue[i + 1..]
  {
    hide SnapshotNow, VersionOf, WithVersion, QueueOfSnapshot, RecordsNamed, Rest, OfProject, FinalResult, Outbox.SequenceTaken;
    var u := RecordResult(s, i, result, identity).value;
    QueuedIsSnapshot(s, i);
    RestIsRemoval(s.queue, i, result, |s.queue|);
    assert s.queue[i + 1..|s.queue|] == s.queue[i + 1..];
    RemovedFits(s.records, s.queue, i);
    VersionOnly(b, s.local, KeyOf(s.queue[i]), result.version);
    SameNames(b, s, u);
  }

  lemma QueuedIsSnapshot(s: ProjectSync, i: int)
    requires QueueOfSnapshot(s.records, s.queue) && 0 <= i < |s.queue|
    ensures KeysDistinct(s.queue)
    ensures KeyOf(s.queue[i]) in s.records && Anonymous(s.queue[i]) == s.records[KeyOf(s.queue[i])].payload
  {
  }

  lemma ResultKeepsValid(b: Binding, s: ProjectSync, i: int, result: Result, identity: Time)
    requires TransitionValid(b, s) && 0 <= i < |s.queue| && RecordResult(s, i, result, identity).Some?
    ensures TransitionValid(b, RecordResult(s, i, result, identity).value)
  {
    hide SnapshotNow, VersionOf, WithVersion, QueueOfSnapshot, Rest, OfProject, FinalResult, Outbox.SequenceTaken, WithResult;
    if InProgress(s) {
      ResultKeepsRecords(b, s, i, result, identity);
    } else if s.transition.Some? {
      SameNames(b, s, RecordResult(s, i, result, identity).value);
    }
  }
}
