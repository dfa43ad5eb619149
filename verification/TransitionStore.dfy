/** The transition of one project as the device's store carries it out, statement by statement (internal/memory/sync.go). */
module TransitionStore {
  import opened Options
  import opened Uuids
  import opened SyncService
  import opened Replica
  import opened ReplicaStore
  import opened TransitionOrder
  import opened Transition
  import Inbox
  import Outbox
  import Protocol
  import Pull

  /** Two least orders of the same items are one. */
  lemma LeastOrderUnique(items: seq<Mutation>, a: seq<int>, c: seq<int>)
    requires LeastOrder(items, a) && LeastOrder(items, c)
    ensures a == c
  {
    hide Topological, WellFormed;
    assert LexAtMost(a, c) && LexAtMost(c, a);
  }

  lemma SnapshotsAre(b: Binding, local: Local, order: seq<int>)
    requires b.project in local.projects
    requires var items := ObservationItems(b, local, b.listing(ObservationIds(b, local))); WellFormed(items) && LeastOrder(items, order)
    ensures var items := ObservationItems(b, local, b.listing(ObservationIds(b, local)));
            && (forall p | 0 <= p < |order| :: 0 <= order[p] < |items|)
            && Snapshots(b, local) == Some([ProjectSnapshot(b)] + SessionItems(b, b.listing(SessionIds(b, local))) + Pick(items, order))
  {
    hide WellFormed, Topological, LexAtMost;
    var items := ObservationItems(b, local, b.listing(ObservationIds(b, local)));
    forall other | LeastOrder(items, other) ensures other == order {
      LeastOrderUnique(items, other, order);
    }
  }

  lemma NoSnapshots(b: Binding, local: Local)
    requires var items := ObservationItems(b, local, b.listing(ObservationIds(b, local)));
             !(WellFormed(items) && exists order :: Topological(items, order))
    ensures Snapshots(b, local).None?
  {
    hide WellFormed, Topological, LexAtMost;
  }

  class ProjectStore {
    const binding: Binding
    var tables: Store
    var transition: Option<Incarnation>
    var records: map<Key, Snapshot>
    var queue: seq<Mutation>
    var receipts: map<string, Outbox.Receipt>
    var cursor: Option<Cursor>
    var inbox: map<Inbox.InboxKey, ChangeHash>

    function State(): ProjectSync
      reads this, tables
    {
      ProjectSync(tables.State(), transition, records, queue, receipts, cursor, inbox)
    }

    constructor (binding: Binding)
      ensures this.binding == binding && fresh(tables)
      ensures State() == ProjectSync(EMPTY_STORE, None, map[], [], map[], None, map[])
    {
      this.binding := binding;
      tables := new Store();
      transition, records, queue, receipts, cursor, inbox := None, map[], [], map[], None, map[];
    }

    /** ROLLBACK */
    method Rollback(saved: ProjectSync)
      modifies this, tables
      ensures State() == saved && tables == old(tables)
    {
      tables.Rollback(saved.local);
      transition, records, queue, receipts, cursor, inbox :=
        saved.transition, saved.records, saved.queue, saved.receipts, saved.cursor, saved.inbox;
    }

    /** UPDATE … SET sync_version */
    method SetVersion(key: Key, version: int)
      modifies tables
      ensures State() == old(State()).(local := WithVersion(old(tables.State()), key, version))
    {
      tables.Rollback(WithVersion(tables.State(), key, version));
    }

    /** projectTransitionMutations */
    method CurrentSnapshots() returns (list: Option<seq<Mutation>>)
      ensures list == Snapshots(binding, tables.State())
    {
      hide WellFormed, LexAtMost, Topological;
      var local := tables.State();
      if binding.project !in local.projects {
        return None;
      }
      var items := ObservationItems(binding, local, binding.listing(ObservationIds(binding, local)));
      var ordered := OrderObservations(items);
      if ordered.Unordered? {
        NoSnapshots(binding, local);
        return None;
      }
      ghost var order :| LeastOrder(items, order) && ordered.items == Pick(items, order);
      SnapshotsAre(binding, local, order);
      list := Some([ProjectSnapshot(binding)] + SessionItems(binding, binding.listing(SessionIds(binding, local))) + ordered.items);
    }

    /** enqueueSyncOutbox */
    method EnqueueOutbox(m: Mutation) returns (ok: bool)
      modifies this`queue
      ensures ok <==> Enqueue(old(State()), m).Some?
      ensures State() == if ok then Enqueue(old(State()), m).value else old(State())
    {
      hide ValidateMutation, IsCanonicalUuid;
      if !IsCanonicalUuid(m.mutationId) || ValidateMutation(m) != Valid {
        return false;
      }
      if m.mutationId in receipts {
        return false;
      }
      if IdQueued(queue, m.mutationId) {
        return m in queue;
      }
      queue := queue + [m];
      ok := true;
    }

    method RecordSnapshots(list: seq<Mutation>)
      modifies this`records
      ensures State() == old(State()).(records := Taken(list))
    {
      records := map[];
      var i := 0;
      while i < |list|
        invariant 0 <= i <= |list|
        invariant State() == old(State()).(records := Taken(list[..i]))
      {
        assert list[..i + 1][..i] == list[..i];
        records := records[KeyOf(list[i]) := Snapshot(list[i], false)];
        i := i + 1;
      }
      assert list[..i] == list;
    }

    method QueueSnapshots(list: seq<Mutation>, ids: nat -> string) returns (ok: bool)
      modifies this`queue
      ensures ok <==> EnqueueAll(old(State()), list, ids, |list|).Some?
      ensures ok ==> State() == EnqueueAll(old(State()), list, ids, |list|).value
      ensures State() == old(State()).(queue := queue)
    {
      hide Enqueue;
      ghost var start := State();
      var i := 0;
      while i < |list|
        invariant 0 <= i <= |list|
        invariant EnqueueAll(start, list, ids, i) == Some(State())
        invariant State() == start.(queue := queue)
      {
        var queued := EnqueueOutbox(WithId(list[i], ids(i)));
        if !queued {
          RefusedLater(start, list, ids, i + 1, |list|);
          return false;
        }
        i := i + 1;
      }
      ok := true;
    }

    /** PrepareSyncProjectTransition. ids are the random ids its entries would draw. */
    method PrepareTransition(mode: Mode, confirmedRemoteEmpty: bool, bound: bool, claimed: bool, now: Time, ids: nat -> string)
      returns (ok: bool)
      modifies this, tables
      ensures tables == old(tables)
      ensures ok <==> Prepare(binding, old(State()), mode, confirmedRemoteEmpty, bound, claimed, now, ids).Some?
      ensures State() == if ok then Prepare(binding, old(State()), mode, confirmedRemoteEmpty, bound, claimed, now, ids).value else old(State())
    {
      hide Snapshots, ResetVersions, EnqueueAll, Emptied, StorableTime;
      var saved := State();
      if (mode == Reseed && !confirmedRemoteEmpty) || !StorableTime(now) || !bound || InProgress(saved) {
        return false;
      }
      var createdAt := now;
      if transition.Some? && createdAt <= transition.value.createdAt {
        if transition.value.createdAt == MAX_INT64 {
          return false;
        }
        createdAt := transition.value.createdAt + 1;
      }
      if claimed {
        return false;
      }
      var list := CurrentSnapshots();
      if list.None? {
        return false;
      }
      Clear(mode, createdAt, list.value);
      if mode == Reseed {
        tables.Rollback(ResetVersions(binding, saved.local));
        var queued := QueueSnapshots(list.value, ids);
        if !queued {
          Rollback(saved);
          return false;
        }
      }
      ok := true;
    }

    /** The new transition row and its records; clearProjectTransitionSyncState. */
    method Clear(mode: Mode, createdAt: Time, list: seq<Mutation>)
      modifies this
      ensures tables == old(tables)
      ensures State() == Emptied(binding, old(State()), mode, createdAt, list)
    {
      hide ForeignReceipts, Taken;
      receipts := ForeignReceipts(binding, State());
      transition := Some(Incarnation(mode, if mode == Reseed then Publishing else Pulling, createdAt, None));
      RecordSnapshots(list);
      queue := [];
      cursor, inbox := None, map[];
    }

    /** The unseen records, as the pulling transition publishes them. */
    method PublishMissing(current: seq<Mutation>, ids: nat -> string) returns (ok: bool)
      modifies this, tables
      ensures tables == old(tables)
      ensures ok <==> PublishUnseen(old(State()), current, ids, |current|).Some?
      ensures ok ==> State() == PublishUnseen(old(State()), current, ids, |current|).value
    {
      hide Enqueue, WithVersion;
      ghost var start := State();
      var i := 0;
      while i < |current|
        invariant 0 <= i <= |current| && tables == old(tables)
        invariant PublishUnseen(start, current, ids, i) == Some(State())
        invariant records == start.records
      {
        var m := current[i];
        if Unseen(State(), KeyOf(m)) {
          if records[KeyOf(m)].payload != m || m.recordKind == ProjectKind {
            NotPublishedLater(start, current, ids, i + 1, |current|);
            return false;
          }
          SetVersion(KeyOf(m), 0);
          var queued := EnqueueOutbox(WithId(m, ids(i)));
          if !queued {
            NotPublishedLater(start, current, ids, i + 1, |current|);
            return false;
          }
        }
        i := i + 1;
      }
      ok := true;
    }

    /** recoverRejectedProjectTransitionObservations */
    method RecoverRejected(ids: nat -> string) returns (ok: bool)
      modifies this
      ensures tables == old(tables) && tables.State() == old(tables.State())
      ensures ok <==> Recover(binding, old(State()), ids).Some?
      ensures ok ==> State() == Recover(binding, old(State()), ids).value
    {
      hide Snapshots, Candidate, RecoverOne, Enqueue;
      var start := State();
      if !exists key :: key in start.records && Candidate(start, key) {
        return true;
      }
      var current := CurrentSnapshots();
      if current.None? {
        return false;
      }
      if exists key :: key in start.records && Candidate(start, key) && forall i | 0 <= i < |current.value| :: KeyOf(current.value[i]) != key {
        return false;
      }
      var list := current.value;
      var i := 0;
      while i < |list|
        invariant 0 <= i <= |list| && tables == old(tables) && tables.State() == old(tables.State())
        invariant RecoverAll(binding, start, list, ids, i) == Some(State())
      {
        if Candidate(start, KeyOf(list[i])) {
          var again := RecoverRecord(list[i], ids(i));
          if !again {
            NotRecoveredLater(binding, start, list, ids, i + 1, |list|);
            return false;
          }
        }
        i := i + 1;
      }
      ok := true;
    }

    method RecoverRecord(m: Mutation, id: string) returns (ok: bool)
      modifies this`queue
      ensures ok <==> RecoverOne(binding, old(State()), m, id).Some?
      ensures State() == if ok then RecoverOne(binding, old(State()), m, id).value else old(State())
    {
      hide Enqueue, AcceptedOnce, CreationReceipts, RefusedForPrerequisite, PrerequisitesOnTheWay, OfProject, VersionOf;
      var key := KeyOf(m);
      if key !in records || records[key].payload != m || m.observation.None? {
        return false;
      }
      if AcceptedOnce(State(), key) {
        return true;
      }
      if |CreationReceipts(State(), key)| != 1
         || !exists r :: r in CreationReceipts(State(), key) && RefusedForPrerequisite(State(), m, r) {
        return false;
      }
      if !OfProject(binding, tables.State(), key) || VersionOf(tables.State(), key) != 0
         || !PrerequisitesOnTheWay(binding, State(), m.observation.value) {
        return false;
      }
      ok := EnqueueOutbox(WithId(m, id));
    }

    /** From pulling to publishing, with what the remote did not have queued. */
    method PublishPhase(ids: nat -> string) returns (ok: bool)
      requires transition.Some?
      modifies this, tables
      ensures tables == old(tables)
      ensures ok <==> Published(binding, old(State()), ids).Some?
      ensures ok ==> State() == Published(binding, old(State()), ids).value
    {
      hide Snapshots, PublishUnseen, Unseen;
      var saved := State();
      if transition.value.status != Pulling {
        return true;
      }
      var project := Key(ProjectKind, binding.project);
      if project !in records || Unseen(saved, project) {
        return false;
      }
      var current := CurrentSnapshots();
      if current.None? {
        return false;
      }
      ok := PublishMissing(current.value, ids);
      if !ok || exists key :: key in saved.records && Unseen(saved, key) && forall i | 0 <= i < |current.value| :: KeyOf(current.value[i]) != key {
        return false;
      }
      transition := Some(saved.transition.value.(status := Publishing));
    }

    /** FinalizeSyncProjectTransition; identity 0 names no incarnation. */
    method FinalizeTransition(identity: Time, now: Time, ids: nat -> string, moreIds: nat -> string) returns (ok: bool)
      modifies this, tables
      ensures tables == old(tables)
      ensures ok <==> Finalize(binding, old(State()), identity, now, ids, moreIds).Some?
      ensures State() == if ok then Finalize(binding, old(State()), identity, now, ids, moreIds).value else old(State())
    {
      hide Published, Recover, AllSeen, StorableTime, CursorReadable;
      var saved := State();
      if !StorableTime(now) || !NamesThis(saved, identity) || transition.None? || transition.value.createdAt <= 0 {
        return false;
      }
      if transition.value.status == Completed {
        return true;
      }
      if cursor.None? || !CursorReadable(cursor.value) {
        return false;
      }
      if cursor.value.position < cursor.value.watermark {
        return transition.value.mode == Rejoin && transition.value.status == Publishing;
      }
      var mode := transition.value.mode;
      var published := PublishPhase(ids);
      if !published {
        Rollback(saved);
        return false;
      }
      if mode == Rejoin {
        var recovered := RecoverRejected(moreIds);
        if !recovered {
          Rollback(saved);
          return false;
        }
      }
      if transition.None? {
        Rollback(saved);
        return false;
      }
      if queue == [] && AllSeen(State()) {
        transition := Some(transition.value.(
          status := Completed, completedAt := Some(if now < transition.value.createdAt then transition.value.createdAt else now)));
      }
      ok := true;
    }

    /** applyProjectTransitionPulledMutation */
    method HandleTransition(c: Change) returns (handled: bool, diverged: bool)
      modifies this`records, tables
      ensures tables == old(tables)
      ensures var h := HandlePulled(binding, old(State()), c);
              && (diverged <==> h.Diverged?) && (handled <==> h.Echoed?)
              && State() == if h.Echoed? then h.s else old(State())
    {
      hide WithVersion, OfProject;
      handled, diverged := false, false;
      var key := KeyOf(c.mutation);
      if !InProgress(State()) || key !in records {
        return;
      }
      if c.mutation.kind != Create || c.mutation.baseVersion != 0 || c.canonicalVersion != 1 || Anonymous(c.mutation) != records[key].payload {
        diverged := true;
        return;
      }
      if !OfProject(binding, tables.State(), key) {
        diverged := true;
        return;
      }
      SetVersion(key, 1);
      records := records[key := records[key].(seen := true)];
      handled := true;
    }

    /** applyProjectPulledMutation */
    method ApplyPulledMutation(c: Change) returns (ok: bool)
      modifies tables
      ensures ok <==> ApplyOrdinary(old(State()), c).Some?
      ensures State() == old(State()).(local := if ok then ApplyOrdinary(old(State()), c).value else old(tables.State()))
    {
      hide Apply, OwnReceipt;
      var own := OwnReceipt(receipts, c);
      if c.mutation.kind == Create || c.mutation.kind == Update {
        if own.None? {
          return false;
        }
        if own.value && c.disposition != ConflictChange {
          return true;
        }
      }
      if c.mutation.recordKind == ProjectKind && c.mutation.kind == Create {
        var id := c.mutation.recordId;
        if id !in tables.projects || c.mutation.baseVersion != 0 || c.canonicalVersion != 1 {
          return false;
        }
        if tables.projects[id] == 1 {
          return own.value;
        }
        if tables.projects[id] != 0 {
          return false;
        }
        tables.projects := tables.projects[id := 1];
        return true;
      }
      ok := tables.ApplyPulledMutation(c);
    }

    method ApplyMappedChange(historyId: string, c: Change) returns (ok: bool)
      modifies this, tables
      ensures tables == old(tables)
      ensures ok <==> ApplyMapped(binding, old(State()), historyId, c).Some?
      ensures ok ==> State() == ApplyMapped(binding, old(State()), historyId, c).value
    {
      hide HandlePulled, ApplyOrdinary;
      var handled, diverged := HandleTransition(c);
      if diverged {
        return false;
      }
      if !handled {
        var applied := ApplyPulledMutation(c);
        if !applied {
          return false;
        }
      }
      var key := Inbox.InboxKey(historyId, c.sequence);
      HandledInbox(binding, old(State()), c);
      if key in inbox {
        return false;
      }
      inbox := inbox[key := c.changeHash];
      ok := true;
    }

    /** applyProjectPulledPage, with the outcome of mapping each change to local ids. */
    method ApplyPulledPage(page: PullPage, mapped: seq<Option<Change>>, identity: Time) returns (ok: bool)
      requires |mapped| == |page.changes|
      modifies this, tables
      ensures tables == old(tables)
      ensures ok <==> ApplyProjectPage(binding, old(State()), page, mapped, identity).Some?
      ensures State() == if ok then ApplyProjectPage(binding, old(State()), page, mapped, identity).value else old(State())
    {
      hide ApplyMapped, ProjectCursor, MayAct, ProjectPulledPage;
      var saved := State();
      var valid := ValidatePage(page);
      if !valid || !MayAct(saved, identity) || binding.project !in tables.projects {
        return false;
      }
      var start := ProjectCursor(saved, page.cursor.historyId);
      if start.None? {
        return false;
      }
      var position, watermark := start.value.0, start.value.1;
      if page.cursor.position < position || (position < watermark && watermark != page.cursor.watermark)
         || (position == watermark && page.cursor.watermark < watermark) {
        return false;
      }
      var i := 0;
      while i < |page.changes|
        invariant 0 <= i <= |page.changes| && tables == old(tables)
        invariant ApplyFirst(binding, saved, page, mapped, position, i) == Some(State())
      {
        var c := page.changes[i];
        if c.sequence <= position {
          var key := Inbox.InboxKey(page.cursor.historyId, c.sequence);
          if key !in inbox || inbox[key] != c.changeHash {
            NotAppliedLater(binding, saved, page, mapped, position, i + 1, |mapped|);
            Rollback(saved);
            return false;
          }
        } else {
          if mapped[i].None? {
            NotAppliedLater(binding, saved, page, mapped, position, i + 1, |mapped|);
            Rollback(saved);
            return false;
          }
          var applied := ApplyMappedChange(page.cursor.historyId, mapped[i].value);
          if !applied {
            NotAppliedLater(binding, saved, page, mapped, position, i + 1, |mapped|);
            Rollback(saved);
            return false;
          }
        }
        i := i + 1;
      }
      cursor := Some(page.cursor);
      ok := true;
    }

    /** validateProjectPulledPage */
    method ValidatePage(page: PullPage) returns (ok: bool)
      ensures ok <==> ProjectPulledPage(binding.portable, page)
    {
      hide Protocol.ValidPulledChange, Protocol.ValidateProjectPullChange, IsCanonicalUuid, Pull.ValidProjectId;
      if !Pull.ValidProjectId(binding.portable) || !CursorReadable(page.cursor)
         || page.hasMore != (page.cursor.position < page.cursor.watermark) {
        return false;
      }
      if |page.changes| == 0 {
        return !page.hasMore;
      }
      if page.changes[|page.changes| - 1].sequence != page.cursor.position {
        return false;
      }
      var previous := 0;
      var i := 0;
      while i < |page.changes|
        invariant 0 <= i <= |page.changes|
        invariant previous == if i == 0 then 0 else page.changes[i - 1].sequence
        invariant forall k | 0 <= k < i ::
          && 1 <= page.changes[k].sequence <= page.cursor.watermark
          && Protocol.ValidPulledChange(page.changes[k]) && Protocol.ValidateProjectPullChange(page.changes[k], binding.portable)
        invariant forall j, k | 0 <= j < k < i :: page.changes[j].sequence < page.changes[k].sequence
      {
        var change := page.changes[i];
        if change.sequence <= previous || change.sequence > page.cursor.watermark
           || !Protocol.ValidPulledChange(change) || !Protocol.ValidateProjectPullChange(change, binding.portable) {
          return false;
        }
        previous := change.sequence;
        i := i + 1;
      }
      ok := true;
    }

    /** applySyncPushResult for the entry at index, under a claim that holds. */
    method ApplyPushResult(index: int, result: Result, identity: Time) returns (ok: bool)
      requires 0 <= index < |queue|
      modifies this, tables
      ensures tables == old(tables)
      ensures ok <==> RecordResult(old(State()), index, result, identity).Some?
      ensures State() == if ok then RecordResult(old(State()), index, result, identity).value else old(State())
    {
      hide WithResult, Rest, FinalResult, Outbox.SequenceTaken, MayAct;
      var m := queue[index];
      if result.mutationId != m.mutationId || !FinalResult(result) || !MayAct(State(), identity) {
        return false;
      }
      var local := WithResult(tables.State(), m, result);
      if local.None? {
        return false;
      }
      if m.mutationId in receipts || Outbox.SequenceTaken(receipts, result.sequence) {
        return false;
      }
      tables.Rollback(local.value);
      receipts := receipts[m.mutationId := Outbox.Receipt(result, m)];
      queue := Rest(queue, index, result, |queue|);
      ok := true;
    }

    /** enqueueLocalWrite: what local work commits, if it may. */
    method CommitLocalWork(to: ProjectSync) returns (ok: bool)
      modifies this, tables
      ensures tables == old(tables)
      ensures ok <==> LocalWork(old(State()), to).Some?
      ensures State() == if ok then LocalWork(old(State()), to).value else old(State())
    {
      if InProgress(State()) {
        return false;
      }
      tables.Rollback(to.local);
      queue, receipts := to.queue, to.receipts;
      ok := true;
    }
  }

  lemma HandledInbox(b: Binding, s: ProjectSync, c: Change)
    ensures HandlePulled(b, s, c).Echoed? ==> HandlePulled(b, s, c).s.inbox == s.inbox
  {
    hide WithVersion, OfProject;
  }

  lemma {:induction false} RefusedLater(s: ProjectSync, list: seq<Mutation>, ids: nat -> string, k: nat, n: nat)
    requires k <= n <= |list| && EnqueueAll(s, list, ids, k).None?
    ensures EnqueueAll(s, list, ids, n).None?
    decreases n - k
  {
    hide Enqueue;
    if k < n {
      RefusedLater(s, list, ids, k + 1, n);
    }
  }

  lemma {:induction false} NotPublishedLater(s: ProjectSync, current: seq<Mutation>, ids: nat -> string, k: nat, n: nat)
    requires k <= n <= |current| && PublishUnseen(s, current, ids, k).None?
    ensures PublishUnseen(s, current, ids, n).None?
    decreases n - k
  {
    hide Enqueue, WithVersion;
    if k < n {
      NotPublishedLater(s, current, ids, k + 1, n);
    }
  }

  lemma {:induction false} NotRecoveredLater(b: Binding, s: ProjectSync, current: seq<Mutation>, ids: nat -> string, k: nat, n: nat)
    requires k <= n <= |current| && RecoverAll(b, s, current, ids, k).None?
    ensures RecoverAll(b, s, current, ids, n).None?
    decreases n - k
  {
    hide RecoverOne, Candidate;
    if k < n {
      NotRecoveredLater(b, s, current, ids, k + 1, n);
    }
  }

  lemma {:induction false} NotAppliedLater(b: Binding, s: ProjectSync, page: PullPage, mapped: seq<Option<Change>>, position: int, k: nat, n: nat)
    requires k <= n <= |page.changes| == |mapped| && ApplyFirst(b, s, page, mapped, position, k).None?
    ensures ApplyFirst(b, s, page, mapped, position, n).None?
    decreases n - k
  {
    hide ApplyMapped;
    if k < n {
      NotAppliedLater(b, s, page, mapped, position, k + 1, n);
    }
  }
}
