/**
 Republishing or rejoining one project (internal/memory/sync.go): its records are
 snapshotted, local writes of the project stop, and the transition completes when
 the remote has echoed the whole snapshot and nothing is left to push.
 */
module Transition {
  import opened Options
  import opened Uuids
  import opened SyncService
  import opened Protocol
  import opened Replica
  import opened TransitionOrder
  import Inbox
  import Outbox
  import Pull

  datatype Mode = Reseed | Rejoin
  datatype Status = Pulling | Publishing | Completed
  datatype Incarnation = Incarnation(mode: Mode, status: Status, createdAt: Time, completedAt: Option<Time>)

  datatype Key = Key(kind: RecordKind, id: string)

  /** One row of sync_project_transition_records; the digest is taken as its payload. */
  datatype Snapshot = Snapshot(payload: Mutation, seen: bool)

  /** A project and its portable identity; listing is the order in which the tables return ids. */
  datatype Binding = Binding(project: string, portable: string, listing: set<string> -> seq<string>)

  /** What the transition of one project reads and writes. queue and receipts hold that project's entries. */
  datatype ProjectSync = ProjectSync(
    local: Local,
    transition: Option<Incarnation>,
    records: map<Key, Snapshot>,
    queue: seq<Mutation>,
    receipts: map<string, Outbox.Receipt>,
    cursor: Option<Cursor>,
    inbox: map<Inbox.InboxKey, ChangeHash>)

  // -------------------------------------------------------------- records

  function KeyOf(m: Mutation): Key {
    Key(m.recordKind, m.recordId)
  }

  function Creation(kind: RecordKind, id: string): Mutation {
    Mutation("", id, kind, Create, 0, None, None, None, None, None)
  }

  function ProjectSnapshot(b: Binding): Mutation {
    Creation(ProjectKind, b.project).(project := Some(Project(b.project)))
  }

  function SessionSnapshot(b: Binding, id: string): Mutation {
    Creation(SessionKind, id).(session := Some(Session(id, b.project)))
  }

  /** syncObservation, as a creation. */
  function ObservationSnapshot(b: Binding, id: string, row: LocalObservation): Mutation {
    Creation(ObservationKind, id).(observation := Some(Observation(
      id, row.title, row.projectId, row.sessionId, row.scope, row.category, row.content, row.topicKey,
      b.listing(row.references), row.provenance,
      if row.state == LocalArchived then Archived else Active,
      if row.state == LocalNeedsReview then NeedsReview else Clear,
      row.createdAt, row.updatedAt, row.reviewAfter)))
  }

  /** What a snapshot of a record of the project says now. */
  function SnapshotNow(b: Binding, local: Local, key: Key): Option<Mutation> {
    match key.kind
    case ProjectKind => if key.id == b.project && key.id in local.projects then Some(ProjectSnapshot(b)) else None
    case SessionKind =>
      if key.id in local.sessions && local.sessions[key.id].projectId == b.project then Some(SessionSnapshot(b, key.id)) else None
    case ObservationKind =>
      if key.id in local.observations && local.observations[key.id].body.projectId == b.project && !HasTombstone(local, key.id) then
        Some(ObservationSnapshot(b, key.id, local.observations[key.id].body))
      else None
  }

  function VersionOf(local: Local, key: Key): int {
    match key.kind
    case ProjectKind => if key.id in local.projects then local.projects[key.id] else 0
    case SessionKind => if key.id in local.sessions then local.sessions[key.id].version else 0
    case ObservationKind => if key.id in local.observations then local.observations[key.id].version else 0
  }

  /** UPDATE … SET sync_version of one record, if the project has it. */
  function WithVersion(local: Local, key: Key, version: int): Local {
    match key.kind
    case ProjectKind => if key.id in local.projects then local.(projects := local.projects[key.id := version]) else local
    case SessionKind =>
      if key.id in local.sessions then
        local.(sessions := local.sessions[key.id := local.sessions[key.id].(version := version)])
      else local
    case ObservationKind =>
      if key.id in local.observations then
        local.(observations := local.observations[key.id := local.observations[key.id].(version := version)])
      else local
  }

  predicate OfProject(b: Binding, local: Local, key: Key) {
    match key.kind
    case ProjectKind => key.id == b.project && key.id in local.projects
    case SessionKind => key.id in local.sessions && local.sessions[key.id].projectId == b.project
    case ObservationKind => key.id in local.observations && local.observations[key.id].body.projectId == b.project
  }

  function ResetVersions(b: Binding, local: Local): Local {
    local.(
      projects := if b.project in local.projects then local.projects[b.project := 0] else local.projects,
      sessions := map id | id in local.sessions ::
        if local.sessions[id].projectId == b.project then local.sessions[id].(version := 0) else local.sessions[id],
      observations := map id | id in local.observations ::
        if local.observations[id].body.projectId == b.project then local.observations[id].(version := 0) else local.observations[id])
  }

  // ------------------------------------------------------------- snapshots

  function SessionIds(b: Binding, local: Local): set<string> {
    set id | id in local.sessions && local.sessions[id].projectId == b.project
  }

  function ObservationIds(b: Binding, local: Local): set<string> {
    set id | id in local.observations && local.observations[id].body.projectId == b.project && !HasTombstone(local, id)
  }

  function SessionItems(b: Binding, ids: seq<string>): (items: seq<Mutation>)
    ensures |items| == |ids|
  {
    seq(|ids|, i requires 0 <= i < |ids| => SessionSnapshot(b, ids[i]))
  }

  function ObservationItems(b: Binding, local: Local, ids: seq<string>): (items: seq<Mutation>)
    ensures |items| == |ids|
  {
    seq(|ids|, i requires 0 <= i < |ids| =>
      if ids[i] in local.observations then ObservationSnapshot(b, ids[i], local.observations[ids[i]].body)
      else Creation(ObservationKind, ids[i]))
  }

  /** A listing returns every element of a set once. */
  ghost predicate Lists(ids: seq<string>, s: set<string>) {
    Distinct(ids) && forall id :: id in ids <==> id in s
  }

  ghost predicate ListingExact(b: Binding) {
    forall s :: Lists(b.listing(s), s)
  }

  ghost function Enumerated(s: set<string>): (ids: seq<string>)
    ensures Lists(ids, s)
  {
    if s == {} then []
    else
      var id :| id in s;
      [id] + Enumerated(s - {id})
  }

  /** There are such listings. */
  lemma ListingsExist(project: string, portable: string) returns (b: Binding)
    ensures ListingExact(b) && b.project == project && b.portable == portable
  {
    b := Binding(project, portable, s => Enumerated(s));
    forall s ensures Lists(b.listing(s), s) {
      assert b.listing(s) == Enumerated(s);
    }
  }

  /** projectTransitionMutations: the project, its sessions, and its observations in reference order. */
  ghost function Snapshots(b: Binding, local: Local): Option<seq<Mutation>>
  {
    var items := ObservationItems(b, local, b.listing(ObservationIds(b, local)));
    if b.project !in local.projects || !WellFormed(items) || !exists order :: LeastOrder(items, order) then None
    else
      var order :| LeastOrder(items, order);
      Some([ProjectSnapshot(b)] + SessionItems(b, b.listing(SessionIds(b, local))) + Pick(items, order))
  }

  /** The list holds the snapshot of every record of the project, and nothing else. */
  ghost predicate Covers(b: Binding, local: Local, list: seq<Mutation>) {
    && (forall i | 0 <= i < |list| :: SnapshotNow(b, local, KeyOf(list[i])) == Some(list[i]))
    && (forall i, j | 0 <= i < j < |list| :: KeyOf(list[i]) != KeyOf(list[j]))
    && (forall key | SnapshotNow(b, local, key).Some? :: exists i :: 0 <= i < |list| && KeyOf(list[i]) == key)
  }

  lemma OrderPicksAll(items: seq<Mutation>, order: seq<int>, i: int)
    requires LeastOrder(items, order) && 0 <= i < |items|
    ensures exists p :: 0 <= p < |order| && Pick(items, order)[p] == items[i]
  {
    PermutationCovers(order, |items|, i);
    var p :| 0 <= p < |order| && order[p] == i;
    assert Pick(items, order)[p] == items[i];
  }

  lemma ObservationsCovered(b: Binding, local: Local, ids: seq<string>, order: seq<int>)
    requires Lists(ids, ObservationIds(b, local))
    requires LeastOrder(ObservationItems(b, local, ids), order)
    ensures var list := Pick(ObservationItems(b, local, ids), order);
            && (forall p | 0 <= p < |list| :: list[p].recordKind == ObservationKind && SnapshotNow(b, local, KeyOf(list[p])) == Some(list[p]))
            && (forall p, q | 0 <= p < q < |list| :: list[p].recordId != list[q].recordId)
            && (forall id | SnapshotNow(b, local, Key(ObservationKind, id)).Some? :: exists p :: 0 <= p < |list| && list[p].recordId == id)
  {
    hide LeastOrder, HasTombstone;
    var items := ObservationItems(b, local, ids);
    LeastOrderIndices(items, order);
    var list := Pick(items, order);
    forall id | SnapshotNow(b, local, Key(ObservationKind, id)).Some?
      ensures exists p :: 0 <= p < |list| && list[p].recordId == id
    {
      assert id in ObservationIds(b, local);
      var i :| 0 <= i < |ids| && ids[i] == id;
      OrderPicksAll(items, order, i);
    }
    forall p | 0 <= p < |list| ensures list[p].recordKind == ObservationKind && SnapshotNow(b, local, KeyOf(list[p])) == Some(list[p]) {
      assert ids[order[p]] in ids;
    }
  }

  lemma LeastOrderIndices(items: seq<Mutation>, order: seq<int>)
    requires LeastOrder(items, order)
    ensures |order| == |items|
    ensures forall p | 0 <= p < |order| :: 0 <= order[p] < |items|
    ensures forall p, q | 0 <= p < q < |order| :: order[p] != order[q]
  {
  }

  lemma SessionsCovered(b: Binding, local: Local, ids: seq<string>)
    requires Lists(ids, SessionIds(b, local))
    ensures var list := SessionItems(b, ids);
            && (forall p | 0 <= p < |list| :: list[p].recordKind == SessionKind && SnapshotNow(b, local, KeyOf(list[p])) == Some(list[p]))
            && (forall p, q | 0 <= p < q < |list| :: list[p].recordId != list[q].recordId)
            && (forall id | SnapshotNow(b, local, Key(SessionKind, id)).Some? :: exists p :: 0 <= p < |list| && list[p].recordId == id)
  {
    var list := SessionItems(b, ids);
    forall id | SnapshotNow(b, local, Key(SessionKind, id)).Some?
      ensures exists p :: 0 <= p < |list| && list[p].recordId == id
    {
      assert id in SessionIds(b, local);
      var i :| 0 <= i < |ids| && ids[i] == id;
      assert list[i].recordId == id;
    }
    forall p | 0 <= p < |list| ensures list[p].recordKind == SessionKind && SnapshotNow(b, local, KeyOf(list[p])) == Some(list[p]) {
      assert ids[p] in ids;
    }
  }

  /** A snapshot is complete and repeats nothing. */
  lemma SnapshotsCover(b: Binding, local: Local)
    requires ListingExact(b) && Snapshots(b, local).Some?
    ensures Covers(b, local, Snapshots(b, local).value)
    ensures |Snapshots(b, local).value| > 0 && Snapshots(b, local).value[0] == ProjectSnapshot(b)
  {
    hide LeastOrder, WellFormed, SnapshotNow, Lists;
    var ids := b.listing(ObservationIds(b, local));
    var sessions := b.listing(SessionIds(b, local));
    assert Lists(ids, ObservationIds(b, local)) && Lists(sessions, SessionIds(b, local));
    var list := Snapshots(b, local).value;
    var order := SnapshotOrder(b, local);
    LeastOrderIndices(ObservationItems(b, local, ids), order);
    ObservationsCovered(b, local, ids, order);
    SessionsCovered(b, local, sessions);
    PartsCover(b, local, SessionItems(b, sessions), Pick(ObservationItems(b, local, ids), order));
  }

  lemma SnapshotOrder(b: Binding, local: Local) returns (order: seq<int>)
    requires Snapshots(b, local).Some?
    ensures b.project in local.projects
    ensures var items := ObservationItems(b, local, b.listing(ObservationIds(b, local)));
            && LeastOrder(items, order)
            && Snapshots(b, local).value == [ProjectSnapshot(b)] + SessionItems(b, b.listing(SessionIds(b, local))) + Pick(items, order)
  {
    hide WellFormed, Topological, LexAtMost;
    var items := ObservationItems(b, local, b.listing(ObservationIds(b, local)));
    var list := Snapshots(b, local).value;
    var least :| LeastOrder(items, least) && list == [ProjectSnapshot(b)] + SessionItems(b, b.listing(SessionIds(b, local))) + Pick(items, least);
    order := least;
  }

  lemma PartsCover(b: Binding, local: Local, sessions: seq<Mutation>, observations: seq<Mutation>)
    requires b.project in local.projects
    requires forall p | 0 <= p < |sessions| :: sessions[p].recordKind == SessionKind && SnapshotNow(b, local, KeyOf(sessions[p])) == Some(sessions[p])
    requires forall p, q | 0 <= p < q < |sessions| :: sessions[p].recordId != sessions[q].recordId
    requires forall id | SnapshotNow(b, local, Key(SessionKind, id)).Some? :: exists p :: 0 <= p < |sessions| && sessions[p].recordId == id
    requires forall p | 0 <= p < |observations| ::
      observations[p].recordKind == ObservationKind && SnapshotNow(b, local, KeyOf(observations[p])) == Some(observations[p])
    requires forall p, q | 0 <= p < q < |observations| :: observations[p].recordId != observations[q].recordId
    requires forall id | SnapshotNow(b, local, Key(ObservationKind, id)).Some? ::
      exists p :: 0 <= p < |observations| && observations[p].recordId == id
    ensures Covers(b, local, [ProjectSnapshot(b)] + sessions + observations)
  {
    hide HasTombstone;
    var list := [ProjectSnapshot(b)] + sessions + observations;
    var n := |sessions|;
    assert forall p | 0 <= p < n :: list[p + 1] == sessions[p];
    assert forall p | 0 <= p < |observations| :: list[p + 1 + n] == observations[p];
    forall i | 0 <= i < |list| ensures SnapshotNow(b, local, KeyOf(list[i])) == Some(list[i]) {
      assert i == 0 || list[i] == (if i <= n then sessions[i - 1] else observations[i - 1 - n]);
    }
    forall i, j | 0 <= i < j < |list| ensures KeyOf(list[i]) != KeyOf(list[j]) {
      assert list[j] == (if j <= n then sessions[j - 1] else observations[j - 1 - n]);
      assert i == 0 || list[i] == (if i <= n then sessions[i - 1] else observations[i - 1 - n]);
    }
    forall key | SnapshotNow(b, local, key).Some? ensures exists i :: 0 <= i < |list| && KeyOf(list[i]) == key {
      match key.kind
      case ProjectKind => assert KeyOf(list[0]) == key;
      case SessionKind =>
        assert key == Key(SessionKind, key.id);
        var p :| 0 <= p < n && sessions[p].recordId == key.id;
        assert KeyOf(list[p + 1]) == key;
      case ObservationKind =>
        assert key == Key(ObservationKind, key.id);
        var p :| 0 <= p < |observations| && observations[p].recordId == key.id;
        assert KeyOf(list[p + 1 + n]) == key;
    }
  }

  // ----------------------------------------------------------- the queue

  predicate InProgress(s: ProjectSync) {
    s.transition.Some? && s.transition.value.status != Completed
  }

  predicate IsQueued(queue: seq<Mutation>, key: Key) {
    exists i :: 0 <= i < |queue| && KeyOf(queue[i]) == key
  }

  predicate IdQueued(queue: seq<Mutation>, id: string) {
    exists i :: 0 <= i < |queue| && queue[i].mutationId == id
  }

  /** enqueueSyncOutbox: an id that is already queued must stand for the same mutation. */
  function Enqueue(s: ProjectSync, m: Mutation): Option<ProjectSync> {
    if !IsCanonicalUuid(m.mutationId) || ValidateMutation(m) != Valid || m.mutationId in s.receipts then None
    else if IdQueued(s.queue, m.mutationId) then if m in s.queue then Some(s) else None
    else Some(s.(queue := s.queue + [m]))
  }

  function WithId(m: Mutation, id: string): Mutation {
    m.(mutationId := id)
  }

  function Anonymous(m: Mutation): Mutation {
    m.(mutationId := "")
  }

  /** The first k mutations of a list, queued under drawn ids. */
  function EnqueueAll(s: ProjectSync, list: seq<Mutation>, ids: nat -> string, k: nat): Option<ProjectSync>
    requires k <= |list|
  {
    if k == 0 then Some(s)
    else
      var before := EnqueueAll(s, list, ids, k - 1);
      if before.None? then None else Enqueue(before.value, WithId(list[k - 1], ids(k - 1)))
  }

  // ------------------------------------------------------------- prepare

  /** A generation later than the one it replaces. */
  function Generation(prior: Option<Incarnation>, now: Time): Option<Time> {
    if prior.None? || prior.value.createdAt < now then Some(now)
    else if prior.value.createdAt == MAX_INT64 then None
    else Some(prior.value.createdAt + 1)
  }

  function Taken(list: seq<Mutation>): map<Key, Snapshot> {
    if list == [] then map[]
    else Taken(list[..|list| - 1])[KeyOf(list[|list| - 1]) := Snapshot(list[|list| - 1], false)]
  }

  function ForeignReceipts(b: Binding, s: ProjectSync): map<string, Outbox.Receipt> {
    map id | id in s.receipts && !OfProject(b, s.local, KeyOf(s.receipts[id].mutation)) :: s.receipts[id]
  }

  /** A snapshot taken, and everything synchronised about the project forgotten. */
  function Emptied(b: Binding, s: ProjectSync, mode: Mode, createdAt: Time, list: seq<Mutation>): ProjectSync {
    s.(transition := Some(Incarnation(mode, if mode == Reseed then Publishing else Pulling, createdAt, None)),
       records := Taken(list),
       queue := [],
       receipts := ForeignReceipts(b, s),
       cursor := None,
       inbox := map[])
  }

  /** bound: the portable project is bound to this local one; claimed: a queued entry is leased. */
  ghost function Prepare(b: Binding, s: ProjectSync, mode: Mode, confirmedRemoteEmpty: bool, bound: bool, claimed: bool, now: Time,
                         ids: nat -> string): Option<ProjectSync> {
    if (mode == Reseed && !confirmedRemoteEmpty) || !StorableTime(now) || !bound || InProgress(s) then None
    else if Generation(s.transition, now).None? || claimed || Snapshots(b, s.local).None? then None
    else
      var list := Snapshots(b, s.local).value;
      var prepared := Emptied(b, s, mode, Generation(s.transition, now).value, list);
      if mode == Rejoin then Some(prepared)
      else EnqueueAll(prepared.(local := ResetVersions(b, s.local)), list, ids, |list|)
  }

  // ------------------------------------------------------------ finalize

  predicate Unseen(s: ProjectSync, key: Key) {
    key in s.records && !s.records[key].seen
  }

  /** What the remote did not have is queued as it was snapshotted; the project itself must have been there. */
  function PublishUnseen(s: ProjectSync, current: seq<Mutation>, ids: nat -> string, k: nat): Option<ProjectSync>
    requires k <= |current|
  {
    if k == 0 then Some(s)
    else
      var before := PublishUnseen(s, current, ids, k - 1);
      var m := current[k - 1];
      if before.None? || !Unseen(s, KeyOf(m)) then before
      else if s.records[KeyOf(m)].payload != m || m.recordKind == ProjectKind then None
      else Enqueue(before.value.(local := WithVersion(before.value.local, KeyOf(m), 0)), WithId(m, ids(k - 1)))
  }

  predicate Candidate(s: ProjectSync, key: Key) {
    key.kind == ObservationKind && Unseen(s, key) && !IsQueued(s.queue, key)
  }

  /** The receipts of a record's creations. */
  function CreationReceipts(s: ProjectSync, key: Key): set<string> {
    set id | id in s.receipts && KeyOf(s.receipts[id].mutation) == key && s.receipts[id].mutation.kind == Create
  }

  predicate AcceptedOnce(s: ProjectSync, key: Key) {
    exists id :: id in s.receipts && id in CreationReceipts(s, key) && Outbox.IsAccepted(s.receipts[id].result)
  }

  /** The one refusal that may be tried again, of exactly this snapshot. */
  predicate RefusedForPrerequisite(s: ProjectSync, m: Mutation, id: string) {
    && id in s.receipts && IsCanonicalUuid(id)
    && s.receipts[id].result.disposition == Rejected && s.receipts[id].result.code == InvalidPrerequisite
    && !s.receipts[id].result.retryable
    && s.receipts[id].result.sequence.None? && s.receipts[id].result.version == 0
    && s.receipts[id].mutation == WithId(m, id)
  }

  /** The number of queued creations of a record. */
  function QueuedCreations(queue: seq<Mutation>, id: string): nat {
    if queue == [] then 0
    else
      QueuedCreations(queue[..|queue| - 1], id)
      + if queue[|queue| - 1].recordKind == ObservationKind && queue[|queue| - 1].recordId == id && queue[|queue| - 1].kind == Create
           && queue[|queue| - 1].baseVersion == 0 then 1 else 0
  }

  /** By now the remote has, or will get before, everything the observation names. */
  predicate PrerequisitesOnTheWay(b: Binding, s: ProjectSync, o: Observation) {
    && (o.sessionId != "" ==> OfProject(b, s.local, Key(SessionKind, o.sessionId)) && s.local.sessions[o.sessionId].version > 0)
    && forall i | 0 <= i < |o.references| ::
         && OfProject(b, s.local, Key(ObservationKind, o.references[i]))
         && s.local.observations[o.references[i]].version >= 0
         && (s.local.observations[o.references[i]].version == 0 ==> QueuedCreations(s.queue, o.references[i]) == 1)
  }

  /** One record of recoverRejectedProjectTransitionObservations. */
  function RecoverOne(b: Binding, s: ProjectSync, m: Mutation, id: string): Option<ProjectSync> {
    var key := KeyOf(m);
    if key !in s.records || s.records[key].payload != m || m.observation.None? then None
    else if AcceptedOnce(s, key) then Some(s)
    else if |CreationReceipts(s, key)| != 1 || !exists r :: r in CreationReceipts(s, key) && RefusedForPrerequisite(s, m, r) then None
    else if !OfProject(b, s.local, key) || VersionOf(s.local, key) != 0 || !PrerequisitesOnTheWay(b, s, m.observation.value) then None
    else Enqueue(s, WithId(m, id))
  }

  function RecoverAll(b: Binding, s: ProjectSync, current: seq<Mutation>, ids: nat -> string, k: nat): Option<ProjectSync>
    requires k <= |current|
  {
    if k == 0 then Some(s)
    else
      var before := RecoverAll(b, s, current, ids, k - 1);
      if before.None? || !Candidate(s, KeyOf(current[k - 1])) then before
      else RecoverOne(b, before.value, current[k - 1], ids(k - 1))
  }

  ghost function Recover(b: Binding, s: ProjectSync, ids: nat -> string): Option<ProjectSync> {
    if !exists key :: key in s.records && Candidate(s, key) then Some(s)
    else if Snapshots(b, s.local).None? then None
    else
      var current := Snapshots(b, s.local).value;
      if exists key :: key in s.records && Candidate(s, key) && forall i | 0 <= i < |current| :: KeyOf(current[i]) != key then None
      else RecoverAll(b, s, current, ids, |current|)
  }

  predicate AllSeen(s: ProjectSync) {
    forall key | key in s.records :: s.records[key].seen
  }

  /** Completed once nothing is pending and every record was echoed. */
  function Settled(s: ProjectSync, now: Time): ProjectSync
    requires s.transition.Some?
  {
    if s.queue == [] && AllSeen(s) then
      var at := if now < s.transition.value.createdAt then s.transition.value.createdAt else now;
      s.(transition := Some(s.transition.value.(status := Completed, completedAt := Some(at))))
    else s
  }

  ghost function Published(b: Binding, s: ProjectSync, ids: nat -> string): Option<ProjectSync>
    requires s.transition.Some?
  {
    var project := Key(ProjectKind, b.project);
    if s.transition.value.status != Pulling then Some(s)
    else if project !in s.records || Unseen(s, project) || Snapshots(b, s.local).None? then None
    else
      var current := Snapshots(b, s.local).value;
      var published := PublishUnseen(s, current, ids, |current|);
      if published.None? || exists key :: key in s.records && Unseen(s, key) && forall i | 0 <= i < |current| :: KeyOf(current[i]) != key then
        None
      else Some(published.value.(transition := Some(s.transition.value.(status := Publishing))))
  }

  /** identity 0 names no incarnation. */
  predicate NamesThis(s: ProjectSync, identity: Time) {
    identity == 0 || (identity > 0 && s.transition.Some? && s.transition.value.createdAt == identity)
  }

  predicate CursorReadable(c: Cursor) {
    IsCanonicalUuid(c.historyId) && 0 <= c.position <= c.watermark
  }

  /** FinalizeSyncProjectTransition, with the ids its two rounds of entries would draw. */
  ghost function Finalize(b: Binding, s: ProjectSync, identity: Time, now: Time, ids: nat -> string, moreIds: nat -> string): Option<ProjectSync> {
    if !StorableTime(now) || !NamesThis(s, identity) || s.transition.None? || s.transition.value.createdAt <= 0 then None
    else if s.transition.value.status == Completed then Some(s)
    else if s.cursor.None? || !CursorReadable(s.cursor.value) then None
    else if s.cursor.value.position < s.cursor.value.watermark then
      if s.transition.value.mode == Rejoin && s.transition.value.status == Publishing then Some(s) else None
    else
      var published := Published(b, s, ids);
      if published.None? then None
      else
        var recovered := if s.transition.value.mode == Rejoin then Recover(b, published.value, moreIds) else published;
        if recovered.None? || recovered.value.transition.None? then None else Some(Settled(recovered.value, now))
  }

  // ------------------------------------------------------------ the pull

  datatype Handled = NotHandled | Diverged | Echoed(s: ProjectSync)

  /** applyProjectTransitionPulledMutation: a change to a snapshotted record must be its echo. */
  function HandlePulled(b: Binding, s: ProjectSync, c: Change): Handled {
    var key := KeyOf(c.mutation);
    if !InProgress(s) || key !in s.records then NotHandled
    else if || c.mutation.kind != Create || c.mutation.baseVersion != 0 || c.canonicalVersion != 1
            || Anonymous(c.mutation) != s.records[key].payload || !OfProject(b, s.local, key) then Diverged
    else Echoed(s.(local := WithVersion(s.local, key, 1), records := s.records[key := s.records[key].(seen := true)]))
  }

  /** ownPulledReceipt: None when a receipt of the mutation contradicts the change. */
  function OwnReceipt(receipts: map<string, Outbox.Receipt>, c: Change): Option<bool> {
    var id := c.mutation.mutationId;
    if id !in receipts then Some(false)
    else
      var r := receipts[id];
      if r.result.retryable || r.result.sequence != Some(c.sequence) || r.result.version != c.canonicalVersion || r.mutation != c.mutation
      then None
      else if r.result.disposition == Conflict && c.disposition != ConflictChange then None
      else if Outbox.IsAccepted(r.result) && c.disposition == ConflictChange then None
      else Some(true)
  }

  /** applyProjectPulledMutation */
  function ApplyOrdinary(s: ProjectSync, c: Change): Option<Local> {
    var own := OwnReceipt(s.receipts, c);
    var snapshot := c.mutation.kind == Create || c.mutation.kind == Update;
    if snapshot && own.None? then None
    else if snapshot && own.value && c.disposition != ConflictChange then Some(s.local)
    else if c.mutation.recordKind == ProjectKind && c.mutation.kind == Create then
      if c.mutation.recordId !in s.local.projects || c.mutation.baseVersion != 0 || c.canonicalVersion != 1 then None
      else if s.local.projects[c.mutation.recordId] == 1 then if own.value then Some(s.local) else None
      else if s.local.projects[c.mutation.recordId] != 0 then None
      else Some(s.local.(projects := s.local.projects[c.mutation.recordId := 1]))
    else
      match Apply(s.local, c)
      case NotApplied => None
      case Applied(local) => Some(local)
  }

  /** A change under local ids, as mapProjectPulledChange leaves it: its payload is about its record, and the project is this one. */
  predicate AboutRecord(b: Binding, c: Change) {
    var m := c.mutation;
    && (m.recordKind == ProjectKind ==> m.recordId == b.project)
    && (c.disposition == ConflictChange || m.kind == Tombstone || m.kind == Resolve ==> m.recordKind == ObservationKind)
    && (m.session.Some? ==> m.session.value.id == m.recordId)
    && (m.observation.Some? ==> m.observation.value.id == m.recordId)
    && (m.resolution.Some? && m.resolution.value.observation.Some? ==> m.resolution.value.observation.value.id == m.recordId)
  }

  /** mapped answers page: same sequences, versions and digests, under local ids. */
  predicate MappedPage(b: Binding, page: PullPage, mapped: seq<Option<Change>>) {
    && |mapped| == |page.changes|
    && forall k | 0 <= k < |mapped| && mapped[k].Some? ::
         && mapped[k].value.sequence == page.changes[k].sequence
         && mapped[k].value.changeHash == page.changes[k].changeHash
         && AboutRecord(b, mapped[k].value)
  }

  /** One change beyond the cursor: materialised and entered in the inbox. */
  function ApplyMapped(b: Binding, s: ProjectSync, historyId: string, c: Change): Option<ProjectSync> {
    var handled := HandlePulled(b, s, c);
    var ordinary := if handled.NotHandled? then ApplyOrdinary(s, c) else None;
    var key := Inbox.InboxKey(historyId, c.sequence);
    if handled.Diverged? || (handled.NotHandled? && ordinary.None?) || key in s.inbox then None
    else
      var t := if handled.Echoed? then handled.s else s.(local := ordinary.value);
      Some(t.(inbox := s.inbox[key := c.changeHash]))
  }

  /** The first k changes of a page. mapped holds each change under local ids, None where that fails. */
  function ApplyFirst(b: Binding, s: ProjectSync, page: PullPage, mapped: seq<Option<Change>>, position: int, k: nat): Option<ProjectSync>
    requires k <= |page.changes| == |mapped|
  {
    if k == 0 then Some(s)
    else
      var before := ApplyFirst(b, s, page, mapped, position, k - 1);
      var c := page.changes[k - 1];
      if before.None? then None
      else if c.sequence <= position then
        var key := Inbox.InboxKey(page.cursor.historyId, c.sequence);
        if key in before.value.inbox && before.value.inbox[key] == c.changeHash then before else None
      else if mapped[k - 1].None? then None
      else ApplyMapped(b, before.value, page.cursor.historyId, mapped[k - 1].value)
  }

  /** validateProjectPulledPage */
  predicate ProjectPulledPage(portable: string, page: PullPage) {
    && Pull.ValidProjectId(portable)
    && CursorReadable(page.cursor)
    && page.hasMore == (page.cursor.position < page.cursor.watermark)
    && (if page.changes == [] then !page.hasMore else LastSequence(page.changes) == page.cursor.position)
    && (forall k | 0 <= k < |page.changes| ::
          && 1 <= page.changes[k].sequence <= page.cursor.watermark
          && ValidPulledChange(page.changes[k]) && ValidateProjectPullChange(page.changes[k], portable))
    && (forall j, k | 0 <= j < k < |page.changes| :: page.changes[j].sequence < page.changes[k].sequence)
  }

  /** projectPulledCursor: position and watermark, when cursor and inbox agree. */
  function ProjectCursor(s: ProjectSync, historyId: string): Option<(int, int)> {
    if s.cursor.None? then if s.inbox == map[] then Some((0, 0)) else None
    else if !CursorReadable(s.cursor.value) || s.cursor.value.historyId != historyId || !InboxWithin(s.inbox, s.cursor.value) then None
    else Some((s.cursor.value.position, s.cursor.value.watermark))
  }

  predicate InboxWithin(inbox: map<Inbox.InboxKey, ChangeHash>, c: Cursor) {
    forall key | key in inbox :: key.historyId == c.historyId && 1 <= key.sequence <= c.position
  }

  /** An operation that names an incarnation runs only while it is the active one. */
  predicate MayAct(s: ProjectSync, identity: Time) {
    identity == 0 || (NamesThis(s, identity) && InProgress(s))
  }

  /** applyProjectPulledPage */
  function ApplyProjectPage(b: Binding, s: ProjectSync, page: PullPage, mapped: seq<Option<Change>>, identity: Time): Option<ProjectSync>
    requires |mapped| == |page.changes|
  {
    if !ProjectPulledPage(b.portable, page) || !MayAct(s, identity) || b.project !in s.local.projects then None
    else
      var start := ProjectCursor(s, page.cursor.historyId);
      if start.None? then None
      else
        var position, watermark := start.value.0, start.value.1;
        if || page.cursor.position < position || (position < watermark && watermark != page.cursor.watermark)
           || (position == watermark && page.cursor.watermark < watermark) then None
        else
          var applied := ApplyFirst(b, s, page, mapped, position, |page.changes|);
          if applied.None? then None else Some(applied.value.(cursor := Some(page.cursor)))
  }

  // ---------------------------------------------------------- push results

  /** applyResultVersion: None when the result does not fit the record. */
  function WithResult(local: Local, m: Mutation, result: Result): Option<Local> {
    var current := VersionOf(local, KeyOf(m));
    if result.disposition == Rejected then Some(local)
    else if result.disposition == Conflict && (m.recordKind != ObservationKind || result.version < m.baseVersion) then None
    else if result.disposition != Conflict && result.version != m.baseVersion + 1 then None
    else if current == result.version && result.disposition == Conflict then Some(local)
    else if current != m.baseVersion then None
    else Some(WithVersion(local, KeyOf(m), result.version))
  }

  predicate NewestOf(queue: seq<Mutation>, i: int)
    requires 0 <= i < |queue|
  {
    forall j | i < j < |queue| :: KeyOf(queue[j]) != KeyOf(queue[i])
  }

  /** Behind an accepted entry only the newest later entry of its record stays, on the new version. */
  function Rest(queue: seq<Mutation>, done: int, result: Result, k: nat): seq<Mutation>
    requires 0 <= done < |queue| && k <= |queue|
  {
    if k == 0 then []
    else
      var m := queue[k - 1];
      var accepted := Outbox.IsAccepted(result);
      var follower := k - 1 > done && KeyOf(m) == KeyOf(queue[done]);
      Rest(queue, done, result, k - 1)
      + if k - 1 == done || (accepted && follower && !NewestOf(queue, k - 1)) then []
        else if accepted && follower then [Outbox.Rebased(m, result.version)]
        else [m]
  }

  /** validSyncResult, of a result that is not to be retried */
  predicate FinalResult(result: Result) {
    !Outbox.Retryable(result) && Outbox.ValidSyncResult(result)
  }

  /** applySyncPushResult for a final result, under a claim that still holds. */
  function RecordResult(s: ProjectSync, i: int, result: Result, identity: Time): Option<ProjectSync>
    requires 0 <= i < |s.queue|
  {
    var m := s.queue[i];
    if result.mutationId != m.mutationId || !FinalResult(result) || !MayAct(s, identity) then None
    else if WithResult(s.local, m, result).None? || m.mutationId in s.receipts || Outbox.SequenceTaken(s.receipts, result.sequence) then None
    else
      Some(s.(local := WithResult(s.local, m, result).value,
              receipts := s.receipts[m.mutationId := Outbox.Receipt(result, m)],
              queue := Rest(s.queue, i, result, |s.queue|)))
  }

  // ---------------------------------------------------------- local writes

  /** enqueueLocalWrite refuses while the project is in transition; otherwise rows and queue may become anything. */
  function LocalWork(s: ProjectSync, to: ProjectSync): Option<ProjectSync> {
    if InProgress(s) then None else Some(s.(local := to.local, queue := to.queue, receipts := to.receipts))
  }
}
