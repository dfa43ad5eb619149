/** Which refused observations a rejoin tries again: said of receipts, records and queue alone. */
module TransitionRecovery {
  import opened Options
  import opened Uuids
  import opened SyncService
  import opened Replica
  import opened TransitionOrder
  import opened Transition
  import opened TransitionSafety
  import opened TransitionRuns
  import opened TransitionBlocks
  import Outbox

  // -------------------------------------------------------------- conditions

  /** The receipt is about a creation of the record. */
  predicate AboutCreation(s: ProjectSync, id: string, key: Key)
    requires id in s.receipts
  {
    var m := s.receipts[id].mutation;
    m.recordKind == key.kind && m.recordId == key.id && m.kind == Create
  }

  /** The server took a creation of the record. */
  predicate CreationTaken(s: ProjectSync, key: Key) {
    exists id :: id in s.receipts && AboutCreation(s, id, key)
      && (s.receipts[id].result.disposition == Accepted || s.receipts[id].result.disposition == PreviouslyAccepted)
  }

  /** A snapshotted observation the remote never showed, of which nothing is queued. */
  predicate Missing(s: ProjectSync, key: Key) {
    && key.kind == ObservationKind && key in s.records && !s.records[key].seen
    && forall i | 0 <= i < |s.queue| :: !(s.queue[i].recordKind == key.kind && s.queue[i].recordId == key.id)
  }

  /** Missing, and no creation of it was taken: only a refusal can explain it. */
  predicate Awaiting(s: ProjectSync, key: Key) {
    Missing(s, key) && !CreationTaken(s, key)
  }

  /** The one receipt of the record's creations: a refusal of exactly the snapshot for what it rests on. */
  predicate OnlyRefusal(s: ProjectSync, key: Key, id: string)
    requires key in s.records
  {
    && id in s.receipts && IsCanonicalUuid(id)
    && s.receipts[id].mutation == s.records[key].payload.(mutationId := id)
    && s.receipts[id].result.disposition == Rejected && s.receipts[id].result.code == InvalidPrerequisite
    && !s.receipts[id].result.retryable
    && s.receipts[id].result.sequence.None? && s.receipts[id].result.version == 0
    && forall other | other in s.receipts && AboutCreation(s, other, key) :: other == id
  }

  /** A referred-to observation of the project that the server has, or will have been sent before. */
  predicate OnTheWay(b: Binding, s: ProjectSync, r: string) {
    && r in s.local.observations && s.local.observations[r].body.projectId == b.project
    && (s.local.observations[r].version > 0
        || (s.local.observations[r].version == 0
            && ((exists i :: 0 <= i < |s.queue| && s.queue[i].recordKind == ObservationKind && s.queue[i].recordId == r)
                || Awaiting(s, Key(ObservationKind, r)))))
  }

  predicate SessionThere(b: Binding, s: ProjectSync, o: Observation) {
    o.sessionId != "" ==>
      o.sessionId in s.local.sessions && s.local.sessions[o.sessionId].projectId == b.project && s.local.sessions[o.sessionId].version > 0
  }

  /** It can be tried again: once refused for a prerequisite that is there by now, and still valid. */
  predicate Retriable(b: Binding, s: ProjectSync, key: Key) {
    && key in s.records && s.records[key].payload.observation.Some?
    && (exists id :: id in s.receipts && OnlyRefusal(s, key, id))
    && key.id in s.local.observations && s.local.observations[key.id].version == 0
    && var o := s.records[key].payload.observation.value;
       && SessionThere(b, s, o)
       && (forall k | 0 <= k < |o.references| :: OnTheWay(b, s, o.references[k]))
       && Sendable(s.records[key].payload)
  }

  /** Valid under an id of the generator. */
  predicate Sendable(m: Mutation) {
    ValidateMutation(m.(mutationId := SOME_ID)) == Valid
  }

  const SOME_ID := "00000000-0000-4000-8000-000000000000"

  /** The ids drawn for a list are UUIDs nobody has used. */
  ghost predicate DrawnFresh(s: ProjectSync, ids: nat -> string, n: nat) {
    && (forall k: nat | k < n :: IsCanonicalUuid(ids(k)) && ids(k) !in s.receipts && !IdQueued(s.queue, ids(k)))
    && (forall j: nat, k: nat | j < k < n :: ids(j) != ids(k))
  }

  // ---------------------------------------------------------------- one record

  lemma SomeIdCanonical()
    ensures IsCanonicalUuid(SOME_ID)
  {
    var s := SOME_ID;
    assert |s| == UUID_LENGTH;
    forall i | 0 <= i < UUID_LENGTH ensures LowerChar(s[i]) == s[i] && if IsDash(i) then s[i] == '-' else IsHex(s[i]) {
    }
    assert s[14] == '4' && s[19] == '8';
    assert Lower(s) == s;
  }

  lemma SendableUnder(m: Mutation, id: string)
    requires IsCanonicalUuid(id)
    ensures ValidateMutation(m.(mutationId := id)) == Valid <==> Sendable(m)
  {
    hide ByteLength, Blank, ValidId, ObservationExceedsLimits, ValidObservation, Lower, ValidConflictIds, ValidCreateObservation, ValidActiveObservation;
    SomeIdCanonical();
  }

  lemma TakenIs(s: ProjectSync, key: Key)
    ensures AcceptedOnce(s, key) <==> CreationTaken(s, key)
  {
    if AcceptedOnce(s, key) {
      var id :| id in s.receipts && id in CreationReceipts(s, key) && Outbox.IsAccepted(s.receipts[id].result);
      assert AboutCreation(s, id, key);
    }
    if CreationTaken(s, key) {
      var id :| id in s.receipts && AboutCreation(s, id, key)
        && (s.receipts[id].result.disposition == Accepted || s.receipts[id].result.disposition == PreviouslyAccepted);
      assert id in CreationReceipts(s, key);
    }
  }

  lemma MissingIs(s: ProjectSync, key: Key)
    ensures key in s.records && Candidate(s, key) <==> Missing(s, key)
  {
    if Candidate(s, key) && key in s.records {
      forall i | 0 <= i < |s.queue| ensures !(s.queue[i].recordKind == key.kind && s.queue[i].recordId == key.id) {
        assert KeyOf(s.queue[i]) != key;
      }
    }
  }

  /** One creation receipt, and that a refusal for a prerequisite. */
  lemma RefusalIs(s: ProjectSync, key: Key)
    requires key in s.records && KeyOf(s.records[key].payload) == key && s.records[key].payload.kind == Create
    ensures var m := s.records[key].payload;
            |CreationReceipts(s, key)| == 1 && (exists r :: r in CreationReceipts(s, key) && RefusedForPrerequisite(s, m, r))
            <==> exists id :: id in s.receipts && OnlyRefusal(s, key, id)
  {
    hide IsCanonicalUuid;
    var m := s.records[key].payload;
    var receipts := CreationReceipts(s, key);
    if |receipts| == 1 && exists r :: r in receipts && RefusedForPrerequisite(s, m, r) {
      var r :| r in receipts && RefusedForPrerequisite(s, m, r);
      forall other | other in s.receipts && AboutCreation(s, other, key) ensures other == r {
        assert other in receipts;
        OneElement(receipts, r, other);
      }
      assert OnlyRefusal(s, key, r);
    }
    if id :| id in s.receipts && OnlyRefusal(s, key, id) {
      assert AboutCreation(s, id, key);
      forall other | other in receipts ensures other == id {
        assert AboutCreation(s, other, key);
      }
      assert receipts == {id};
      assert RefusedForPrerequisite(s, m, id);
    }
  }

  lemma OneElement(s: set<string>, a: string, c: string)
    requires |s| == 1 && a in s && c in s
    ensures a == c
  {
    var others := s - {a};
    assert |others| == 0;
    assert others == {};
    assert c in others || c == a;
  }

  // ------------------------------------------------------------ so far queued

  predicate Reached(current: seq<Mutation>, key: Key, k: nat)
    requires k <= |current|
  {
    exists p :: 0 <= p < k && KeyOf(current[p]) == key
  }

  /** The queue when the first k records of the list have been looked at. */
  ghost predicate QueuedSoFar(s: ProjectSync, queue: seq<Mutation>, current: seq<Mutation>, ids: nat -> string, k: nat)
    requires k <= |current|
  {
    && s.queue <= queue && QueueOfSnapshot(s.records, queue)
    && (forall key :: IsQueued(queue, key) <==> IsQueued(s.queue, key) || (Awaiting(s, key) && Reached(current, key, k)))
    && (forall i | |s.queue| <= i < |queue| :: DrawnBefore(ids, queue[i].mutationId, k))
  }

  predicate DrawnBefore(ids: nat -> string, id: string, k: nat) {
    exists p :: 0 <= p < k && ids(p) == id
  }

  /** A record is queued as one creation, or not at all. */
  lemma {:induction false} CreationsCounted(b: Binding, s: ProjectSync, queue: seq<Mutation>, r: string)
    requires RecordsNamed(b, s) && QueueOfSnapshot(s.records, queue)
    ensures QueuedCreations(queue, r) == if IsQueued(queue, Key(ObservationKind, r)) then 1 else 0
    decreases |queue|
  {
    if queue != [] {
      var n := |queue| - 1;
      var front := queue[..n];
      FrontOfSnapshot(s.records, queue);
      CreationsCounted(b, s, front, r);
      var key := Key(ObservationKind, r);
      var m := queue[n];
      assert KeyOf(m) in s.records && Anonymous(m) == s.records[KeyOf(m)].payload;
      assert m.kind == Create && m.baseVersion == 0;
      if KeyOf(m) == key {
        assert !IsQueued(front, key) by {
          forall i | 0 <= i < n ensures KeyOf(front[i]) != key {
            assert queue[i] == front[i];
          }
        }
        assert IsQueued(queue, key);
      } else {
        if IsQueued(queue, key) {
          var i :| 0 <= i < |queue| && KeyOf(queue[i]) == key;
          assert front[i] == queue[i];
        }
        if IsQueued(front, key) {
          var i :| 0 <= i < n && KeyOf(front[i]) == key;
          assert queue[i] == front[i];
        }
      }
    }
  }

  lemma FrontOfSnapshot(records: map<Key, Snapshot>, queue: seq<Mutation>)
    requires queue != [] && QueueOfSnapshot(records, queue)
    ensures QueueOfSnapshot(records, queue[..|queue| - 1])
  {
  }

  lemma IsQueuedIs(queue: seq<Mutation>, kind: RecordKind, id: string)
    ensures IsQueued(queue, Key(kind, id)) <==> exists i :: 0 <= i < |queue| && queue[i].recordKind == kind && queue[i].recordId == id
  {
    if IsQueued(queue, Key(kind, id)) {
      var i :| 0 <= i < |queue| && KeyOf(queue[i]) == Key(kind, id);
      assert queue[i].recordKind == kind;
    }
    if i :| 0 <= i < |queue| && queue[i].recordKind == kind && queue[i].recordId == id {
      assert KeyOf(queue[i]) == Key(kind, id);
    }
  }

  /** Where the list has every reference of a record before it, the record's prerequisites are those of the start. */
  lemma PrerequisitesAre(b: Binding, s: ProjectSync, queue: seq<Mutation>, current: seq<Mutation>, ids: nat -> string, k: nat, o: Observation)
    requires k <= |current| && RecordsNamed(b, s) && QueuedSoFar(s, queue, current, ids, k)
    requires forall i | 0 <= i < |o.references| :: Reached(current, Key(ObservationKind, o.references[i]), k)
    ensures PrerequisitesOnTheWay(b, s.(queue := queue), o) <==>
      SessionThere(b, s, o) && forall i | 0 <= i < |o.references| :: OnTheWay(b, s, o.references[i])
  {
    hide Awaiting, Reached, RecordsNamed, QueueOfSnapshot, QueuedCreations, IsQueued;
    forall i | 0 <= i < |o.references|
      ensures QueuedCreations(queue, o.references[i]) == 1 <==>
        (exists j :: 0 <= j < |s.queue| && s.queue[j].recordKind == ObservationKind && s.queue[j].recordId == o.references[i])
        || Awaiting(s, Key(ObservationKind, o.references[i]))
    {
      CreationsCounted(b, s, queue, o.references[i]);
      IsQueuedIs(s.queue, ObservationKind, o.references[i]);
    }
  }

  /** What the list of a valid project in transition is to the recovery. */
  ghost predicate ListFits(b: Binding, s: ProjectSync, current: seq<Mutation>) {
    && KeysDistinct(current)
    && (forall p | 0 <= p < |current| :: KeyOf(current[p]) in s.records ==> s.records[KeyOf(current[p])].payload == current[p])
    && (forall p | 0 <= p < |current| :: OfProject(b, s.local, KeyOf(current[p])) && current[p].mutationId == "")
    && (forall p | 0 <= p < |current| && current[p].recordKind == ObservationKind :: current[p].observation.Some?)
    && (forall p, r | 0 <= p < |current| && r in RefsOf(current[p]) :: Reached(current, Key(ObservationKind, r), p))
    && (forall key | key in s.records :: Reached(current, key, |current|))
  }

  /** One missing record with no creation taken: it is queued again exactly when it can be. */
  lemma RecoverOneExactly(b: Binding, s: ProjectSync, queue: seq<Mutation>, current: seq<Mutation>, ids: nat -> string, k: nat)
    requires k < |current| && RecordsNamed(b, s) && ListFits(b, s, current) && QueuedSoFar(s, queue, current, ids, k) && DrawnFresh(s, ids, |current|)
    requires Awaiting(s, KeyOf(current[k]))
    ensures var r := RecoverOne(b, s.(queue := queue), current[k], ids(k));
            && (r.Some? <==> Retriable(b, s, KeyOf(current[k])))
            && (r.Some? ==> r.value == s.(queue := queue + [WithId(current[k], ids(k))]))
  {
    hide RecordsNamed, QueuedSoFar, PrerequisitesOnTheWay, CreationTaken, OnlyRefusal, RefusedForPrerequisite, CreationReceipts, Reached,
      IsCanonicalUuid, Sendable, AcceptedOnce, IdQueued, ValidateMutation, OnTheWay, SessionThere;
    var m := current[k];
    var key := KeyOf(m);
    var t := s.(queue := queue);
    TakenIs(s, key);
    SameReceipts(s, t, key);
    NamedRecord(b, s, key);
    RefusalIs(s, key);
    SendableUnder(m, ids(k));
    IdNotQueued(s, queue, current, ids, k);
    var o := m.observation.value;
    forall i | 0 <= i < |o.references| ensures Reached(current, Key(ObservationKind, o.references[i]), k) {
      assert o.references[i] in RefsOf(m);
    }
    PrerequisitesAre(b, s, queue, current, ids, k, o);
    ObservationOfProject(b, s.local, key);
  }

  lemma NamedRecord(b: Binding, s: ProjectSync, key: Key)
    requires RecordsNamed(b, s) && key in s.records
    ensures KeyOf(s.records[key].payload) == key && s.records[key].payload.kind == Create
  {
  }

  lemma ObservationOfProject(b: Binding, local: Local, key: Key)
    requires OfProject(b, local, key) && key.kind == ObservationKind
    ensures key.id in local.observations && VersionOf(local, key) == local.observations[key.id].version
  {
  }

  /** Another queue changes no receipt and no record. */
  lemma SameReceipts(s: ProjectSync, t: ProjectSync, key: Key)
    requires t == s.(queue := t.queue)
    ensures AcceptedOnce(t, key) == AcceptedOnce(s, key) && CreationReceipts(t, key) == CreationReceipts(s, key)
    ensures forall m, id :: RefusedForPrerequisite(t, m, id) == RefusedForPrerequisite(s, m, id)
  {
    assert CreationReceipts(t, key) == CreationReceipts(s, key);
  }

  lemma IdNotQueued(s: ProjectSync, queue: seq<Mutation>, current: seq<Mutation>, ids: nat -> string, k: nat)
    requires k < |current| && QueuedSoFar(s, queue, current, ids, k) && DrawnFresh(s, ids, |current|)
    ensures !IdQueued(queue, ids(k))
  {
    forall i | 0 <= i < |queue| ensures queue[i].mutationId != ids(k) {
      if i < |s.queue| {
        assert s.queue[i] == queue[i];
        assert !IdQueued(s.queue, ids(k));
      }
    }
  }

  /** The queue with one more record. */
  lemma OneMoreQueued(b: Binding, s: ProjectSync, queue: seq<Mutation>, current: seq<Mutation>, ids: nat -> string, k: nat)
    requires k < |current| && ListFits(b, s, current) && QueuedSoFar(s, queue, current, ids, k) && Awaiting(s, KeyOf(current[k]))
    ensures QueuedSoFar(s, queue + [WithId(current[k], ids(k))], current, ids, k + 1)
  {
    hide Awaiting, OfProject, RefsOf;
    var m := current[k];
    var key := KeyOf(m);
    var longer := queue + [WithId(m, ids(k))];
    assert !IsQueued(queue, key) by {
      AwaitingNotQueued(s, key);
      NotReachedBefore(current, k);
    }
    forall i | 0 <= i < |queue| ensures KeyOf(queue[i]) != key {
    }
    assert key in s.records by { AwaitingNotQueued(s, key); }
    forall other ensures IsQueued(longer, other) <==> IsQueued(s.queue, other) || (Awaiting(s, other) && Reached(current, other, k + 1)) {
      OneMoreIsQueued(queue, WithId(m, ids(k)), other);
      OneMoreReached(current, other, k);
    }
  }

  lemma AwaitingNotQueued(s: ProjectSync, key: Key)
    requires Awaiting(s, key)
    ensures !IsQueued(s.queue, key) && key in s.records
  {
    hide CreationTaken;
    IsQueuedIs(s.queue, key.kind, key.id);
  }

  lemma NotReachedBefore(current: seq<Mutation>, k: nat)
    requires k < |current| && KeysDistinct(current)
    ensures !Reached(current, KeyOf(current[k]), k)
  {
  }

  lemma OneMoreIsQueued(queue: seq<Mutation>, m: Mutation, key: Key)
    ensures IsQueued(queue + [m], key) <==> IsQueued(queue, key) || KeyOf(m) == key
  {
    var longer := queue + [m];
    if IsQueued(queue, key) {
      var i :| 0 <= i < |queue| && KeyOf(queue[i]) == key;
      assert longer[i] == queue[i];
    }
    if KeyOf(m) == key {
      assert longer[|queue|] == m;
    }
    if IsQueued(longer, key) {
      var i :| 0 <= i < |longer| && KeyOf(longer[i]) == key;
      assert i < |queue| ==> queue[i] == longer[i];
    }
  }

  lemma OneMoreReached(current: seq<Mutation>, key: Key, k: nat)
    requires k < |current|
    ensures Reached(current, key, k + 1) <==> Reached(current, key, k) || KeyOf(current[k]) == key
  {
  }

  /** A record that is not awaiting anything is passed over. */
  lemma NothingMoreQueued(s: ProjectSync, queue: seq<Mutation>, current: seq<Mutation>, ids: nat -> string, k: nat)
    requires k < |current| && QueuedSoFar(s, queue, current, ids, k) && !Awaiting(s, KeyOf(current[k]))
    ensures QueuedSoFar(s, queue, current, ids, k + 1)
  {
    hide Awaiting, QueueOfSnapshot;
    forall key ensures IsQueued(queue, key) <==> IsQueued(s.queue, key) || (Awaiting(s, key) && Reached(current, key, k + 1)) {
      OneMoreReached(current, key, k);
    }
    forall i | |s.queue| <= i < |queue| ensures DrawnBefore(ids, queue[i].mutationId, k + 1) {
      assert DrawnBefore(ids, queue[i].mutationId, k);
    }
  }

  lemma {:induction false} RecoverAllExactly(b: Binding, s: ProjectSync, current: seq<Mutation>, ids: nat -> string, k: nat)
    requires k <= |current| && RecordsNamed(b, s) && QueueOfSnapshot(s.records, s.queue) && ListFits(b, s, current) && DrawnFresh(s, ids, |current|)
    ensures RecoverAll(b, s, current, ids, k).Some? <==>
      forall p | 0 <= p < k && Awaiting(s, KeyOf(current[p])) :: Retriable(b, s, KeyOf(current[p]))
    ensures RecoverAll(b, s, current, ids, k).Some? ==>
      var u := RecoverAll(b, s, current, ids, k).value; u == s.(queue := u.queue) && QueuedSoFar(s, u.queue, current, ids, k)
  {
    hide RecordsNamed, QueueOfSnapshot, QueuedSoFar, ListFits, DrawnFresh, Awaiting, Retriable, Candidate, RecoverOne, AcceptedOnce;
    if k == 0 {
      NothingQueuedYet(s, current, ids);
    } else {
      RecoverAllExactly(b, s, current, ids, k - 1);
      if RecoverAll(b, s, current, ids, k - 1).Some? {
        var before := RecoverAll(b, s, current, ids, k - 1).value;
        var m := current[k - 1];
        var key := KeyOf(m);
        CandidateIs(b, s, before, current, k - 1, ids(k - 1));
        if Awaiting(s, key) {
          RecoverOneExactly(b, s, before.queue, current, ids, k - 1);
          OneMoreQueued(b, s, before.queue, current, ids, k - 1);
        } else {
          NothingMoreQueued(s, before.queue, current, ids, k - 1);
        }
      }
    }
  }

  lemma NothingQueuedYet(s: ProjectSync, current: seq<Mutation>, ids: nat -> string)
    requires QueueOfSnapshot(s.records, s.queue)
    ensures QueuedSoFar(s, s.queue, current, ids, 0)
  {
    hide QueueOfSnapshot;
  }

  /** What the loop does with a record before it looks at the refusal. */
  lemma CandidateIs(b: Binding, s: ProjectSync, before: ProjectSync, current: seq<Mutation>, k: nat, id: string)
    requires k < |current| && ListFits(b, s, current) && before == s.(queue := before.queue)
    ensures var key := KeyOf(current[k]);
            && (Awaiting(s, key) ==> Candidate(s, key))
            && (Candidate(s, key) && !Awaiting(s, key) ==> RecoverOne(b, before, current[k], id) == Some(before))
  {
    hide CreationReceipts, RefusedForPrerequisite, PrerequisitesOnTheWay, Enqueue, CreationTaken, OfProject, Reached;
    var key := KeyOf(current[k]);
    MissingIs(s, key);
    TakenIs(s, key);
    SameReceipts(s, before, key);
  }

  // ---------------------------------------------------------------- the law

  /** How many ids a finalization may draw. */
  ghost function ListLength(b: Binding, local: Local): nat {
    if Snapshots(b, local).Some? then |Snapshots(b, local).value| else 0
  }

  lemma CurrentFits(b: Binding, s: ProjectSync)
    requires ListingExact(b) && RecordsNamed(b, s) && RecordsKept(b, s) && Snapshots(b, s.local).Some?
    ensures ListFits(b, s, Snapshots(b, s.local).value)
  {
    hide ListingExact, Snapshots, RecordsNamed, RefsOf, OfProject, VersionOf;
    var current := Snapshots(b, s.local).value;
    SnapshotsCover(b, s.local);
    CoveredList(b, s.local, current);
    CoveredAreOfProject(b, s.local, current);
    ObservationsCarried(b, s.local, current);
    forall p, r | 0 <= p < |current| && r in RefsOf(current[p]) ensures Reached(current, Key(ObservationKind, r), p) {
      SnapshotsInOrder(b, s.local, p, r);
    }
    forall key | key in s.records ensures Reached(current, key, |current|) {
      RecordKept(b, s, key);
    }
    forall p | 0 <= p < |current| && KeyOf(current[p]) in s.records ensures s.records[KeyOf(current[p])].payload == current[p] {
      RecordKept(b, s, KeyOf(current[p]));
    }
  }

  lemma RecordKept(b: Binding, s: ProjectSync, key: Key)
    requires RecordsKept(b, s) && key in s.records
    ensures SnapshotNow(b, s.local, key) == Some(s.records[key].payload)
  {
  }

  lemma ObservationsCarried(b: Binding, local: Local, list: seq<Mutation>)
    requires Covers(b, local, list)
    ensures forall p | 0 <= p < |list| && list[p].recordKind == ObservationKind :: list[p].observation.Some?
  {
    hide HasTombstone;
    forall p | 0 <= p < |list| && list[p].recordKind == ObservationKind ensures list[p].observation.Some? {
      assert SnapshotNow(b, local, KeyOf(list[p])) == Some(list[p]);
    }
  }

  predicate NothingMissing(s: ProjectSync) {
    forall key | key in s.records :: !Missing(s, key)
  }

  predicate AllRetriable(b: Binding, s: ProjectSync) {
    forall key | key in s.records && Awaiting(s, key) :: Retriable(b, s, key)
  }

  /** What a recovery leaves: behind the old queue, each record that was awaiting one, as it was snapshotted, and no other. */
  ghost predicate Recovered(s: ProjectSync, u: ProjectSync) {
    && u == s.(queue := u.queue) && s.queue <= u.queue
    && (forall key :: IsQueued(u.queue, key) <==> IsQueued(s.queue, key) || Awaiting(s, key))
    && (forall i | |s.queue| <= i < |u.queue| ::
          KeyOf(u.queue[i]) in s.records && Anonymous(u.queue[i]) == s.records[KeyOf(u.queue[i])].payload)
    && KeysDistinct(u.queue)
  }

  /**
   A rejoin's recovery succeeds if and only if nothing is missing, or the project can be listed and each missing
   observation without a taken creation has one creation receipt, the refusal of its snapshot for a prerequisite,
   and everything it rests on is there or on the way. Exactly those are queued again.
   */
  lemma RecoversExactly(b: Binding, s: ProjectSync, ids: nat -> string)
    requires ListingExact(b) && TransitionValid(b, s) && InProgress(s) && DrawnFresh(s, ids, ListLength(b, s.local))
    ensures Recover(b, s, ids).Some? <==> NothingMissing(s) || (Snapshots(b, s.local).Some? && AllRetriable(b, s))
    ensures Recover(b, s, ids).Some? ==> Recovered(s, Recover(b, s, ids).value)
  {
    hide ListingExact, Snapshots, TransitionValid, RecordsNamed, RecordsKept, QueueOfSnapshot, QueuedSoFar, ListFits, Missing, CreationTaken,
      Retriable, RecoverAll, Candidate, DrawnFresh;
    PartsOfValid(b, s);
    forall key | key in s.records ensures Candidate(s, key) <==> Missing(s, key) {
      MissingIs(s, key);
    }
    if NothingMissing(s) {
      NothingRecovered(b, s);
    } else if Snapshots(b, s.local).Some? {
      var current := Snapshots(b, s.local).value;
      CurrentFits(b, s);
      RecoverAllExactly(b, s, current, ids, |current|);
      AllReached(b, s, current);
      if RecoverAll(b, s, current, ids, |current|).Some? {
        AllQueued(b, s, RecoverAll(b, s, current, ids, |current|).value, current, ids);
      }
    }
  }

  lemma NothingRecovered(b: Binding, s: ProjectSync)
    requires NothingMissing(s) && QueueOfSnapshot(s.records, s.queue)
    ensures Recovered(s, s)
  {
    hide Missing, CreationTaken;
    forall key ensures !Awaiting(s, key) {
      assert Missing(s, key) ==> key in s.records by { MissingIs(s, key); }
    }
  }

  lemma AllReached(b: Binding, s: ProjectSync, current: seq<Mutation>)
    requires ListFits(b, s, current)
    ensures (forall p | 0 <= p < |current| && Awaiting(s, KeyOf(current[p])) :: Retriable(b, s, KeyOf(current[p]))) <==> AllRetriable(b, s)
    ensures forall key | key in s.records :: exists p :: 0 <= p < |current| && KeyOf(current[p]) == key
  {
    hide CreationTaken, Retriable, OfProject, RefsOf;
    forall key | key in s.records ensures exists p :: 0 <= p < |current| && KeyOf(current[p]) == key {
      assert Reached(current, key, |current|);
    }
  }

  lemma AllQueued(b: Binding, s: ProjectSync, u: ProjectSync, current: seq<Mutation>, ids: nat -> string)
    requires ListFits(b, s, current) && u == s.(queue := u.queue) && QueuedSoFar(s, u.queue, current, ids, |current|)
    ensures Recovered(s, u)
  {
    hide CreationTaken, OfProject, RefsOf, IsQueued;
    forall key | Awaiting(s, key) ensures Reached(current, key, |current|) {
      assert key in s.records by { AwaitingNotQueued(s, key); }
    }
  }

  // ------------------------------------------------------ what a call needs

  predicate DrawnQueue(queue: seq<Mutation>, ids: nat -> string, k: nat) {
    forall i | 0 <= i < |queue| :: DrawnBefore(ids, queue[i].mutationId, k)
  }

  lemma DrawnOnce(s: ProjectSync, queue: seq<Mutation>, ids: nat -> string, k: nat, n: nat)
    requires k < n && DrawnQueue(queue, ids, k) && DrawnFresh(s, ids, n)
    ensures !IdQueued(queue, ids(k)) && IsCanonicalUuid(ids(k)) && ids(k) !in s.receipts
  {
  }

  lemma DrawnNext(queue: seq<Mutation>, m: Mutation, ids: nat -> string, k: nat)
    requires DrawnQueue(queue, ids, k)
    ensures DrawnQueue(queue, ids, k + 1) && DrawnQueue(queue + [WithId(m, ids(k))], ids, k + 1)
  {
    var longer := queue + [WithId(m, ids(k))];
    forall i | 0 <= i < |longer| ensures DrawnBefore(ids, longer[i].mutationId, k + 1) {
      assert i < |queue| ==> longer[i] == queue[i] && DrawnBefore(ids, queue[i].mutationId, k);
    }
    forall i | 0 <= i < |queue| ensures DrawnBefore(ids, queue[i].mutationId, k + 1) {
      assert DrawnBefore(ids, queue[i].mutationId, k);
    }
  }

  lemma {:induction false} PublishSucceedsExactly(s: ProjectSync, current: seq<Mutation>, ids: nat -> string, k: nat)
    requires k <= |current| && s.queue == [] && DrawnFresh(s, ids, |current|)
    requires forall p | 0 <= p < |current| && KeyOf(current[p]) in s.records :: s.records[KeyOf(current[p])].payload == current[p]
    ensures PublishUnseen(s, current, ids, k).Some? <==>
      forall p | 0 <= p < k && Unseen(s, KeyOf(current[p])) :: current[p].recordKind != ProjectKind && Sendable(current[p])
    ensures PublishUnseen(s, current, ids, k).Some? ==>
      PublishUnseen(s, current, ids, k).value.receipts == s.receipts && DrawnQueue(PublishUnseen(s, current, ids, k).value.queue, ids, k)
  {
    hide DrawnFresh, DrawnQueue, Sendable, IsCanonicalUuid, ValidateMutation, WithVersion, IdQueued;
    if k == 0 {
      NothingDrawn(ids);
    } else {
      PublishSucceedsExactly(s, current, ids, k - 1);
      if PublishUnseen(s, current, ids, k - 1).Some? {
        var before := PublishUnseen(s, current, ids, k - 1).value;
        var m := current[k - 1];
        DrawnNext(before.queue, m, ids, k - 1);
        DrawnOnce(s, before.queue, ids, k - 1, |current|);
        SendableUnder(m, ids(k - 1));
      }
    }
  }

  lemma {:induction false} EnqueueSucceedsExactly(s: ProjectSync, list: seq<Mutation>, ids: nat -> string, k: nat)
    requires k <= |list| && s.queue == [] && DrawnFresh(s, ids, |list|)
    ensures EnqueueAll(s, list, ids, k).Some? <==> forall p | 0 <= p < k :: Sendable(list[p])
    ensures EnqueueAll(s, list, ids, k).Some? ==>
      EnqueueAll(s, list, ids, k).value.receipts == s.receipts && DrawnQueue(EnqueueAll(s, list, ids, k).value.queue, ids, k)
  {
    hide DrawnFresh, DrawnQueue, Sendable, IsCanonicalUuid, ValidateMutation, IdQueued;
    if k == 0 {
      NothingDrawn(ids);
    } else {
      EnqueueSucceedsExactly(s, list, ids, k - 1);
      if EnqueueAll(s, list, ids, k - 1).Some? {
        var before := EnqueueAll(s, list, ids, k - 1).value;
        DrawnNext(before.queue, list[k - 1], ids, k - 1);
        DrawnOnce(s, before.queue, ids, k - 1, |list|);
        SendableUnder(list[k - 1], ids(k - 1));
      }
    }
  }

  lemma NothingDrawn(ids: nat -> string)
    ensures DrawnQueue([], ids, 0)
  {
  }

  /** What a transition can be prepared on: a bound project with no lease and no other transition, all of it listable and, for a reseed, sendable. */
  lemma PreparesExactly(b: Binding, s: ProjectSync, mode: Mode, confirmed: bool, bound: bool, claimed: bool, now: Time, ids: nat -> string)
    requires ListingExact(b) && DrawnFresh(s, ids, ListLength(b, s.local))
    ensures Prepare(b, s, mode, confirmed, bound, claimed, now, ids).Some? <==>
      && StorableTime(now) && bound && !claimed && (mode == Reseed ==> confirmed)
      && (s.transition.Some? ==> s.transition.value.status == Completed && (now <= s.transition.value.createdAt ==> s.transition.value.createdAt != MAX_INT64))
      && Snapshots(b, s.local).Some?
      && (mode == Reseed ==> forall key | SnapshotNow(b, s.local, key).Some? :: Sendable(SnapshotNow(b, s.local, key).value))
  {
    hide Snapshots, SnapshotNow, Sendable, DrawnFresh, ForeignReceipts, Taken, EnqueueAll, ResetVersions;
    if Snapshots(b, s.local).Some? && Generation(s.transition, now).Some? {
      var list := Snapshots(b, s.local).value;
      SnapshotsCover(b, s.local);
      AllSendable(b, s.local, list);
      var prepared := Emptied(b, s, mode, Generation(s.transition, now).value, list).(local := ResetVersions(b, s.local));
      ForeignStillFresh(b, s, prepared, ids, |list|);
      EnqueueSucceedsExactly(prepared, list, ids, |list|);
    }
  }

  /** A prepared project: each of its records snapshotted as it is and unseen, what was synchronised about it forgotten, nothing else touched. */
  ghost predicate Prepared(b: Binding, s: ProjectSync, u: ProjectSync, mode: Mode, now: Time) {
    && u.transition.Some? && u.transition.value.mode == mode && u.transition.value.completedAt.None?
    && u.transition.value.status == (if mode == Reseed then Publishing else Pulling)
    && u.transition.value.createdAt
       == (if s.transition.Some? && now <= s.transition.value.createdAt then s.transition.value.createdAt + 1 else now)
    && (forall key :: key in u.records <==> SnapshotNow(b, s.local, key).Some?)
    && (forall key | key in u.records :: SnapshotNow(b, s.local, key) == Some(u.records[key].payload) && !u.records[key].seen)
    && (forall id :: id in u.receipts <==>
          id in s.receipts && !OfProject(b, s.local, Key(s.receipts[id].mutation.recordKind, s.receipts[id].mutation.recordId)))
    && (forall id | id in u.receipts :: u.receipts[id] == s.receipts[id])
    && u.cursor.None? && u.inbox == map[]
    && (if mode == Rejoin then u.local == s.local && u.queue == [] else VersionsZeroed(b, s.local, u.local))
  }

  /** The project's rows are on version 0; nothing else of them, and no other row, differs. */
  predicate VersionsZeroed(b: Binding, local: Local, after: Local) {
    && after.projects == (if b.project in local.projects then local.projects[b.project := 0] else local.projects)
    && after.sessions.Keys == local.sessions.Keys && after.observations.Keys == local.observations.Keys
    && (forall id | id in local.sessions ::
          && after.sessions[id].projectId == local.sessions[id].projectId
          && after.sessions[id].version == if local.sessions[id].projectId == b.project then 0 else local.sessions[id].version)
    && (forall id | id in local.observations ::
          && after.observations[id].body == local.observations[id].body
          && after.observations[id].version == if local.observations[id].body.projectId == b.project then 0 else local.observations[id].version)
    && after.conflicts == local.conflicts && after.tombstones == local.tombstones
  }

  lemma PrepareLeaves(b: Binding, s: ProjectSync, mode: Mode, confirmed: bool, bound: bool, claimed: bool, now: Time, ids: nat -> string)
    requires ListingExact(b) && Prepare(b, s, mode, confirmed, bound, claimed, now, ids).Some?
    ensures Prepared(b, s, Prepare(b, s, mode, confirmed, bound, claimed, now, ids).value, mode, now)
  {
    hide Snapshots, SnapshotNow, Taken, OfProject, EnqueueAll;
    var list := Snapshots(b, s.local).value;
    SnapshotsCover(b, s.local);
    CoveredList(b, s.local, list);
    TakenExactlyCovers(b, s.local, list);
    if mode == Reseed {
      EnqueuedAll(Emptied(b, s, mode, Generation(s.transition, now).value, list).(local := ResetVersions(b, s.local)), list, ids, |list|);
    }
  }

  lemma TakenExactlyCovers(b: Binding, local: Local, list: seq<Mutation>)
    requires Covers(b, local, list)
    ensures forall key :: key in Taken(list) <==> SnapshotNow(b, local, key).Some?
    ensures forall key | key in Taken(list) :: SnapshotNow(b, local, key) == Some(Taken(list)[key].payload) && !Taken(list)[key].seen
  {
    hide SnapshotNow, Taken;
    TakenHolds(list);
    forall key ensures key in Taken(list) <==> SnapshotNow(b, local, key).Some? {
      if SnapshotNow(b, local, key).Some? {
        var i :| 0 <= i < |list| && KeyOf(list[i]) == key;
        assert list[i] in list;
      }
    }
  }

  lemma AllSendable(b: Binding, local: Local, list: seq<Mutation>)
    requires Covers(b, local, list)
    ensures (forall p | 0 <= p < |list| :: Sendable(list[p]))
            <==> forall key | SnapshotNow(b, local, key).Some? :: Sendable(SnapshotNow(b, local, key).value)
  {
    hide SnapshotNow, Sendable;
    if forall p | 0 <= p < |list| :: Sendable(list[p]) {
      forall key | SnapshotNow(b, local, key).Some? ensures Sendable(SnapshotNow(b, local, key).value) {
        var i :| 0 <= i < |list| && KeyOf(list[i]) == key;
      }
    }
    if forall key | SnapshotNow(b, local, key).Some? :: Sendable(SnapshotNow(b, local, key).value) {
      forall p | 0 <= p < |list| ensures Sendable(list[p]) {
        assert SnapshotNow(b, local, KeyOf(list[p])) == Some(list[p]);
      }
    }
  }

  lemma ForeignStillFresh(b: Binding, s: ProjectSync, prepared: ProjectSync, ids: nat -> string, n: nat)
    requires DrawnFresh(s, ids, n) && prepared.queue == [] && prepared.receipts == ForeignReceipts(b, s)
    ensures DrawnFresh(prepared, ids, n)
  {
    hide OfProject;
  }

  /** The first round of a rejoin needs the remote to have the project, and every other record it did not have to be sendable. */
  lemma PublishesExactly(b: Binding, s: ProjectSync, ids: nat -> string)
    requires ListingExact(b) && TransitionValid(b, s) && s.transition.Some? && s.transition.value.status == Pulling
    requires DrawnFresh(s, ids, ListLength(b, s.local))
    ensures Published(b, s, ids).Some? <==>
      && s.records[Key(ProjectKind, b.project)].seen
      && Snapshots(b, s.local).Some?
      && forall key | key in s.records && !s.records[key].seen :: Sendable(s.records[key].payload)
  {
    hide ListingExact, Snapshots, Sendable, DrawnFresh, PublishUnseen, RecordsKept, QueueOfSnapshot, ListFits;
    PartsOfValid(b, s);
    if s.records[Key(ProjectKind, b.project)].seen && Snapshots(b, s.local).Some? {
      var current := Snapshots(b, s.local).value;
      CurrentFits(b, s);
      PublishableList(b, s, current);
      PublishSucceedsExactly(s, current, ids, |current|);
    }
  }

  lemma PublishableList(b: Binding, s: ProjectSync, current: seq<Mutation>)
    requires ListFits(b, s, current) && RecordsNamed(b, s) && s.records[Key(ProjectKind, b.project)].seen
    ensures forall p | 0 <= p < |current| && KeyOf(current[p]) in s.records :: s.records[KeyOf(current[p])].payload == current[p]
    ensures forall key | key in s.records :: exists p :: 0 <= p < |current| && KeyOf(current[p]) == key
    ensures (forall p | 0 <= p < |current| && Unseen(s, KeyOf(current[p])) :: current[p].recordKind != ProjectKind && Sendable(current[p]))
            <==> forall key | key in s.records && !s.records[key].seen :: Sendable(s.records[key].payload)
  {
    hide Sendable, RefsOf;
    forall key | key in s.records ensures exists p :: 0 <= p < |current| && KeyOf(current[p]) == key {
      assert Reached(current, key, |current|);
    }
    forall p | 0 <= p < |current| && Unseen(s, KeyOf(current[p])) ensures current[p].recordKind != ProjectKind {
      assert OfProject(b, s.local, KeyOf(current[p]));
    }
  }

  /** When a finalization at the watermark succeeds, round by round, and what the second round queues. */
  lemma FinalizesExactly(b: Binding, s: ProjectSync, identity: Time, now: Time, ids: nat -> string, moreIds: nat -> string)
    requires ListingExact(b) && TransitionValid(b, s) && InProgress(s) && StorableTime(now) && NamesThis(s, identity)
    requires s.cursor.Some? && s.cursor.value.position == s.cursor.value.watermark
    requires DrawnFresh(s, ids, ListLength(b, s.local)) && DrawnFresh(s, moreIds, ListLength(b, s.local))
    ensures s.transition.value.status == Pulling ==>
      (Finalize(b, s, identity, now, ids, moreIds).Some? <==>
        && s.records[Key(ProjectKind, b.project)].seen && Snapshots(b, s.local).Some?
        && forall key | key in s.records && !s.records[key].seen :: Sendable(s.records[key].payload))
    ensures s.transition.value.status == Publishing ==>
      (Finalize(b, s, identity, now, ids, moreIds).Some? <==>
        (s.transition.value.mode == Rejoin ==> NothingMissing(s) || (Snapshots(b, s.local).Some? && AllRetriable(b, s))))
    ensures Finalize(b, s, identity, now, ids, moreIds).Some? && s.transition.value.status == Publishing && s.transition.value.mode == Rejoin ==>
      Recovered(s, Finalize(b, s, identity, now, ids, moreIds).value.(transition := s.transition))
  {
    hide ListingExact, Snapshots, Sendable, DrawnFresh, Recover, Published, RecordsKept, QueueOfSnapshot, Missing, Recovered, AllRetriable,
      AllSeen, InboxWithin, RecordsNamed;
    PartsOfValid(b, s);
    if s.transition.value.status == Pulling {
      PublishesExactly(b, s, ids);
      if Published(b, s, ids).Some? {
        NothingLeftMissing(b, s, ids, moreIds);
      }
    } else {
      PublishingIsPublished(b, s, ids);
      RecoversExactly(b, s, moreIds);
      if Recover(b, s, moreIds).Some? {
        RecoverKeeps(b, s, moreIds);
      }
    }
  }

  lemma PublishingIsPublished(b: Binding, s: ProjectSync, ids: nat -> string)
    requires s.transition.Some? && s.transition.value.status != Pulling
    ensures Published(b, s, ids) == Some(s)
  {
  }

  /** The round that publishes leaves nothing to recover. */
  lemma NothingLeftMissing(b: Binding, s: ProjectSync, ids: nat -> string, moreIds: nat -> string)
    requires ListingExact(b) && TransitionValid(b, s) && s.transition.Some? && s.transition.value.status == Pulling && Published(b, s, ids).Some?
    ensures Recover(b, Published(b, s, ids).value, moreIds) == Some(Published(b, s, ids).value)
    ensures Published(b, s, ids).value.transition.Some?
  {
    hide Published, TransitionValid, SnapshotNow, VersionOf, QueueOfSnapshot, IsQueued;
    RejoinPublishesExactly(b, s, ids);
  }
}
