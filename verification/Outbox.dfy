/**
 The device's outbox: queued snapshots of observations, leased to workers by token,
 retried, completed once, coalesced behind an accepted result or a pulled conflict, and
 filled up from older rows (internal/memory/sync.go).
 */
module Outbox {
  import opened Options
  import opened Uuids
  import opened SyncService

  const MAX_DUE := 16
  const SECOND := 1_000_000_000
  const MAX_LEASE := 24 * 3600 * SECOND

  datatype Entry = Entry(id: int, mutation: Mutation, createdAt: Time, nextAttempt: Time, attempts: nat, code: ResultCode)
  datatype Claim = Claim(firstToken: string, token: string, firstClaimedAt: Time, claimedAt: Time, leaseUntil: Time)
  datatype Receipt = Receipt(result: Result, mutation: Mutation)

  /**
   The tables of the outbox, and what they know of the records: the version of each row, and
   the last content written to it locally. A row on version 0 holds exactly that content.
   */
  datatype Queue = Queue(
    profile: bool,
    entries: seq<Entry>,
    claims: map<string, Claim>,
    receipts: map<string, Receipt>,
    versions: map<string, int>,
    edits: map<string, Observation>,
    nextId: int)

  const EMPTY_QUEUE := Queue(false, [], map[], map[], map[], map[], 1)

  // --------------------------------------------------------------- queries

  function MutationIdOf(e: Entry): string {
    e.mutation.mutationId
  }

  /** ORDER BY created_at, id */
  predicate Earlier(a: Entry, b: Entry) {
    a.createdAt < b.createdAt || (a.createdAt == b.createdAt && a.id < b.id)
  }

  function VersionOf(q: Queue, id: string): int {
    if id in q.versions then q.versions[id] else 0
  }

  predicate Queued(q: Queue, mutationId: string) {
    exists i :: 0 <= i < |q.entries| && MutationIdOf(q.entries[i]) == mutationId
  }

  predicate SameRecord(a: Entry, b: Entry) {
    a.mutation.recordId == b.mutation.recordId
  }

  /** No entry of the same record comes before it. */
  predicate First(q: Queue, i: int)
    requires 0 <= i < |q.entries|
  {
    forall j | 0 <= j < |q.entries| && SameRecord(q.entries[j], q.entries[i]) :: !Earlier(q.entries[j], q.entries[i])
  }

  /** claimMatches: the current token of an unexpired lease. */
  predicate Holds(q: Queue, mutationId: string, token: string, now: Time) {
    && mutationId in q.claims
    && q.claims[mutationId].token == token
    && q.claims[mutationId].leaseUntil > now
    && q.claims[mutationId].claimedAt <= now
  }

  // ------------------------------------------------------------- invariant

  predicate InOrder(entries: seq<Entry>) {
    forall i, j | 0 <= i < j < |entries| :: entries[i].id < entries[j].id && entries[i].createdAt <= entries[j].createdAt
  }

  predicate DistinctMutations(entries: seq<Entry>) {
    forall i, j | 0 <= i < j < |entries| :: MutationIdOf(entries[i]) != MutationIdOf(entries[j])
  }

  /** What enqueueLocalWrite makes of a row at a version. */
  function SnapshotMutation(mutationId: string, o: Observation, version: int): Mutation {
    Mutation(mutationId, o.id, ObservationKind,
             if version <= 0 then Create else if o.lifecycle == Archived then Archive else Update,
             version, None, None, Some(o), None, None)
  }

  /** Every entry is a snapshot of its record, taken at the record's version or at an earlier one. */
  predicate EntryCurrent(q: Queue, e: Entry) {
    && e.mutation.observation.Some?
    && e.mutation == SnapshotMutation(MutationIdOf(e), e.mutation.observation.value, e.mutation.baseVersion)
    && 0 <= e.mutation.baseVersion <= VersionOf(q, e.mutation.recordId)
    && e.mutation.recordId in q.edits
  }

  predicate Newest(q: Queue, i: int)
    requires 0 <= i < |q.entries|
  {
    NewestIn(q.entries, i)
  }

  predicate ClaimsPlaced(q: Queue) {
    && (forall m | m in q.claims :: Queued(q, m))
    && (forall i | 0 <= i < |q.entries| && MutationIdOf(q.entries[i]) in q.claims :: First(q, i))
    && (forall m | m in q.claims :: q.claims[m].firstClaimedAt <= q.claims[m].claimedAt <= q.claims[m].leaseUntil)
  }

  predicate ReceiptsFinal(q: Queue) {
    forall m | m in q.receipts :: !Queued(q, m)
  }

  /** The entries under a clock that never went back. */
  ghost predicate EntriesValid(q: Queue, clock: Time) {
    && InOrder(q.entries)
    && DistinctMutations(q.entries)
    && (forall i | 0 <= i < |q.entries| :: q.entries[i].id < q.nextId && q.entries[i].createdAt <= clock)
    && (forall i | 0 <= i < |q.entries| :: EntryCurrent(q, q.entries[i]) && Queueable(q.entries[i].mutation))
  }

  ghost predicate QueueValid(q: Queue, clock: Time) {
    && EntriesValid(q, clock)
    && ClaimsPlaced(q)
    && ReceiptsFinal(q)
    && (forall id | id in q.versions :: 0 <= q.versions[id])
    && (forall id | id in q.edits :: q.edits[id].id == id && id in q.versions)
  }

  // ------------------------------------------------------- specifications

  /** A local write without its queue entry: what is left when no sync profile exists. */
  function Written(q: Queue, o: Observation): Queue {
    q.(versions := q.versions[o.id := VersionOf(q, o.id)], edits := q.edits[o.id := o])
  }

  function Enqueued(q: Queue, o: Observation, mutationId: string, now: Time): Queue {
    Written(q, o).(
      entries := q.entries + [Entry(q.nextId, SnapshotMutation(mutationId, o, VersionOf(q, o.id)), now, now, 0, NoCode)],
      nextId := q.nextId + 1)
  }

  /** What enqueueSyncOutbox asks of a mutation. */
  predicate Queueable(m: Mutation) {
    IsCanonicalUuid(m.mutationId) && ValidateMutation(m) == Valid
  }

  /** rebaseSyncOutboxEntries, for one mutation. */
  function Rebased(m: Mutation, version: int): Mutation {
    var kind :=
      if m.kind != Create then m.kind
      else if m.observation.Some? && m.observation.value.lifecycle == Archived then Archive
      else Update;
    m.(baseVersion := version, kind := kind)
  }

  predicate NewestIn(entries: seq<Entry>, i: int)
    requires 0 <= i < |entries|
  {
    forall j | i < j < |entries| :: !SameRecord(entries[j], entries[i])
  }

  /** What stays behind an accepted result: other records, and the newest entry of this one. */
  predicate Survives(entries: seq<Entry>, recordId: string, done: string, i: int)
    requires 0 <= i < |entries|
  {
    entries[i].mutation.recordId != recordId || (MutationIdOf(entries[i]) != done && NewestIn(entries, i))
  }

  function Settled(e: Entry, recordId: string, version: int): Entry {
    if e.mutation.recordId == recordId then e.(mutation := Rebased(e.mutation, version)) else e
  }

  /** DELETE the entries in between, UPDATE the newest. */
  function Coalesced(entries: seq<Entry>, recordId: string, done: string, version: int): seq<Entry> {
    CoalescedFrom(entries, recordId, done, version, 0)
  }

  function CoalescedFrom(entries: seq<Entry>, recordId: string, done: string, version: int, i: nat): seq<Entry>
    requires i <= |entries|
    decreases |entries| - i
  {
    if i == |entries| then []
    else
      (if Survives(entries, recordId, done, i) then [Settled(entries[i], recordId, version)] else [])
      + CoalescedFrom(entries, recordId, done, version, i + 1)
  }

  /** A completed mutation leaves the queue and the claims, and gets its receipt. */
  function Completed(q: Queue, e: Entry, result: Result): Queue {
    var m := MutationIdOf(e);
    q.(entries := if IsAccepted(result) then Coalesced(q.entries, e.mutation.recordId, m, result.version) else WithoutEntry(q.entries, m),
       claims := q.claims - {m},
       receipts := q.receipts[m := Receipt(result, e.mutation)],
       versions := if result.disposition == Rejected then q.versions else q.versions[e.mutation.recordId := result.version])
  }

  function WithoutEntry(entries: seq<Entry>, mutationId: string): seq<Entry> {
    if entries == [] then []
    else if MutationIdOf(entries[|entries| - 1]) == mutationId then WithoutEntry(entries[..|entries| - 1], mutationId)
    else WithoutEntry(entries[..|entries| - 1], mutationId) + [entries[|entries| - 1]]
  }

  // ---------------------------------------------------------------- fencing

  /** From one state to the next: first proofs stay, and a token only gives way to one never issued before. */
  ghost predicate ClaimsMove(before: map<string, Claim>, after: map<string, Claim>, issued: set<string>) {
    forall m | m in after ::
      if m in before then
        && after[m].firstToken == before[m].firstToken && after[m].firstClaimedAt == before[m].firstClaimedAt
        && (after[m].token == before[m].token || after[m].token !in issued)
      else after[m].token !in issued && after[m].firstToken == after[m].token
  }

  /** A receipt is written once, and its mutation is never queued again. */
  ghost predicate ReceiptsGrow(before: Queue, after: Queue) {
    forall m | m in before.receipts :: m in after.receipts && after.receipts[m] == before.receipts[m] && !Queued(after, m)
  }

  // -------------------------------------------------------------- entries

  /** In an ordered queue, coming before is having the smaller index. */
  lemma EarlierIsBefore(entries: seq<Entry>, i: int, j: int)
    requires InOrder(entries) && 0 <= i < |entries| && 0 <= j < |entries|
    ensures Earlier(entries[i], entries[j]) <==> i < j
  {
    if i < j {
      assert entries[i].id < entries[j].id && entries[i].createdAt <= entries[j].createdAt;
    } else if j < i {
      assert entries[j].id < entries[i].id && entries[j].createdAt <= entries[i].createdAt;
    }
  }

  lemma EnqueueKeepsEntries(q: Queue, o: Observation, mutationId: string, now: Time, clock: Time)
    requires EntriesValid(q, clock) && clock <= now && !Queued(q, mutationId) && 0 <= VersionOf(q, o.id)
    requires Queueable(SnapshotMutation(mutationId, o, VersionOf(q, o.id)))
    ensures EntriesValid(Enqueued(q, o, mutationId, now), now)
  {
    hide Queueable, Queued;
    var u := Enqueued(q, o, mutationId, now);
    var n := |q.entries|;
    NotQueued(q, mutationId);
    forall i | 0 <= i < |u.entries| ensures EntryCurrent(u, u.entries[i]) && Queueable(u.entries[i].mutation) {
      if i < n {
        assert EntryCurrent(q, q.entries[i]);
      }
    }
  }

  lemma WriteKeepsEntries(q: Queue, o: Observation, clock: Time)
    requires EntriesValid(q, clock)
    ensures EntriesValid(Written(q, o), clock)
  {
    hide Queueable, SnapshotMutation, InOrder, DistinctMutations;
    var u := Written(q, o);
    forall i | 0 <= i < |u.entries| ensures EntryCurrent(u, u.entries[i]) {
      assert EntryCurrent(q, q.entries[i]);
    }
  }

  /** A write without a profile touches no entry, claim or receipt. */
  lemma WriteKeepsValid(q: Queue, o: Observation, clock: Time)
    requires QueueValid(q, clock)
    ensures QueueValid(Written(q, o), clock)
  {
    hide EntriesValid, First, Queued;
    WriteKeepsEntries(q, o, clock);
    SameQueue(q, Written(q, o));
  }

  lemma NotQueued(q: Queue, mutationId: string)
    requires !Queued(q, mutationId)
    ensures forall i | 0 <= i < |q.entries| :: MutationIdOf(q.entries[i]) != mutationId
  {
  }

  lemma EnqueueKeepsClaims(q: Queue, o: Observation, mutationId: string, now: Time)
    requires InOrder(q.entries) && InOrder(Enqueued(q, o, mutationId, now).entries)
    requires ClaimsPlaced(q) && ReceiptsFinal(q) && !Queued(q, mutationId) && mutationId !in q.receipts
    ensures ClaimsPlaced(Enqueued(q, o, mutationId, now)) && ReceiptsFinal(Enqueued(q, o, mutationId, now))
  {
    hide InOrder, Earlier;
    var u := Enqueued(q, o, mutationId, now);
    var n := |q.entries|;
    assert mutationId !in q.claims && MutationIdOf(u.entries[n]) == mutationId;
    forall i | 0 <= i < n && MutationIdOf(u.entries[i]) in u.claims ensures First(u, i) {
      assert u.entries[i] == q.entries[i] && First(q, i);
      FirstOfLonger(q, u, i);
    }
    forall m | m in u.claims ensures Queued(u, m) {
      var i :| 0 <= i < n && MutationIdOf(q.entries[i]) == m;
      assert MutationIdOf(u.entries[i]) == m;
    }
    forall m | m in u.receipts ensures !Queued(u, m) {
      NotQueued(q, m);
      forall i | 0 <= i < |u.entries| ensures MutationIdOf(u.entries[i]) != m {
        if i < n {
          assert u.entries[i] == q.entries[i];
        }
      }
    }
  }

  lemma FirstOfLonger(q: Queue, u: Queue, i: int)
    requires InOrder(u.entries) && |u.entries| == |q.entries| + 1 && u.entries[..|q.entries|] == q.entries
    requires 0 <= i < |q.entries| && First(q, i)
    ensures First(u, i)
  {
    hide Earlier, InOrder;
    forall j | 0 <= j < |u.entries| && SameRecord(u.entries[j], u.entries[i]) ensures !Earlier(u.entries[j], u.entries[i]) {
      EarlierIsBefore(u.entries, j, i);
      if j < |q.entries| {
        assert u.entries[j] == q.entries[j] && u.entries[i] == q.entries[i];
      }
    }
  }

  lemma EnqueueKeepsValid(q: Queue, o: Observation, mutationId: string, now: Time, clock: Time)
    requires QueueValid(q, clock) && clock <= now
    requires !Queued(q, mutationId) && mutationId !in q.receipts
    requires Queueable(SnapshotMutation(mutationId, o, VersionOf(q, o.id)))
    ensures QueueValid(Enqueued(q, o, mutationId, now), now)
  {
    hide Queueable, Queued, ClaimsPlaced, ReceiptsFinal, EntryCurrent;
    EnqueueKeepsEntries(q, o, mutationId, now, clock);
    EnqueueKeepsClaims(q, o, mutationId, now);
  }

  // ------------------------------------------------------------- completion

  /** Ascending indices. */
  predicate Ascending(idx: seq<int>, n: nat) {
    && (forall k | 0 <= k < |idx| :: 0 <= idx[k] < n)
    && (forall j, k | 0 <= j < k < |idx| :: idx[j] < idx[k])
  }

  lemma CoalescedStep(entries: seq<Entry>, recordId: string, done: string, version: int, i: nat)
    requires i <= |entries|
    ensures CoalescedFrom(entries, recordId, done, version, i) ==
      if i == |entries| then []
      else if Survives(entries, recordId, done, i) then
        [Settled(entries[i], recordId, version)] + CoalescedFrom(entries, recordId, done, version, i + 1)
      else CoalescedFrom(entries, recordId, done, version, i + 1)
  {
    hide Survives, Settled;
  }

  lemma NoneAscend(n: nat)
    ensures Ascending([], n)
  {
  }

  lemma PrependedAscends(i: int, rest: seq<int>, n: nat)
    requires 0 <= i < n && Ascending(rest, n) && forall k | 0 <= k < |rest| :: i < rest[k]
    ensures Ascending([i] + rest, n)
  {
  }

  lemma {:induction false} CoalescedIndices(entries: seq<Entry>, recordId: string, done: string, version: int, i: nat) returns (idx: seq<int>)
    requires i <= |entries|
    ensures Ascending(idx, |entries|) && |idx| == |CoalescedFrom(entries, recordId, done, version, i)|
    ensures forall k | 0 <= k < |idx| ::
      && i <= idx[k] && Survives(entries, recordId, done, idx[k])
      && CoalescedFrom(entries, recordId, done, version, i)[k] == Settled(entries[idx[k]], recordId, version)
    ensures forall j | i <= j < |entries| && Survives(entries, recordId, done, j) :: j in idx
    decreases |entries| - i
  {
    hide Survives, Settled, Ascending, CoalescedFrom;
    CoalescedStep(entries, recordId, done, version, i);
    if i == |entries| {
      idx := [];
      NoneAscend(|entries|);
    } else {
      var rest := CoalescedIndices(entries, recordId, done, version, i + 1);
      if Survives(entries, recordId, done, i) {
        idx := [i] + rest;
        PrependedAscends(i, rest, |entries|);
        forall j | i <= j < |entries| && Survives(entries, recordId, done, j) ensures j in idx {
          if j == i {
            assert idx[0] == i;
          } else {
            assert j in rest;
          }
        }
      } else {
        idx := rest;
      }
    }
  }

  lemma {:induction false} WithoutIndices(entries: seq<Entry>, mutationId: string) returns (idx: seq<int>)
    ensures Ascending(idx, |entries|) && |idx| == |WithoutEntry(entries, mutationId)|
    ensures forall k | 0 <= k < |idx| ::
      MutationIdOf(entries[idx[k]]) != mutationId && WithoutEntry(entries, mutationId)[k] == entries[idx[k]]
    ensures forall j | 0 <= j < |entries| && MutationIdOf(entries[j]) != mutationId :: j in idx
    decreases |entries|
  {
    if entries == [] {
      idx := [];
    } else {
      var n := |entries| - 1;
      var rest := WithoutIndices(entries[..n], mutationId);
      idx := rest + if MutationIdOf(entries[n]) == mutationId then [] else [n];
      forall j | 0 <= j < |entries| && MutationIdOf(entries[j]) != mutationId ensures j in idx {
        if j == n {
          assert idx[|idx| - 1] == n;
        } else {
          assert entries[..n][j] == entries[j] && j in rest;
        }
      }
    }
  }

  /** A rebased snapshot is valid whenever the snapshot was, so rebasing is never refused for it. */
  lemma RebasedIsValid(mutationId: string, o: Observation, version: int, later: int)
    requires Queueable(SnapshotMutation(mutationId, o, version)) && 0 <= version && 1 <= later
    ensures Rebased(SnapshotMutation(mutationId, o, version), later) == SnapshotMutation(mutationId, o, later)
    ensures Queueable(SnapshotMutation(mutationId, o, later))
  {
    hide ByteLength, Blank, IsUuid, ValidId, ObservationExceedsLimits;
  }

  /** The same queue entry, whatever became of its payload. */
  predicate SameEntry(a: Entry, b: Entry) {
    a.id == b.id && a.createdAt == b.createdAt && MutationIdOf(a) == MutationIdOf(b) && a.mutation.recordId == b.mutation.recordId
  }

  /** Some entries have gone, the rest kept their places in line. */
  predicate Thinned(before: seq<Entry>, after: seq<Entry>, idx: seq<int>) {
    && Ascending(idx, |before|) && |idx| == |after|
    && forall k | 0 <= k < |idx| :: SameEntry(after[k], before[idx[k]])
  }

  lemma ThinnedKeepsOrder(before: seq<Entry>, after: seq<Entry>, idx: seq<int>)
    requires Thinned(before, after, idx) && InOrder(before) && DistinctMutations(before)
    ensures InOrder(after) && DistinctMutations(after)
  {
    forall j, k | 0 <= j < k < |after|
      ensures after[j].id < after[k].id && after[j].createdAt <= after[k].createdAt && MutationIdOf(after[j]) != MutationIdOf(after[k])
    {
      assert idx[j] < idx[k];
    }
  }

  lemma ThinnedKeepsFirst(q: Queue, u: Queue, idx: seq<int>, k: int)
    requires Thinned(q.entries, u.entries, idx) && 0 <= k < |idx| && First(q, idx[k])
    ensures First(u, k)
  {
    forall j | 0 <= j < |u.entries| && SameRecord(u.entries[j], u.entries[k]) ensures !Earlier(u.entries[j], u.entries[k]) {
      assert SameRecord(q.entries[idx[j]], q.entries[idx[k]]);
    }
  }

  lemma OneFirst(q: Queue, i: int, j: int)
    requires InOrder(q.entries) && 0 <= i < |q.entries| && 0 <= j < |q.entries| && First(q, i) && First(q, j)
    requires SameRecord(q.entries[i], q.entries[j])
    ensures i == j
  {
    EarlierIsBefore(q.entries, i, j);
    EarlierIsBefore(q.entries, j, i);
  }

  /** Behind the leading entry of a record nothing is claimed, so a completion is never refused for later claimed work. */
  lemma LaterNeverClaimed(q: Queue, i: int, clock: Time)
    requires QueueValid(q, clock) && 0 <= i < |q.entries| && First(q, i)
    ensures forall j | 0 <= j < |q.entries| && j != i && SameRecord(q.entries[j], q.entries[i]) :: MutationIdOf(q.entries[j]) !in q.claims
  {
    hide QueueValid, First, InOrder, DistinctMutations;
    QueueParts(q, clock);
    forall j | 0 <= j < |q.entries| && j != i && SameRecord(q.entries[j], q.entries[i]) && MutationIdOf(q.entries[j]) in q.claims ensures false {
      OneFirst(q, i, j);
    }
  }

  predicate IsAccepted(result: Result) {
    result.disposition == Accepted || result.disposition == PreviouslyAccepted
  }

  /** applyResultVersion: an accepted result names the next version, a conflict one the record is on or can move to. */
  predicate Recordable(q: Queue, e: Entry, result: Result) {
    var current := VersionOf(q, e.mutation.recordId);
    match result.disposition
    case Rejected => true
    case Conflict =>
      e.mutation.baseVersion <= result.version && (current == result.version || current == e.mutation.baseVersion)
    case _ => result.version == e.mutation.baseVersion + 1 && current == e.mutation.baseVersion
  }

  /** The surviving entries of a completion, by their old index. */
  lemma CompletedIndices(q: Queue, i: int, result: Result) returns (idx: seq<int>)
    requires InOrder(q.entries) && DistinctMutations(q.entries) && 0 <= i < |q.entries| && First(q, i)
    ensures var e := q.entries[i];
            var u := Completed(q, e, result);
            && Thinned(q.entries, u.entries, idx)
            && i !in idx
            && (forall k | 0 <= k < |idx| ::
                  u.entries[k] == if IsAccepted(result) then Settled(q.entries[idx[k]], e.mutation.recordId, result.version) else q.entries[idx[k]])
            && (forall k | 0 <= k < |idx| && IsAccepted(result) && SameRecord(q.entries[idx[k]], e) :: Newest(q, idx[k]))
            && (forall j | 0 <= j < |q.entries| && !SameRecord(q.entries[j], e) :: j in idx)
            && (forall j | 0 <= j < |q.entries| && j != i && !IsAccepted(result) :: j in idx)
            && (forall j | 0 <= j < |q.entries| && j != i && Newest(q, j) :: j in idx)
  {
    hide InOrder, First, NewestIn;
    var e := q.entries[i];
    var m := MutationIdOf(e);
    if IsAccepted(result) {
      idx := CoalescedIndices(q.entries, e.mutation.recordId, m, result.version, 0);
      forall j | 0 <= j < |q.entries| && j != i && Newest(q, j) ensures j in idx {
        assert Survives(q.entries, e.mutation.recordId, m, j);
      }
    } else {
      idx := WithoutIndices(q.entries, m);
    }
  }

  lemma CompletedEntries(q: Queue, i: int, result: Result, clock: Time)
    requires QueueValid(q, clock) && 0 <= i < |q.entries| && First(q, i) && Recordable(q, q.entries[i], result)
    ensures EntriesValid(Completed(q, q.entries[i], result), clock)
  {
    hide Queueable, ClaimsPlaced, ReceiptsFinal, First, Coalesced, WithoutEntry, SnapshotMutation, InOrder, DistinctMutations, Thinned, NewestIn;
    var e := q.entries[i];
    var u := Completed(q, e, result);
    var idx := CompletedIndices(q, i, result);
    ThinnedKeepsOrder(q.entries, u.entries, idx);
    forall k | 0 <= k < |u.entries|
      ensures EntryCurrent(u, u.entries[k]) && Queueable(u.entries[k].mutation)
      ensures u.entries[k].id < u.nextId && u.entries[k].createdAt <= clock
    {
      ThinnedAt(q.entries, u.entries, idx, k);
      assert EntryCurrent(q, q.entries[idx[k]]) && EntryCurrent(q, e);
      var o := q.entries[idx[k]].mutation.observation.value;
      var base := q.entries[idx[k]].mutation.baseVersion;
      SnapshotFields(MutationIdOf(q.entries[idx[k]]), o, base);
      if IsAccepted(result) && SameRecord(q.entries[idx[k]], e) {
        SnapshotFields(MutationIdOf(q.entries[idx[k]]), o, result.version);
        RebasedIsValid(MutationIdOf(q.entries[idx[k]]), o, base, result.version);
      }
    }
  }

  lemma ThinnedAt(before: seq<Entry>, after: seq<Entry>, idx: seq<int>, k: int)
    requires Thinned(before, after, idx) && 0 <= k < |after|
    ensures |idx| == |after| && 0 <= idx[k] < |before| && SameEntry(after[k], before[idx[k]])
  {
  }

  lemma SnapshotFields(mutationId: string, o: Observation, version: int)
    ensures var m := SnapshotMutation(mutationId, o, version);
            m.mutationId == mutationId && m.recordId == o.id && m.baseVersion == version && m.observation == Some(o)
  {
  }

  lemma NewestWasNewest(q: Queue, u: Queue, i: int, result: Result, idx: seq<int>, k: int)
    requires InOrder(q.entries) && 0 <= i < |q.entries| && First(q, i) && Thinned(q.entries, u.entries, idx)
    requires 0 <= k < |idx| && 0 <= idx[k] < |q.entries| && i !in idx && Newest(u, k)
    requires forall j | 0 <= j < |idx| && IsAccepted(result) && SameRecord(q.entries[idx[j]], q.entries[i]) :: Newest(q, idx[j])
    requires forall j | 0 <= j < |q.entries| && !SameRecord(q.entries[j], q.entries[i]) :: j in idx
    requires forall j | 0 <= j < |q.entries| && j != i && !IsAccepted(result) :: j in idx
    ensures Newest(q, idx[k])
  {
    if !(IsAccepted(result) && SameRecord(q.entries[idx[k]], q.entries[i])) {
      forall j | idx[k] < j < |q.entries| ensures !SameRecord(q.entries[j], q.entries[idx[k]]) {
        if j in idx {
          LaterSurvivor(q, u, idx, k, j);
        } else if j == i {
          EarlierIsBefore(q.entries, idx[k], i);
        }
      }
    }
  }

  lemma LaterSurvivor(q: Queue, u: Queue, idx: seq<int>, k: int, j: int)
    requires Thinned(q.entries, u.entries, idx) && 0 <= k < |idx| && Newest(u, k)
    requires 0 <= idx[k] < j < |q.entries| && j in idx
    ensures !SameRecord(q.entries[j], q.entries[idx[k]])
  {
    var p :| 0 <= p < |idx| && idx[p] == j;
    assert k < p;
    assert !SameRecord(u.entries[p], u.entries[k]);
  }

  lemma CompletedClaims(q: Queue, i: int, result: Result)
    requires InOrder(q.entries) && DistinctMutations(q.entries) && ClaimsPlaced(q) && ReceiptsFinal(q)
    requires 0 <= i < |q.entries| && First(q, i)
    ensures ClaimsPlaced(Completed(q, q.entries[i], result)) && ReceiptsFinal(Completed(q, q.entries[i], result))
  {
    hide First, Coalesced, WithoutEntry, InOrder, Thinned, NewestIn, Settled;
    var e := q.entries[i];
    var u := Completed(q, e, result);
    var idx := CompletedIndices(q, i, result);
    forall m | m in u.claims ensures Queued(u, m) {
      var j :| 0 <= j < |q.entries| && MutationIdOf(q.entries[j]) == m;
      assert First(q, j);
      if SameRecord(q.entries[j], e) {
        OneFirst(q, j, i);
      }
      var k :| 0 <= k < |idx| && idx[k] == j;
      ThinnedLength(q.entries, u.entries, idx);
      ThinnedAt(q.entries, u.entries, idx, k);
    }
    ThinnedLength(q.entries, u.entries, idx);
    forall k | 0 <= k < |u.entries| && MutationIdOf(u.entries[k]) in u.claims ensures First(u, k) {
      ThinnedAt(q.entries, u.entries, idx, k);
      ThinnedKeepsFirst(q, u, idx, k);
    }
    forall m | m in u.receipts ensures !Queued(u, m) {
      forall k | 0 <= k < |u.entries| ensures MutationIdOf(u.entries[k]) != m {
        ThinnedAt(q.entries, u.entries, idx, k);
        if m == MutationIdOf(e) {
          assert idx[k] != i;
        } else {
          NotQueued(q, m);
        }
      }
    }
  }

  lemma ThinnedLength(before: seq<Entry>, after: seq<Entry>, idx: seq<int>)
    requires Thinned(before, after, idx)
    ensures |idx| == |after|
  {
  }

  /** Completing the leading entry of a record keeps the queue valid. */
  lemma CompletionKeepsValid(q: Queue, i: int, result: Result, clock: Time)
    requires QueueValid(q, clock) && 0 <= i < |q.entries| && First(q, i) && Recordable(q, q.entries[i], result)
    ensures QueueValid(Completed(q, q.entries[i], result), clock)
  {
    hide Queueable, ClaimsPlaced, ReceiptsFinal, First, Coalesced, WithoutEntry, NewestIn, Queued;
    CompletedEntries(q, i, result, clock);
    CompletedClaims(q, i, result);
    assert EntryCurrent(q, q.entries[i]);
  }

  /** An accepted result leaves at most one entry of its record: the newest, moved onto the accepted version. */
  lemma OneFollower(q: Queue, i: int, result: Result, clock: Time)
    requires QueueValid(q, clock) && 0 <= i < |q.entries| && First(q, i) && Recordable(q, q.entries[i], result) && IsAccepted(result)
    ensures var u := Completed(q, q.entries[i], result);
            && (forall j, k | 0 <= j < |u.entries| && 0 <= k < |u.entries|
                  && SameRecord(u.entries[j], q.entries[i]) && SameRecord(u.entries[k], q.entries[i]) :: j == k)
            && (forall k | 0 <= k < |u.entries| && SameRecord(u.entries[k], q.entries[i]) ::
                  exists j :: 0 <= j < |q.entries| && Newest(q, j) && j != i && FollowerOf(q.entries[j], u.entries[k], result.version))
  {
    hide Queueable, ClaimsPlaced, ReceiptsFinal, First, Coalesced, WithoutEntry, InOrder, DistinctMutations, SnapshotMutation;
    var e := q.entries[i];
    var u := Completed(q, e, result);
    var idx := CompletedIndices(q, i, result);
    forall j, k | 0 <= j < |u.entries| && 0 <= k < |u.entries| && SameRecord(u.entries[j], e) && SameRecord(u.entries[k], e) ensures j == k {
      ThinnedAt(q.entries, u.entries, idx, j);
      ThinnedAt(q.entries, u.entries, idx, k);
      assert Newest(q, idx[j]) && Newest(q, idx[k]);
    }
    forall k | 0 <= k < |u.entries| && SameRecord(u.entries[k], e)
      ensures exists j :: 0 <= j < |q.entries| && Newest(q, j) && j != i && FollowerOf(q.entries[j], u.entries[k], result.version)
    {
      ThinnedAt(q.entries, u.entries, idx, k);
      assert EntryCurrent(q, q.entries[idx[k]]) && Newest(q, idx[k]) && idx[k] != i;
      SnapshotFields(MutationIdOf(q.entries[idx[k]]), q.entries[idx[k]].mutation.observation.value, q.entries[idx[k]].mutation.baseVersion);
      RebasedIsValid(MutationIdOf(q.entries[idx[k]]), q.entries[idx[k]].mutation.observation.value, q.entries[idx[k]].mutation.baseVersion,
                     result.version);
    }
  }

  /** The same edit, queued on a later version. */
  predicate FollowerOf(before: Entry, after: Entry, version: int) {
    && before.mutation.observation.Some?
    && after == before.(mutation := SnapshotMutation(MutationIdOf(before), before.mutation.observation.value, version))
  }

  // ---------------------------------------------------------------- store

  /** Whether a claim may be taken on an entry now; eligible holds the queue-independent filters of the query. */
  predicate Claimable(q: Queue, i: int, now: Time, eligible: Entry -> bool)
    requires 0 <= i < |q.entries|
  {
    var e := q.entries[i];
    && e.nextAttempt <= now
    && (MutationIdOf(e) in q.claims ==> q.claims[MutationIdOf(e)].leaseUntil <= now)
    && First(q, i)
    && e.mutation.baseVersion == VersionOf(q, e.mutation.recordId)
    && eligible(e)
  }

  function Leased(claims: map<string, Claim>, mutationId: string, token: string, now: Time, until: Time): map<string, Claim> {
    if mutationId in claims then claims[mutationId := claims[mutationId].(token := token, claimedAt := now, leaseUntil := until)]
    else claims[mutationId := Claim(token, token, now, now, until)]
  }

  /** A lease taken from an expired holder, or taken for the first time. */
  predicate TakenOver(before: map<string, Claim>, after: map<string, Claim>, m: string, token: string, now: Time, until: Time) {
    && m in after
    && (m in before ==>
          && before[m].leaseUntil <= now
          && after[m] == before[m].(token := token, claimedAt := now, leaseUntil := until))
    && (m !in before ==> after[m] == Claim(token, token, now, now, until))
  }

  predicate AllClaimable(q: Queue, idx: seq<int>, now: Time, eligible: Entry -> bool) {
    forall k | 0 <= k < |idx| :: 0 <= idx[k] < |q.entries| && Claimable(q, idx[k], now, eligible)
  }

  predicate AllDifferent(q: Queue, idx: seq<int>)
    requires forall k | 0 <= k < |idx| :: 0 <= idx[k] < |q.entries|
  {
    forall j, k | 0 <= j < k < |idx| :: MutationIdOf(q.entries[idx[j]]) != MutationIdOf(q.entries[idx[k]])
  }

  lemma Expired(q: Queue, i: int, now: Time, eligible: Entry -> bool)
    requires 0 <= i < |q.entries| && Claimable(q, i, now, eligible)
    ensures MutationIdOf(q.entries[i]) in q.claims ==> q.claims[MutationIdOf(q.entries[i])].leaseUntil <= now
  {
    hide First;
  }

  /** One more lease leaves the earlier ones of the round as they are. */
  lemma LeasedNext(before: map<string, Claim>, claims: map<string, Claim>, claimed: seq<string>, tokens: seq<string>, m: string,
                   now: Time, until: Time)
    requires m !in claimed && |claimed| < |tokens| && (m in before ==> before[m].leaseUntil <= now)
    requires LeasedOut(before, claims, claimed, tokens, now, until)
    ensures LeasedOut(before, Leased(claims, m, tokens[|claimed|], now, until), claimed + [m], tokens, now, until)
  {
    var after := Leased(claims, m, tokens[|claimed|], now, until);
    forall j | 0 <= j < |claimed| ensures TakenOver(before, after, claimed[j], tokens[j], now, until) {
      assert claimed[j] in claimed;
    }
    assert m in claimed + [m];
  }

  /** Every token in force was issued, and no claim is from the future. */
  ghost predicate TokensKnown(claims: map<string, Claim>, issued: set<string>, clock: Time) {
    forall m | m in claims :: claims[m].token in issued && claims[m].claimedAt <= clock
  }

  function TokenSet(tokens: seq<string>): set<string> {
    set j | 0 <= j < |tokens| :: tokens[j]
  }

  datatype Completion = NotClaimed | Replayed | ReceiptConflict | Retried | Recorded | Invalid | Refused

  /** LocallyRetryable: a revoked or unknown device keeps its work. */
  predicate Retryable(result: Result) {
    result.retryable || (result.disposition == Rejected && (result.code == Revoked || result.code == InvalidDevice))
  }

  predicate CodeChar(c: char) {
    'a' <= c <= 'z' || '0' <= c <= '9'
  }

  /** syncErrorCodePattern */
  predicate StorableCode(code: ResultCode) {
    match code
    case NoCode => false
    case OtherCode(text) =>
      && 1 <= |text| <= 64 && CodeChar(text[0])
      && forall i | 0 <= i < |text| :: CodeChar(text[i]) || text[i] in {'.', '_', '-'}
    case _ => true
  }

  /** validSyncResult */
  predicate ValidSyncResult(result: Result) {
    if result.retryable || result.disposition == Rejected then
      result.disposition == Rejected && result.sequence.None? && result.version == 0 && StorableCode(result.code)
    else
      result.sequence.Some? && result.sequence.value > 0 && result.version > 0 && result.code == NoCode
  }

  /** The checks of a result before the store is looked at. */
  predicate ResultReadable(mutationId: string, token: string, result: Result) {
    IsCanonicalUuid(mutationId) && IsCanonicalUuid(token) && result.mutationId == mutationId && ValidSyncResult(result)
  }

  /** One canonical sequence stands behind one receipt. */
  predicate SequenceTaken(receipts: map<string, Receipt>, sequence: Option<int>) {
    sequence.Some? && exists id :: id in receipts && receipts[id].result.sequence == sequence
  }

  /** The one entry of a mutation takes this result. */
  predicate TakesResult(q: Queue, mutationId: string, result: Result) {
    exists i :: 0 <= i < |q.entries| && MutationIdOf(q.entries[i]) == mutationId && Recordable(q, q.entries[i], result)
  }

  // ------------------------------------------------------------- due entries

  /**
   The answer of the due query: the claimable entries in order, all of them or the first ones.
   The entries are kept in the order of creation time and row id.
   */
  predicate IsDue(q: Queue, due: seq<int>, now: Time, limit: int, eligible: Entry -> bool) {
    && |due| <= limit && Ascending(due, |q.entries|)
    && (forall k | 0 <= k < |due| :: 0 <= due[k] < |q.entries| && Claimable(q, due[k], now, eligible))
    && (forall i | 0 <= i < |q.entries| && Claimable(q, i, now, eligible) :: i in due || (|due| == limit && forall k | 0 <= k < |due| :: due[k] < i))
  }

  predicate CreateQueued(q: Queue, recordId: string) {
    exists i :: 0 <= i < |q.entries| && q.entries[i].mutation.recordId == recordId && q.entries[i].mutation.kind == Create
  }

  /** claimableSyncOutboxEntries, for one entry: whether its references are on the server, None when one never will be. */
  function ReferencesReady(q: Queue, references: seq<string>, project: string, projectOf: string -> Option<string>): Option<bool> {
    if references == [] then Some(true)
    else
      var r := references[0];
      if projectOf(r) != Some(project) then None
      else
        var rest := ReferencesReady(q, references[1..], project, projectOf);
        if VersionOf(q, r) > 0 then rest
        else if !CreateQueued(q, r) || rest.None? then None
        else Some(false)
  }

  function Ready(q: Queue, e: Entry, projectOf: string -> Option<string>): Option<bool> {
    if e.mutation.kind != Create then Some(true)
    else if e.mutation.observation.None? then None
    else ReferencesReady(q, e.mutation.observation.value.references, e.mutation.observation.value.projectId, projectOf)
  }

  /** The due entries whose references are ready. */
  function ReadyOf(q: Queue, due: seq<int>, projectOf: string -> Option<string>): (ready: seq<int>)
    requires forall k | 0 <= k < |due| :: 0 <= due[k] < |q.entries|
    ensures |ready| <= |due| && forall k | 0 <= k < |ready| :: 0 <= ready[k] < |q.entries|
    ensures forall i :: i in ready <==> i in due && Ready(q, q.entries[i], projectOf) == Some(true)
  {
    if due == [] then []
    else
      ReadyOf(q, due[..|due| - 1], projectOf)
      + if Ready(q, q.entries[due[|due| - 1]], projectOf) == Some(true) then [due[|due| - 1]] else []
  }

  predicate AllReady(q: Queue, due: seq<int>, projectOf: string -> Option<string>) {
    forall k | 0 <= k < |due| :: 0 <= due[k] < |q.entries| && Ready(q, q.entries[due[k]], projectOf).Some?
  }

  // what the filter means, reference by reference

  predicate OnServer(q: Queue, recordId: string) {
    recordId in q.versions && q.versions[recordId] > 0
  }

  predicate ReferenceHome(r: string, project: string, projectOf: string -> Option<string>) {
    projectOf(r) == Some(project)
  }

  /** Whatever it refers to is in its project and on the server. */
  predicate GoesOut(q: Queue, e: Entry, projectOf: string -> Option<string>) {
    e.mutation.kind == Create ==>
      && e.mutation.observation.Some?
      && var o := e.mutation.observation.value;
         forall k | 0 <= k < |o.references| :: ReferenceHome(o.references[k], o.projectId, projectOf) && OnServer(q, o.references[k])
  }

  /** Something it refers to is still on its way: queued as a creation, and not yet on the server. */
  predicate HeldBack(q: Queue, e: Entry, projectOf: string -> Option<string>) {
    && e.mutation.kind == Create && e.mutation.observation.Some?
    && var o := e.mutation.observation.value;
       && (forall k | 0 <= k < |o.references| ::
             && ReferenceHome(o.references[k], o.projectId, projectOf)
             && (OnServer(q, o.references[k]) || CreateQueued(q, o.references[k])))
       && (exists k :: 0 <= k < |o.references| && !OnServer(q, o.references[k]))
  }

  /** Something it refers to is missing, of another project, or neither on the server nor on its way. */
  predicate Hopeless(q: Queue, e: Entry, projectOf: string -> Option<string>) {
    && e.mutation.kind == Create
    && (e.mutation.observation.Some? ==>
          var o := e.mutation.observation.value;
          exists k :: 0 <= k < |o.references|
            && (!ReferenceHome(o.references[k], o.projectId, projectOf) || (!OnServer(q, o.references[k]) && !CreateQueued(q, o.references[k]))))
  }

  lemma {:induction false} ReferencesReadyExactly(q: Queue, references: seq<string>, project: string, projectOf: string -> Option<string>)
    ensures var ready := ReferencesReady(q, references, project, projectOf);
            && (ready.Some? <==> forall k | 0 <= k < |references| ::
                  ReferenceHome(references[k], project, projectOf) && (OnServer(q, references[k]) || CreateQueued(q, references[k])))
            && (ready == Some(true) <==> forall k | 0 <= k < |references| :: ReferenceHome(references[k], project, projectOf) && OnServer(q, references[k]))
    decreases |references|
  {
    hide CreateQueued;
    if references != [] {
      var rest := references[1..];
      ReferencesReadyExactly(q, rest, project, projectOf);
      assert forall k | 0 <= k < |rest| :: rest[k] == references[k + 1];
      assert forall k | 1 <= k < |references| :: references[k] == rest[k - 1];
    }
  }

  /** Which due entries go out, wait, or refuse the round. */
  lemma ReadyExactly(q: Queue, e: Entry, projectOf: string -> Option<string>)
    ensures Ready(q, e, projectOf) == Some(true) <==> GoesOut(q, e, projectOf)
    ensures Ready(q, e, projectOf).Some? && !Ready(q, e, projectOf).value <==> HeldBack(q, e, projectOf)
    ensures Ready(q, e, projectOf).None? <==> Hopeless(q, e, projectOf)
  {
    if e.mutation.kind == Create && e.mutation.observation.Some? {
      var o := e.mutation.observation.value;
      ReferencesReadyExactly(q, o.references, o.projectId, projectOf);
      hide ReferencesReady, CreateQueued;
    }
  }

  /** Of the due entries exactly those that go out are claimed, and only they. */
  ghost predicate ClaimedExactly(q: Queue, due: seq<int>, claimed: seq<string>, projectOf: string -> Option<string>) {
    && (forall k | 0 <= k < |due| :: 0 <= due[k] < |q.entries| && !Hopeless(q, q.entries[due[k]], projectOf))
    && (forall k | 0 <= k < |due| :: 0 <= due[k] < |q.entries|
          && (GoesOut(q, q.entries[due[k]], projectOf) <==> MutationIdOf(q.entries[due[k]]) in claimed)
          && (HeldBack(q, q.entries[due[k]], projectOf) <==> MutationIdOf(q.entries[due[k]]) !in claimed))
    && (forall m | m in claimed :: exists k :: 0 <= k < |due| && 0 <= due[k] < |q.entries| && MutationIdOf(q.entries[due[k]]) == m)
  }

  lemma ReadyAreClaimed(q: Queue, due: seq<int>, projectOf: string -> Option<string>)
    requires AllReady(q, due, projectOf) && DistinctMutations(q.entries)
    ensures ClaimedExactly(q, due, IdsOf(q, ReadyOf(q, due, projectOf)), projectOf)
  {
    hide Ready, GoesOut, HeldBack, Hopeless, DistinctMutations, IdsOf;
    var ready := ReadyOf(q, due, projectOf);
    var claimed := IdsOf(q, ready);
    forall k | 0 <= k < |due|
      ensures 0 <= due[k] < |q.entries| && !Hopeless(q, q.entries[due[k]], projectOf)
      ensures GoesOut(q, q.entries[due[k]], projectOf) <==> MutationIdOf(q.entries[due[k]]) in claimed
      ensures HeldBack(q, q.entries[due[k]], projectOf) <==> MutationIdOf(q.entries[due[k]]) !in claimed
    {
      ReadyExactly(q, q.entries[due[k]], projectOf);
      var available := Ready(q, q.entries[due[k]], projectOf);
      assert available.Some? && (available == Some(true) <==> available.value);
      assert due[k] in due;
      ClaimedIsIn(q, ready, due[k]);
    }
    forall m | m in claimed ensures exists k :: 0 <= k < |due| && 0 <= due[k] < |q.entries| && MutationIdOf(q.entries[due[k]]) == m {
      var i := ClaimedFrom(q, ready, m);
      var k :| 0 <= k < |due| && due[k] == i;
    }
  }

  lemma ClaimedIsIn(q: Queue, ready: seq<int>, i: int)
    requires DistinctMutations(q.entries) && 0 <= i < |q.entries| && forall k | 0 <= k < |ready| :: 0 <= ready[k] < |q.entries|
    ensures MutationIdOf(q.entries[i]) in IdsOf(q, ready) <==> i in ready
  {
    hide DistinctMutations;
    var claimed := IdsOf(q, ready);
    if i in ready {
      var j :| 0 <= j < |ready| && ready[j] == i;
      assert claimed[j] == MutationIdOf(q.entries[i]);
    }
    if MutationIdOf(q.entries[i]) in claimed {
      var j :| 0 <= j < |claimed| && claimed[j] == MutationIdOf(q.entries[i]);
      OneEntryOf(q, ready[j], i);
    }
  }

  lemma ClaimedFrom(q: Queue, ready: seq<int>, m: string) returns (i: int)
    requires forall k | 0 <= k < |ready| :: 0 <= ready[k] < |q.entries|
    requires m in IdsOf(q, ready)
    ensures i in ready && 0 <= i < |q.entries| && MutationIdOf(q.entries[i]) == m
  {
    var j :| 0 <= j < |ready| && IdsOf(q, ready)[j] == m;
    i := ready[j];
  }

  lemma OneEntryOf(q: Queue, i: int, j: int)
    requires DistinctMutations(q.entries) && 0 <= i < |q.entries| && 0 <= j < |q.entries|
    requires MutationIdOf(q.entries[i]) == MutationIdOf(q.entries[j])
    ensures i == j
  {
  }

  lemma HopelessExactly(q: Queue, due: seq<int>, projectOf: string -> Option<string>)
    requires forall k | 0 <= k < |due| :: 0 <= due[k] < |q.entries|
    ensures AllReady(q, due, projectOf) <==> forall k | 0 <= k < |due| :: !Hopeless(q, q.entries[due[k]], projectOf)
  {
    hide Ready, Hopeless;
    forall k | 0 <= k < |due| ensures Ready(q, q.entries[due[k]], projectOf).Some? <==> !Hopeless(q, q.entries[due[k]], projectOf) {
      ReadyExactly(q, q.entries[due[k]], projectOf);
    }
  }

  /**
   In a queue in order, an entry may be claimed exactly when it is due, nobody holds it, it comes
   before every other entry of its record, and it is on its record's version.
   */
  lemma ClaimableExactly(q: Queue, i: int, now: Time, eligible: Entry -> bool)
    requires InOrder(q.entries) && 0 <= i < |q.entries|
    ensures var e := q.entries[i];
            Claimable(q, i, now, eligible) <==>
              && e.nextAttempt <= now && eligible(e)
              && !(e.mutation.mutationId in q.claims && q.claims[e.mutation.mutationId].leaseUntil > now)
              && (forall j | 0 <= j < i :: q.entries[j].mutation.recordId != e.mutation.recordId)
              && e.mutation.baseVersion == (if e.mutation.recordId in q.versions then q.versions[e.mutation.recordId] else 0)
  {
    hide InOrder, Earlier;
    forall j | 0 <= j < |q.entries| ensures Earlier(q.entries[j], q.entries[i]) <==> j < i {
      EarlierIsBefore(q.entries, j, i);
    }
  }

  function IdsOf(q: Queue, idx: seq<int>): seq<string>
    requires forall k | 0 <= k < |idx| :: 0 <= idx[k] < |q.entries|
  {
    seq(|idx|, k requires 0 <= k < |idx| => MutationIdOf(q.entries[idx[k]]))
  }

  predicate LeaseInRange(lease: int, limit: int) {
    SECOND <= lease <= MAX_LEASE && 1 <= limit <= MAX_DUE
  }

  /** The claimed are taken over in order of their tokens; every other claim is as it was. */
  ghost predicate LeasedOut(before: map<string, Claim>, after: map<string, Claim>, claimed: seq<string>, tokens: seq<string>, now: Time, until: Time) {
    && |claimed| <= |tokens|
    && (forall k | 0 <= k < |claimed| :: TakenOver(before, after, claimed[k], tokens[k], now, until))
    && (forall m | m !in claimed :: (m in after <==> m in before) && (m in after ==> after[m] == before[m]))
  }

  // ----------------------------------------------------- pulled conflicts

  /** Somebody is at work on an entry of the record. */
  predicate AtWork(q: Queue, recordId: string, now: Time) {
    exists i :: 0 <= i < |q.entries| && q.entries[i].mutation.recordId == recordId && LiveClaim(q, MutationIdOf(q.entries[i]), now)
  }

  predicate LiveClaim(q: Queue, mutationId: string, now: Time) {
    mutationId in q.claims && q.claims[mutationId].leaseUntil > now && q.claims[mutationId].claimedAt <= now
  }

  /** The record's queued work as one entry on a version; claims go with their entries. */
  function RebasedPending(q: Queue, recordId: string, version: int): Queue {
    var u := q.(entries := Coalesced(q.entries, recordId, "", version), versions := q.versions[recordId := version]);
    u.(claims := map m | m in q.claims && Queued(u, m) :: q.claims[m])
  }

  // --------------------------------------------------------------- backfill

  /** The oldest queued creation of a record. */
  function FirstCreate(entries: seq<Entry>, recordId: string, from: nat): (at: Option<nat>)
    requires from <= |entries|
    ensures at.Some? ==> from <= at.value < |entries| && IsCreate(entries[at.value], recordId)
    ensures at.None? ==> forall i | from <= i < |entries| :: !IsCreate(entries[i], recordId)
    decreases |entries| - from
  {
    if from == |entries| then None
    else if IsCreate(entries[from], recordId) then Some(from)
    else FirstCreate(entries, recordId, from + 1)
  }

  predicate IsCreate(e: Entry, recordId: string) {
    e.mutation.recordId == recordId && e.mutation.kind == Create && e.mutation.baseVersion == 0
  }

  datatype Backfill = BackfillRefused | Backfilled(state: Queue, queued: nat, remaining: bool)

  /** enqueueBackfillMutation: queues the row, or repairs an untouched entry that no longer shows it. */
  function BackfillOne(q: Queue, recordId: string, derived: string, queued: nat, now: Time): Backfill
    requires recordId in q.edits
  {
    var o := q.edits[recordId];
    var at := FirstCreate(q.entries, recordId, 0);
    if at.None? then
      if !Queueable(SnapshotMutation(derived, o, 0)) || derived in q.receipts || Queued(q, derived) then BackfillRefused
      else Backfilled(Enqueued(q, o, derived, now), queued + 1, false)
    else
      var e := q.entries[at.value];
      var m := SnapshotMutation(MutationIdOf(e), o, 0);
      if e.attempts > 0 || !Queueable(m) then BackfillRefused
      else if e.mutation == m then Backfilled(q, queued, false)
      else if MutationIdOf(e) in q.claims then BackfillRefused
      else Backfilled(q.(entries := q.entries[at.value := e.(mutation := m)]), queued, false)
  }

  /** The loop over a project's observations; queued counts what went before, against the limit. */
  function BackfillAll(q: Queue, listing: seq<string>, queued: nat, limit: int, derive: string -> string, now: Time): Backfill
    requires forall k | 0 <= k < |listing| :: listing[k] in q.edits
    decreases |listing|
  {
    if listing == [] then Backfilled(q, queued, false)
    else if queued >= limit then Backfilled(q, queued, true)
    else if VersionOf(q, listing[0]) != 0 then BackfillAll(q, listing[1..], queued, limit, derive, now)
    else
      var one := BackfillOne(q, listing[0], derive(listing[0]), queued, now);
      if one.BackfillRefused? then BackfillRefused
      else BackfillAll(one.state, listing[1..], one.queued, limit, derive, now)
  }

  class Outbox {
    var profile: bool
    var entries: seq<Entry>
    var claims: map<string, Claim>
    var receipts: map<string, Receipt>
    var versions: map<string, int>
    var edits: map<string, Observation>
    var nextId: int
    ghost var clock: Time
    ghost var issued: set<string>

    function State(): Queue
      reads this
    {
      Queue(profile, entries, claims, receipts, versions, edits, nextId)
    }

    ghost predicate Valid()
      reads this
    {
      QueueValid(State(), clock)
    }

    /** Every token in force has been issued. */
    ghost predicate TokensIssued()
      reads this
    {
      TokensKnown(claims, issued, clock)
    }

    constructor ()
      ensures Valid() && TokensIssued() && State() == EMPTY_QUEUE
    {
      profile, entries, claims, receipts, versions, edits, nextId := false, [], map[], map[], map[], map[], 1;
      clock, issued := 0, {};
    }

    /** A profile is configured; none is ever removed. */
    method ConfigureProfile()
      requires Valid() && TokensIssued()
      modifies this`profile
      ensures Valid() && TokensIssued() && State() == old(State()).(profile := true)
    {
      hide QueueValid;
      ConfiguredKeepsValid(State(), clock);
      profile := true;
    }

    /** insertSyncOutbox: a completed mutation is never queued again, and one id stands for one payload. */
    method InsertSyncOutbox(m: Mutation, now: Time) returns (ok: bool)
      modifies this`entries, this`nextId
      ensures ok <==>
        m.mutationId !in receipts
        && forall i | 0 <= i < |old(entries)| && MutationIdOf(old(entries)[i]) == m.mutationId :: old(entries)[i].mutation == m
      ensures ok && !old(Queued(State(), m.mutationId)) ==>
        entries == old(entries) + [Entry(old(nextId), m, now, now, 0, NoCode)] && nextId == old(nextId) + 1
      ensures !ok || old(Queued(State(), m.mutationId)) ==> entries == old(entries) && nextId == old(nextId)
    {
      if m.mutationId in receipts {
        return false;
      }
      var i := 0;
      var found := false;
      while i < |entries|
        invariant 0 <= i <= |entries|
        invariant found <==> exists k :: 0 <= k < i && MutationIdOf(entries[k]) == m.mutationId
        invariant forall k | 0 <= k < i && MutationIdOf(entries[k]) == m.mutationId :: entries[k].mutation == m
        invariant entries == old(entries) && nextId == old(nextId)
      {
        if MutationIdOf(entries[i]) == m.mutationId {
          if entries[i].mutation != m {
            return false;
          }
          found := true;
        }
        i := i + 1;
      }
      if !found {
        entries := entries + [Entry(nextId, m, now, now, 0, NoCode)];
        nextId := nextId + 1;
      }
      ok := true;
    }

    /**
     A local write: the row and its queued snapshot commit together, or neither does. Without a
     profile the row commits alone. The mutation id comes from the UUID generator.
     */
    method Save(o: Observation, mutationId: string, now: Time) returns (ok: bool)
      requires Valid() && TokensIssued() && clock <= now
      requires !Queued(State(), mutationId) && mutationId !in receipts
      modifies this`entries, this`nextId, this`edits, this`versions, this`clock
      ensures Valid() && TokensIssued() && clock == now
      ensures ok <==> !profile || Queueable(SnapshotMutation(mutationId, o, old(VersionOf(State(), o.id))))
      ensures State() ==
        if !ok then old(State()) else if profile then Enqueued(old(State()), o, mutationId, now) else Written(old(State()), o)
    {
      hide Queueable, ClaimsPlaced, ReceiptsFinal, EntryCurrent, SnapshotMutation, EntriesValid;
      ClockMayAdvance(State(), clock, now);
      clock := now;
      var version := VersionOf(State(), o.id);
      if !profile {
        WriteKeepsValid(State(), o, now);
        versions, edits := versions[o.id := version], edits[o.id := o];
        return true;
      }
      var m := SnapshotMutation(mutationId, o, version);
      SnapshotFields(mutationId, o, version);
      if !Queueable(m) {
        return false;
      }
      EnqueueKeepsValid(State(), o, mutationId, now, now);
      ok := InsertSyncOutbox(m, now);
      versions, edits := versions[o.id := version], edits[o.id := o];
    }

    /** A pulled change puts a record without queued work on its version: a new row, or one that was pushed or pulled before. */
    method PullVersion(recordId: string, version: int)
      requires Valid() && TokensIssued() && 1 <= version && (recordId in versions ==> 1 <= versions[recordId])
      requires forall i | 0 <= i < |entries| :: entries[i].mutation.recordId != recordId
      modifies this`versions
      ensures Valid() && TokensIssued() && State() == old(State()).(versions := old(versions)[recordId := version])
    {
      hide QueueValid;
      PullKeepsValid(State(), recordId, version, clock);
      versions := versions[recordId := version];
    }

    /**
     rebasePendingConflictOutbox, behind the device's own conflict or a resolution that has put the
     record on a version: the queued work becomes one entry on it, unless somebody is at work on it.
     */
    method RebasePendingConflict(recordId: string, version: int, now: Time) returns (ok: bool)
      requires Valid() && TokensIssued() && clock <= now && 1 <= version && (recordId in versions ==> 1 <= versions[recordId] <= version)
      modifies this`entries, this`claims, this`versions, this`clock
      ensures Valid() && TokensIssued() && clock == now
      ensures ok <==>
        forall i | 0 <= i < |old(entries)| && old(entries)[i].mutation.recordId == recordId ::
          var m := old(entries)[i].mutation.mutationId;
          !(m in old(claims) && old(claims)[m].claimedAt <= now < old(claims)[m].leaseUntil)
      ensures State() == if ok then RebasedPending(old(State()), recordId, version) else old(State())
      ensures ClaimsMove(old(claims), claims, issued) && ReceiptsGrow(old(State()), State())
    {
      hide QueueValid, ClaimsPlaced, ReceiptsFinal, Coalesced, First, ClaimsMove, ReceiptsGrow, TokensKnown, RebasedPending;
      ghost var before := State();
      ClockMayAdvance(State(), clock, now);
      TokensLater(claims, issued, clock, now);
      SameClaims(claims, issued);
      QueueParts(State(), now);
      clock := now;
      RetriedStaysFinal(before, State());
      var i := 0;
      while i < |entries|
        invariant 0 <= i <= |entries|
        invariant State() == before && clock == now
        invariant forall k | 0 <= k < i :: !(entries[k].mutation.recordId == recordId && LiveClaim(State(), MutationIdOf(entries[k]), now))
      {
        if entries[i].mutation.recordId == recordId && LiveClaim(State(), MutationIdOf(entries[i]), now) {
          return false;
        }
        i := i + 1;
      }
      var u := RebasedPending(State(), recordId, version);
      RebasedPendingRest(before, recordId, version);
      RebasePendingKeepsValid(before, recordId, version, clock);
      RebasePendingIsFinal(before, recordId, version, issued, clock);
      entries, claims, versions := u.entries, u.claims, u.versions;
      assert State() == u;
      ok := true;
    }

    /** BackfillSyncProject over a project's observations; queued is what its project and sessions took of the limit. */
    method BackfillObservations(listing: seq<string>, queued: nat, limit: int, derive: string -> string, now: Time) returns (outcome: Backfill)
      requires Valid() && TokensIssued() && clock <= now
      requires forall k | 0 <= k < |listing| :: listing[k] in edits
      modifies this`entries, this`nextId, this`clock
      ensures Valid() && TokensIssued() && clock == now
      ensures outcome == if 1 <= limit <= 1000 then BackfillAll(old(State()), listing, queued, limit, derive, now) else BackfillRefused
      ensures State() == if outcome.Backfilled? then outcome.state else old(State())
    {
      hide QueueValid, BackfillOne, ReceiptsGrow;
      ClockMayAdvance(State(), clock, now);
      TokensLater(claims, issued, clock, now);
      clock := now;
      if limit < 1 || limit > 1000 {
        return BackfillRefused;
      }
      ghost var before := State();
      var savedEntries, savedNextId := entries, nextId;
      var count: nat := queued;
      var i := 0;
      while i < |listing| && count < limit
        invariant 0 <= i <= |listing|
        invariant Valid() && clock == now && State() == before.(entries := entries, nextId := nextId)
        invariant forall k | 0 <= k < |listing[i..]| :: listing[i..][k] in State().edits
        invariant BackfillAll(State(), listing[i..], count, limit, derive, now) == BackfillAll(before, listing, queued, limit, derive, now)
      {
        var recordId := listing[i];
        assert listing[i..][0] == recordId && listing[i..][1..] == listing[i + 1..];
        if VersionOf(State(), recordId) == 0 {
          var one := BackfillOne(State(), recordId, derive(recordId), count, now);
          if one.BackfillRefused? {
            entries, nextId := savedEntries, savedNextId;
            return BackfillRefused;
          }
          BackfillOneKeepsValid(State(), recordId, derive(recordId), count, now);
          entries, nextId := one.state.entries, one.state.nextId;
          count := one.queued;
          assert State() == one.state;
        }
        i := i + 1;
      }
      outcome := Backfilled(State(), count, i < |listing|);
    }

    /** The due query. */
    method DueEntries(now: Time, limit: int, eligible: Entry -> bool) returns (due: seq<int>)
      requires 0 <= limit
      ensures IsDue(State(), due, now, limit, eligible)
    {
      hide Claimable;
      due := [];
      var i := 0;
      while i < |entries| && |due| < limit
        invariant 0 <= i <= |entries| && |due| <= limit
        invariant Ascending(due, i)
        invariant forall k | 0 <= k < |due| :: Claimable(State(), due[k], now, eligible)
        invariant forall j | 0 <= j < i && Claimable(State(), j, now, eligible) :: j in due
      {
        if Claimable(State(), i, now, eligible) {
          due := due + [i];
        }
        i := i + 1;
      }
    }

    /** The filter behind the due query: None refuses the whole round. */
    method ReadyEntries(due: seq<int>, projectOf: string -> Option<string>) returns (ready: Option<seq<int>>)
      requires forall k | 0 <= k < |due| :: 0 <= due[k] < |entries|
      ensures ready == if AllReady(State(), due, projectOf) then Some(ReadyOf(State(), due, projectOf)) else None
    {
      hide Ready;
      var taken: seq<int> := [];
      var k := 0;
      while k < |due|
        invariant 0 <= k <= |due|
        invariant taken == ReadyOf(State(), due[..k], projectOf)
        invariant forall j | 0 <= j < k :: Ready(State(), entries[due[j]], projectOf).Some?
      {
        assert due[..k + 1][..k] == due[..k];
        var available := Ready(State(), entries[due[k]], projectOf);
        if available.None? {
          return None;
        }
        if available.value {
          taken := taken + [due[k]];
        }
        k := k + 1;
      }
      assert due[..|due|] == due;
      ready := Some(taken);
    }

    /**
     Leases the ready ones of the due entries, each under a token of its own from the UUID generator.
     Nothing else is touched, and nothing under a live lease. due is what the query answered.
     */
    method ClaimDue(now: Time, lease: int, limit: int, tokens: seq<string>, eligible: Entry -> bool, projectOf: string -> Option<string>)
      returns (ok: bool, due: seq<int>, claimed: seq<string>)
      requires Valid() && TokensIssued() && clock <= now
      requires limit <= |tokens| && forall k | 0 <= k < |tokens| :: tokens[k] !in issued
      requires forall j, k | 0 <= j < k < |tokens| :: tokens[j] != tokens[k]
      modifies this`claims, this`clock, this`issued
      ensures Valid() && TokensIssued() && clock == now
      ensures LeaseInRange(lease, limit) ==> IsDue(old(State()), due, now, limit, eligible)
      ensures ok <==> LeaseInRange(lease, limit) && AllReady(old(State()), due, projectOf)
      ensures LeaseInRange(lease, limit) ==>
        (ok <==> forall k | 0 <= k < |due| :: 0 <= due[k] < |entries| && !Hopeless(old(State()), entries[due[k]], projectOf))
      ensures ok ==> ClaimedExactly(old(State()), due, claimed, projectOf)
      ensures ok ==> claimed == IdsOf(old(State()), ReadyOf(old(State()), due, projectOf))
      ensures ok ==> LeasedOut(old(claims), claims, claimed, tokens, now, now + lease)
      ensures !ok ==> claims == old(claims) && claimed == []
      ensures ClaimsMove(old(claims), claims, old(issued)) && old(issued) <= issued
    {
      hide QueueValid, Claimable, ClaimsMove, LeasedOut, Ascending, TokensKnown, TokenSet, Ready, AllReady, ReadyOf, IdsOf, IsDue, Hopeless, ClaimedExactly, InOrder, DistinctMutations,
        ClaimsPlaced, ReceiptsFinal;
      ghost var before := State();
      ClockMayAdvance(State(), clock, now);
      due, claimed := [], [];
      TokensLater(claims, issued, clock, now);
      SameClaims(claims, issued);
      if !LeaseInRange(lease, limit) {
        clock := now;
        return false, [], [];
      }
      due := DueEntries(now, limit, eligible);
      DueInRange(before, due, now, limit, eligible);
      HopelessExactly(before, due, projectOf);
      QueueParts(before, clock);
      var ready := ReadyEntries(due, projectOf);
      if ready.None? {
        clock := now;
        return false, due, [];
      }
      ReadyIsDue(before, due, now, limit, eligible, projectOf, clock);
      ReadyAreClaimed(before, due, projectOf);
      claimed := LeaseAll(ready.value, tokens, now, now + lease, eligible);
      LeasingKeepsValid(before, State(), ready.value, claimed, tokens, issued, clock, now, now + lease, eligible);
      issued := issued + TokenSet(tokens);
      clock := now;
      ok := true;
    }

    /** INSERT ... ON CONFLICT DO UPDATE for each ready entry. */
    method LeaseAll(ready: seq<int>, tokens: seq<string>, now: Time, until: Time, eligible: Entry -> bool) returns (claimed: seq<string>)
      requires |ready| <= |tokens| && AllClaimable(State(), ready, now, eligible) && AllDifferent(State(), ready)
      modifies this`claims
      ensures AllClaimable(old(State()), ready, now, eligible) && claimed == IdsOf(old(State()), ready)
      ensures LeasedOut(old(claims), claims, claimed, tokens, now, until)
    {
      hide First, Claimable, TakenOver, Leased;
      claimed := [];
      ghost var before := State();
      var k := 0;
      while k < |ready|
        invariant 0 <= k <= |ready| && |claimed| == k
        invariant forall j | 0 <= j < k :: claimed[j] == MutationIdOf(entries[ready[j]])
        invariant LeasedOut(before.claims, claims, claimed, tokens, now, until)
      {
        var m := MutationIdOf(entries[ready[k]]);
        Expired(before, ready[k], now, eligible);
        LeasedNext(before.claims, claims, claimed, tokens, m, now, until);
        claims := Leased(claims, m, tokens[k], now, until);
        claimed := claimed + [m];
        k := k + 1;
      }
    }

    /** Extends a lease that has not run out, without touching its proof. */
    method RenewClaim(mutationId: string, token: string, lease: int, now: Time) returns (ok: bool)
      requires Valid() && TokensIssued() && clock <= now
      modifies this`claims, this`clock
      ensures Valid() && TokensIssued() && clock == now
      ensures ok <==>
        && IsCanonicalUuid(mutationId) && IsCanonicalUuid(token) && SECOND <= lease <= MAX_LEASE
        && mutationId in old(claims) && old(claims)[mutationId].token == token
        && old(claims)[mutationId].claimedAt <= now < old(claims)[mutationId].leaseUntil < now + lease
      ensures claims == if ok then old(claims)[mutationId := old(claims)[mutationId].(leaseUntil := now + lease)] else old(claims)
      ensures ClaimsMove(old(claims), claims, issued)
    {
      hide QueueValid, IsCanonicalUuid;
      ClockMayAdvance(State(), clock, now);
      clock := now;
      if !IsCanonicalUuid(mutationId) || !IsCanonicalUuid(token) || lease < SECOND || lease > MAX_LEASE {
        return false;
      }
      if !Holds(State(), mutationId, token, now) || claims[mutationId].leaseUntil >= now + lease {
        return false;
      }
      LeaseMoves(State(), mutationId, now + lease, clock);
      claims := claims[mutationId := claims[mutationId].(leaseUntil := now + lease)];
      ok := true;
    }

    /** Puts a leased entry back for later and gives up its lease. */
    method MarkRetry(mutationId: string, token: string, next: Time, code: ResultCode, now: Time) returns (ok: bool)
      requires Valid() && TokensIssued() && clock <= now
      modifies this`entries, this`claims, this`clock
      ensures Valid() && TokensIssued() && clock == now
      ensures ok <==>
        && IsCanonicalUuid(mutationId) && IsCanonicalUuid(token) && StorableCode(code) && now <= next
        && mutationId in old(claims) && old(claims)[mutationId].token == token
        && old(claims)[mutationId].claimedAt <= now < old(claims)[mutationId].leaseUntil
      ensures State() == if ok then Postponed(old(State()), mutationId, next, code, now) else old(State())
      ensures ClaimsMove(old(claims), claims, issued)
    {
      hide QueueValid, ClaimsPlaced, First, IsCanonicalUuid, StorableCode, Holds, Queued, TokensKnown, ClaimsMove, Postponed;
      ClockMayAdvance(State(), clock, now);
      TokensLater(claims, issued, clock, now);
      SameClaims(claims, issued);
      HoldsIs(State(), mutationId, token, now);
      clock := now;
      if !IsCanonicalUuid(mutationId) || !IsCanonicalUuid(token) || !StorableCode(code) || next < now {
        return false;
      }
      if !Holds(State(), mutationId, token, now) {
        return false;
      }
      QueueParts(State(), clock);
      HoldsQueued(State(), mutationId, token, now);
      var i := IndexOf(mutationId);
      PostponedAt(State(), i, next, code, clock);
      PostponedMoves(State(), mutationId, next, code, issued, clock);
      entries := entries[i := Retrying(entries[i], next, code)];
      claims := claims[mutationId := claims[mutationId].(leaseUntil := now)];
      ok := true;
    }

    /** The entry of a queued mutation, and where a claim has it: first in line for its record. */
    method IndexOf(mutationId: string) returns (i: int)
      requires Queued(State(), mutationId)
      ensures 0 <= i < |entries| && MutationIdOf(entries[i]) == mutationId
      ensures ClaimsPlaced(State()) && mutationId in claims ==> First(State(), i)
    {
      i := 0;
      while MutationIdOf(entries[i]) != mutationId
        invariant 0 <= i < |entries|
        invariant exists k :: i <= k < |entries| && MutationIdOf(entries[k]) == mutationId
        decreases |entries| - i
      {
        i := i + 1;
      }
    }

    /**
     Completes only the entry whose unexpired token is presented: receipt, version and
     coalescing commit together. A repeated result is recognised by its receipt.
     */
    method ApplyPushResult(mutationId: string, token: string, result: Result, now: Time) returns (outcome: Completion)
      requires Valid() && TokensIssued() && clock <= now
      modifies this`entries, this`claims, this`receipts, this`versions, this`clock
      ensures Valid() && TokensIssued() && clock == now
      ensures outcome == Invalid <==> !ResultReadable(mutationId, token, result)
      ensures outcome == Retried <==>
        ResultReadable(mutationId, token, result) && Retryable(result) && old(Holds(State(), mutationId, token, now))
      ensures outcome == Replayed <==>
        && ResultReadable(mutationId, token, result) && !Retryable(result) && !old(Queued(State(), mutationId))
        && mutationId in old(receipts) && old(receipts)[mutationId].result == result
      ensures outcome == ReceiptConflict <==>
        && ResultReadable(mutationId, token, result) && !Retryable(result) && !old(Queued(State(), mutationId))
        && mutationId in old(receipts) && old(receipts)[mutationId].result != result
      ensures outcome == Recorded <==>
        && ResultReadable(mutationId, token, result) && !Retryable(result) && old(Holds(State(), mutationId, token, now))
        && old(TakesResult(State(), mutationId, result)) && !SequenceTaken(old(receipts), result.sequence)
      ensures outcome == Refused <==>
        && ResultReadable(mutationId, token, result) && !Retryable(result) && old(Holds(State(), mutationId, token, now))
        && !(old(TakesResult(State(), mutationId, result)) && !SequenceTaken(old(receipts), result.sequence))
      ensures outcome == Retried || outcome == Recorded || outcome == Refused ==>
        && mutationId in old(claims) && old(claims)[mutationId].token == token
        && old(claims)[mutationId].claimedAt <= now < old(claims)[mutationId].leaseUntil
      ensures outcome == NotClaimed ==>
        !(mutationId in old(claims) && old(claims)[mutationId].token == token
          && old(claims)[mutationId].claimedAt <= now < old(claims)[mutationId].leaseUntil)
      ensures outcome == Recorded ==>
        exists i :: 0 <= i < |old(entries)| && MutationIdOf(old(entries)[i]) == mutationId && old(First(State(), i))
          && State() == Completed(old(State()), old(entries)[i], result)
      ensures outcome != Recorded && outcome != Retried ==> State() == old(State())
      ensures outcome == Retried ==> State() == Postponed(old(State()), mutationId, now, result.code, now)
      ensures ClaimsMove(old(claims), claims, issued) && ReceiptsGrow(old(State()), State())
    {
      hide QueueValid, ClaimsPlaced, ReceiptsFinal, Coalesced, WithoutEntry, First, Completed, ClaimsMove, ReceiptsGrow, TokensKnown, Holds,
        Recordable, IsCanonicalUuid, StorableCode, Queued, SequenceTaken, TakesResult, Postponed, ResultReadable, Retryable;
      RetriedIsStorable(mutationId, token, result);
      ghost var before := State();
      ClockMayAdvance(State(), clock, now);
      TokensLater(claims, issued, clock, now);
      SameClaims(claims, issued);
      QueueParts(State(), now);
      RetriedStaysFinal(before, State());
      HoldsQueued(before, mutationId, token, now);
      HoldsIs(before, mutationId, token, now);
      if !ResultReadable(mutationId, token, result) {
        clock := now;
        return Invalid;
      }
      if Retryable(result) {
        var retried := MarkRetry(mutationId, token, now, result.code, now);
        QueueParts(State(), now);
        RetriedStaysFinal(before, State());
        return if retried then Retried else NotClaimed;
      }
      clock := now;
      if !Queued(State(), mutationId) {
        if mutationId in receipts {
          return if receipts[mutationId].result == result then Replayed else ReceiptConflict;
        }
        return NotClaimed;
      }
      if !Holds(State(), mutationId, token, now) {
        return NotClaimed;
      }
      var i := IndexOf(mutationId);
      OneTakesResult(before, i, result, now);
      var e := entries[i];
      if !Recordable(State(), e, result) || SequenceTaken(receipts, result.sequence) {
        return Refused;
      }
      CompletionKeepsValid(State(), i, result, clock);
      CompletionIsFinal(State(), i, result, issued, clock);
      var u := Completed(State(), e, result);
      CompletedRest(State(), e, result);
      TokensFewer(claims, issued, clock, mutationId);
      entries, claims, receipts, versions := u.entries, u.claims, u.receipts, u.versions;
      assert State() == u;
      outcome := Recorded;
    }
  }

  lemma RetriedIsStorable(mutationId: string, token: string, result: Result)
    ensures ResultReadable(mutationId, token, result) && Retryable(result) ==>
      IsCanonicalUuid(mutationId) && IsCanonicalUuid(token) && StorableCode(result.code)
  {
    hide IsCanonicalUuid, StorableCode;
  }

  /** Whoever presents the token of the lease that runs holds the entry. */
  lemma HoldsIs(q: Queue, mutationId: string, token: string, now: Time)
    ensures Holds(q, mutationId, token, now) <==>
      && mutationId in q.claims && q.claims[mutationId].token == token
      && q.claims[mutationId].claimedAt <= now < q.claims[mutationId].leaseUntil
  {
  }

  /** A claim is on a queued entry, the first in line for its record. */
  lemma HoldsQueued(q: Queue, mutationId: string, token: string, now: Time)
    requires ClaimsPlaced(q)
    ensures Holds(q, mutationId, token, now) ==> mutationId in q.claims && Queued(q, mutationId)
  {
    hide First, Queued;
  }

  lemma OneTakesResult(q: Queue, i: int, result: Result, clock: Time)
    requires QueueValid(q, clock) && 0 <= i < |q.entries|
    ensures TakesResult(q, MutationIdOf(q.entries[i]), result) <==> Recordable(q, q.entries[i], result)
    ensures Queued(q, MutationIdOf(q.entries[i])) && MutationIdOf(q.entries[i]) !in q.receipts
  {
    hide QueueValid, Recordable, ClaimsPlaced;
    UniqueEntry(q, i, clock);
    QueueParts(q, clock);
    NotReceipted(q, i);
  }

  lemma {:induction false} ReadyAscends(q: Queue, due: seq<int>, projectOf: string -> Option<string>)
    requires Ascending(due, |q.entries|)
    ensures forall k | 0 <= k < |due| :: 0 <= due[k] < |q.entries|
    ensures Ascending(ReadyOf(q, due, projectOf), |q.entries|)
    decreases |due|
  {
    hide Ready;
    if due != [] {
      var n := |due| - 1;
      ReadyAscends(q, due[..n], projectOf);
      var ready := ReadyOf(q, due[..n], projectOf);
      forall k | 0 <= k < |ready| ensures ready[k] < due[n] {
        assert ready[k] in due[..n];
      }
    }
  }

  lemma DueInRange(q: Queue, due: seq<int>, now: Time, limit: int, eligible: Entry -> bool)
    requires IsDue(q, due, now, limit, eligible)
    ensures forall k | 0 <= k < |due| :: 0 <= due[k] < |q.entries|
  {
    hide Claimable;
  }

  /** What is leased of the due entries is in order, claimable and all different. */
  lemma ReadyIsDue(q: Queue, due: seq<int>, now: Time, limit: int, eligible: Entry -> bool, projectOf: string -> Option<string>, clock: Time)
    requires QueueValid(q, clock) && IsDue(q, due, now, limit, eligible) && AllReady(q, due, projectOf)
    ensures var ready := ReadyOf(q, due, projectOf);
            && |ready| <= limit && Ascending(ready, |q.entries|)
            && AllClaimable(q, ready, now, eligible) && AllDifferent(q, ready)
  {
    hide Claimable, Ready, QueueValid, Ascending;
    var ready := ReadyOf(q, due, projectOf);
    ReadyAscends(q, due, projectOf);
    forall k | 0 <= k < |ready| ensures 0 <= ready[k] < |q.entries| && Claimable(q, ready[k], now, eligible) {
      assert ready[k] in ready && ready[k] in due;
    }
    DueAreDistinct(q, ready, clock);
  }

  lemma IdsNotEmpty(q: Queue, clock: Time)
    requires EntriesValid(q, clock)
    ensures forall i | 0 <= i < |q.entries| :: MutationIdOf(q.entries[i]) != ""
  {
    hide ValidateMutation, Lower, EntryCurrent, InOrder, DistinctMutations;
    forall i | 0 <= i < |q.entries| ensures MutationIdOf(q.entries[i]) != "" {
      assert Queueable(q.entries[i].mutation);
    }
  }

  /** The entries that a rebase leaves, by their old index. */
  lemma RebasedIndices(q: Queue, recordId: string, version: int, clock: Time) returns (idx: seq<int>)
    requires EntriesValid(q, clock)
    ensures var u := RebasedPending(q, recordId, version);
            && Thinned(q.entries, u.entries, idx)
            && (forall k | 0 <= k < |idx| ::
                  && u.entries[k] == Settled(q.entries[idx[k]], recordId, version)
                  && (q.entries[idx[k]].mutation.recordId == recordId ==> Newest(q, idx[k])))
            && (forall j | 0 <= j < |q.entries| && (q.entries[j].mutation.recordId != recordId || Newest(q, j)) :: j in idx)
  {
    hide InOrder, NewestIn, EntryCurrent, Queueable, DistinctMutations;
    IdsNotEmpty(q, clock);
    idx := CoalescedIndices(q.entries, recordId, "", version, 0);
    forall j | 0 <= j < |q.entries| && (q.entries[j].mutation.recordId != recordId || Newest(q, j)) ensures j in idx {
      assert Survives(q.entries, recordId, "", j);
    }
  }

  lemma RebasedPendingEntries(q: Queue, recordId: string, version: int, clock: Time)
    requires EntriesValid(q, clock) && 1 <= version && VersionOf(q, recordId) <= version
    ensures EntriesValid(RebasedPending(q, recordId, version), clock)
  {
    hide Queueable, SnapshotMutation, InOrder, DistinctMutations, Thinned, NewestIn, RebasedPending;
    var u := RebasedPending(q, recordId, version);
    RebasedPendingRest(q, recordId, version);
    var idx := RebasedIndices(q, recordId, version, clock);
    ThinnedKeepsOrder(q.entries, u.entries, idx);
    forall k | 0 <= k < |u.entries|
      ensures EntryCurrent(u, u.entries[k]) && Queueable(u.entries[k].mutation)
      ensures u.entries[k].id < u.nextId && u.entries[k].createdAt <= clock
    {
      ThinnedAt(q.entries, u.entries, idx, k);
      var e := q.entries[idx[k]];
      assert EntryCurrent(q, e);
      SnapshotFields(MutationIdOf(e), e.mutation.observation.value, e.mutation.baseVersion);
      if e.mutation.recordId == recordId {
        SnapshotFields(MutationIdOf(e), e.mutation.observation.value, version);
        RebasedIsValid(MutationIdOf(e), e.mutation.observation.value, e.mutation.baseVersion, version);
      }
    }
  }

  lemma RebasedPendingRest(q: Queue, recordId: string, version: int)
    ensures var u := RebasedPending(q, recordId, version);
            && u == q.(entries := u.entries, claims := u.claims, versions := q.versions[recordId := version])
            && forall m | m in u.claims :: m in q.claims && u.claims[m] == q.claims[m] && Queued(u, m)
  {
    hide Coalesced, Queued;
    var v := q.(entries := Coalesced(q.entries, recordId, "", version), versions := q.versions[recordId := version]);
    SameQueue(v, RebasedPending(q, recordId, version));
  }

  lemma RebasedPendingClaims(q: Queue, recordId: string, version: int, clock: Time)
    requires EntriesValid(q, clock) && ClaimsPlaced(q) && ReceiptsFinal(q)
    ensures ClaimsPlaced(RebasedPending(q, recordId, version)) && ReceiptsFinal(RebasedPending(q, recordId, version))
  {
    hide First, InOrder, Thinned, NewestIn, Settled, RebasedPending, EntriesValid;
    var u := RebasedPending(q, recordId, version);
    RebasedPendingRest(q, recordId, version);
    var idx := RebasedIndices(q, recordId, version, clock);
    ThinnedLength(q.entries, u.entries, idx);
    forall k | 0 <= k < |u.entries| && MutationIdOf(u.entries[k]) in u.claims ensures First(u, k) {
      ThinnedAt(q.entries, u.entries, idx, k);
      ThinnedKeepsFirst(q, u, idx, k);
    }
    forall m | m in u.receipts ensures !Queued(u, m) {
      NotQueued(q, m);
      forall k | 0 <= k < |u.entries| ensures MutationIdOf(u.entries[k]) != m {
        ThinnedAt(q.entries, u.entries, idx, k);
      }
    }
  }

  /** Landing a conflict or a resolution keeps the queue valid. */
  lemma RebasePendingKeepsValid(q: Queue, recordId: string, version: int, clock: Time)
    requires QueueValid(q, clock) && 1 <= version && VersionOf(q, recordId) <= version
    ensures QueueValid(RebasedPending(q, recordId, version), clock)
  {
    hide EntriesValid, ClaimsPlaced, ReceiptsFinal, RebasedPending;
    RebasedPendingRest(q, recordId, version);
    RebasedPendingEntries(q, recordId, version, clock);
    RebasedPendingClaims(q, recordId, version, clock);
  }

  lemma RebasePendingIsFinal(q: Queue, recordId: string, version: int, issued: set<string>, clock: Time)
    requires QueueValid(q, clock) && 1 <= version && VersionOf(q, recordId) <= version
    requires TokensKnown(q.claims, issued, clock)
    ensures var u := RebasedPending(q, recordId, version);
            ClaimsMove(q.claims, u.claims, issued) && ReceiptsGrow(q, u) && TokensKnown(u.claims, issued, clock)
  {
    hide QueueValid, ClaimsPlaced, RebasedPending, Queued;
    RebasePendingKeepsValid(q, recordId, version, clock);
    RebasedPendingRest(q, recordId, version);
    QueueParts(q, clock);
    QueueParts(RebasedPending(q, recordId, version), clock);
  }

  /** After it there is one entry of the record at most: its newest edit, on the version. */
  lemma OnePendingLeft(q: Queue, recordId: string, version: int, clock: Time)
    requires QueueValid(q, clock) && 1 <= version
    ensures var u := RebasedPending(q, recordId, version);
            && (forall j, k | 0 <= j < |u.entries| && 0 <= k < |u.entries|
                  && u.entries[j].mutation.recordId == recordId && u.entries[k].mutation.recordId == recordId :: j == k)
            && (forall k | 0 <= k < |u.entries| && u.entries[k].mutation.recordId == recordId ::
                  exists j :: 0 <= j < |q.entries| && Newest(q, j) && FollowerOf(q.entries[j], u.entries[k], version))
  {
    hide Queueable, ClaimsPlaced, ReceiptsFinal, First, InOrder, DistinctMutations, SnapshotMutation, RebasedPending;
    var u := RebasedPending(q, recordId, version);
    var idx := RebasedIndices(q, recordId, version, clock);
    forall j, k | 0 <= j < |u.entries| && 0 <= k < |u.entries|
                  && u.entries[j].mutation.recordId == recordId && u.entries[k].mutation.recordId == recordId
      ensures j == k
    {
      ThinnedAt(q.entries, u.entries, idx, j);
      ThinnedAt(q.entries, u.entries, idx, k);
      assert Newest(q, idx[j]) && Newest(q, idx[k]);
    }
    forall k | 0 <= k < |u.entries| && u.entries[k].mutation.recordId == recordId
      ensures exists j :: 0 <= j < |q.entries| && Newest(q, j) && FollowerOf(q.entries[j], u.entries[k], version)
    {
      ThinnedAt(q.entries, u.entries, idx, k);
      var e := q.entries[idx[k]];
      assert EntryCurrent(q, e) && Newest(q, idx[k]);
      SnapshotFields(MutationIdOf(e), e.mutation.observation.value, e.mutation.baseVersion);
      RebasedIsValid(MutationIdOf(e), e.mutation.observation.value, e.mutation.baseVersion, version);
    }
  }

  // --------------------------------------------------------------- backfill

  lemma BackfillOneKeepsValid(q: Queue, recordId: string, derived: string, queued: nat, now: Time)
    requires QueueValid(q, now) && recordId in q.edits && VersionOf(q, recordId) == 0
    requires BackfillOne(q, recordId, derived, queued, now).Backfilled?
    ensures var u := BackfillOne(q, recordId, derived, queued, now).state;
            && QueueValid(u, now) && u == q.(entries := u.entries, nextId := u.nextId)
  {
    hide EntriesValid, ClaimsPlaced, ReceiptsFinal, Queueable, SnapshotMutation;
    var o := q.edits[recordId];
    var at := FirstCreate(q.entries, recordId, 0);
    if at.None? {
      EnqueueKeepsValid(q, o, derived, now, now);
    } else {
      SnapshotFields(MutationIdOf(q.entries[at.value]), o, 0);
      RepairKeepsValid(q, at.value, SnapshotMutation(MutationIdOf(q.entries[at.value]), o, 0), now);
    }
  }

  lemma RepairKeepsValid(q: Queue, i: int, m: Mutation, clock: Time)
    requires QueueValid(q, clock) && 0 <= i < |q.entries| && Queueable(m) && m.observation.Some?
    requires m == SnapshotMutation(MutationIdOf(q.entries[i]), m.observation.value, 0)
    requires m.recordId == q.entries[i].mutation.recordId
    ensures QueueValid(q.(entries := q.entries[i := q.entries[i].(mutation := m)]), clock)
  {
    hide EntriesValid, First, Queued, Queueable, SnapshotMutation;
    var u := q.(entries := q.entries[i := q.entries[i].(mutation := m)]);
    SnapshotFields(MutationIdOf(q.entries[i]), m.observation.value, 0);
    SameLine(q, u);
    RepairKeepsEntries(q, i, m, clock);
  }

  lemma RepairKeepsEntries(q: Queue, i: int, m: Mutation, clock: Time)
    requires EntriesValid(q, clock) && 0 <= i < |q.entries| && Queueable(m) && m.observation.Some?
    requires m == SnapshotMutation(MutationIdOf(q.entries[i]), m.observation.value, 0)
    requires m.recordId == q.entries[i].mutation.recordId
    ensures EntriesValid(q.(entries := q.entries[i := q.entries[i].(mutation := m)]), clock)
  {
    hide Queueable;
    var u := q.(entries := q.entries[i := q.entries[i].(mutation := m)]);
    forall k | 0 <= k < |u.entries| ensures EntryCurrent(u, u.entries[k]) && Queueable(u.entries[k].mutation) {
      assert EntryCurrent(q, q.entries[k]) && EntryCurrent(q, q.entries[i]);
    }
  }

  lemma QueueParts(q: Queue, clock: Time)
    requires QueueValid(q, clock)
    ensures ClaimsPlaced(q) && ReceiptsFinal(q) && InOrder(q.entries) && DistinctMutations(q.entries)
  {
    hide ClaimsPlaced, ReceiptsFinal, InOrder, DistinctMutations, EntryCurrent;
  }

  lemma CompletedRest(q: Queue, e: Entry, result: Result)
    ensures var u := Completed(q, e, result); u.profile == q.profile && u.edits == q.edits && u.nextId == q.nextId
    ensures Completed(q, e, result).claims == q.claims - {MutationIdOf(e)}
  {
    hide Coalesced, WithoutEntry;
  }

  /** A completion ends the claim and writes the only receipt its mutation will have. */
  lemma CompletionIsFinal(q: Queue, i: int, result: Result, issued: set<string>, clock: Time)
    requires QueueValid(q, clock) && 0 <= i < |q.entries| && First(q, i) && Recordable(q, q.entries[i], result)
    ensures var u := Completed(q, q.entries[i], result);
            ClaimsMove(q.claims, u.claims, issued) && ReceiptsGrow(q, u)
  {
    hide QueueValid, ClaimsPlaced, Coalesced, WithoutEntry, First, Recordable, Queued;
    CompletionKeepsValid(q, i, result, clock);
    QueueParts(q, clock);
    NotReceipted(q, i);
    QueueParts(Completed(q, q.entries[i], result), clock);
  }

  lemma ClockMayAdvance(q: Queue, clock: Time, now: Time)
    requires QueueValid(q, clock) && clock <= now
    ensures QueueValid(q, now)
  {
  }

  function Pulled(q: Queue, recordId: string, version: int): Queue {
    q.(versions := q.versions[recordId := version])
  }

  lemma PullKeepsEntries(q: Queue, recordId: string, version: int, clock: Time)
    requires EntriesValid(q, clock) && forall i | 0 <= i < |q.entries| :: q.entries[i].mutation.recordId != recordId
    ensures EntriesValid(Pulled(q, recordId, version), clock)
  {
    hide Queueable, SnapshotMutation, InOrder, DistinctMutations;
    var u := Pulled(q, recordId, version);
    forall i | 0 <= i < |u.entries| ensures EntryCurrent(u, u.entries[i]) {
      assert EntryCurrent(q, q.entries[i]);
    }
  }

  lemma SameQueue(q: Queue, u: Queue)
    requires u.entries == q.entries
    ensures forall i | 0 <= i < |q.entries| :: First(q, i) == First(u, i)
    ensures forall m :: Queued(q, m) == Queued(u, m)
  {
  }

  lemma PullKeepsValid(q: Queue, recordId: string, version: int, clock: Time)
    requires QueueValid(q, clock) && 0 <= version && forall i | 0 <= i < |q.entries| :: q.entries[i].mutation.recordId != recordId
    ensures QueueValid(Pulled(q, recordId, version), clock)
  {
    hide EntriesValid, First, Queued;
    PullKeepsEntries(q, recordId, version, clock);
    SameQueue(q, Pulled(q, recordId, version));
  }

  function Retrying(e: Entry, next: Time, code: ResultCode): Entry {
    e.(attempts := e.attempts + 1, nextAttempt := next, code := code)
  }

  /** The state after a retry: the entry waits, its lease is over, its claim stays on record. */
  function Postponed(q: Queue, mutationId: string, next: Time, code: ResultCode, now: Time): Queue {
    q.(entries := seq(|q.entries|, i requires 0 <= i < |q.entries| =>
                        if MutationIdOf(q.entries[i]) == mutationId then Retrying(q.entries[i], next, code) else q.entries[i]),
       claims := if mutationId in q.claims then q.claims[mutationId := q.claims[mutationId].(leaseUntil := now)] else q.claims)
  }

  lemma PostponedAt(q: Queue, i: int, next: Time, code: ResultCode, clock: Time)
    requires QueueValid(q, clock) && 0 <= i < |q.entries|
    ensures Postponed(q, MutationIdOf(q.entries[i]), next, code, clock).entries == q.entries[i := Retrying(q.entries[i], next, code)]
  {
    hide QueueValid;
    UniqueEntry(q, i, clock);
  }

  lemma PostponedKeepsValid(q: Queue, mutationId: string, next: Time, code: ResultCode, now: Time)
    requires QueueValid(q, now) && mutationId in q.claims && q.claims[mutationId].claimedAt <= now
    ensures var u := Postponed(q, mutationId, next, code, now);
            && QueueValid(u, now)
            && u == q.(entries := u.entries, claims := q.claims[mutationId := q.claims[mutationId].(leaseUntil := now)])
  {
    hide QueueValid, First;
    QueueParts(q, now);
    var i :| 0 <= i < |q.entries| && MutationIdOf(q.entries[i]) == mutationId;
    PostponedAt(q, i, next, code, now);
    RetryKeepsValid(q, i, next, code, now);
    LeaseMoves(q.(entries := q.entries[i := Retrying(q.entries[i], next, code)]), mutationId, now, now);
  }

  lemma PostponedMoves(q: Queue, mutationId: string, next: Time, code: ResultCode, issued: set<string>, now: Time)
    requires QueueValid(q, now) && mutationId in q.claims && TokensKnown(q.claims, issued, now)
    ensures var u := Postponed(q, mutationId, next, code, now);
            && QueueValid(u, now) && TokensKnown(u.claims, issued, now) && ClaimsMove(q.claims, u.claims, issued)
            && u == q.(entries := u.entries, claims := q.claims[mutationId := q.claims[mutationId].(leaseUntil := now)])
  {
    hide QueueValid, Postponed;
    PostponedKeepsValid(q, mutationId, next, code, now);
  }

  lemma DueAreDistinct(q: Queue, due: seq<int>, clock: Time)
    requires QueueValid(q, clock) && Ascending(due, |q.entries|)
    ensures AllDifferent(q, due)
  {
    hide Queueable, ClaimsPlaced, ReceiptsFinal, EntryCurrent;
  }

  lemma ClaimedArePlaced(q: Queue, u: Queue, ready: seq<int>, claimed: seq<string>, now: Time, eligible: Entry -> bool)
    requires ClaimsPlaced(q) && u == q.(claims := u.claims) && AllClaimable(q, ready, now, eligible) && claimed == IdsOf(q, ready)
    requires DistinctMutations(q.entries)
    requires forall m | m in u.claims && m !in claimed :: m in q.claims && u.claims[m] == q.claims[m]
    requires forall m | m in u.claims && m in claimed :: u.claims[m].firstClaimedAt <= u.claims[m].claimedAt <= u.claims[m].leaseUntil
    ensures ClaimsPlaced(u)
  {
    hide First, Queued;
    SameQueue(q, u);
    forall i | 0 <= i < |u.entries| && MutationIdOf(u.entries[i]) in u.claims ensures First(u, i) {
      if MutationIdOf(u.entries[i]) in claimed {
        var k :| 0 <= k < |claimed| && claimed[k] == MutationIdOf(u.entries[i]);
        assert ready[k] == i;
      }
    }
    forall m | m in u.claims ensures Queued(u, m) {
      if m in claimed {
        var k :| 0 <= k < |claimed| && claimed[k] == m;
        IsQueued(q, ready[k]);
      }
    }
  }

  /** A round of leasing: the queue stays valid, and the claims move as fencing asks. */
  lemma LeasingKeepsValid(q: Queue, u: Queue, ready: seq<int>, claimed: seq<string>, tokens: seq<string>, issued: set<string>,
                          clock: Time, now: Time, until: Time, eligible: Entry -> bool)
    requires QueueValid(q, clock) && u == q.(claims := u.claims) && clock <= now < until
    requires forall k | 0 <= k < |tokens| :: tokens[k] !in issued
    requires AllClaimable(q, ready, now, eligible) && claimed == IdsOf(q, ready)
    requires LeasedOut(q.claims, u.claims, claimed, tokens, now, until)
    requires TokensKnown(q.claims, issued, clock)
    ensures QueueValid(u, now) && ClaimsMove(q.claims, u.claims, issued) && TokensKnown(u.claims, issued + TokenSet(tokens), now)
  {
    hide QueueValid, ClaimsPlaced, ReceiptsFinal, InOrder, DistinctMutations, Claimable, ClaimsMove, TakenOver, First, AllClaimable, IdsOf;
    QueueParts(q, clock);
    ClaimTimes(q);
    TakeoverMoves(q.claims, u.claims, claimed, tokens, issued, clock, now, until);
    ClaimedArePlaced(q, u, ready, claimed, now, eligible);
    ClaimedKeepValid(q, u, clock, now);
  }

  lemma TokensLater(claims: map<string, Claim>, issued: set<string>, clock: Time, now: Time)
    requires TokensKnown(claims, issued, clock) && clock <= now
    ensures TokensKnown(claims, issued, now)
  {
  }

  lemma TokensFewer(claims: map<string, Claim>, issued: set<string>, clock: Time, mutationId: string)
    requires TokensKnown(claims, issued, clock)
    ensures TokensKnown(claims - {mutationId}, issued, clock)
  {
  }

  lemma SameClaims(claims: map<string, Claim>, issued: set<string>)
    ensures ClaimsMove(claims, claims, issued)
  {
  }

  lemma ClaimTimes(q: Queue)
    requires ClaimsPlaced(q)
    ensures forall m | m in q.claims :: q.claims[m].firstClaimedAt <= q.claims[m].claimedAt <= q.claims[m].leaseUntil
  {
  }

  lemma TakeoverMoves(before: map<string, Claim>, after: map<string, Claim>, claimed: seq<string>, tokens: seq<string>,
                      issued: set<string>, clock: Time, now: Time, until: Time)
    requires |claimed| <= |tokens| && clock <= now < until
    requires forall k | 0 <= k < |tokens| :: tokens[k] !in issued
    requires forall k | 0 <= k < |claimed| :: TakenOver(before, after, claimed[k], tokens[k], now, until)
    requires forall m | m !in claimed :: (m in after <==> m in before) && (m in after ==> after[m] == before[m])
    requires forall m | m in before :: before[m].token in issued && before[m].claimedAt <= clock
    requires forall m | m in before :: before[m].firstClaimedAt <= before[m].claimedAt <= before[m].leaseUntil
    ensures ClaimsMove(before, after, issued)
    ensures forall m | m in after :: after[m].firstClaimedAt <= after[m].claimedAt <= after[m].leaseUntil
    ensures forall m | m in after ::
      (after[m].token in issued || exists k :: 0 <= k < |tokens| && after[m].token == tokens[k]) && after[m].claimedAt <= now
  {
    forall m | m in after && m in claimed
      ensures exists k :: 0 <= k < |claimed| && claimed[k] == m && TakenOver(before, after, m, tokens[k], now, until)
    {
    }
  }

  lemma IsQueued(q: Queue, i: int)
    requires 0 <= i < |q.entries|
    ensures Queued(q, MutationIdOf(q.entries[i]))
  {
  }

  lemma ClaimedKeepValid(q: Queue, u: Queue, clock: Time, now: Time)
    requires QueueValid(q, clock) && clock <= now && u == q.(claims := u.claims) && ClaimsPlaced(u)
    ensures QueueValid(u, now)
  {
    hide First, EntriesValid, ClaimsPlaced;
    SameQueue(q, u);
    SameEntries(q, u, clock);
    EntriesLater(u, clock, now);
  }

  lemma EntriesLater(q: Queue, clock: Time, now: Time)
    requires EntriesValid(q, clock) && clock <= now
    ensures EntriesValid(q, now)
  {
    hide EntryCurrent, Queueable, InOrder, DistinctMutations;
  }

  function WithLease(q: Queue, mutationId: string, until: Time): Queue
    requires mutationId in q.claims
  {
    q.(claims := q.claims[mutationId := q.claims[mutationId].(leaseUntil := until)])
  }

  lemma LeaseMoves(q: Queue, mutationId: string, until: Time, clock: Time)
    requires QueueValid(q, clock) && mutationId in q.claims && q.claims[mutationId].claimedAt <= until
    ensures QueueValid(WithLease(q, mutationId, until), clock)
  {
    hide EntriesValid, First, Queued;
    var u := WithLease(q, mutationId, until);
    SameQueue(q, u);
    SameEntries(q, u, clock);
  }

  lemma SameEntries(q: Queue, u: Queue, clock: Time)
    requires EntriesValid(q, clock) && u == q.(profile := u.profile, claims := u.claims, receipts := u.receipts)
    ensures EntriesValid(u, clock)
  {
    hide Queueable, SnapshotMutation;
    forall i | 0 <= i < |u.entries| ensures EntryCurrent(u, u.entries[i]) {
      assert EntryCurrent(q, q.entries[i]);
    }
  }

  lemma ConfiguredKeepsValid(q: Queue, clock: Time)
    requires QueueValid(q, clock)
    ensures QueueValid(q.(profile := true), clock)
  {
    hide EntriesValid, First, Queued;
    SameEntries(q, q.(profile := true), clock);
    SameQueue(q, q.(profile := true));
  }

  lemma UniqueEntry(q: Queue, i: int, clock: Time)
    requires QueueValid(q, clock) && 0 <= i < |q.entries|
    ensures forall j | 0 <= j < |q.entries| && j != i :: MutationIdOf(q.entries[j]) != MutationIdOf(q.entries[i])
  {
    hide Queueable, ClaimsPlaced, ReceiptsFinal, EntryCurrent;
  }

  /** Attempts and due times are no part of what the queue promises. */
  lemma RetryKeepsValid(q: Queue, i: int, next: Time, code: ResultCode, clock: Time)
    requires QueueValid(q, clock) && 0 <= i < |q.entries|
    ensures QueueValid(q.(entries := q.entries[i := Retrying(q.entries[i], next, code)]), clock)
  {
    hide Queueable, SnapshotMutation, ClaimsPlaced, ReceiptsFinal, EntriesValid;
    RetryKeepsEntries(q, i, next, code, clock);
    RetryKeepsClaims(q, i, next, code);
  }

  lemma RetryKeepsEntries(q: Queue, i: int, next: Time, code: ResultCode, clock: Time)
    requires EntriesValid(q, clock) && 0 <= i < |q.entries|
    ensures EntriesValid(q.(entries := q.entries[i := Retrying(q.entries[i], next, code)]), clock)
  {
    hide Queueable, SnapshotMutation, EntryCurrent, InOrder, DistinctMutations;
    var u := q.(entries := q.entries[i := Retrying(q.entries[i], next, code)]);
    RetryKeepsLine(q.entries, i, next, code);
    forall j | 0 <= j < |u.entries| ensures EntryCurrent(u, u.entries[j]) && Queueable(u.entries[j].mutation) {
      assert EntryCurrent(q, q.entries[j]) && u.entries[j].mutation == q.entries[j].mutation;
      CurrentByMutation(q, u, q.entries[j], u.entries[j]);
    }
  }

  lemma RetryKeepsLine(entries: seq<Entry>, i: int, next: Time, code: ResultCode)
    requires InOrder(entries) && DistinctMutations(entries) && 0 <= i < |entries|
    ensures var after := entries[i := Retrying(entries[i], next, code)]; InOrder(after) && DistinctMutations(after)
  {
  }

  lemma CurrentByMutation(q: Queue, u: Queue, e: Entry, f: Entry)
    requires EntryCurrent(q, e) && f.mutation == e.mutation && u.versions == q.versions && u.edits == q.edits
    ensures EntryCurrent(u, f)
  {
    hide SnapshotMutation;
  }

  lemma RetryKeepsClaims(q: Queue, i: int, next: Time, code: ResultCode)
    requires ClaimsPlaced(q) && ReceiptsFinal(q) && 0 <= i < |q.entries|
    ensures var u := q.(entries := q.entries[i := Retrying(q.entries[i], next, code)]);
            ClaimsPlaced(u) && ReceiptsFinal(u)
  {
    var u := q.(entries := q.entries[i := Retrying(q.entries[i], next, code)]);
    SameLine(q, u);
  }

  /** Queries that look at order and identity only. */
  lemma SameLine(q: Queue, u: Queue)
    requires |u.entries| == |q.entries| && forall k | 0 <= k < |q.entries| :: SameEntry(u.entries[k], q.entries[k])
    ensures forall i | 0 <= i < |q.entries| :: First(q, i) == First(u, i)
    ensures forall m :: Queued(q, m) == Queued(u, m)
  {
    forall m ensures Queued(q, m) == Queued(u, m) {
      if Queued(q, m) {
        var i :| 0 <= i < |q.entries| && MutationIdOf(q.entries[i]) == m;
        assert MutationIdOf(u.entries[i]) == m;
      }
      if Queued(u, m) {
        var i :| 0 <= i < |u.entries| && MutationIdOf(u.entries[i]) == m;
        assert MutationIdOf(q.entries[i]) == m;
      }
    }
    forall i | 0 <= i < |q.entries| ensures First(q, i) == First(u, i) {
      forall j | 0 <= j < |q.entries|
        ensures SameRecord(q.entries[j], q.entries[i]) == SameRecord(u.entries[j], u.entries[i])
        ensures Earlier(q.entries[j], q.entries[i]) == Earlier(u.entries[j], u.entries[i])
      {
        assert SameEntry(u.entries[j], q.entries[j]) && SameEntry(u.entries[i], q.entries[i]);
      }
    }
  }

  lemma RetriedStaysFinal(q: Queue, u: Queue)
    requires ReceiptsFinal(q) && ReceiptsFinal(u) && u.receipts == q.receipts
    ensures ReceiptsGrow(q, u)
  {
  }

  lemma NotReceipted(q: Queue, i: int)
    requires ReceiptsFinal(q) && 0 <= i < |q.entries|
    ensures MutationIdOf(q.entries[i]) !in q.receipts
  {
    assert Queued(q, MutationIdOf(q.entries[i]));
  }

  // ------------------------------------------------------------------ runs

  /** Leases as some sequence of operations, by any number of workers, leaves them. */
  datatype Leases = Leases(claims: map<string, Claim>, issued: set<string>)

  ghost predicate LeaseRun(states: seq<Leases>) {
    forall k | 0 <= k < |states| - 1 ::
      ClaimsMove(states[k].claims, states[k + 1].claims, states[k].issued) && states[k].issued <= states[k + 1].issued
  }

  predicate InForce(s: Leases, mutationId: string, token: string) {
    mutationId in s.claims && s.claims[mutationId].token == token
  }

  /** A token that has been replaced, or whose entry is gone, never comes into force again. */
  lemma {:induction false} StaleForever(states: seq<Leases>, mutationId: string, token: string)
    requires states != [] && LeaseRun(states)
    requires token in states[0].issued && !InForce(states[0], mutationId, token)
    ensures forall k | 0 <= k < |states| :: !InForce(states[k], mutationId, token)
    decreases |states|
  {
    if |states| > 1 {
      assert ClaimsMove(states[0].claims, states[1].claims, states[0].issued);
      assert forall k | 0 <= k < |states[1..]| :: states[1..][k] == states[k + 1];
      StaleForever(states[1..], mutationId, token);
      forall k | 0 <= k < |states| ensures !InForce(states[k], mutationId, token) {
        if k > 0 {
          assert states[1..][k - 1] == states[k];
        }
      }
    }
  }
}
