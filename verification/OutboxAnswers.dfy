/** What the outbox's operations come down to, said of entries, claims and receipts alone (internal/memory/sync.go). */
module OutboxAnswers {
  import opened Options
  import opened Uuids
  import opened SyncService
  import opened Outbox

  // ------------------------------------------------------------------- leases

  /** Due by its own time, held by nobody, before every other entry of its record, and on the record's version. */
  predicate MayGo(q: Queue, i: int, now: Time, eligible: Entry -> bool)
    requires 0 <= i < |q.entries|
  {
    var e := q.entries[i];
    && e.nextAttempt <= now && eligible(e)
    && !(e.mutation.mutationId in q.claims && q.claims[e.mutation.mutationId].leaseUntil > now)
    && (forall j | 0 <= j < i :: q.entries[j].mutation.recordId != e.mutation.recordId)
    && e.mutation.baseVersion == (if e.mutation.recordId in q.versions then q.versions[e.mutation.recordId] else 0)
  }

  /** How many such entries are older. */
  function OlderToGo(q: Queue, i: int, now: Time, eligible: Entry -> bool): nat
    requires 0 <= i <= |q.entries|
    decreases i
  {
    if i == 0 then 0 else OlderToGo(q, i - 1, now, eligible) + if MayGo(q, i - 1, now, eligible) then 1 else 0
  }

  lemma {:induction false} CountIsPlace(q: Queue, due: seq<int>, i: int, k: int, now: Time, eligible: Entry -> bool)
    requires 0 <= i <= |q.entries| && 0 <= k <= |due| && Ascending(due, |q.entries|)
    requires forall j | 0 <= j < i && MayGo(q, j, now, eligible) :: j in due
    requires forall j | j in due :: 0 <= j < |q.entries| && MayGo(q, j, now, eligible)
    requires (k == 0 || due[k - 1] < i) && (k == |due| || due[k] >= i)
    ensures OlderToGo(q, i, now, eligible) == k
    decreases i
  {
    hide MayGo;
    if i > 0 {
      if i - 1 in due {
        LastPlace(due, |q.entries|, i, k);
        CountIsPlace(q, due, i - 1, k - 1, now, eligible);
      } else {
        assert k == 0 || due[k - 1] in due;
        CountIsPlace(q, due, i - 1, k, now, eligible);
      }
    }
  }

  lemma LastPlace(due: seq<int>, n: nat, i: int, k: int)
    requires Ascending(due, n) && 0 <= k <= |due| && i - 1 in due
    requires (k == 0 || due[k - 1] < i) && (k == |due| || due[k] >= i)
    ensures 0 < k && due[k - 1] == i - 1 && (k == 1 || due[k - 2] < i - 1)
  {
    var p :| 0 <= p < |due| && due[p] == i - 1;
  }

  /** The due query answers with the oldest entries that may go, as many as were asked for. */
  lemma DueExactly(q: Queue, due: seq<int>, now: Time, limit: int, eligible: Entry -> bool, i: int)
    requires InOrder(q.entries) && IsDue(q, due, now, limit, eligible) && 0 <= i < |q.entries|
    ensures i in due <==> MayGo(q, i, now, eligible) && OlderToGo(q, i, now, eligible) < limit
  {
    hide InOrder, MayGo, Claimable;
    forall j | 0 <= j < |q.entries| ensures Claimable(q, j, now, eligible) <==> MayGo(q, j, now, eligible) {
      GoIs(q, j, now, eligible);
    }
    forall j | j in due ensures 0 <= j < |q.entries| && MayGo(q, j, now, eligible) {
    }
    if i in due {
      var k :| 0 <= k < |due| && due[k] == i;
      CountIsPlace(q, due, i, k, now, eligible);
    } else if MayGo(q, i, now, eligible) {
      OlderAtLeast(q, due, i, |due|, now, eligible);
    }
  }

  lemma GoIs(q: Queue, i: int, now: Time, eligible: Entry -> bool)
    requires InOrder(q.entries) && 0 <= i < |q.entries|
    ensures Claimable(q, i, now, eligible) <==> MayGo(q, i, now, eligible)
  {
    hide InOrder, Claimable;
    ClaimableExactly(q, i, now, eligible);
  }

  lemma {:induction false} OlderAtLeast(q: Queue, due: seq<int>, i: int, k: int, now: Time, eligible: Entry -> bool)
    requires 0 <= i <= |q.entries| && 0 <= k <= |due| && Ascending(due, |q.entries|)
    requires forall j | j in due :: 0 <= j < |q.entries| && MayGo(q, j, now, eligible)
    requires k == 0 || due[k - 1] < i
    ensures OlderToGo(q, i, now, eligible) >= k
    decreases i
  {
    hide MayGo;
    if k > 0 {
      assert due[k - 1] in due;
      OlderAtLeast(q, due, i - 1, if due[k - 1] == i - 1 then k - 1 else k, now, eligible);
    }
  }

  /** An entry is leased if and only if it may go, fewer than limit older ones may, and whatever it refers to is on the server. */
  lemma LeasedExactly(q: Queue, due: seq<int>, claimed: seq<string>, now: Time, limit: int, eligible: Entry -> bool,
                      projectOf: string -> Option<string>, i: int)
    requires InOrder(q.entries) && DistinctMutations(q.entries) && 0 <= i < |q.entries|
    requires IsDue(q, due, now, limit, eligible) && ClaimedExactly(q, due, claimed, projectOf)
    ensures q.entries[i].mutation.mutationId in claimed <==>
      MayGo(q, i, now, eligible) && OlderToGo(q, i, now, eligible) < limit && GoesOut(q, q.entries[i], projectOf)
  {
    hide InOrder, DistinctMutations, MayGo, GoesOut, HeldBack, Hopeless, IsDue;
    DueExactly(q, due, now, limit, eligible, i);
    if q.entries[i].mutation.mutationId in claimed {
      var k :| 0 <= k < |due| && 0 <= due[k] < |q.entries| && MutationIdOf(q.entries[due[k]]) == q.entries[i].mutation.mutationId;
      OneEntryOf(q, due[k], i);
    }
    if i in due {
      var k :| 0 <= k < |due| && due[k] == i;
    }
  }

  // ------------------------------------------------------------------ results

  /** The result ends the mutation: it is neither to be retried nor about the device. */
  predicate Final(result: Result) {
    && !result.retryable
    && if result.disposition == Rejected then
         && result.code != Revoked && result.code != InvalidDevice && StorableCode(result.code)
         && result.sequence.None? && result.version == 0
       else result.sequence.Some? && result.sequence.value > 0 && result.version > 0 && result.code == NoCode
  }

  /** The work stays queued: the server asked for it, or no longer knows the device. */
  predicate Passing(result: Result) {
    && result.disposition == Rejected && (result.retryable || result.code == Revoked || result.code == InvalidDevice)
    && StorableCode(result.code) && result.sequence.None? && result.version == 0
  }

  /** A readable result is final or to be tried again, never both. */
  lemma ReadableExactly(mutationId: string, token: string, result: Result)
    ensures ResultReadable(mutationId, token, result) <==>
      IsCanonicalUuid(mutationId) && IsCanonicalUuid(token) && result.mutationId == mutationId && (Final(result) || Passing(result))
    ensures ResultReadable(mutationId, token, result) ==>
      (Retryable(result) <==> Passing(result)) && (!Retryable(result) <==> Final(result))
  {
    hide StorableCode, IsCanonicalUuid;
  }

  /** A refusal moves nothing; an acceptance is the next version of the record's; a conflict is where the record is, or can go. */
  predicate VersionFits(current: int, base: int, result: Result) {
    match result.disposition
    case Rejected => true
    case Conflict => base <= result.version && (current == result.version || current == base)
    case _ => result.version == base + 1 && current == base
  }

  /** No receipt has the sequence of the result. */
  predicate SequenceFree(receipts: map<string, Receipt>, result: Result) {
    result.sequence.Some? ==> forall id | id in receipts :: receipts[id].result.sequence != result.sequence
  }

  /** A final result of a queued mutation is recorded exactly when it fits the record's version and its sequence is nobody else's. */
  lemma TakenExactly(q: Queue, i: int, result: Result, clock: Time)
    requires QueueValid(q, clock) && 0 <= i < |q.entries|
    ensures var e := q.entries[i];
            var current := if e.mutation.recordId in q.versions then q.versions[e.mutation.recordId] else 0;
            (TakesResult(q, e.mutation.mutationId, result) && !SequenceTaken(q.receipts, result.sequence)) <==>
              VersionFits(current, e.mutation.baseVersion, result) && SequenceFree(q.receipts, result)
  {
    hide QueueValid, TakesResult;
    OneTakesResult(q, i, result, clock);
  }

  // ------------------------------------------------------------- what is left

  /** The same edit on the version: a creation becomes an update, or an archive if that is what it says. */
  predicate OnVersion(before: Entry, after: Entry, version: int) {
    && after.id == before.id && after.createdAt == before.createdAt && after.nextAttempt == before.nextAttempt
    && after.attempts == before.attempts && after.code == before.code
    && after.mutation.mutationId == before.mutation.mutationId && after.mutation.recordId == before.mutation.recordId
    && after.mutation.observation == before.mutation.observation && after.mutation.observation.Some?
    && after.mutation.baseVersion == version
    && after.mutation.kind == (if after.mutation.observation.value.lifecycle == Archived then Archive else Update)
    && after.mutation == before.mutation.(baseVersion := after.mutation.baseVersion, kind := after.mutation.kind)
  }

  /** The newest entry of its record. */
  predicate LastOfRecord(q: Queue, j: int)
    requires 0 <= j < |q.entries|
  {
    forall k | j < k < |q.entries| :: q.entries[k].mutation.recordId != q.entries[j].mutation.recordId
  }

  predicate InQueue(q: Queue, e: Entry) {
    exists j :: 0 <= j < |q.entries| && q.entries[j] == e
  }

  /** What of a record's work follows one of its entries: its newest edit, on the version. */
  predicate Follows(q: Queue, e: Entry, recordId: string, done: string, version: int) {
    exists j :: 0 <= j < |q.entries| && q.entries[j].mutation.recordId == recordId && q.entries[j].mutation.mutationId != done
                && LastOfRecord(q, j) && OnVersion(q.entries[j], e, version)
  }

  /** Other records' entries stay as they are; of this record what follows. */
  ghost predicate Settles(q: Queue, u: Queue, recordId: string, done: string, version: int) {
    forall e :: InQueue(u, e) <==> (InQueue(q, e) && e.mutation.recordId != recordId) || Follows(q, e, recordId, done, version)
  }

  ghost predicate Removes(q: Queue, u: Queue, done: string) {
    forall e :: InQueue(u, e) <==> InQueue(q, e) && e.mutation.mutationId != done
  }

  lemma SettledIsOnVersion(q: Queue, j: int, version: int, clock: Time)
    requires QueueValid(q, clock) && 0 <= j < |q.entries| && 1 <= version
    ensures OnVersion(q.entries[j], Settled(q.entries[j], q.entries[j].mutation.recordId, version), version)
    ensures forall e | OnVersion(q.entries[j], e, version) :: e == Settled(q.entries[j], q.entries[j].mutation.recordId, version)
  {
    hide Queueable, ClaimsPlaced, ReceiptsFinal, InOrder, DistinctMutations;
    assert EntryCurrent(q, q.entries[j]);
    assert IsSnapshot(q.entries[j].mutation);
    var s := Settled(q.entries[j], q.entries[j].mutation.recordId, version);
    forall e | OnVersion(q.entries[j], e, version) ensures e == s {
      assert e.mutation == s.mutation;
    }
  }

  predicate IsSnapshot(m: Mutation) {
    && m.observation.Some?
    && m.kind == if m.baseVersion <= 0 then Create else if m.observation.value.lifecycle == Archived then Archive else Update
  }

  /** A queue whose entries are thinned so is settled so. */
  lemma ThinnedSettles(q: Queue, u: Queue, idx: seq<int>, recordId: string, done: string, version: int, clock: Time)
    requires QueueValid(q, clock) && 1 <= version && Ascending(idx, |q.entries|) && |idx| == |u.entries|
    requires forall k | 0 <= k < |idx| ::
      && u.entries[k] == Settled(q.entries[idx[k]], recordId, version)
      && (q.entries[idx[k]].mutation.recordId == recordId ==> LastOfRecord(q, idx[k]) && q.entries[idx[k]].mutation.mutationId != done)
    requires forall j | 0 <= j < |q.entries|
      && (q.entries[j].mutation.recordId == recordId ==> LastOfRecord(q, j) && q.entries[j].mutation.mutationId != done) :: j in idx
    ensures Settles(q, u, recordId, done, version)
  {
    hide QueueValid, LastOfRecord, OnVersion, Ascending;
    InRange(idx, |q.entries|);
    forall e ensures InQueue(u, e) <==> (InQueue(q, e) && e.mutation.recordId != recordId) || Follows(q, e, recordId, done, version) {
      if InQueue(u, e) {
        var k :| 0 <= k < |u.entries| && u.entries[k] == e;
        SettledIsOnVersion(q, idx[k], version, clock);
        SettledRecord(q.entries[idx[k]], recordId, version);
      }
      if InQueue(q, e) && e.mutation.recordId != recordId {
        var j :| 0 <= j < |q.entries| && q.entries[j] == e;
        var k :| 0 <= k < |idx| && idx[k] == j;
        assert u.entries[k] == e;
      }
      if Follows(q, e, recordId, done, version) {
        var j :| 0 <= j < |q.entries| && q.entries[j].mutation.recordId == recordId && q.entries[j].mutation.mutationId != done
          && LastOfRecord(q, j) && OnVersion(q.entries[j], e, version);
        SettledIsOnVersion(q, j, version, clock);
        var k :| 0 <= k < |idx| && idx[k] == j;
        assert u.entries[k] == e;
      }
    }
  }

  lemma InRange(idx: seq<int>, n: nat)
    requires Ascending(idx, n)
    ensures forall k | 0 <= k < |idx| :: 0 <= idx[k] < n
  {
  }

  lemma SettledRecord(e: Entry, recordId: string, version: int)
    ensures Settled(e, recordId, version).mutation.recordId == e.mutation.recordId
    ensures e.mutation.recordId != recordId ==> Settled(e, recordId, version) == e
  {
  }

  /** A recorded result: its receipt, its entry and claim gone, the record on the version it names, and what follows moved there. */
  lemma RecordedLeaves(q: Queue, i: int, result: Result, clock: Time)
    requires QueueValid(q, clock) && 0 <= i < |q.entries| && First(q, i) && Recordable(q, q.entries[i], result)
    ensures var e := q.entries[i];
            var u := Completed(q, e, result);
            && u == q.(entries := u.entries, claims := u.claims, receipts := u.receipts, versions := u.versions)
            && u.claims == q.claims - {e.mutation.mutationId}
            && u.receipts == q.receipts[e.mutation.mutationId := Receipt(result, e.mutation)]
            && u.versions == (if result.disposition == Rejected then q.versions else q.versions[e.mutation.recordId := result.version])
            && InOrder(u.entries)
            && if result.disposition == Accepted || result.disposition == PreviouslyAccepted then
                 Settles(q, u, e.mutation.recordId, e.mutation.mutationId, result.version)
               else Removes(q, u, e.mutation.mutationId)
  {
    hide Queueable, ClaimsPlaced, ReceiptsFinal, First, Coalesced, WithoutEntry, InOrder, DistinctMutations, EntryCurrent, Settles, Removes, NewestIn;
    var e := q.entries[i];
    var u := Completed(q, e, result);
    var idx := CompletedIndices(q, i, result);
    ThinnedKeepsOrder(q.entries, u.entries, idx);
    NewestAre(q);
    BasePositive(q, i, clock);
    UniqueEntry(q, i, clock);
    CompletedIsAccepted(result);
    ThinnedLength(q.entries, u.entries, idx);
    if IsAccepted(result) {
      ThinnedSettles(q, u, idx, e.mutation.recordId, e.mutation.mutationId, result.version, clock);
    } else {
      ThinnedRemoves(q, u, idx, i);
    }
  }

  lemma CompletedIsAccepted(result: Result)
    ensures IsAccepted(result) <==> result.disposition == Accepted || result.disposition == PreviouslyAccepted
  {
  }

  lemma BasePositive(q: Queue, i: int, clock: Time)
    requires QueueValid(q, clock) && 0 <= i < |q.entries|
    ensures 0 <= q.entries[i].mutation.baseVersion
  {
    hide Queueable, ClaimsPlaced, ReceiptsFinal, InOrder, DistinctMutations, SnapshotMutation;
    assert EntryCurrent(q, q.entries[i]);
  }

  lemma NewestAre(q: Queue)
    ensures forall j | 0 <= j < |q.entries| :: NewestIn(q.entries, j) == LastOfRecord(q, j)
  {
  }

  lemma ThinnedRemoves(q: Queue, u: Queue, idx: seq<int>, i: int)
    requires 0 <= i < |q.entries| && Ascending(idx, |q.entries|) && |idx| == |u.entries| && i !in idx
    requires forall k | 0 <= k < |idx| :: u.entries[k] == q.entries[idx[k]]
    requires forall j | 0 <= j < |q.entries| && j != i :: j in idx
    requires forall j | 0 <= j < |q.entries| && j != i :: MutationIdOf(q.entries[j]) != MutationIdOf(q.entries[i])
    ensures Removes(q, u, q.entries[i].mutation.mutationId)
  {
    forall e ensures InQueue(u, e) <==> InQueue(q, e) && e.mutation.mutationId != q.entries[i].mutation.mutationId {
      if InQueue(u, e) {
        var k :| 0 <= k < |u.entries| && u.entries[k] == e;
        assert idx[k] in idx && q.entries[idx[k]] == e;
      }
      if InQueue(q, e) && e.mutation.mutationId != q.entries[i].mutation.mutationId {
        var j :| 0 <= j < |q.entries| && q.entries[j] == e;
        assert j != i && j in idx;
        var k :| 0 <= k < |idx| && idx[k] == j;
        assert u.entries[k] == e;
      }
    }
  }

  /** A landed conflict or resolution: the record on its version, its newest edit moved there, claims gone with their entries. */
  lemma RebaseLeaves(q: Queue, recordId: string, version: int, clock: Time)
    requires QueueValid(q, clock) && 1 <= version
    ensures var u := RebasedPending(q, recordId, version);
            && u == q.(entries := u.entries, claims := u.claims, versions := u.versions)
            && u.versions == q.versions[recordId := version]
            && InOrder(u.entries) && Settles(q, u, recordId, "", version)
            && (forall m :: m in u.claims <==> m in q.claims && exists k :: 0 <= k < |u.entries| && u.entries[k].mutation.mutationId == m)
            && forall m | m in u.claims :: u.claims[m] == q.claims[m]
  {
    hide Queueable, ClaimsPlaced, ReceiptsFinal, Coalesced, InOrder, DistinctMutations, EntryCurrent, Settles, NewestIn, RebasedPending;
    var u := RebasedPending(q, recordId, version);
    var idx := RebasedIndices(q, recordId, version, clock);
    ThinnedKeepsOrder(q.entries, u.entries, idx);
    ThinnedLength(q.entries, u.entries, idx);
    NewestAre(q);
    IdsNotEmpty(q, clock);
    ThinnedSettles(q, u, idx, recordId, "", version, clock);
    RebasedPendingRest(q, recordId, version);
    RebasedClaims(q, recordId, version);
  }

  lemma RebasedClaims(q: Queue, recordId: string, version: int)
    ensures var u := RebasedPending(q, recordId, version);
            forall m :: m in u.claims <==> m in q.claims && exists k :: 0 <= k < |u.entries| && u.entries[k].mutation.mutationId == m
  {
    hide Coalesced;
    var v := q.(entries := Coalesced(q.entries, recordId, "", version), versions := q.versions[recordId := version]);
    assert forall m :: Queued(v, m) <==> exists k :: 0 <= k < |v.entries| && v.entries[k].mutation.mutationId == m;
  }

  /** A retry: its own entry waits for the next attempt and counts it, its lease ends now, nothing else moves. */
  lemma PostponedLeaves(q: Queue, i: int, next: Time, code: ResultCode, now: Time, clock: Time)
    requires QueueValid(q, clock) && 0 <= i < |q.entries|
    ensures var e := q.entries[i];
            var u := Postponed(q, e.mutation.mutationId, next, code, now);
            && u == q.(entries := u.entries, claims := u.claims)
            && |u.entries| == |q.entries|
            && (forall j | 0 <= j < |q.entries| && j != i :: u.entries[j] == q.entries[j])
            && u.entries[i] == e.(nextAttempt := next, attempts := e.attempts + 1, code := code)
            && u.claims.Keys == q.claims.Keys
            && forall m | m in q.claims ::
                 u.claims[m] == if m == e.mutation.mutationId then q.claims[m].(leaseUntil := now) else q.claims[m]
  {
    hide QueueValid;
    UniqueEntry(q, i, clock);
  }

  /** A write: the row's content is on record, and with a profile so is its snapshot, behind everything queued. */
  lemma SaveLeaves(q: Queue, o: Observation, mutationId: string, now: Time)
    ensures var u := Enqueued(q, o, mutationId, now);
            var version := if o.id in q.versions then q.versions[o.id] else 0;
            && u == q.(entries := u.entries, versions := u.versions, edits := u.edits, nextId := q.nextId + 1)
            && u.versions == q.versions[o.id := version] && u.edits == q.edits[o.id := o]
            && |u.entries| == |q.entries| + 1 && u.entries[..|q.entries|] == q.entries
            && var e := u.entries[|q.entries|];
               && e.id == q.nextId && e.createdAt == now && e.nextAttempt == now && e.attempts == 0 && e.code == NoCode
               && e.mutation.mutationId == mutationId && e.mutation.recordId == o.id && e.mutation.recordKind == ObservationKind
               && e.mutation.baseVersion == version && e.mutation.observation == Some(o)
               && e.mutation.kind == (if version <= 0 then Create else if o.lifecycle == Archived then Archive else Update)
               && e.mutation.project.None? && e.mutation.session.None? && e.mutation.tombstone.None? && e.mutation.resolution.None?
    ensures Written(q, o) == q.(versions := q.versions[o.id := if o.id in q.versions then q.versions[o.id] else 0], edits := q.edits[o.id := o])
  {
  }
}
