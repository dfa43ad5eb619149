/** Whether what is queued of a record is on the record's version. */
module OutboxVersions {
  import opened SyncService
  import opened Outbox
  import opened OutboxRuns

  /** Everything queued of a record is on the record's version, so that it can be claimed in its turn. */
  predicate OnVersion(q: Queue, id: string) {
    forall i | 0 <= i < |q.entries| && q.entries[i].mutation.recordId == id :: q.entries[i].mutation.baseVersion == VersionOf(q, id)
  }

  lemma CompletionKeepsVersionExactly(q: Queue, i: int, result: Result, id: string, clock: Time)
    requires QueueValid(q, clock) && 0 <= i < |q.entries| && First(q, i) && Recordable(q, q.entries[i], result) && OnVersion(q, id)
    ensures var u := Completed(q, q.entries[i], result);
            OnVersion(u, id) <==>
              !(result.disposition == Conflict && q.entries[i].mutation.recordId == id && result.version != VersionOf(q, id) && HasQueued(u, id))
  {
    hide QueueValid, First, Coalesced, WithoutEntry, NewestIn, InOrder, DistinctMutations;
    var e := q.entries[i];
    var u := Completed(q, e, result);
    QueueParts(q, clock);
    var idx := CompletedIndices(q, i, result);
    ThinnedLength(q.entries, u.entries, idx);
    forall k | 0 <= k < |u.entries|
      ensures u.entries[k].mutation.recordId == q.entries[idx[k]].mutation.recordId
      ensures u.entries[k].mutation.recordId == id ==>
        u.entries[k].mutation.baseVersion == if IsAccepted(result) && e.mutation.recordId == id then result.version else VersionOf(q, id)
    {
      ThinnedAt(q.entries, u.entries, idx, k);
    }
  }

  /** Where a conflict is landed, everything queued of the record is on its version again. */
  lemma RebaseKeepsVersions(q: Queue, recordId: string, version: int, id: string, clock: Time)
    requires QueueValid(q, clock)
    ensures OnVersion(q, id) || id == recordId ==> OnVersion(RebasedPending(q, recordId, version), id)
  {
    hide EntriesValid, RebasedPending, NewestIn, ClaimsPlaced, ReceiptsFinal;
    var u := RebasedPending(q, recordId, version);
    RebasedPendingRest(q, recordId, version);
    var idx := RebasedIndices(q, recordId, version, clock);
    ThinnedLength(q.entries, u.entries, idx);
    forall k | 0 <= k < |u.entries| && (OnVersion(q, id) || id == recordId) && u.entries[k].mutation.recordId == id
      ensures u.entries[k].mutation.baseVersion == VersionOf(u, id)
    {
      ThinnedAt(q.entries, u.entries, idx, k);
    }
  }

  lemma {:induction false} BackfillKeepsVersions(q: Queue, listing: seq<string>, queued: nat, limit: int, derive: string -> string, now: Time, id: string)
    requires QueueValid(q, now) && OnVersion(q, id) && forall k | 0 <= k < |listing| :: listing[k] in q.edits
    requires BackfillAll(q, listing, queued, limit, derive, now).Backfilled?
    ensures OnVersion(BackfillAll(q, listing, queued, limit, derive, now).state, id)
    decreases |listing|
  {
    hide QueueValid, OnVersion, BackfillOne;
    if listing != [] && queued < limit {
      if VersionOf(q, listing[0]) != 0 {
        BackfillKeepsVersions(q, listing[1..], queued, limit, derive, now, id);
      } else {
        var one := BackfillOne(q, listing[0], derive(listing[0]), queued, now);
        BackfillOneKeepsValid(q, listing[0], derive(listing[0]), queued, now);
        BackfillOneKeepsVersion(q, listing[0], derive(listing[0]), queued, now, id);
        BackfillKeepsVersions(one.state, listing[1..], one.queued, limit, derive, now, id);
      }
    }
  }

  lemma BackfillOneKeepsVersion(q: Queue, recordId: string, derived: string, queued: nat, now: Time, id: string)
    requires QueueValid(q, now) && OnVersion(q, id) && recordId in q.edits && VersionOf(q, recordId) == 0
    requires BackfillOne(q, recordId, derived, queued, now).Backfilled?
    ensures OnVersion(BackfillOne(q, recordId, derived, queued, now).state, id)
  {
    hide EntriesValid, ClaimsPlaced, ReceiptsFinal, Queueable;
    BackfillOneKeepsValid(q, recordId, derived, queued, now);
  }

  /** A conflict that moves a record's version in front of what is queued of it. */
  ghost predicate Overtakes(w: World, d: Derivation, op: Op, now: Time, id: string)
    requires Allowed(w, d, op, now)
  {
    && op.Finish? && op.result.disposition == Conflict && w.queue.entries[op.index].mutation.recordId == id
    && op.result.version != VersionOf(w.queue, id) && HasQueued(Did(w, d, op, now).queue, id)
  }

  /**
   Every operation keeps what is queued of a record on the record's version, exactly unless it records
   a conflict that moves the version in front of queued work: that work waits for the conflict to land.
   */
  lemma OpKeepsVersionsExactly(w: World, d: Derivation, op: Op, now: Time, clock: Time, id: string)
    requires WorldValid(w, clock) && clock <= now && Allowed(w, d, op, now) && OnVersion(w.queue, id)
    ensures OnVersion(Did(w, d, op, now).queue, id) <==> !Overtakes(w, d, op, now, id)
  {
    hide QueueValid, OnVersion, Queueable, Recordable, First, ClaimsPlaced, RebasedPending, Completed, BackfillAll, Postponed, Queued, HasQueued,
      TokensKnown, Holds, ResultReadable, SequenceTaken, AllClaimable, LeasedOut, AtWork;
    var q := w.queue;
    ClockMayAdvance(q, clock, now);
    match op
    case Configure => SameVersions(q, q.(profile := true), id);
    case Write(o, mutationId) => WriteKeepsVersion(q, o, mutationId, now, id);
    case Fill(listing, queued, limit) => BackfillKeepsVersions(q, listing, queued, limit, d.derive, now, id);
    case Lease(_, claims, _, _, _) => SameVersions(q, q.(claims := claims), id);
    case Renew(mutationId, token, lease) =>
      HeldIsClaimed(q, mutationId, token, now);
      SameVersions(q, WithLease(q, mutationId, now + lease), id);
    case Postpone(mutationId, _, next, code) => PostponedKeepsVersion(q, mutationId, next, code, now, id);
    case Finish(i, token, result) =>
      QueueParts(q, now);
      ClaimedIsFirst(q, i, token, now);
      CompletionKeepsVersionExactly(q, i, result, id, now);
    case Rebase(recordId, version) => RebaseKeepsVersions(q, recordId, version, id, now);
    case Pull(recordId, version) => PullKeepsVersion(q, recordId, version, id);
  }

  lemma HeldIsClaimed(q: Queue, mutationId: string, token: string, now: Time)
    requires Holds(q, mutationId, token, now)
    ensures mutationId in q.claims
  {
  }

  lemma SameVersions(q: Queue, u: Queue, id: string)
    requires OnVersion(q, id) && u.entries == q.entries && VersionOf(u, id) == VersionOf(q, id)
    ensures OnVersion(u, id)
  {
  }

  lemma WriteKeepsVersion(q: Queue, o: Observation, mutationId: string, now: Time, id: string)
    requires OnVersion(q, id)
    ensures OnVersion(Enqueued(q, o, mutationId, now), id) && OnVersion(Written(q, o), id)
  {
    SnapshotFields(mutationId, o, VersionOf(q, o.id));
    hide SnapshotMutation;
  }

  lemma PostponedKeepsVersion(q: Queue, mutationId: string, next: Time, code: ResultCode, now: Time, id: string)
    requires OnVersion(q, id)
    ensures OnVersion(Postponed(q, mutationId, next, code, now), id)
  {
  }

  lemma PullKeepsVersion(q: Queue, recordId: string, version: int, id: string)
    requires OnVersion(q, id) && !HasQueued(q, recordId)
    ensures OnVersion(Pulled(q, recordId, version), id)
  {
  }

  ghost predicate AlwaysOnVersion(w: World, d: Derivation, clock: Time, moments: seq<Moment>, id: string)
    requires Runs(w, d, clock, moments)
    decreases |moments|
  {
    OnVersion(w.queue, id)
    && (moments == [] || AlwaysOnVersion(Did(w, d, moments[0].op, moments[0].now), d, moments[0].now, moments[1..], id))
  }

  ghost predicate SomeOvertakes(w: World, d: Derivation, clock: Time, moments: seq<Moment>, id: string)
    requires Runs(w, d, clock, moments)
    decreases |moments|
  {
    moments != []
    && (|| Overtakes(w, d, moments[0].op, moments[0].now, id)
        || SomeOvertakes(Did(w, d, moments[0].op, moments[0].now), d, moments[0].now, moments[1..], id))
  }

  /**
   Over any run what is queued of a record is on its version at every moment if and only if no
   recorded conflict overtakes it.
   */
  lemma {:induction false} RunKeepsVersionsExactly(w: World, d: Derivation, clock: Time, moments: seq<Moment>, id: string)
    requires WorldValid(w, clock) && OnVersion(w.queue, id) && Runs(w, d, clock, moments)
    ensures AlwaysOnVersion(w, d, clock, moments, id) <==> !SomeOvertakes(w, d, clock, moments, id)
    decreases |moments|
  {
    hide WorldValid, OnVersion, Allowed, Did, Overtakes;
    if moments != [] {
      var m := moments[0];
      OpKeepsVersionsExactly(w, d, m.op, m.now, clock, id);
      OpKeepsWorld(w, d, m.op, m.now, clock);
      var u := Did(w, d, m.op, m.now);
      if OnVersion(u.queue, id) {
        RunKeepsVersionsExactly(u, d, m.now, moments[1..], id);
      } else {
        NotAlways(u, d, m.now, moments[1..], id);
      }
    }
  }

  lemma NotAlways(w: World, d: Derivation, clock: Time, moments: seq<Moment>, id: string)
    requires Runs(w, d, clock, moments) && !OnVersion(w.queue, id)
    ensures !AlwaysOnVersion(w, d, clock, moments, id)
  {
    hide OnVersion, Allowed, Did;
  }

  /** In particular from the empty outbox. */
  lemma DeviceKeepsVersionsExactly(d: Derivation, moments: seq<Moment>, id: string)
    requires Runs(EMPTY_WORLD, d, 0, moments)
    ensures AlwaysOnVersion(EMPTY_WORLD, d, 0, moments, id) <==> !SomeOvertakes(EMPTY_WORLD, d, 0, moments, id)
  {
    hide Runs, AlwaysOnVersion, SomeOvertakes;
    EmptyIsValid();
    RunKeepsVersionsExactly(EMPTY_WORLD, d, 0, moments, id);
  }
}
