/** Whole runs of the outbox: writes, backfills, leases, retries, results, landed conflicts and pulls in any order. */
module OutboxRuns {
  import opened Uuids
  import opened SyncService
  import opened Outbox
  import opened OutboxBackfill

  /**
   What a run remembers beside the tables: every token issued so far, and of each record the content
   the server answered last, as long as that is what the record's next write has to be compared with.
   */
  datatype World = World(queue: Queue, answers: map<string, Answer>, issued: set<string>)

  /** current: nothing of the record was pulled since. */
  datatype Answer = Answer(content: Observation, current: bool)

  const EMPTY_WORLD := World(EMPTY_QUEUE, map[], {})

  /** The records the device ever has, and the ids a backfill derives for them. */
  datatype Derivation = Derivation(records: set<string>, derive: string -> string)

  /** Derived ids are version 5 UUIDs; no two records of the device share one. */
  ghost predicate DerivationSound(d: Derivation) {
    && (forall id | id in d.records :: IsCanonicalUuid(d.derive(id)) && IsDerived(d.derive(id)))
    && (forall a, b | a in d.records && b in d.records && a != b :: d.derive(a) != d.derive(b))
  }

  predicate IsDerived(id: string) {
    |id| == UUID_LENGTH && id[14] == '5'
  }

  /** The UUID generator of the store draws version 4. */
  predicate IsDrawn(id: string) {
    |id| == UUID_LENGTH && id[14] == '4'
  }

  predicate HasQueued(q: Queue, id: string) {
    exists i :: 0 <= i < |q.entries| && q.entries[i].mutation.recordId == id
  }

  // -------------------------------------------------------------- operations

  datatype Op =
    | Configure
    | Write(o: Observation, mutationId: string)
    | Fill(listing: seq<string>, queued: nat, limit: int)
    | Lease(ready: seq<int>, claims: map<string, Claim>, tokens: seq<string>, lease: int, eligible: Entry -> bool)
    | Renew(mutationId: string, token: string, lease: int)
    | Postpone(mutationId: string, token: string, next: Time, code: ResultCode)
    | Finish(index: int, token: string, result: Result)
    | Rebase(recordId: string, version: int)
    | Pull(recordId: string, version: int)

  datatype Moment = Moment(op: Op, now: Time)

  /** When the methods of the outbox commit. */
  ghost predicate Allowed(w: World, d: Derivation, op: Op, now: Time) {
    var q := w.queue;
    match op
    case Configure => true
    case Write(o, mutationId) =>
      && IsDrawn(mutationId) && !Queued(q, mutationId) && mutationId !in q.receipts && o.id in d.records
      && (q.profile ==> Queueable(SnapshotMutation(mutationId, o, VersionOf(q, o.id))))
    case Fill(listing, queued, limit) =>
      && (forall k | 0 <= k < |listing| :: listing[k] in q.edits)
      && BackfillAll(q, listing, queued, limit, d.derive, now).Backfilled?
    case Lease(ready, claims, tokens, lease, eligible) =>
      && 0 < lease && AllClaimable(q, ready, now, eligible) && AllDifferent(q, ready)
      && (forall k | 0 <= k < |tokens| :: tokens[k] !in w.issued)
      && LeasedOut(q.claims, claims, IdsOf(q, ready), tokens, now, now + lease)
    case Renew(mutationId, token, lease) => Holds(q, mutationId, token, now) && q.claims[mutationId].leaseUntil < now + lease
    case Postpone(mutationId, token, next, code) => Holds(q, mutationId, token, now) && now <= next
    case Finish(i, token, result) =>
      && 0 <= i < |q.entries| && Holds(q, MutationIdOf(q.entries[i]), token, now)
      && ResultReadable(MutationIdOf(q.entries[i]), token, result) && !Retryable(result)
      && Recordable(q, q.entries[i], result) && !SequenceTaken(q.receipts, result.sequence)
    case Rebase(id, version) => 1 <= version && (id in q.versions ==> 1 <= q.versions[id] <= version) && !AtWork(q, id, now)
    case Pull(id, version) => 1 <= version && !HasQueued(q, id) && (id in q.versions ==> 1 <= q.versions[id])
  }

  ghost function QueueAfter(w: World, d: Derivation, op: Op, now: Time): Queue
    requires Allowed(w, d, op, now)
  {
    var q := w.queue;
    match op
    case Configure => q.(profile := true)
    case Write(o, mutationId) => if q.profile then Enqueued(q, o, mutationId, now) else Written(q, o)
    case Fill(listing, queued, limit) => BackfillAll(q, listing, queued, limit, d.derive, now).state
    case Lease(ready, claims, tokens, lease, eligible) => q.(claims := claims)
    case Renew(mutationId, token, lease) => WithLease(q, mutationId, now + lease)
    case Postpone(mutationId, token, next, code) => Postponed(q, mutationId, next, code, now)
    case Finish(i, token, result) => Completed(q, q.entries[i], result)
    case Rebase(id, version) => RebasedPending(q, id, version)
    case Pull(id, version) => Pulled(q, id, version)
  }

  function Outdated(answers: map<string, Answer>, id: string): map<string, Answer> {
    if id in answers then answers[id := answers[id].(current := false)] else answers
  }

  /** An answer that is no longer current is nothing to a new write; a refusal answers nothing. */
  ghost function AnswersAfter(w: World, op: Op): map<string, Answer> {
    match op
    case Write(o, _) => if o.id in w.answers && !w.answers[o.id].current then w.answers - {o.id} else w.answers
    case Finish(i, _, result) =>
      if 0 <= i < |w.queue.entries| && result.disposition != Rejected && w.queue.entries[i].mutation.observation.Some? then
        w.answers[w.queue.entries[i].mutation.recordId := Answer(w.queue.entries[i].mutation.observation.value, true)]
      else w.answers
    case Rebase(id, _) => Outdated(w.answers, id)
    case Pull(id, _) => Outdated(w.answers, id)
    case _ => w.answers
  }

  ghost function Did(w: World, d: Derivation, op: Op, now: Time): World
    requires Allowed(w, d, op, now)
  {
    World(QueueAfter(w, d, op, now), AnswersAfter(w, op), if op.Lease? then w.issued + TokenSet(op.tokens) else w.issued)
  }

  ghost predicate Runs(w: World, d: Derivation, clock: Time, moments: seq<Moment>)
    decreases |moments|
  {
    moments == []
    || (clock <= moments[0].now && Allowed(w, d, moments[0].op, moments[0].now)
        && Runs(Did(w, d, moments[0].op, moments[0].now), d, moments[0].now, moments[1..]))
  }

  ghost function EndOf(w: World, d: Derivation, clock: Time, moments: seq<Moment>): World
    requires Runs(w, d, clock, moments)
    decreases |moments|
  {
    if moments == [] then w else EndOf(Did(w, d, moments[0].op, moments[0].now), d, moments[0].now, moments[1..])
  }

  // ---------------------------------------------------------------- validity

  ghost predicate WorldValid(w: World, clock: Time) {
    QueueValid(w.queue, clock) && TokensKnown(w.queue.claims, w.issued, clock)
  }

  /** What one operation is to claims and receipts: tokens only give way to new ones, and receipts are final. */
  ghost predicate Fenced(w: World, u: World) {
    && ClaimsMove(w.queue.claims, u.queue.claims, w.issued) && w.issued <= u.issued
    && ReceiptsGrow(w.queue, u.queue)
  }

  lemma ReceiptsKept(q: Queue, u: Queue, clock: Time)
    requires QueueValid(u, clock) && forall m | m in q.receipts :: m in u.receipts && u.receipts[m] == q.receipts[m]
    ensures ReceiptsGrow(q, u)
  {
    hide EntriesValid, ClaimsPlaced, Queued;
  }

  lemma ClaimedIsFirst(q: Queue, i: int, token: string, now: Time)
    requires ClaimsPlaced(q) && 0 <= i < |q.entries| && Holds(q, MutationIdOf(q.entries[i]), token, now)
    ensures First(q, i)
  {
    hide First;
  }

  lemma LeaseKeepsWorld(w: World, d: Derivation, op: Op, now: Time)
    requires WorldValid(w, now) && Allowed(w, d, op, now) && op.Lease?
    ensures WorldValid(Did(w, d, op, now), now) && Fenced(w, Did(w, d, op, now))
  {
    hide QueueValid, TokensKnown, ClaimsMove, ReceiptsGrow, LeasedOut, Claimable, AllDifferent, TokenSet, IdsOf;
    var q := w.queue;
    var u := q.(claims := op.claims);
    LeasingKeepsValid(q, u, op.ready, IdsOf(q, op.ready), op.tokens, w.issued, now, now, now + op.lease, op.eligible);
    ReceiptsKept(q, u, now);
  }

  lemma RenewKeepsWorld(w: World, d: Derivation, op: Op, now: Time)
    requires WorldValid(w, now) && Allowed(w, d, op, now) && op.Renew?
    ensures WorldValid(Did(w, d, op, now), now) && Fenced(w, Did(w, d, op, now))
  {
    hide QueueValid, ReceiptsGrow;
    LeaseMoves(w.queue, op.mutationId, now + op.lease, now);
    ReceiptsKept(w.queue, Did(w, d, op, now).queue, now);
  }

  lemma FinishKeepsWorld(w: World, d: Derivation, op: Op, now: Time)
    requires WorldValid(w, now) && Allowed(w, d, op, now) && op.Finish?
    ensures WorldValid(Did(w, d, op, now), now) && Fenced(w, Did(w, d, op, now)) && First(w.queue, op.index)
  {
    hide QueueValid, TokensKnown, ClaimsMove, ReceiptsGrow, Recordable, First, Completed, ResultReadable, Holds, SequenceTaken, AnswersAfter;
    var q := w.queue;
    QueueParts(q, now);
    ClaimedIsFirst(q, op.index, op.token, now);
    CompletionKeepsValid(q, op.index, op.result, now);
    CompletionIsFinal(q, op.index, op.result, w.issued, now);
    CompletedRest(q, q.entries[op.index], op.result);
    TokensFewer(q.claims, w.issued, now, MutationIdOf(q.entries[op.index]));
  }

  lemma PostponeKeepsWorld(w: World, d: Derivation, op: Op, now: Time)
    requires WorldValid(w, now) && Allowed(w, d, op, now) && op.Postpone?
    ensures WorldValid(Did(w, d, op, now), now) && Fenced(w, Did(w, d, op, now))
  {
    hide QueueValid, TokensKnown, ClaimsMove, ReceiptsGrow, Postponed;
    PostponedMoves(w.queue, op.mutationId, op.next, op.code, w.issued, now);
    ReceiptsKept(w.queue, Did(w, d, op, now).queue, now);
  }

  lemma RebaseKeepsWorld(w: World, d: Derivation, op: Op, now: Time)
    requires WorldValid(w, now) && Allowed(w, d, op, now) && op.Rebase?
    ensures WorldValid(Did(w, d, op, now), now) && Fenced(w, Did(w, d, op, now))
  {
    hide QueueValid, TokensKnown, ClaimsMove, ReceiptsGrow, RebasedPending, AtWork;
    RebasePendingKeepsValid(w.queue, op.recordId, op.version, now);
    RebasePendingIsFinal(w.queue, op.recordId, op.version, w.issued, now);
  }

  /** The operations that leave the claims alone. */
  lemma RestKeepsWorld(w: World, d: Derivation, op: Op, now: Time)
    requires WorldValid(w, now) && Allowed(w, d, op, now) && (op.Configure? || op.Write? || op.Fill? || op.Pull?)
    ensures WorldValid(Did(w, d, op, now), now) && Fenced(w, Did(w, d, op, now))
  {
    hide QueueValid, TokensKnown, ClaimsMove, ReceiptsGrow, Queueable, SnapshotMutation, BackfillAll, Queued;
    var q := w.queue;
    SameClaims(q.claims, w.issued);
    match op
    case Configure =>
      ConfiguredKeepsValid(q, now);
      ReceiptsKept(q, q.(profile := true), now);
    case Write(o, mutationId) =>
      if q.profile {
        EnqueueKeepsValid(q, o, mutationId, now, now);
        ReceiptsKept(q, Enqueued(q, o, mutationId, now), now);
      } else {
        WriteKeepsValid(q, o, now);
        ReceiptsKept(q, Written(q, o), now);
      }
    case Fill(listing, queued, limit) =>
      BackfillKeepsValid(q, listing, queued, limit, d.derive, now);
      ReceiptsKept(q, BackfillAll(q, listing, queued, limit, d.derive, now).state, now);
    case Pull(id, version) =>
      NothingOf(q, id);
      PullKeepsValid(q, id, version, now);
      ReceiptsKept(q, Pulled(q, id, version), now);
    case _ =>
  }

  lemma NothingOf(q: Queue, id: string)
    requires !HasQueued(q, id)
    ensures forall i | 0 <= i < |q.entries| :: q.entries[i].mutation.recordId != id
  {
  }

  lemma LaterIsValid(w: World, clock: Time, now: Time)
    requires WorldValid(w, clock) && clock <= now
    ensures WorldValid(w, now)
  {
    hide QueueValid;
    ClockMayAdvance(w.queue, clock, now);
    TokensLater(w.queue.claims, w.issued, clock, now);
  }

  /** Every operation keeps the world valid, moves claims only as fencing asks, and keeps receipts final. */
  lemma OpKeepsWorld(w: World, d: Derivation, op: Op, now: Time, clock: Time)
    requires WorldValid(w, clock) && clock <= now && Allowed(w, d, op, now)
    ensures WorldValid(Did(w, d, op, now), now) && Fenced(w, Did(w, d, op, now))
  {
    hide WorldValid, Allowed, Fenced, Did;
    LaterIsValid(w, clock, now);
    match op
    case Lease(_, _, _, _, _) => LeaseKeepsWorld(w, d, op, now);
    case Renew(_, _, _) => RenewKeepsWorld(w, d, op, now);
    case Postpone(_, _, _, _) => PostponeKeepsWorld(w, d, op, now);
    case Finish(_, _, _) => FinishKeepsWorld(w, d, op, now);
    case Rebase(_, _) => RebaseKeepsWorld(w, d, op, now);
    case _ => RestKeepsWorld(w, d, op, now);
  }

  lemma ReceiptsGrowOn(a: Queue, b: Queue, c: Queue)
    requires ReceiptsGrow(a, b) && ReceiptsGrow(b, c)
    ensures ReceiptsGrow(a, c)
  {
    hide Queued;
  }

  /** The leases of a run, state by state. */
  ghost function Trace(w: World, d: Derivation, clock: Time, moments: seq<Moment>): (states: seq<Leases>)
    requires Runs(w, d, clock, moments)
    ensures |states| == |moments| + 1 && states[0] == Leases(w.queue.claims, w.issued)
    ensures states[|moments|] == Leases(EndOf(w, d, clock, moments).queue.claims, EndOf(w, d, clock, moments).issued)
    decreases |moments|
  {
    [Leases(w.queue.claims, w.issued)]
    + if moments == [] then [] else Trace(Did(w, d, moments[0].op, moments[0].now), d, moments[0].now, moments[1..])
  }

  /** A run of operations, by any number of workers, is a run of leases, and its receipts stay. */
  lemma {:induction false} RunIsFenced(w: World, d: Derivation, clock: Time, moments: seq<Moment>)
    requires WorldValid(w, clock) && Runs(w, d, clock, moments)
    ensures LeaseRun(Trace(w, d, clock, moments))
    ensures ReceiptsGrow(w.queue, EndOf(w, d, clock, moments).queue)
    ensures WorldValid(EndOf(w, d, clock, moments), if moments == [] then clock else moments[|moments| - 1].now)
    decreases |moments|
  {
    hide WorldValid, Allowed, Did, ReceiptsGrow, ClaimsMove;
    if moments == [] {
      ValidIsFinal(w, clock);
    } else {
      var u := Did(w, d, moments[0].op, moments[0].now);
      OpKeepsWorld(w, d, moments[0].op, moments[0].now, clock);
      RunIsFenced(u, d, moments[0].now, moments[1..]);
      ReceiptsGrowOn(w.queue, u.queue, EndOf(u, d, moments[0].now, moments[1..]).queue);
      LeaseRunGrows(Leases(w.queue.claims, w.issued), Trace(u, d, moments[0].now, moments[1..]));
    }
  }

  lemma ValidIsFinal(w: World, clock: Time)
    requires WorldValid(w, clock)
    ensures ReceiptsGrow(w.queue, w.queue)
  {
    hide QueueValid;
    ReceiptsKept(w.queue, w.queue, clock);
  }

  lemma LeaseRunGrows(first: Leases, rest: seq<Leases>)
    requires rest != [] && LeaseRun(rest) && ClaimsMove(first.claims, rest[0].claims, first.issued) && first.issued <= rest[0].issued
    ensures LeaseRun([first] + rest)
  {
    hide ClaimsMove;
    var states := [first] + rest;
    forall k | 0 <= k < |states| - 1
      ensures ClaimsMove(states[k].claims, states[k + 1].claims, states[k].issued) && states[k].issued <= states[k + 1].issued
    {
      if k > 0 {
        assert states[k] == rest[k - 1] && states[k + 1] == rest[k];
      }
    }
  }

  /** Over any run: a token once replaced or gone is never in force again, and a completed mutation keeps its one receipt and is never queued again. */
  lemma RunNeverGoesBack(w: World, d: Derivation, clock: Time, moments: seq<Moment>, mutationId: string, token: string)
    requires WorldValid(w, clock) && Runs(w, d, clock, moments)
    ensures var u := EndOf(w, d, clock, moments);
            && (token in w.issued && !InForce(Leases(w.queue.claims, w.issued), mutationId, token) ==>
                  !InForce(Leases(u.queue.claims, u.issued), mutationId, token))
            && (mutationId in w.queue.receipts ==>
                  mutationId in u.queue.receipts && u.queue.receipts[mutationId] == w.queue.receipts[mutationId] && !Queued(u.queue, mutationId))
  {
    hide WorldValid, Runs, EndOf, LeaseRun, Queued;
    RunIsFenced(w, d, clock, moments);
    if token in w.issued && !InForce(Leases(w.queue.claims, w.issued), mutationId, token) {
      StaleForever(Trace(w, d, clock, moments), mutationId, token);
    }
  }

  lemma EmptyIsValid()
    ensures WorldValid(EMPTY_WORLD, 0)
  {
  }

  /** The moment up to which a run from the empty outbox has come. */
  function ClockAfter(moments: seq<Moment>): Time {
    if moments == [] then 0 else moments[|moments| - 1].now
  }

  /** A device's outbox, whatever happened to it before: what is stale stays stale, and what was answered stays answered. */
  lemma DeviceNeverGoesBack(d: Derivation, before: seq<Moment>, moments: seq<Moment>, mutationId: string, token: string)
    requires Runs(EMPTY_WORLD, d, 0, before) && Runs(EndOf(EMPTY_WORLD, d, 0, before), d, ClockAfter(before), moments)
    ensures var w := EndOf(EMPTY_WORLD, d, 0, before);
            var u := EndOf(w, d, ClockAfter(before), moments);
            && (token in w.issued && !InForce(Leases(w.queue.claims, w.issued), mutationId, token) ==>
                  !InForce(Leases(u.queue.claims, u.issued), mutationId, token))
            && (mutationId in w.queue.receipts ==>
                  mutationId in u.queue.receipts && u.queue.receipts[mutationId] == w.queue.receipts[mutationId] && !Queued(u.queue, mutationId))
  {
    hide WorldValid, Runs, EndOf, LeaseRun, Queued;
    EmptyIsValid();
    RunIsFenced(EMPTY_WORLD, d, 0, before);
    RunNeverGoesBack(EndOf(EMPTY_WORLD, d, 0, before), d, ClockAfter(before), moments, mutationId, token);
  }
}
