/** What becomes of local edits on their way through the outbox, and every way one is lost. */
module OutboxEdits {
  import opened Options
  import opened Uuids
  import opened SyncService
  import opened Outbox
  import opened OutboxBackfill
  import opened OutboxRuns

  // -------------------------------------------------------------- invariant

  /** Entry i, if it is the record's newest, carries this content. */
  predicate NewestShows(q: Queue, id: string, o: Observation, i: int)
    requires 0 <= i < |q.entries|
  {
    q.entries[i].mutation.recordId == id && Newest(q, i) ==> q.entries[i].mutation.observation == Some(o)
  }

  /** What is queued last of the record is its last edit. */
  predicate QueuedShows(q: Queue, id: string)
    requires id in q.edits
  {
    forall i | 0 <= i < |q.entries| :: NewestShows(q, id, q.edits[id], i)
  }

  /** The last thing of the record that the server recorded, as accepted or as a conflict, is exactly this edit. */
  predicate Arrived(w: World, id: string) {
    id in w.answers && id in w.queue.edits && w.answers[id].content == w.queue.edits[id]
  }

  /** A record of which nothing is queued will be queued by a backfill that reaches it. */
  predicate Open(q: Queue, d: Derivation, id: string, o: Observation) {
    VersionOf(q, id) == 0 && d.derive(id) !in q.receipts && Queueable(SnapshotMutation(d.derive(id), o, 0))
  }

  /** The last local edit of the record is on its way, has arrived, or is open to a backfill. */
  predicate EditSafe(w: World, d: Derivation, id: string)
    requires id in w.queue.edits
  {
    if HasQueued(w.queue, id) then QueuedShows(w.queue, id)
    else Arrived(w, id) || Open(w.queue, d, id, w.queue.edits[id])
  }

  ghost predicate EditsSafe(w: World, d: Derivation) {
    forall id | id in w.queue.edits :: EditSafe(w, d, id)
  }

  /** Derived ids stand for the records they were derived from, in the queue and in the receipts. */
  ghost predicate DerivedPlaced(q: Queue, d: Derivation) {
    && (forall id | id in q.edits :: id in d.records)
    && (forall i | 0 <= i < |q.entries| && IsDerived(MutationIdOf(q.entries[i])) ::
          MutationIdOf(q.entries[i]) == d.derive(q.entries[i].mutation.recordId))
    && (forall m | m in q.receipts && IsDerived(m) ::
          q.receipts[m].mutation.recordId in d.records && m == d.derive(q.receipts[m].mutation.recordId))
  }

  ghost predicate EditsValid(w: World, d: Derivation, clock: Time) {
    WorldValid(w, clock) && DerivationSound(d) && DerivedPlaced(w.queue, d)
  }

  lemma {:induction false} NewestExists(entries: seq<Entry>, id: string) returns (j: int)
    requires exists i :: 0 <= i < |entries| && entries[i].mutation.recordId == id
    ensures 0 <= j < |entries| && entries[j].mutation.recordId == id && NewestIn(entries, j)
  {
    j := |entries| - 1;
    while entries[j].mutation.recordId != id
      invariant 0 <= j < |entries|
      invariant forall k | j < k < |entries| :: entries[k].mutation.recordId != id
      invariant exists i :: 0 <= i <= j && entries[i].mutation.recordId == id
      decreases j
    {
      j := j - 1;
    }
  }

  // ------------------------------------------------------------ queued edits

  /** An entry of another record at the end is nothing to this one. */
  lemma AppendedElsewhere(q: Queue, u: Queue, id: string)
    requires |u.entries| == |q.entries| + 1 && u.entries[..|q.entries|] == q.entries && u.entries[|q.entries|].mutation.recordId != id
    requires id in q.edits && id in u.edits && u.edits[id] == q.edits[id]
    ensures HasQueued(u, id) <==> HasQueued(q, id)
    ensures QueuedShows(q, id) ==> QueuedShows(u, id)
  {
    var n := |q.entries|;
    if HasQueued(q, id) {
      var i :| 0 <= i < n && q.entries[i].mutation.recordId == id;
      assert u.entries[i] == q.entries[i];
    }
    if HasQueued(u, id) {
      var i :| 0 <= i < |u.entries| && u.entries[i].mutation.recordId == id;
      assert u.entries[i] == q.entries[i];
    }
    forall i | 0 <= i < |u.entries| && QueuedShows(q, id) ensures NewestShows(u, id, u.edits[id], i) {
      if i < n {
        assert u.entries[i] == q.entries[i] && NewestShows(q, id, q.edits[id], i);
        assert Newest(u, i) ==> Newest(q, i) by {
          assert forall k | i < k < n :: u.entries[k] == q.entries[k];
        }
      }
    }
  }

  /** A record's own entry at the end shows its edit. */
  lemma AppendedShows(q: Queue, u: Queue, o: Observation)
    requires |u.entries| == |q.entries| + 1 && u.entries[..|q.entries|] == q.entries
    requires u.entries[|q.entries|].mutation.recordId == o.id && u.entries[|q.entries|].mutation.observation == Some(o)
    requires o.id in u.edits && u.edits[o.id] == o
    ensures HasQueued(u, o.id) && QueuedShows(u, o.id)
  {
    var n := |q.entries|;
    assert u.entries[n].mutation.recordId == o.id;
    forall i | 0 <= i < |u.entries| ensures NewestShows(u, o.id, u.edits[o.id], i) {
      assert i < n && u.entries[i].mutation.recordId == o.id ==> !Newest(u, i) by {
        assert SameRecord(u.entries[n], u.entries[i]) || u.entries[i].mutation.recordId != o.id;
      }
    }
  }

  lemma SameEntriesQueued(q: Queue, u: Queue, id: string)
    requires u.entries == q.entries
    ensures HasQueued(u, id) <==> HasQueued(q, id)
  {
  }

  lemma SameEntriesShow(q: Queue, u: Queue, id: string)
    requires u.entries == q.entries && id in q.edits && id in u.edits && u.edits[id] == q.edits[id] && QueuedShows(q, id)
    ensures QueuedShows(u, id)
  {
    forall i | 0 <= i < |u.entries| ensures NewestShows(u, id, u.edits[id], i) {
      assert NewestShows(q, id, q.edits[id], i);
    }
  }

  lemma SameRecordsQueued(q: Queue, u: Queue, id: string)
    requires |u.entries| == |q.entries| && forall i | 0 <= i < |q.entries| :: u.entries[i].mutation.recordId == q.entries[i].mutation.recordId
    ensures HasQueued(u, id) <==> HasQueued(q, id)
  {
    if HasQueued(q, id) {
      var i :| 0 <= i < |q.entries| && q.entries[i].mutation.recordId == id;
      assert u.entries[i].mutation.recordId == id;
    }
  }

  lemma SameNewest(q: Queue, u: Queue, i: int)
    requires |u.entries| == |q.entries| && forall i | 0 <= i < |q.entries| :: u.entries[i].mutation.recordId == q.entries[i].mutation.recordId
    requires 0 <= i < |q.entries|
    ensures Newest(u, i) <==> Newest(q, i)
  {
    forall j | i < j < |q.entries| ensures SameRecord(u.entries[j], u.entries[i]) <==> SameRecord(q.entries[j], q.entries[i]) {
    }
  }

  /** The same entries but for payloads, which stay or become the record's edit. */
  lemma AlikeShow(q: Queue, u: Queue, id: string)
    requires |u.entries| == |q.entries| && u.edits == q.edits && id in q.edits
    requires forall i | 0 <= i < |q.entries| :: u.entries[i].mutation.recordId == q.entries[i].mutation.recordId
    requires forall i | 0 <= i < |q.entries| && q.entries[i].mutation.recordId == id ::
      u.entries[i].mutation.observation == q.entries[i].mutation.observation || u.entries[i].mutation.observation == Some(q.edits[id])
    ensures HasQueued(u, id) <==> HasQueued(q, id)
    ensures QueuedShows(q, id) ==> QueuedShows(u, id)
  {
    SameRecordsQueued(q, u, id);
    forall i | 0 <= i < |u.entries| && QueuedShows(q, id) ensures NewestShows(u, id, u.edits[id], i) {
      assert NewestShows(q, id, q.edits[id], i);
      SameNewest(q, u, i);
    }
  }

  /** Some entries are gone, the rest kept their payloads' content. */
  predicate Shown(q: Queue, u: Queue, idx: seq<int>) {
    && Thinned(q.entries, u.entries, idx)
    && forall k | 0 <= k < |idx| :: 0 <= idx[k] < |q.entries| && u.entries[k].mutation.observation == q.entries[idx[k]].mutation.observation
  }

  /** A record whose newest entry survives still has its edit queued. */
  lemma NewestSurvives(q: Queue, u: Queue, idx: seq<int>, id: string)
    requires Shown(q, u, idx) && id in q.edits && u.edits == q.edits
    requires forall j | 0 <= j < |q.entries| && q.entries[j].mutation.recordId == id && Newest(q, j) :: j in idx
    requires forall k | 0 <= k < |idx| && Newest(u, k) && u.entries[k].mutation.recordId == id :: 0 <= idx[k] < |q.entries| && Newest(q, idx[k])
    ensures HasQueued(u, id) <==> HasQueued(q, id)
    ensures QueuedShows(q, id) ==> QueuedShows(u, id)
  {
    hide NewestIn;
    if HasQueued(q, id) {
      var j := NewestExists(q.entries, id);
      assert Newest(q, j);
      var p :| 0 <= p < |idx| && idx[p] == j;
      assert u.entries[p].mutation.recordId == id;
    } else {
      NothingAppears(q, u, idx, id);
    }
    forall k | 0 <= k < |u.entries| && QueuedShows(q, id) ensures NewestShows(u, id, u.edits[id], k) {
      ThinnedAt(q.entries, u.entries, idx, k);
      if u.entries[k].mutation.recordId == id && Newest(u, k) {
        assert NewestShows(q, id, q.edits[id], idx[k]);
      }
    }
  }

  lemma NothingAppears(q: Queue, u: Queue, idx: seq<int>, id: string)
    requires Shown(q, u, idx) && !HasQueued(q, id)
    ensures !HasQueued(u, id)
  {
    forall k | 0 <= k < |u.entries| ensures u.entries[k].mutation.recordId != id {
      ThinnedAt(q.entries, u.entries, idx, k);
    }
  }

  /** Where every entry of a record survives, the newest was the newest. */
  lemma StillNewest(q: Queue, u: Queue, idx: seq<int>, k: int)
    requires Thinned(q.entries, u.entries, idx) && 0 <= k < |idx| && |idx| == |u.entries| && 0 <= idx[k] < |q.entries| && Newest(u, k)
    requires forall j | 0 <= j < |q.entries| && SameRecord(q.entries[j], q.entries[idx[k]]) :: j in idx
    ensures Newest(q, idx[k])
  {
    forall j | idx[k] < j < |q.entries| ensures !SameRecord(q.entries[j], q.entries[idx[k]]) {
      if SameRecord(q.entries[j], q.entries[idx[k]]) {
        LaterSurvivor(q, u, idx, k, j);
      }
    }
  }

  lemma IsQueuedRecord(q: Queue, i: int)
    requires 0 <= i < |q.entries|
    ensures HasQueued(q, q.entries[i].mutation.recordId)
  {
  }

  lemma SettledShows(q: Queue, u: Queue, idx: seq<int>, e: Entry, result: Result)
    requires Thinned(q.entries, u.entries, idx)
    requires forall k | 0 <= k < |idx| ::
      u.entries[k] == if IsAccepted(result) then Settled(q.entries[idx[k]], e.mutation.recordId, result.version) else q.entries[idx[k]]
    ensures Shown(q, u, idx)
  {
  }

  // ------------------------------------------------------------------ writes

  /**
   A write without a profile that leaves nothing behind: it changes nothing of what is queued, or,
   with nothing queued, it says what the server recorded last, or the record is open to a backfill.
   */
  predicate Harmless(w: World, d: Derivation, o: Observation) {
    if HasQueued(w.queue, o.id) then o.id in w.queue.edits && w.queue.edits[o.id] == o
    else (o.id in w.answers && w.answers[o.id] == Answer(o, true)) || Open(w.queue, d, o.id, o)
  }

  lemma QueuedIsEdited(q: Queue, id: string, clock: Time)
    requires QueueValid(q, clock) && HasQueued(q, id)
    ensures id in q.edits
  {
    hide ClaimsPlaced, ReceiptsFinal, InOrder, DistinctMutations, Queueable, SnapshotMutation;
    var i :| 0 <= i < |q.entries| && q.entries[i].mutation.recordId == id;
    assert EntryCurrent(q, q.entries[i]);
  }

  /** What an operation leaves of a record it is not about. */
  lemma SafeElsewhere(w: World, u: World, d: Derivation, id: string)
    requires id in w.queue.edits && EditSafe(w, d, id)
    requires id in u.queue.edits && u.queue.edits[id] == w.queue.edits[id] && VersionOf(u.queue, id) == VersionOf(w.queue, id)
    requires d.derive(id) in u.queue.receipts ==> d.derive(id) in w.queue.receipts
    requires id in w.answers ==> id in u.answers && u.answers[id].content == w.answers[id].content
    requires HasQueued(w.queue, id) <==> HasQueued(u.queue, id)
    requires QueuedShows(w.queue, id) ==> QueuedShows(u.queue, id)
    ensures EditSafe(u, d, id)
  {
    hide HasQueued, QueuedShows, Queueable, SnapshotMutation;
  }

  lemma QueuedWriteKeepsEdits(w: World, d: Derivation, op: Op, now: Time)
    requires EditsSafe(w, d) && Allowed(w, d, op, now) && op.Write? && w.queue.profile
    ensures EditsSafe(Did(w, d, op, now), d)
  {
    hide Queueable, HasQueued, QueuedShows, EditSafe, Allowed;
    var q := w.queue;
    var u := Did(w, d, op, now);
    SnapshotFields(op.mutationId, op.o, VersionOf(q, op.o.id));
    hide SnapshotMutation;
    forall id | id in u.queue.edits ensures EditSafe(u, d, id) {
      if id == op.o.id {
        AppendedShows(q, u.queue, op.o);
        ShownIsSafe(u, d, id);
      } else {
        AppendedElsewhere(q, u.queue, id);
        SafeElsewhere(w, u, d, id);
      }
    }
  }

  lemma ShownIsSafe(w: World, d: Derivation, id: string)
    requires id in w.queue.edits && HasQueued(w.queue, id) && QueuedShows(w.queue, id)
    ensures EditSafe(w, d, id)
  {
    hide QueuedShows;
  }

  lemma WrittenIsSafeExactly(w: World, d: Derivation, op: Op, now: Time, clock: Time)
    requires QueueValid(w.queue, clock) && Allowed(w, d, op, now) && op.Write? && !w.queue.profile
    requires op.o.id in w.queue.edits ==> EditSafe(w, d, op.o.id)
    ensures var u := Did(w, d, op, now);
            op.o.id in u.queue.edits && (EditSafe(u, d, op.o.id) <==> Harmless(w, d, op.o))
  {
    hide QueueValid, Queueable, SnapshotMutation, NewestIn;
    var q, o := w.queue, op.o;
    var u := Did(w, d, op, now);
    SameEntriesQueued(q, u.queue, o.id);
    if HasQueued(q, o.id) {
      QueuedIsEdited(q, o.id, clock);
      var j := NewestExists(q.entries, o.id);
      assert Newest(q, j) && NewestShows(q, o.id, q.edits[o.id], j);
      assert u.queue.entries[j] == q.entries[j] && Newest(u.queue, j);
      if q.edits[o.id] == o {
        SameEntriesShow(q, u.queue, o.id);
      } else {
        assert !NewestShows(u.queue, o.id, u.queue.edits[o.id], j);
        assert !QueuedShows(u.queue, o.id);
      }
    } else {
      assert Open(u.queue, d, o.id, o) <==> Open(q, d, o.id, o);
      assert Arrived(u, o.id) <==> o.id in w.answers && w.answers[o.id] == Answer(o, true) by {
        assert u.answers == AnswersAfter(w, op);
      }
    }
  }

  /** Without a profile a write keeps the edits safe if and only if it is harmless. */
  lemma PlainWriteKeepsEditsExactly(w: World, d: Derivation, op: Op, now: Time, clock: Time)
    requires QueueValid(w.queue, clock) && EditsSafe(w, d) && Allowed(w, d, op, now) && op.Write? && !w.queue.profile
    ensures EditsSafe(Did(w, d, op, now), d) <==> Harmless(w, d, op.o)
  {
    hide QueueValid, Queueable, SnapshotMutation, HasQueued, QueuedShows, EditSafe, Harmless;
    var q := w.queue;
    var u := Did(w, d, op, now);
    forall id | id in u.queue.edits && id != op.o.id ensures EditSafe(u, d, id) {
      SameEntriesQueued(q, u.queue, id);
      if QueuedShows(q, id) {
        SameEntriesShow(q, u.queue, id);
      }
      SafeElsewhere(w, u, d, id);
    }
    WrittenIsSafeExactly(w, d, op, now, clock);
  }

  /** A write keeps the edits safe if and only if a sync profile exists or the write is harmless. */
  lemma SaveKeepsEditsExactly(w: World, d: Derivation, op: Op, now: Time, clock: Time)
    requires QueueValid(w.queue, clock) && EditsSafe(w, d) && Allowed(w, d, op, now) && op.Write?
    ensures EditsSafe(Did(w, d, op, now), d) <==> w.queue.profile || Harmless(w, d, op.o)
  {
    hide QueueValid, EditsSafe, Allowed, Did, Harmless;
    if w.queue.profile {
      QueuedWriteKeepsEdits(w, d, op, now);
    } else {
      PlainWriteKeepsEditsExactly(w, d, op, now, clock);
    }
  }

  // ---------------------------------------------------------------- backfill

  lemma BackfillOneShows(q: Queue, recordId: string, derived: string, queued: nat, now: Time, id: string)
    requires QueueValid(q, now) && recordId in q.edits && VersionOf(q, recordId) == 0 && id in q.edits
    requires BackfillOne(q, recordId, derived, queued, now).Backfilled?
    requires HasQueued(q, id) ==> QueuedShows(q, id)
    ensures var u := BackfillOne(q, recordId, derived, queued, now).state;
            id in u.edits && (HasQueued(q, id) ==> HasQueued(u, id)) && (HasQueued(u, id) ==> QueuedShows(u, id))
  {
    hide EntriesValid, ClaimsPlaced, ReceiptsFinal, Queueable, HasQueued, QueuedShows, FirstCreate;
    var u := BackfillOne(q, recordId, derived, queued, now).state;
    var o := q.edits[recordId];
    var at := FirstCreate(q.entries, recordId, 0);
    BackfillOneKeepsValid(q, recordId, derived, queued, now);
    if at.None? {
      SnapshotFields(derived, o, VersionOf(q, o.id));
      if id == recordId {
        AppendedShows(q, u, o);
      } else {
        AppendedElsewhere(q, u, id);
      }
    } else {
      SnapshotFields(MutationIdOf(q.entries[at.value]), o, 0);
      AlikeShow(q, u, id);
    }
  }

  lemma {:induction false} BackfillShows(q: Queue, listing: seq<string>, queued: nat, limit: int, derive: string -> string, now: Time, id: string)
    requires QueueValid(q, now) && id in q.edits && forall k | 0 <= k < |listing| :: listing[k] in q.edits
    requires BackfillAll(q, listing, queued, limit, derive, now).Backfilled?
    requires HasQueued(q, id) ==> QueuedShows(q, id)
    ensures var u := BackfillAll(q, listing, queued, limit, derive, now).state;
            id in u.edits && (HasQueued(q, id) ==> HasQueued(u, id)) && (HasQueued(u, id) ==> QueuedShows(u, id))
    decreases |listing|
  {
    hide QueueValid, BackfillOne, HasQueued, QueuedShows;
    if listing != [] && queued < limit {
      if VersionOf(q, listing[0]) != 0 {
        BackfillShows(q, listing[1..], queued, limit, derive, now, id);
      } else {
        var one := BackfillOne(q, listing[0], derive(listing[0]), queued, now);
        BackfillOneKeepsValid(q, listing[0], derive(listing[0]), queued, now);
        BackfillOneShows(q, listing[0], derive(listing[0]), queued, now, id);
        BackfillShows(one.state, listing[1..], one.queued, limit, derive, now, id);
      }
    }
  }

  lemma FillKeepsEdits(w: World, d: Derivation, op: Op, now: Time)
    requires QueueValid(w.queue, now) && EditsSafe(w, d) && Allowed(w, d, op, now) && op.Fill?
    ensures EditsSafe(Did(w, d, op, now), d)
  {
    hide QueueValid, BackfillAll, HasQueued, QueuedShows, Queueable, SnapshotMutation;
    var q := w.queue;
    var u := Did(w, d, op, now);
    BackfillKeepsValid(q, op.listing, op.queued, op.limit, d.derive, now);
    forall id | id in u.queue.edits ensures EditSafe(u, d, id) {
      assert EditSafe(w, d, id);
      BackfillShows(q, op.listing, op.queued, op.limit, d.derive, now, id);
    }
  }

  // -------------------------------------------------- leases, retries, pulls

  /** Operations that leave contents, versions, receipts and answers alone. */
  lemma AlikeKeepsEdits(w: World, u: World, d: Derivation)
    requires EditsSafe(w, d) && u.answers == w.answers
    requires u.queue.edits == w.queue.edits && u.queue.versions == w.queue.versions && u.queue.receipts == w.queue.receipts
    requires |u.queue.entries| == |w.queue.entries|
    requires forall i | 0 <= i < |w.queue.entries| :: u.queue.entries[i].mutation == w.queue.entries[i].mutation
    ensures EditsSafe(u, d)
  {
    hide EditSafe, HasQueued, QueuedShows;
    forall id | id in u.queue.edits ensures EditSafe(u, d, id) {
      AlikeShow(w.queue, u.queue, id);
      SafeElsewhere(w, u, d, id);
    }
  }

  lemma WorkKeepsEdits(w: World, d: Derivation, op: Op, now: Time)
    requires EditsSafe(w, d) && Allowed(w, d, op, now) && (op.Configure? || op.Lease? || op.Renew? || op.Postpone?)
    ensures EditsSafe(Did(w, d, op, now), d)
  {
    hide EditsSafe, EditSafe, AllClaimable, AllDifferent, LeasedOut, Holds, TokenSet, IdsOf;
    AlikeKeepsEdits(w, Did(w, d, op, now), d);
  }

  lemma EditedHasVersion(q: Queue, id: string, clock: Time)
    requires QueueValid(q, clock) && id in q.edits
    ensures id in q.versions
  {
    hide EntriesValid, ClaimsPlaced, ReceiptsFinal;
  }

  /** A pulled version or a landed conflict on a record that has one: its edit had arrived, or is queued. */
  lemma VersionedKeepsEdit(w: World, u: World, d: Derivation, id: string)
    requires id in w.queue.edits && EditSafe(w, d, id) && 1 <= VersionOf(w.queue, id)
    requires u.queue.edits == w.queue.edits
    requires id in w.answers ==> id in u.answers && u.answers[id].content == w.answers[id].content
    requires HasQueued(w.queue, id) <==> HasQueued(u.queue, id)
    requires QueuedShows(w.queue, id) ==> QueuedShows(u.queue, id)
    ensures EditSafe(u, d, id)
  {
    hide HasQueued, QueuedShows, Queueable, SnapshotMutation;
  }

  lemma PullKeepsEdits(w: World, d: Derivation, op: Op, now: Time)
    requires QueueValid(w.queue, now) && EditsSafe(w, d) && Allowed(w, d, op, now) && op.Pull?
    ensures EditsSafe(Did(w, d, op, now), d)
  {
    hide QueueValid, EditSafe, HasQueued, QueuedShows;
    var q := w.queue;
    var u := Did(w, d, op, now);
    forall id | id in u.queue.edits ensures EditSafe(u, d, id) {
      SameEntriesQueued(q, u.queue, id);
      if QueuedShows(q, id) {
        SameEntriesShow(q, u.queue, id);
      }
      if id == op.recordId {
        EditedHasVersion(q, id, now);
        VersionedKeepsEdit(w, u, d, id);
      } else {
        SafeElsewhere(w, u, d, id);
      }
    }
  }

  /** Landing a conflict or a resolution keeps the newest edit of every record. */
  lemma RebaseKeepsEdits(w: World, d: Derivation, op: Op, now: Time)
    requires QueueValid(w.queue, now) && EditsSafe(w, d) && Allowed(w, d, op, now) && op.Rebase?
    ensures EditsSafe(Did(w, d, op, now), d)
  {
    hide EntriesValid, ClaimsPlaced, ReceiptsFinal, RebasedPending, EditSafe, HasQueued, QueuedShows, NewestIn, AtWork;
    var q := w.queue;
    var u := Did(w, d, op, now);
    RebasedPendingRest(q, op.recordId, op.version);
    var idx := RebasedIndices(q, op.recordId, op.version, now);
    assert Shown(q, u.queue, idx);
    forall id | id in u.queue.edits ensures EditSafe(u, d, id) {
      forall k | 0 <= k < |idx| && Newest(u.queue, k) && u.queue.entries[k].mutation.recordId == id
        ensures 0 <= idx[k] < |q.entries| && Newest(q, idx[k])
      {
        ThinnedAt(q.entries, u.queue.entries, idx, k);
        if id != op.recordId {
          StillNewest(q, u.queue, idx, k);
        }
      }
      NewestSurvives(q, u.queue, idx, id);
      if id == op.recordId {
        VersionedKeepsEdit(w, u, d, id);
      } else {
        SafeElsewhere(w, u, d, id);
      }
    }
  }

  // ------------------------------------------------------------ completions

  /**
   A refusal that takes the last edit of a record out of the queue without the server having it:
   nothing else of the record is queued, its last answer was about something else, and no backfill
   will queue it, because it has a version or its derived id is spent.
   */
  predicate LosingRefusal(w: World, d: Derivation, i: int, result: Result)
    requires 0 <= i < |w.queue.entries|
  {
    var e := w.queue.entries[i];
    var id := e.mutation.recordId;
    && result.disposition == Rejected && Newest(w.queue, i) && !Arrived(w, id)
    && (VersionOf(w.queue, id) != 0 || d.derive(id) in w.queue.receipts || MutationIdOf(e) == d.derive(id))
  }

  /** A valid id in place of another leaves a mutation valid. */
  lemma QueueableUnderOtherId(mutationId: string, other: string, o: Observation, version: int)
    requires Queueable(SnapshotMutation(mutationId, o, version)) && IsCanonicalUuid(other)
    ensures Queueable(SnapshotMutation(other, o, version))
  {
    hide ByteLength, Blank, ValidId, ObservationExceedsLimits, ValidObservation;
  }

  /** The only entry of a record, completed: nothing of it is queued. */
  lemma NothingLeft(q: Queue, u: Queue, idx: seq<int>, i: int)
    requires InOrder(q.entries) && Thinned(q.entries, u.entries, idx) && i !in idx
    requires 0 <= i < |q.entries| && First(q, i) && Newest(q, i)
    ensures !HasQueued(u, q.entries[i].mutation.recordId)
  {
    hide InOrder, Earlier;
    forall k | 0 <= k < |u.entries| ensures u.entries[k].mutation.recordId != q.entries[i].mutation.recordId {
      ThinnedAt(q.entries, u.entries, idx, k);
      EarlierIsBefore(q.entries, idx[k], i);
      assert idx[k] in idx && idx[k] != i;
    }
  }

  /** A completed entry that was its record's last: what the record rests on afterwards. */
  lemma LastCompletedExactly(w: World, d: Derivation, op: Op, now: Time)
    requires WorldValid(w, now) && DerivationSound(d) && DerivedPlaced(w.queue, d) && Allowed(w, d, op, now) && op.Finish?
    requires Newest(w.queue, op.index)
    ensures var id := w.queue.entries[op.index].mutation.recordId;
            var u := Did(w, d, op, now);
            id in w.queue.edits && (EditSafe(w, d, id) ==> (EditSafe(u, d, id) <==> !LosingRefusal(w, d, op.index, op.result)))
  {
    hide TokensKnown, Holds, ResultReadable, Recordable, SequenceTaken, Coalesced, WithoutEntry, Queueable, Thinned, NewestIn, InOrder, DistinctMutations,
      ClaimsPlaced, ReceiptsFinal, First;
    var q, i := w.queue, op.index;
    var e := q.entries[i];
    var id := e.mutation.recordId;
    var u := Did(w, d, op, now);
    QueueParts(q, now);
    ClaimedIsFirst(q, i, op.token, now);
    var idx := CompletedIndices(q, i, op.result);
    NothingLeft(q, u.queue, idx, i);
    IsQueuedRecord(q, i);
    assert EntryCurrent(q, e) && Queueable(e.mutation);
    if EditSafe(w, d, id) {
      assert NewestShows(q, id, q.edits[id], i);
      var o := q.edits[id];
      assert o == e.mutation.observation.value;
      if VersionOf(q, id) == 0 {
        QueueableUnderOtherId(MutationIdOf(e), d.derive(id), o, 0);
      }
      hide SnapshotMutation;
      assert u.queue.edits == q.edits && u.queue.receipts.Keys == q.receipts.Keys + {MutationIdOf(e)};
      if op.result.disposition == Rejected {
        assert u.queue.versions == q.versions && u.answers == w.answers;
        assert Arrived(u, id) <==> Arrived(w, id);
      } else {
        assert Arrived(u, id);
      }
    }
  }

  /** A completion whose record has more queued, or is another's, leaves the record's edit where it is. */
  lemma CompletedElsewhere(w: World, d: Derivation, op: Op, now: Time, id: string)
    requires EditsValid(w, d, now) && Allowed(w, d, op, now) && op.Finish?
    requires id in w.queue.edits && EditSafe(w, d, id)
    requires !(id == w.queue.entries[op.index].mutation.recordId && Newest(w.queue, op.index))
    ensures var u := Did(w, d, op, now); id in u.queue.edits && EditSafe(u, d, id)
  {
    hide QueueValid, TokensKnown, Holds, ResultReadable, Recordable, SequenceTaken, Coalesced, WithoutEntry, EditSafe, HasQueued, QueuedShows,
      NewestIn, InOrder, DistinctMutations, ClaimsPlaced, ReceiptsFinal, First;
    var q, i := w.queue, op.index;
    var e := q.entries[i];
    var u := Did(w, d, op, now);
    QueueParts(q, now);
    ClaimedIsFirst(q, i, op.token, now);
    CompletedRest(q, e, op.result);
    var idx := CompletedIndices(q, i, op.result);
    SettledShows(q, u.queue, idx, e, op.result);
    forall k | 0 <= k < |idx| && Newest(u.queue, k) && u.queue.entries[k].mutation.recordId == id ensures 0 <= idx[k] < |q.entries| && Newest(q, idx[k]) {
      ThinnedLength(q.entries, u.queue.entries, idx);
      ThinnedAt(q.entries, u.queue.entries, idx, k);
      NewestWasNewest(q, u.queue, i, op.result, idx, k);
    }
    NewestSurvives(q, u.queue, idx, id);
    IsQueuedRecord(q, i);
    if id == e.mutation.recordId {
      QueuedIsSafe(w, u, d, id);
    } else {
      QueuedIsEdited(q, e.mutation.recordId, now);
      DerivedElsewhere(q, d, i, id);
      SafeElsewhere(w, u, d, id);
    }
  }

  lemma QueuedIsSafe(w: World, u: World, d: Derivation, id: string)
    requires id in w.queue.edits && EditSafe(w, d, id) && HasQueued(w.queue, id)
    requires u.queue.edits == w.queue.edits && HasQueued(u.queue, id)
    requires QueuedShows(w.queue, id) ==> QueuedShows(u.queue, id)
    ensures EditSafe(u, d, id)
  {
    hide HasQueued, QueuedShows;
  }

  /** A record's derived id is not that of another record's entry. */
  lemma DerivedElsewhere(q: Queue, d: Derivation, i: int, id: string)
    requires DerivationSound(d) && DerivedPlaced(q, d) && 0 <= i < |q.entries| && q.entries[i].mutation.recordId in q.edits
    requires id in q.edits && id != q.entries[i].mutation.recordId
    ensures d.derive(id) != MutationIdOf(q.entries[i])
  {
    hide IsCanonicalUuid;
  }

  /** A completion keeps the edits safe if and only if it is not a refusal that loses one. */
  lemma CompletionKeepsEditsExactly(w: World, d: Derivation, op: Op, now: Time)
    requires EditsValid(w, d, now) && EditsSafe(w, d) && Allowed(w, d, op, now) && op.Finish?
    ensures EditsSafe(Did(w, d, op, now), d) <==> !LosingRefusal(w, d, op.index, op.result)
  {
    hide EditsValid, EditSafe, Allowed, Newest, Arrived, Did;
    var i := op.index;
    var u := Did(w, d, op, now);
    FinishKeepsRecords(w, d, op, now);
    var id := w.queue.entries[i].mutation.recordId;
    forall other | other in u.queue.edits && !(other == id && Newest(w.queue, i)) ensures EditSafe(u, d, other) {
      CompletedElsewhere(w, d, op, now, other);
    }
    if Newest(w.queue, i) {
      PartsOfEdits(w, d, now);
      LastCompletedExactly(w, d, op, now);
    }
  }

  lemma PartsOfEdits(w: World, d: Derivation, clock: Time)
    requires EditsValid(w, d, clock)
    ensures WorldValid(w, clock) && DerivationSound(d) && DerivedPlaced(w.queue, d)
  {
    hide WorldValid, DerivationSound, DerivedPlaced;
  }

  lemma FinishKeepsRecords(w: World, d: Derivation, op: Op, now: Time)
    requires Allowed(w, d, op, now) && op.Finish?
    ensures 0 <= op.index < |w.queue.entries| && Did(w, d, op, now).queue.edits == w.queue.edits
  {
    hide Holds, ResultReadable, Recordable, SequenceTaken, Coalesced, WithoutEntry;
  }

  // ------------------------------------------------------------- derived ids

  lemma PlacedByEntries(q: Queue, u: Queue, d: Derivation)
    requires DerivedPlaced(q, d) && u.edits == q.edits && u.receipts == q.receipts
    requires forall i | 0 <= i < |u.entries| && IsDerived(MutationIdOf(u.entries[i])) ::
      MutationIdOf(u.entries[i]) == d.derive(u.entries[i].mutation.recordId)
    ensures DerivedPlaced(u, d)
  {
  }

  lemma WriteKeepsPlaced(w: World, d: Derivation, op: Op, now: Time)
    requires DerivedPlaced(w.queue, d) && Allowed(w, d, op, now) && op.Write?
    ensures DerivedPlaced(Did(w, d, op, now).queue, d)
  {
    hide Queueable, Queued;
    SnapshotFields(op.mutationId, op.o, VersionOf(w.queue, op.o.id));
  }

  lemma {:induction false} BackfillKeepsPlaced(q: Queue, d: Derivation, listing: seq<string>, queued: nat, limit: int, now: Time)
    requires QueueValid(q, now) && DerivedPlaced(q, d) && forall k | 0 <= k < |listing| :: listing[k] in q.edits
    requires BackfillAll(q, listing, queued, limit, d.derive, now).Backfilled?
    ensures DerivedPlaced(BackfillAll(q, listing, queued, limit, d.derive, now).state, d)
    decreases |listing|
  {
    hide QueueValid, BackfillOne, DerivedPlaced;
    if listing != [] && queued < limit {
      if VersionOf(q, listing[0]) != 0 {
        BackfillKeepsPlaced(q, d, listing[1..], queued, limit, now);
      } else {
        var one := BackfillOne(q, listing[0], d.derive(listing[0]), queued, now);
        BackfillOneKeepsValid(q, listing[0], d.derive(listing[0]), queued, now);
        BackfillOneKeepsPlaced(q, d, listing[0], queued, now);
        BackfillKeepsPlaced(one.state, d, listing[1..], one.queued, limit, now);
      }
    }
  }

  lemma BackfillOneKeepsPlaced(q: Queue, d: Derivation, recordId: string, queued: nat, now: Time)
    requires QueueValid(q, now) && DerivedPlaced(q, d) && recordId in q.edits && VersionOf(q, recordId) == 0
    requires BackfillOne(q, recordId, d.derive(recordId), queued, now).Backfilled?
    ensures DerivedPlaced(BackfillOne(q, recordId, d.derive(recordId), queued, now).state, d)
  {
    hide EntriesValid, ClaimsPlaced, ReceiptsFinal, Queueable, FirstCreate, Queued;
    BackfillOneKeepsValid(q, recordId, d.derive(recordId), queued, now);
    PlacedByEntries(q, BackfillOne(q, recordId, d.derive(recordId), queued, now).state, d);
  }

  lemma ThinnedKeepsPlaced(q: Queue, u: Queue, d: Derivation, idx: seq<int>)
    requires DerivedPlaced(q, d) && Thinned(q.entries, u.entries, idx) && u.edits == q.edits
    requires forall m | m in u.receipts && IsDerived(m) :: u.receipts[m].mutation.recordId in d.records && m == d.derive(u.receipts[m].mutation.recordId)
    ensures DerivedPlaced(u, d)
  {
    hide IsDerived;
    forall k | 0 <= k < |u.entries| && IsDerived(MutationIdOf(u.entries[k]))
      ensures MutationIdOf(u.entries[k]) == d.derive(u.entries[k].mutation.recordId)
    {
      ThinnedAt(q.entries, u.entries, idx, k);
    }
  }

  lemma FinishKeepsPlaced(w: World, d: Derivation, op: Op, now: Time)
    requires WorldValid(w, now) && DerivedPlaced(w.queue, d) && Allowed(w, d, op, now) && op.Finish?
    ensures DerivedPlaced(Did(w, d, op, now).queue, d)
  {
    hide QueueValid, TokensKnown, Holds, ResultReadable, Recordable, SequenceTaken, Coalesced, WithoutEntry, InOrder, DistinctMutations,
      ClaimsPlaced, ReceiptsFinal, First, NewestIn, Thinned, IsDerived;
    var q := w.queue;
    QueueParts(q, now);
    ClaimedIsFirst(q, op.index, op.token, now);
    var idx := CompletedIndices(q, op.index, op.result);
    CompletedRest(q, q.entries[op.index], op.result);
    IsQueuedRecord(q, op.index);
    QueuedIsEdited(q, q.entries[op.index].mutation.recordId, now);
    ThinnedKeepsPlaced(q, Did(w, d, op, now).queue, d, idx);
  }

  lemma RebaseKeepsPlaced(w: World, d: Derivation, op: Op, now: Time)
    requires WorldValid(w, now) && DerivedPlaced(w.queue, d) && Allowed(w, d, op, now) && op.Rebase?
    ensures DerivedPlaced(Did(w, d, op, now).queue, d)
  {
    hide EntriesValid, ClaimsPlaced, ReceiptsFinal, RebasedPending, NewestIn, AtWork, Thinned, IsDerived, TokensKnown;
    var q := w.queue;
    RebasedPendingRest(q, op.recordId, op.version);
    var idx := RebasedIndices(q, op.recordId, op.version, now);
    ThinnedKeepsPlaced(q, Did(w, d, op, now).queue, d, idx);
  }

  lemma OpKeepsPlaced(w: World, d: Derivation, op: Op, now: Time)
    requires WorldValid(w, now) && DerivedPlaced(w.queue, d) && Allowed(w, d, op, now)
    ensures DerivedPlaced(Did(w, d, op, now).queue, d)
  {
    hide QueueValid, TokensKnown, DerivedPlaced, RebasedPending, Completed, BackfillAll, Postponed, Holds, AllClaimable, LeasedOut;
    var q := w.queue;
    var u := Did(w, d, op, now).queue;
    match op
    case Write(_, _) => WriteKeepsPlaced(w, d, op, now);
    case Fill(listing, queued, limit) => BackfillKeepsPlaced(q, d, listing, queued, limit, now);
    case Finish(_, _, _) => FinishKeepsPlaced(w, d, op, now);
    case Rebase(_, _) => RebaseKeepsPlaced(w, d, op, now);
    case Postpone(m, _, next, code) => PostponedPlaced(q, m, next, code, now, d);
    case _ => SamePlaced(q, u, d);
  }

  lemma PostponedPlaced(q: Queue, mutationId: string, next: Time, code: ResultCode, now: Time, d: Derivation)
    requires DerivedPlaced(q, d)
    ensures DerivedPlaced(Postponed(q, mutationId, next, code, now), d)
  {
    hide IsDerived;
    PlacedByEntries(q, Postponed(q, mutationId, next, code, now), d);
  }

  lemma SamePlaced(q: Queue, u: Queue, d: Derivation)
    requires DerivedPlaced(q, d) && u.entries == q.entries && u.edits == q.edits && u.receipts == q.receipts
    ensures DerivedPlaced(u, d)
  {
    hide IsDerived;
  }

  // ------------------------------------------------------------------- runs

  /** The operations that lose an edit: a write without a profile that is not harmless, and a losing refusal. */
  ghost predicate Loses(w: World, d: Derivation, op: Op) {
    || (op.Write? && !w.queue.profile && !Harmless(w, d, op.o))
    || (op.Finish? && 0 <= op.index < |w.queue.entries| && LosingRefusal(w, d, op.index, op.result))
  }

  /** Every operation keeps the edits safe exactly unless it is one that loses one. */
  lemma OpKeepsEditsExactly(w: World, d: Derivation, op: Op, now: Time, clock: Time)
    requires EditsValid(w, d, clock) && clock <= now && EditsSafe(w, d) && Allowed(w, d, op, now)
    ensures EditsValid(Did(w, d, op, now), d, now)
    ensures EditsSafe(Did(w, d, op, now), d) <==> !Loses(w, d, op)
  {
    hide WorldValid, DerivationSound, DerivedPlaced, EditsSafe, Allowed, Did, Harmless, LosingRefusal;
    LaterIsValid(w, clock, now);
    OpKeepsWorld(w, d, op, now, now);
    OpKeepsPlaced(w, d, op, now);
    QueueOfWorld(w, now);
    match op
    case Write(_, _) => SaveKeepsEditsExactly(w, d, op, now, now);
    case Fill(_, _, _) => FillKeepsEdits(w, d, op, now);
    case Finish(_, _, _) =>
      FinishKeepsRecords(w, d, op, now);
      CompletionKeepsEditsExactly(w, d, op, now);
    case Rebase(_, _) => RebaseKeepsEdits(w, d, op, now);
    case Pull(_, _) => PullKeepsEdits(w, d, op, now);
    case _ => WorkKeepsEdits(w, d, op, now);
  }

  lemma QueueOfWorld(w: World, clock: Time)
    requires WorldValid(w, clock)
    ensures QueueValid(w.queue, clock)
  {
    hide QueueValid;
  }

  ghost predicate AllSafe(w: World, d: Derivation, clock: Time, moments: seq<Moment>)
    requires Runs(w, d, clock, moments)
    decreases |moments|
  {
    EditsSafe(w, d)
    && (moments == [] || AllSafe(Did(w, d, moments[0].op, moments[0].now), d, moments[0].now, moments[1..]))
  }

  /** Some operation of the run loses an edit. */
  ghost predicate LosesEdit(w: World, d: Derivation, clock: Time, moments: seq<Moment>)
    requires Runs(w, d, clock, moments)
    decreases |moments|
  {
    moments != []
    && (Loses(w, d, moments[0].op) || LosesEdit(Did(w, d, moments[0].op, moments[0].now), d, moments[0].now, moments[1..]))
  }

  /**
   Over any run of writes, backfills, leases, retries, results, landed conflicts and pulls, by any
   number of workers, every edit is safe at every moment if and only if no operation of the run is
   a losing write or a losing refusal.
   */
  lemma {:induction false} RunKeepsEditsExactly(w: World, d: Derivation, clock: Time, moments: seq<Moment>)
    requires EditsValid(w, d, clock) && EditsSafe(w, d) && Runs(w, d, clock, moments)
    ensures AllSafe(w, d, clock, moments) <==> !LosesEdit(w, d, clock, moments)
    decreases |moments|
  {
    hide EditsValid, EditsSafe, Allowed, Did, Loses;
    if moments != [] {
      OpKeepsEditsExactly(w, d, moments[0].op, moments[0].now, clock);
      var u := Did(w, d, moments[0].op, moments[0].now);
      if EditsSafe(u, d) {
        RunKeepsEditsExactly(u, d, moments[0].now, moments[1..]);
      }
    }
  }

  /** The results of a run all take what they answer. */
  predicate NeverRefused(moments: seq<Moment>) {
    forall k | 0 <= k < |moments| && moments[k].op.Finish? :: moments[k].op.result.disposition != Rejected
  }

  lemma {:induction false} ProfiledRunLosesNothing(w: World, d: Derivation, clock: Time, moments: seq<Moment>)
    requires w.queue.profile && Runs(w, d, clock, moments) && NeverRefused(moments)
    ensures !LosesEdit(w, d, clock, moments)
    decreases |moments|
  {
    hide Allowed, Harmless, Did, Arrived, Newest;
    if moments != [] {
      ProfileStays(w, d, moments[0].op, moments[0].now);
      assert forall k | 0 <= k < |moments[1..]| :: moments[1..][k] == moments[k + 1];
      ProfiledRunLosesNothing(Did(w, d, moments[0].op, moments[0].now), d, moments[0].now, moments[1..]);
    }
  }

  lemma ProfileStays(w: World, d: Derivation, op: Op, now: Time)
    requires w.queue.profile && Allowed(w, d, op, now)
    ensures Did(w, d, op, now).queue.profile
  {
    hide Coalesced, WithoutEntry, First, Queueable, BackfillAll, Holds, AllClaimable, LeasedOut, Recordable, ResultReadable;
    if op.Fill? {
      FillKeepsProfile(w.queue, op.listing, op.queued, op.limit, d.derive, now);
    }
  }

  lemma {:induction false} FillKeepsProfile(q: Queue, listing: seq<string>, queued: nat, limit: int, derive: string -> string, now: Time)
    requires forall k | 0 <= k < |listing| :: listing[k] in q.edits
    requires BackfillAll(q, listing, queued, limit, derive, now).Backfilled?
    ensures BackfillAll(q, listing, queued, limit, derive, now).state.profile == q.profile
    decreases |listing|
  {
    if listing != [] && queued < limit {
      if VersionOf(q, listing[0]) != 0 {
        FillKeepsProfile(q, listing[1..], queued, limit, derive, now);
      } else {
        var one := BackfillOne(q, listing[0], derive(listing[0]), queued, now);
        FillKeepsProfile(one.state, listing[1..], one.queued, limit, derive, now);
      }
    }
  }

  lemma StartIsSafe(d: Derivation, profile: bool)
    requires DerivationSound(d)
    ensures var w := EMPTY_WORLD.(queue := EMPTY_QUEUE.(profile := profile)); EditsValid(w, d, 0) && EditsSafe(w, d)
  {
    hide DerivationSound;
  }

  /** A device that has its profile before its first write, and of which the server refuses nothing, loses no edit in any run. */
  lemma ConfiguredDeviceLosesNothing(d: Derivation, moments: seq<Moment>)
    requires DerivationSound(d) && NeverRefused(moments)
    requires Runs(EMPTY_WORLD.(queue := EMPTY_QUEUE.(profile := true)), d, 0, moments)
    ensures AllSafe(EMPTY_WORLD.(queue := EMPTY_QUEUE.(profile := true)), d, 0, moments)
  {
    hide EditsValid, EditsSafe, Runs, AllSafe, LosesEdit, DerivationSound, NeverRefused;
    var w := EMPTY_WORLD.(queue := EMPTY_QUEUE.(profile := true));
    StartIsSafe(d, true);
    ProfiledRunLosesNothing(w, d, 0, moments);
    RunKeepsEditsExactly(w, d, 0, moments);
  }

  // ------------------------------------------------------------ open records

  /** An open record stands in no backfill's way. */
  lemma OpenIsNotBlocked(w: World, d: Derivation, clock: Time, id: string)
    requires EditsValid(w, d, clock) && id in w.queue.edits && !HasQueued(w.queue, id) && Open(w.queue, d, id, w.queue.edits[id])
    ensures !Blocked(w.queue, id, d.derive(id))
  {
    hide WorldValid, IsCanonicalUuid, Queueable, SnapshotMutation, FirstCreate;
    var q := w.queue;
    NothingOf(q, id);
    NothingToCreate(q.entries, id, 0);
    forall i | 0 <= i < |q.entries| ensures MutationIdOf(q.entries[i]) != d.derive(id) {
      EntryIsEdited(w, clock, i);
    }
  }

  lemma EntryIsEdited(w: World, clock: Time, i: int)
    requires WorldValid(w, clock) && 0 <= i < |w.queue.entries|
    ensures w.queue.entries[i].mutation.recordId in w.queue.edits
  {
    hide QueueValid;
    IsQueuedRecord(w.queue, i);
    QueuedIsEdited(w.queue, w.queue.entries[i].mutation.recordId, clock);
  }

  /** A backfill of records none of which is blocked, with room for all, queues every open one. */
  lemma OpenEditsAreQueued(w: World, d: Derivation, clock: Time, listing: seq<string>, limit: int)
    requires EditsValid(w, d, clock) && Distinct(listing) && |listing| < limit
    requires forall k | 0 <= k < |listing| :: listing[k] in w.queue.edits && !Blocked(w.queue, listing[k], d.derive(listing[k]))
    ensures var r := BackfillAll(w.queue, listing, 0, limit, d.derive, clock);
            && r.Backfilled?
            && forall k | 0 <= k < |listing| && VersionOf(w.queue, listing[k]) == 0 :: Picked(r.state, listing[k])
  {
    hide WorldValid, BackfillAll, Blocked, Picked, IsCanonicalUuid;
    QueueOfWorld(w, clock);
    forall j, k | 0 <= j < k < |listing| ensures d.derive(listing[j]) != d.derive(listing[k]) {
    }
    BackfillRefusedExactly(w.queue, listing, 0, limit, d.derive, clock);
    BackfillPicksAll(w.queue, listing, 0, limit, d.derive, clock);
    RoomForAll(w.queue, listing, 0, limit, d.derive, clock);
  }

  lemma {:induction false} RoomForAll(q: Queue, listing: seq<string>, queued: nat, limit: int, derive: string -> string, now: Time)
    requires forall k | 0 <= k < |listing| :: listing[k] in q.edits
    requires queued + |listing| < limit && BackfillAll(q, listing, queued, limit, derive, now).Backfilled?
    ensures !BackfillAll(q, listing, queued, limit, derive, now).remaining
    decreases |listing|
  {
    if listing != [] {
      if VersionOf(q, listing[0]) != 0 {
        RoomForAll(q, listing[1..], queued, limit, derive, now);
      } else {
        var one := BackfillOne(q, listing[0], derive(listing[0]), queued, now);
        BackfillCounts(q, listing[0], derive(listing[0]), queued, now);
        RoomForAll(one.state, listing[1..], one.queued, limit, derive, now);
      }
    }
  }

  // ----------------------------------------------------------- spent records

  /** A record on version 0 with nothing queued whose derived id was answered: no backfill can queue it again. */
  predicate Spent(q: Queue, d: Derivation, id: string) {
    id in q.edits && VersionOf(q, id) == 0 && !HasQueued(q, id) && d.derive(id) in q.receipts
  }

  lemma {:induction false} NothingToCreate(entries: seq<Entry>, id: string, from: nat)
    requires from <= |entries| && forall i | 0 <= i < |entries| :: entries[i].mutation.recordId != id
    ensures FirstCreate(entries, id, from).None?
    decreases |entries| - from
  {
    if from < |entries| {
      NothingToCreate(entries, id, from + 1);
    }
  }

  lemma SpentBlocks(q: Queue, d: Derivation, id: string)
    requires Spent(q, d, id)
    ensures Blocked(q, id, d.derive(id))
    ensures forall queued, now :: BackfillOne(q, id, d.derive(id), queued, now).BackfillRefused?
  {
    hide FirstCreate, Queueable, SnapshotMutation;
    NothingOf(q, id);
    NothingToCreate(q.entries, id, 0);
  }

  lemma BackfillOneKeepsSpent(q: Queue, d: Derivation, recordId: string, queued: nat, now: Time, id: string)
    requires QueueValid(q, now) && recordId in q.edits && VersionOf(q, recordId) == 0 && id != recordId && Spent(q, d, id)
    requires BackfillOne(q, recordId, d.derive(recordId), queued, now).Backfilled?
    ensures Spent(BackfillOne(q, recordId, d.derive(recordId), queued, now).state, d, id)
  {
    hide EntriesValid, ClaimsPlaced, ReceiptsFinal, Queueable, FirstCreate, Queued;
    var u := BackfillOne(q, recordId, d.derive(recordId), queued, now).state;
    BackfillOneKeepsValid(q, recordId, d.derive(recordId), queued, now);
    NothingOf(q, id);
  }

  lemma {:induction false} BackfillKeepsSpent(q: Queue, d: Derivation, listing: seq<string>, queued: nat, limit: int, now: Time, id: string)
    requires QueueValid(q, now) && Spent(q, d, id) && forall k | 0 <= k < |listing| :: listing[k] in q.edits
    requires BackfillAll(q, listing, queued, limit, d.derive, now).Backfilled?
    ensures Spent(BackfillAll(q, listing, queued, limit, d.derive, now).state, d, id)
    decreases |listing|
  {
    hide QueueValid, BackfillOne, Spent;
    if listing != [] && queued < limit {
      if VersionOf(q, listing[0]) != 0 {
        BackfillKeepsSpent(q, d, listing[1..], queued, limit, now, id);
      } else {
        SpentBlocks(q, d, id);
        var one := BackfillOne(q, listing[0], d.derive(listing[0]), queued, now);
        BackfillOneKeepsValid(q, listing[0], d.derive(listing[0]), queued, now);
        BackfillOneKeepsSpent(q, d, listing[0], queued, now, id);
        BackfillKeepsSpent(one.state, d, listing[1..], one.queued, limit, now, id);
      }
    }
  }

  lemma FinishKeepsSpent(w: World, d: Derivation, op: Op, now: Time, id: string)
    requires WorldValid(w, now) && Spent(w.queue, d, id) && Allowed(w, d, op, now) && op.Finish?
    ensures Spent(Did(w, d, op, now).queue, d, id)
  {
    hide QueueValid, TokensKnown, Holds, ResultReadable, Recordable, SequenceTaken, Coalesced, WithoutEntry, InOrder, DistinctMutations,
      ClaimsPlaced, ReceiptsFinal, First, NewestIn, HasQueued;
    var q, i := w.queue, op.index;
    QueueParts(q, now);
    ClaimedIsFirst(q, i, op.token, now);
    var idx := CompletedIndices(q, i, op.result);
    SettledShows(q, Did(w, d, op, now).queue, idx, q.entries[i], op.result);
    CompletedRest(q, q.entries[i], op.result);
    IsQueuedRecord(q, i);
    NothingAppears(q, Did(w, d, op, now).queue, idx, id);
  }

  lemma RebaseKeepsSpent(w: World, d: Derivation, op: Op, now: Time, id: string)
    requires WorldValid(w, now) && Spent(w.queue, d, id) && Allowed(w, d, op, now) && (op.Rebase? || op.Pull?)
    ensures Spent(Did(w, d, op, now).queue, d, id)
  {
    hide EntriesValid, ClaimsPlaced, ReceiptsFinal, RebasedPending, NewestIn, AtWork, TokensKnown, HasQueued;
    var q := w.queue;
    EditedHasVersion(q, id, now);
    if op.Rebase? {
      RebasedPendingRest(q, op.recordId, op.version);
      var idx := RebasedIndices(q, op.recordId, op.version, now);
      assert Shown(q, Did(w, d, op, now).queue, idx);
      NothingAppears(q, Did(w, d, op, now).queue, idx, id);
    } else {
      SameEntriesQueued(q, Did(w, d, op, now).queue, id);
    }
  }

  lemma WorkKeepsSpent(w: World, d: Derivation, op: Op, now: Time, id: string)
    requires Spent(w.queue, d, id) && Allowed(w, d, op, now) && (op.Configure? || op.Lease? || op.Renew? || op.Postpone?)
    ensures Spent(Did(w, d, op, now).queue, d, id)
  {
    hide HasQueued, AllClaimable, AllDifferent, LeasedOut, Holds, TokenSet, IdsOf;
    var u := Did(w, d, op, now).queue;
    assert |u.entries| == |w.queue.entries| && forall i | 0 <= i < |w.queue.entries| :: u.entries[i].mutation == w.queue.entries[i].mutation;
    SameRecordsQueued(w.queue, u, id);
  }

  lemma WriteKeepsSpent(w: World, d: Derivation, op: Op, now: Time, id: string)
    requires Spent(w.queue, d, id) && Allowed(w, d, op, now) && op.Write? && !(w.queue.profile && op.o.id == id)
    ensures Spent(Did(w, d, op, now).queue, d, id)
  {
    hide Queueable, Queued;
    SnapshotFields(op.mutationId, op.o, VersionOf(w.queue, op.o.id));
    hide SnapshotMutation;
    NothingOf(w.queue, id);
  }

  /** Only a write of the record under a profile gets a spent record out of the way. */
  lemma OpKeepsSpent(w: World, d: Derivation, op: Op, now: Time, clock: Time, id: string)
    requires WorldValid(w, clock) && clock <= now && Allowed(w, d, op, now) && Spent(w.queue, d, id)
    requires !(op.Write? && w.queue.profile && op.o.id == id)
    ensures Spent(Did(w, d, op, now).queue, d, id)
  {
    hide WorldValid, Did, Spent;
    LaterIsValid(w, clock, now);
    QueueOfWorld(w, now);
    match op
    case Write(_, _) => WriteKeepsSpent(w, d, op, now, id);
    case Fill(listing, queued, limit) =>
      BackfillKeepsSpent(w.queue, d, listing, queued, limit, now, id);
      assert Did(w, d, op, now).queue == BackfillAll(w.queue, listing, queued, limit, d.derive, now).state by { DidFill(w, d, op, now); }
    case Finish(_, _, _) => FinishKeepsSpent(w, d, op, now, id);
    case Rebase(_, _) => RebaseKeepsSpent(w, d, op, now, id);
    case Pull(_, _) => RebaseKeepsSpent(w, d, op, now, id);
    case _ => WorkKeepsSpent(w, d, op, now, id);
  }

  lemma DidFill(w: World, d: Derivation, op: Op, now: Time)
    requires Allowed(w, d, op, now) && op.Fill?
    ensures Did(w, d, op, now).queue == BackfillAll(w.queue, op.listing, op.queued, op.limit, d.derive, now).state
  {
    hide BackfillAll;
  }

  /** No operation of the run writes the record. */
  predicate LeavesAlone(moments: seq<Moment>, id: string) {
    forall k | 0 <= k < |moments| && moments[k].op.Write? :: moments[k].op.o.id != id
  }

  /**
   One refused backfill stands in the way of its whole project: until the record is written again,
   every backfill whose limit reaches it is refused, over any run.
   */
  lemma {:induction false} SpentBlocksForGood(w: World, d: Derivation, clock: Time, moments: seq<Moment>, id: string,
                                              listing: seq<string>, queued: nat, limit: int, now: Time, k: int)
    requires WorldValid(w, clock) && Runs(w, d, clock, moments) && Spent(w.queue, d, id) && LeavesAlone(moments, id)
    requires var q := EndOf(w, d, clock, moments).queue;
             && (forall j | 0 <= j < |listing| :: listing[j] in q.edits) && Distinct(listing)
             && (forall i, j | 0 <= i < j < |listing| :: d.derive(listing[i]) != d.derive(listing[j]))
             && 0 <= k < |listing| && listing[k] == id && queued + Missing(q, listing[..k]) < limit
    requires forall m | m in moments :: m.now <= now
    requires clock <= now
    ensures BackfillAll(EndOf(w, d, clock, moments).queue, listing, queued, limit, d.derive, now).BackfillRefused?
    decreases |moments|
  {
    hide WorldValid, Allowed, Did, Spent, BackfillAll, Blocked, Missing;
    if moments == [] {
      LaterIsValid(w, clock, now);
      QueueOfWorld(w, now);
      SpentBlocks(w.queue, d, id);
      assert BlocksAt(w.queue, listing, queued, limit, d.derive, k);
      BackfillRefusedExactly(w.queue, listing, queued, limit, d.derive, now);
    } else {
      var m := moments[0];
      assert m in moments;
      OpKeepsSpent(w, d, m.op, m.now, clock, id);
      OpKeepsWorld(w, d, m.op, m.now, clock);
      assert forall j | 0 <= j < |moments[1..]| :: moments[1..][j] == moments[j + 1];
      SpentBlocksForGood(Did(w, d, m.op, m.now), d, m.now, moments[1..], id, listing, queued, limit, now, k);
    }
  }
}
