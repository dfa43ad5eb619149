/** What a backfill queues, and when it is refused. */
module OutboxBackfill {
  import opened Options
  import opened SyncService
  import opened Outbox

  // ------------------------------------------------------------ what it keeps

  lemma {:induction false} BackfillKeepsValid(q: Queue, listing: seq<string>, queued: nat, limit: int, derive: string -> string, now: Time)
    requires QueueValid(q, now) && forall k | 0 <= k < |listing| :: listing[k] in q.edits
    requires BackfillAll(q, listing, queued, limit, derive, now).Backfilled?
    ensures var u := BackfillAll(q, listing, queued, limit, derive, now).state;
            QueueValid(u, now) && u == q.(entries := u.entries, nextId := u.nextId)
    decreases |listing|
  {
    hide QueueValid, BackfillOne;
    if listing != [] && queued < limit {
      if VersionOf(q, listing[0]) != 0 {
        BackfillKeepsValid(q, listing[1..], queued, limit, derive, now);
      } else {
        var one := BackfillOne(q, listing[0], derive(listing[0]), queued, now);
        BackfillOneKeepsValid(q, listing[0], derive(listing[0]), queued, now);
        BackfillKeepsValid(one.state, listing[1..], one.queued, limit, derive, now);
      }
    }
  }

  // ----------------------------------------------------------- what it queues

  /** The oldest creation of a record on version 0 is queued and shows the row. */
  predicate Picked(q: Queue, id: string) {
    && id in q.edits
    && var at := FirstCreate(q.entries, id, 0);
       at.Some? && q.entries[at.value].mutation.observation == Some(q.edits[id])
  }

  lemma {:induction false} FirstCreateStays(before: seq<Entry>, after: seq<Entry>, id: string, from: nat)
    requires from <= |before| <= |after| && FirstCreate(before, id, from).Some?
    requires forall i | 0 <= i < |before| :: IsCreate(after[i], id) <==> IsCreate(before[i], id)
    ensures FirstCreate(after, id, from) == FirstCreate(before, id, from)
    decreases |before| - from
  {
    if !IsCreate(before[from], id) {
      FirstCreateStays(before, after, id, from + 1);
    }
  }

  /** The only creation is found, wherever the search begins. */
  lemma {:induction false} FirstCreateAtEnd(entries: seq<Entry>, id: string, from: nat)
    requires from < |entries| && IsCreate(entries[|entries| - 1], id)
    requires forall i | 0 <= i < |entries| - 1 :: !IsCreate(entries[i], id)
    ensures FirstCreate(entries, id, from) == Some(|entries| - 1)
    decreases |entries| - from
  {
    if from < |entries| - 1 {
      FirstCreateAtEnd(entries, id, from + 1);
    }
  }

  lemma BackfillOnePicks(q: Queue, recordId: string, derived: string, queued: nat, now: Time)
    requires QueueValid(q, now) && recordId in q.edits && VersionOf(q, recordId) == 0
    requires BackfillOne(q, recordId, derived, queued, now).Backfilled?
    ensures var u := BackfillOne(q, recordId, derived, queued, now).state;
            && Picked(u, recordId)
            && forall id | id in q.edits && Picked(q, id) :: Picked(u, id)
  {
    hide EntriesValid, ClaimsPlaced, ReceiptsFinal, Queueable, FirstCreate;
    var u := BackfillOne(q, recordId, derived, queued, now).state;
    var o := q.edits[recordId];
    var at := FirstCreate(q.entries, recordId, 0);
    if at.None? {
      FirstCreateAtEnd(u.entries, recordId, 0);
    } else {
      FirstCreateStays(q.entries, u.entries, recordId, 0);
    }
    forall id | id in q.edits && Picked(q, id) && id != recordId ensures Picked(u, id) {
      FirstCreateStays(q.entries, u.entries, id, 0);
    }
  }

  /**
   A backfill that ran to its end has every unsynchronised record of the project queued, and its
   oldest creation shows the row; one that was refused changed nothing.
   */
  lemma {:induction false} BackfillPicksAll(q: Queue, listing: seq<string>, queued: nat, limit: int, derive: string -> string, now: Time)
    requires QueueValid(q, now) && forall k | 0 <= k < |listing| :: listing[k] in q.edits
    requires BackfillAll(q, listing, queued, limit, derive, now).Backfilled?
    ensures var r := BackfillAll(q, listing, queued, limit, derive, now);
            && (!r.remaining ==> forall k | 0 <= k < |listing| && VersionOf(q, listing[k]) == 0 :: Picked(r.state, listing[k]))
            && (forall id | id in q.edits && Picked(q, id) :: Picked(r.state, id))
            && r.queued <= (if queued <= limit then limit else queued)
    decreases |listing|
  {
    hide QueueValid, BackfillOne, Picked;
    if listing != [] && queued < limit {
      if VersionOf(q, listing[0]) != 0 {
        BackfillPicksAll(q, listing[1..], queued, limit, derive, now);
      } else {
        var one := BackfillOne(q, listing[0], derive(listing[0]), queued, now);
        BackfillOneKeepsValid(q, listing[0], derive(listing[0]), queued, now);
        BackfillOnePicks(q, listing[0], derive(listing[0]), queued, now);
        BackfillCounts(q, listing[0], derive(listing[0]), queued, now);
        BackfillPicksAll(one.state, listing[1..], one.queued, limit, derive, now);
        forall k | 0 <= k < |listing| && VersionOf(q, listing[k]) == 0 && !BackfillAll(q, listing, queued, limit, derive, now).remaining
          ensures Picked(BackfillAll(q, listing, queued, limit, derive, now).state, listing[k])
        {
          if k > 0 {
            assert listing[1..][k - 1] == listing[k];
          }
        }
      }
    }
  }

  lemma BackfillCounts(q: Queue, recordId: string, derived: string, queued: nat, now: Time)
    requires recordId in q.edits && BackfillOne(q, recordId, derived, queued, now).Backfilled?
    ensures queued <= BackfillOne(q, recordId, derived, queued, now).queued <= queued + 1
  {
  }

  // --------------------------------------------------------- when it is refused

  /**
   A record no backfill gets past: on version 0, and either without a queued creation while its
   content cannot be sent or its derived id is spent, or with one that was attempted, or that is
   out of date and was ever leased.
   */
  predicate Blocked(q: Queue, id: string, derived: string)
    requires id in q.edits
  {
    && VersionOf(q, id) == 0
    && match FirstCreate(q.entries, id, 0)
       case None => !Queueable(SnapshotMutation(derived, q.edits[id], 0)) || derived in q.receipts || Queued(q, derived)
       case Some(at) =>
         var e := q.entries[at];
         var m := SnapshotMutation(MutationIdOf(e), q.edits[id], 0);
         e.attempts > 0 || !Queueable(m) || (e.mutation != m && MutationIdOf(e) in q.claims)
  }

  /** The records of a listing that a backfill would have to queue. */
  function Missing(q: Queue, listing: seq<string>): nat {
    if listing == [] then 0
    else (if VersionOf(q, listing[0]) == 0 && FirstCreate(q.entries, listing[0], 0).None? then 1 else 0) + Missing(q, listing[1..])
  }

  /** What one record's backfill is to another record. */
  predicate Alike(q: Queue, u: Queue, id: string, derived: string)
    requires id in q.edits && id in u.edits
  {
    && (Blocked(u, id, derived) <==> Blocked(q, id, derived))
    && VersionOf(u, id) == VersionOf(q, id)
    && (FirstCreate(u.entries, id, 0).None? <==> FirstCreate(q.entries, id, 0).None?)
  }

  lemma {:induction false} NoCreateStays(before: seq<Entry>, after: seq<Entry>, id: string, from: nat)
    requires from <= |before| <= |after| && FirstCreate(before, id, from).None?
    requires forall i | 0 <= i < |before| :: IsCreate(after[i], id) <==> IsCreate(before[i], id)
    requires forall i | |before| <= i < |after| :: !IsCreate(after[i], id)
    ensures FirstCreate(after, id, from).None?
  {
  }

  lemma BackfillOneElsewhere(q: Queue, recordId: string, derived: string, queued: nat, now: Time, id: string, other: string)
    requires QueueValid(q, now) && recordId in q.edits && VersionOf(q, recordId) == 0 && id in q.edits && id != recordId && other != derived
    requires BackfillOne(q, recordId, derived, queued, now).Backfilled?
    ensures var u := BackfillOne(q, recordId, derived, queued, now).state; id in u.edits && Alike(q, u, id, other)
  {
    hide EntriesValid, ClaimsPlaced, ReceiptsFinal, Queueable, FirstCreate, Queued;
    var u := BackfillOne(q, recordId, derived, queued, now).state;
    var o := q.edits[recordId];
    var at := FirstCreate(q.entries, recordId, 0);
    BackfillOneKeepsValid(q, recordId, derived, queued, now);
    BackfillOneQueued(q, recordId, derived, queued, now, other);
    if at.None? {
      SnapshotFields(derived, o, 0);
    } else {
      SnapshotFields(MutationIdOf(q.entries[at.value]), o, 0);
    }
    hide SnapshotMutation;
    if FirstCreate(q.entries, id, 0).Some? {
      FirstCreateStays(q.entries, u.entries, id, 0);
    } else {
      NoCreateStays(q.entries, u.entries, id, 0);
    }
  }

  lemma BackfillOneQueued(q: Queue, recordId: string, derived: string, queued: nat, now: Time, other: string)
    requires QueueValid(q, now) && recordId in q.edits && VersionOf(q, recordId) == 0 && other != derived
    requires BackfillOne(q, recordId, derived, queued, now).Backfilled?
    ensures Queued(BackfillOne(q, recordId, derived, queued, now).state, other) <==> Queued(q, other)
  {
    hide QueueValid, Queueable, FirstCreate;
    var u := BackfillOne(q, recordId, derived, queued, now).state;
    assert forall i | 0 <= i < |q.entries| :: MutationIdOf(u.entries[i]) == MutationIdOf(q.entries[i]);
    if Queued(q, other) {
      var i :| 0 <= i < |q.entries| && MutationIdOf(q.entries[i]) == other;
      assert MutationIdOf(u.entries[i]) == other;
    }
  }

  lemma {:induction false} MissingAlike(q: Queue, u: Queue, listing: seq<string>)
    requires forall k | 0 <= k < |listing| ::
      VersionOf(u, listing[k]) == VersionOf(q, listing[k])
      && (FirstCreate(u.entries, listing[k], 0).None? <==> FirstCreate(q.entries, listing[k], 0).None?)
    ensures Missing(u, listing) == Missing(q, listing)
  {
    hide FirstCreate;
    if listing != [] {
      assert forall k | 0 <= k < |listing[1..]| :: listing[1..][k] == listing[k + 1];
      MissingAlike(q, u, listing[1..]);
    }
  }

  /** A record of the listing that blocks the backfill before its limit is reached. */
  predicate BlocksAt(q: Queue, listing: seq<string>, queued: nat, limit: int, derive: string -> string, k: int)
    requires 0 <= k < |listing| && listing[k] in q.edits
  {
    Blocked(q, listing[k], derive(listing[k])) && queued + Missing(q, listing[..k]) < limit
  }

  lemma BlocksLater(q: Queue, listing: seq<string>, queued: nat, limit: int, derive: string -> string, k: int)
    requires 0 <= k < |listing| - 1 && listing[k + 1] in q.edits
    ensures var head := if VersionOf(q, listing[0]) == 0 && FirstCreate(q.entries, listing[0], 0).None? then 1 else 0;
            BlocksAt(q, listing, queued, limit, derive, k + 1) <==> BlocksAt(q, listing[1..], queued + head, limit, derive, k)
  {
    hide FirstCreate, Blocked;
    assert listing[..k + 1][0] == listing[0] && listing[..k + 1][1..] == listing[1..][..k];
  }

  lemma HeadBlocks(q: Queue, listing: seq<string>, queued: nat, limit: int, derive: string -> string)
    requires listing != [] && listing[0] in q.edits
    ensures BlocksAt(q, listing, queued, limit, derive, 0) <==> Blocked(q, listing[0], derive(listing[0])) && queued < limit
    ensures BlocksAt(q, listing, queued, limit, derive, 0) && VersionOf(q, listing[0]) == 0 ==>
      forall now :: BackfillOne(q, listing[0], derive(listing[0]), queued, now).BackfillRefused?
    ensures queued < limit && VersionOf(q, listing[0]) == 0 && !BlocksAt(q, listing, queued, limit, derive, 0) ==>
      forall now :: var one := BackfillOne(q, listing[0], derive(listing[0]), queued, now);
                    one.Backfilled? && one.queued == queued + if FirstCreate(q.entries, listing[0], 0).None? then 1 else 0
  {
    hide FirstCreate, Queueable, Queued;
  }

  lemma NoneAtLimit(q: Queue, listing: seq<string>, queued: nat, limit: int, derive: string -> string)
    requires queued >= limit && forall k | 0 <= k < |listing| :: listing[k] in q.edits
    ensures forall k | 0 <= k < |listing| :: !BlocksAt(q, listing, queued, limit, derive, k)
  {
    hide Blocked, Missing;
  }

  /** The rest of a listing is, behind its first record, what it was. */
  lemma RestAlike(q: Queue, u: Queue, listing: seq<string>, queued: nat, limit: int, derive: string -> string)
    requires forall k | 0 <= k < |listing| ::
      listing[k] in q.edits && listing[k] in u.edits && Alike(q, u, listing[k], derive(listing[k]))
    ensures forall k | 0 <= k < |listing| ::
      BlocksAt(u, listing, queued, limit, derive, k) <==> BlocksAt(q, listing, queued, limit, derive, k)
  {
    hide Blocked, FirstCreate, Missing;
    forall k | 0 <= k < |listing|
      ensures BlocksAt(u, listing, queued, limit, derive, k) <==> BlocksAt(q, listing, queued, limit, derive, k)
    {
      assert forall j | 0 <= j < k :: listing[..k][j] == listing[j];
      MissingAlike(q, u, listing[..k]);
    }
  }

  lemma BlocksSomewhere(q: Queue, listing: seq<string>, queued: nat, limit: int, derive: string -> string, more: nat)
    requires listing != [] && forall k | 0 <= k < |listing| :: listing[k] in q.edits
    requires more == queued + if VersionOf(q, listing[0]) == 0 && FirstCreate(q.entries, listing[0], 0).None? then 1 else 0
    ensures (exists k :: 0 <= k < |listing| && BlocksAt(q, listing, queued, limit, derive, k)) <==>
      BlocksAt(q, listing, queued, limit, derive, 0)
      || exists k :: 0 <= k < |listing[1..]| && BlocksAt(q, listing[1..], more, limit, derive, k)
  {
    hide BlocksAt, FirstCreate;
    forall k | 0 <= k < |listing| - 1
      ensures BlocksAt(q, listing, queued, limit, derive, k + 1) <==> BlocksAt(q, listing[1..], more, limit, derive, k)
    {
      BlocksLater(q, listing, queued, limit, derive, k);
    }
    if k :| 0 <= k < |listing| && BlocksAt(q, listing, queued, limit, derive, k) {
      if k > 0 {
        var j := k - 1;
        assert BlocksAt(q, listing, queued, limit, derive, j + 1);
        assert BlocksAt(q, listing[1..], more, limit, derive, j);
      }
    }
    if k :| 0 <= k < |listing[1..]| && BlocksAt(q, listing[1..], more, limit, derive, k) {
      var later := k + 1;
      assert BlocksAt(q, listing, queued, limit, derive, later);
    }
  }

  /** A backfill is refused, whatever else it would have queued, if and only if one blocked record comes before its limit. */
  lemma {:induction false} BackfillRefusedExactly(q: Queue, listing: seq<string>, queued: nat, limit: int, derive: string -> string, now: Time)
    requires QueueValid(q, now) && Distinct(listing) && forall k | 0 <= k < |listing| :: listing[k] in q.edits
    requires forall j, k | 0 <= j < k < |listing| :: derive(listing[j]) != derive(listing[k])
    ensures BackfillAll(q, listing, queued, limit, derive, now).BackfillRefused? <==>
      exists k :: 0 <= k < |listing| && BlocksAt(q, listing, queued, limit, derive, k)
    decreases |listing|
  {
    hide QueueValid, BackfillOne, Blocked, BlocksAt, FirstCreate, Alike;
    if listing != [] {
      if queued >= limit {
        NoneAtLimit(q, listing, queued, limit, derive);
      } else {
        var head, rest := listing[0], listing[1..];
        var more: nat := queued + if VersionOf(q, head) == 0 && FirstCreate(q.entries, head, 0).None? then 1 else 0;
        assert forall k | 0 <= k < |rest| :: rest[k] == listing[k + 1];
        BlocksSomewhere(q, listing, queued, limit, derive, more);
        HeadBlocks(q, listing, queued, limit, derive);
        if VersionOf(q, head) != 0 {
          HeadIsSynchronised(q, listing, queued, limit, derive);
          BackfillRefusedExactly(q, rest, queued, limit, derive, now);
        } else if !BlocksAt(q, listing, queued, limit, derive, 0) {
          var one := BackfillOne(q, head, derive(head), queued, now);
          BackfillOneKeepsValid(q, head, derive(head), queued, now);
          forall k | 0 <= k < |rest| ensures rest[k] in one.state.edits && Alike(q, one.state, rest[k], derive(rest[k])) {
            BackfillOneElsewhere(q, head, derive(head), queued, now, rest[k], derive(rest[k]));
          }
          RestAlike(q, one.state, rest, more, limit, derive);
          BackfillRefusedExactly(one.state, rest, more, limit, derive, now);
        }
      }
    }
  }

  lemma HeadIsSynchronised(q: Queue, listing: seq<string>, queued: nat, limit: int, derive: string -> string)
    requires listing != [] && listing[0] in q.edits && VersionOf(q, listing[0]) != 0
    ensures !BlocksAt(q, listing, queued, limit, derive, 0)
  {
    hide FirstCreate;
  }
}
