/**
 The one kind of history that cannot be pulled: a deletion of an observation that
 only ever existed as a conflict (internal/syncpg/repository.go:332, 430-433).
 */
module Orphans {
  import opened Options
  import opened Uuids
  import opened SyncService
  import opened Tables
  import opened Repository
  import opened Recovery
  import opened PushInvariant
  import opened History
  import opened Pull
  import opened Readable
  import opened Paging

  /** An accepted deletion is an orphan if and only if its record was born in a conflict and never accepted since. */
  lemma DeletionIsOrphanExactly(t: Tables, device: string, m: Mutation, conflictId: string)
    requires Invariant(t) && IsCanonicalUuid(conflictId) && m.kind == Tombstone
    requires Push(t, device, m, conflictId).Committed? && Push(t, device, m, conflictId).result.disposition == Accepted
    ensures var u := Push(t, device, m, conflictId).tables;
            && t.nextSeq in u.changes && u.changes[t.nextSeq].source in u.mutations
            && (Orphan(u, t.nextSeq) <==> BornInConflict(t, m.recordId))
  {
    hide Invariant, BreaksConstraint, ValidateMutation, AcceptedMutation, PrerequisitesHold, TopicTaken, MayAdvance, SnapshotOf;
    var payload := PayloadMutation(m);
    assert Decide(t, device, m) == Advance(payload);
    AdvanceDecided(t, device, m, payload, conflictId);
    var u := Push(t, device, m, conflictId).tables;
    DeletedVersion(t, u, device, m, payload, SnapshotOf(payload).value);
  }

  lemma DeletedVersion(t: Tables, u: Tables, device: string, m: Mutation, payload: Mutation, snapshot: Snapshot)
    requires Advances(t, u, device, m, payload, snapshot) && m.kind == Tombstone
    ensures t.nextSeq in u.changes && u.changes[t.nextSeq].source in u.mutations
    ensures Orphan(u, t.nextSeq) <==> BornInConflict(t, m.recordId)
  {
    hide ValidateMutation, AcceptedMutation, PrerequisitesHold, TopicTaken, VerifyRecovery, RequestsRecorded, DeletionsRecorded,
      VersionsGrow, RowsShowLatest, ConflictsMatch, RecordsPlaced, SnapshotOf, PayloadMutation, VersionRowClash, AcceptedAt,
      ClosedConflicts, WrittenObservations, WrittenTombstones, WrittenProjects, WrittenSessions, VersionsLinked;
    var base := m.baseVersion;
    OnlyVersionAdded(t, u, m.recordKind, m.recordId, base);
  }

  lemma OnlyVersionAdded(t: Tables, u: Tables, kind: RecordKind, id: string, base: int)
    requires |u.versions| == |t.versions| + 1 && forall i | 0 <= i < |t.versions| :: u.versions[i] == t.versions[i]
    requires u.versions[|t.versions|].recordVersion == base + 1
    ensures AcceptedAt(u, kind, id, base) <==> AcceptedAt(t, kind, id, base)
  {
    if AcceptedAt(t, kind, id, base) {
      var i :| 0 <= i < |t.versions| && IsVersionOf(t.versions[i], kind, id, base) && t.versions[i].disposition == AcceptedChange;
      assert IsVersionOf(u.versions[i], kind, id, base);
    }
    if AcceptedAt(u, kind, id, base) {
      var i :| 0 <= i < |u.versions| && IsVersionOf(u.versions[i], kind, id, base) && u.versions[i].disposition == AcceptedChange;
      assert IsVersionOf(t.versions[i], kind, id, base);
    }
  }

  lemma OrphanStable(t: Tables, u: Tables, i: int)
    requires Invariant(t) && Invariant(u) && Follows(t, u) && i in t.changes
    ensures i in u.changes && t.changes[i].source in t.mutations && u.changes[i].source in u.mutations
    ensures Orphan(u, i) <==> Orphan(t, i)
  {
    hide Invariant, Follows, RowAt, BuildChange, Orphan, ValidateMutation, AcceptedMutation, Admitted, SnapshotOf, PayloadMutation;
    RowStable(t, u, i);
    ReadableExactly(t, i);
    ReadableExactly(u, i);
  }

  /** A project pull over an orphan is always refused, whichever project it asks for. */
  lemma ProjectPullRefused(t: Tables, history: string, device: string, cursor: Cursor, project: string, limit: int, size: Change -> nat, k: int)
    requires Invariant(t) && Admissible(t, history, device, cursor, project, limit) && project != ""
    requires cursor.position < k <= EffectiveWatermark(t, cursor) && k in t.changes && Traced(t, k) && Orphan(t, k)
    ensures PullPageOf(t, history, device, cursor, project, limit, size) == PullRefused
  {
    hide Invariant, SelectRows, Collect, IsUuid, OwnerStateValid, ResolvesMatch, Orphan, BuildChange, RowAt, LastAccepted;
    PullMutationGivesRequest(t, k);
    RowPrevious(t, k);
    OrphanHasNoMembership(t, k);
    HistoryIsInOrder(t);
    assert MissingMembership(t, cursor.position, EffectiveWatermark(t, cursor));
  }

  lemma OrphanHasNoMembership(t: Tables, k: int)
    requires Invariant(t) && k in t.changes && Traced(t, k) && Orphan(t, k)
    ensures RowAt(t, k).Some? && Membership(RowAt(t, k).value).None?
  {
    hide Invariant, ValidateMutation, AcceptedMutation, SnapshotOf, PayloadMutation, LastAccepted, CreatedConflicts, AcceptedAt;
    OrphanHasNoPredecessor(t, k);
    ChangeIsTraced(t, k);
    RowPrevious(t, k);
  }

  // --------------------------------------------------------- global pulls

  lemma {:induction false} RowsAreDense(t: Tables, a: int, b: int)
    requires Invariant(t) && 0 <= a <= b < t.nextSeq
    ensures |SelectRows(t, "", a, b)| == b - a
    ensures forall k | 0 <= k < b - a :: Some(SelectRows(t, "", a, b)[k]) == RowAt(t, a + k + 1)
    ensures forall k | 0 <= k < b - a :: SelectRows(t, "", a, b)[k].sequence == a + k + 1
    decreases b - a
  {
    hide Invariant, RowAt;
    if a < b {
      RowsAreDense(t, a, b - 1);
      Dense(t, b);
      RowPresent(t, b);
      RowSequence(t, b);
    }
  }

  lemma RowPresent(t: Tables, i: int)
    requires Invariant(t) && i in t.changes
    ensures RowAt(t, i).Some?
  {
    ChangeIsTraced(t, i);
  }

  /** Meeting an unreadable row refuses the page exactly when the limit and the budget let the loop get there. */
  lemma {:induction false} CollectRefuses(rows: seq<PullRow>, position: int, limit: int, remaining: int, size: Change -> nat,
                                          taken: seq<Change>, j: nat)
    requires j < |rows| && AllBuilt(rows[..j]) && BuildChange(rows[j]).None?
    requires forall k | 0 <= k < |rows| :: rows[k].sequence == position + |taken| + k + 1
    requires |taken| <= limit && 0 <= remaining
    requires taken == [] && 0 < j ==> size(BuiltAll(rows[..j])[0]) <= remaining
    ensures Collect(rows, "", position, limit, remaining, size, taken).Refused? <==>
      |taken| + j < limit && Total(size, BuiltAll(rows[..j])) <= remaining
    decreases j
  {
    hide BuildChange;
    if |taken| == limit || j == 0 {
      assert j == 0 ==> BuiltAll(rows[..j]) == [];
    } else {
      var built := BuiltAll(rows[..j]);
      assert rows[..j][0] == rows[0];
      assert built[0] == BuildChange(rows[0]).value;
      assert rows[1..][..j - 1] == rows[..j][1..];
      assert BuiltAll(rows[1..][..j - 1]) == built[1..];
      if size(built[0]) <= remaining {
        CollectRefuses(rows[1..], position, limit, remaining - size(built[0]), size, taken + [built[0]], j - 1);
      }
    }
  }

  /** A global pull towards its first orphan k is refused exactly when one page would reach it. */
  lemma GlobalPullRefusedExactly(t: Tables, history: string, device: string, cursor: Cursor, limit: int, size: Change -> nat, k: int)
    requires Invariant(t) && Admissible(t, history, device, cursor, "", limit)
    requires cursor.position < k <= EffectiveWatermark(t, cursor) && k in t.changes && Traced(t, k) && Orphan(t, k)
    requires Servable(t, cursor.position, k - 1) && Fits(t, cursor.position, k - 1, size)
    ensures PullPageOf(t, history, device, cursor, "", limit, size) == PullRefused <==>
      k - 1 - cursor.position < limit && Total(size, Log(t, "", cursor.position, k - 1)) <= PAGE_BUDGET
  {
    hide Invariant, IsUuid, OwnerStateValid, ResolvesMatch, Orphan, BuildChange, RowAt, SelectRows, Servable, Fits, Traced, Collect, Total, Log;
    var a := cursor.position;
    var w := EffectiveWatermark(t, cursor);
    HistoryIsInOrder(t);
    RowsAreDense(t, a, w);
    var rows := Limited(SelectRows(t, "", a, w), limit);
    var j := k - 1 - a;
    ReadableExactly(t, k);
    RowsAreLog(t, "", a, k - 1);
    RowsAreDense(t, a, k - 1);
    LogFits(t, "", a, k - 1, size);
    if j < |rows| {
      assert rows[..j] == SelectRows(t, "", a, k - 1);
      CollectRefuses(rows, a, limit, PAGE_BUDGET, size, [], j);
      RefusalIsFinal(rows, history, cursor, w, limit, size);
    } else {
      assert limit < j;
      assert rows == SelectRows(t, "", a, k - 1)[..|rows|];
      var n := CollectTakes(rows, "", a, limit, PAGE_BUDGET, size, []);
      assert n < |rows|;
    }
  }

  /** With rows left over, or as many as the watermark asks for, the page stands. */
  lemma RefusalIsFinal(rows: seq<PullRow>, history: string, cursor: Cursor, w: int, limit: int, size: Change -> nat)
    requires forall k | 0 <= k < |rows| :: rows[k].sequence == cursor.position + k + 1
    requires |rows| <= w - cursor.position && (|rows| <= limit ==> |rows| == w - cursor.position)
    requires 0 <= limit
    ensures var collected := Collect(rows, "", cursor.position, limit, PAGE_BUDGET, size, []);
            FinishPage(collected, history, cursor, w, "") == PullRefused <==> collected.Refused?
  {
    CollectCounts(rows, cursor.position, limit, PAGE_BUDGET, size, []);
  }

  lemma {:induction false} CollectCounts(rows: seq<PullRow>, position: int, limit: int, remaining: int, size: Change -> nat, taken: seq<Change>)
    requires |taken| <= limit
    ensures var collected := Collect(rows, "", position, limit, remaining, size, taken);
            collected.Collected? && !collected.hasMore ==> |collected.changes| == |taken| + |rows| <= limit
    decreases |rows|
  {
    hide BuildChange;
    if rows != [] && BuildChange(rows[0]).Some? && |taken| < limit {
      var c := BuildChange(rows[0]).value;
      CollectCounts(rows[1..], position, limit, remaining - size(c), size, taken + [c]);
    }
  }

  /** Nobody ever reads past an orphan: from the change before it, every global pull is refused in every later state. */
  lemma OrphanBlocksForever(t: Tables, u: Tables, history: string, device: string, cursor: Cursor, limit: int, size: Change -> nat, k: int)
    requires Invariant(t) && Invariant(u) && Follows(t, u) && k in t.changes && Traced(t, k) && Orphan(t, k)
    requires cursor.position == k - 1 && Admissible(u, history, device, cursor, "", limit) && k <= EffectiveWatermark(u, cursor)
    ensures PullPageOf(u, history, device, cursor, "", limit, size) == PullRefused
  {
    hide Invariant, Follows, Orphan, PullPageOf, IsUuid;
    assert Log(u, "", cursor.position, k - 1) == [];
    OrphanStable(t, u, k);
    ChangeIsTraced(u, k);
    GlobalPullRefusedExactly(u, history, device, cursor, limit, size, k);
  }
}
