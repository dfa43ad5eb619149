/** Paging is exact, makes progress and survives concurrent pushes. */
module Paging {
  import opened Options
  import opened Uuids
  import opened SyncService
  import opened Tables
  import opened Repository
  import opened Recovery
  import opened PushInvariant
  import opened History
  import opened Pull
  import opened Readable

  // ------------------------------------------------------- reference log

  /** Change i as every reader gets it. */
  function ChangeAt(t: Tables, i: int): Option<Change> {
    if RowAt(t, i).Some? then BuildChange(RowAt(t, i).value) else None
  }

  /** Every change in (position, watermark] can be served. */
  ghost predicate Servable(t: Tables, position: int, watermark: int) {
    forall i | position < i <= watermark :: i in t.changes && Traced(t, i) && !Orphan(t, i)
  }

  /** The project a change belongs to. */
  function ProjectOf(c: Change): string {
    var m := c.mutation;
    if m.project.Some? then m.project.value.id
    else if m.session.Some? then m.session.value.projectId
    else if m.observation.Some? then m.observation.value.projectId
    else if m.resolution.Some? && m.resolution.value.observation.Some? then m.resolution.value.observation.value.projectId
    else if m.tombstone.Some? then m.tombstone.value.projectId
    else ""
  }

  predicate Wanted(project: string, c: Change) {
    project == "" || ProjectOf(c) == project
  }

  /** The log in (position, watermark], restricted to a project when one is named: what paging has to deliver. */
  function Log(t: Tables, project: string, position: int, watermark: int): seq<Change>
    decreases watermark - position
  {
    if watermark <= position then []
    else
      Log(t, project, position, watermark - 1)
      + if ChangeAt(t, watermark).Some? && Wanted(project, ChangeAt(t, watermark).value) then [ChangeAt(t, watermark).value] else []
  }

  function Total(size: Change -> nat, changes: seq<Change>): nat {
    if changes == [] then 0 else size(changes[0]) + Total(size, changes[1..])
  }

  lemma {:induction false} LogSplits(t: Tables, project: string, a: int, b: int, c: int)
    requires a <= b <= c
    ensures Log(t, project, a, c) == Log(t, project, a, b) + Log(t, project, b, c)
    decreases c - b
  {
    if b < c {
      LogSplits(t, project, a, b, c - 1);
    }
  }

  lemma Dense(t: Tables, i: int)
    requires Invariant(t)
    ensures i in t.changes <==> 1 <= i < t.nextSeq
  {
  }

  lemma {:induction false} LogStable(t: Tables, u: Tables, project: string, a: int, b: int)
    requires Invariant(t) && Invariant(u) && Follows(t, u) && 0 <= a && b < t.nextSeq
    ensures Log(u, project, a, b) == Log(t, project, a, b)
    decreases b - a
  {
    hide Invariant, Follows, RowAt, BuildChange;
    if a < b {
      LogStable(t, u, project, a, b - 1);
      Dense(t, b);
      RowStable(t, u, b);
    }
  }

  lemma ServedMembership(row: PullRow, request: Mutation, c: Change, erased: string)
    requires RowCarries(row, request) && Admitted(request) && PayloadCount(request) == 1
    requires c.mutation == ServedMutation(request, erased)
    requires request.kind == Tombstone ==> row.previous.Some? && JsonProjectId(row.previous.value) == Some(erased)
    ensures Membership(row) == Some(ProjectOf(c))
  {
    hide IsUuid, Lower, TimestampsWithinMicrosecond;
  }

  /** The SQL filter of a project pull selects exactly the changes that belong to the project. */
  lemma SelectionIsMembership(t: Tables, project: string, i: int)
    requires Invariant(t) && i in t.changes && Traced(t, i) && !Orphan(t, i)
    ensures ChangeAt(t, i).Some? && RowAt(t, i).Some?
    ensures Membership(RowAt(t, i).value) == Some(ProjectOf(ChangeAt(t, i).value))
    ensures Selected(t, project, i) <==> Wanted(project, ChangeAt(t, i).value)
  {
    hide Invariant, RowAt, BuildChange, Orphan, Admitted, ValidateMutation, AcceptedMutation, ErasedProject, LastAccepted, RowCarries,
      ValidateChangeEnvelope, VerifyChangeHash, TimestampsWithinMicrosecond, SnapshotOf, PayloadMutation, PayloadCount, Membership,
      ProjectOf, ServedMutation;
    ReadableExactly(t, i);
    RowCarriesRequest(t, i);
    RowPrevious(t, i);
    var request := t.mutations[t.changes[i].source].requestHash;
    ValidHasOnePayload(request);
    if request.kind == Tombstone {
      OrphanHasNoPredecessor(t, i);
    }
    ServedMembership(RowAt(t, i).value, request, ChangeAt(t, i).value, ErasedProject(t, i));
  }

  // ------------------------------------------------------- rows and log

  predicate AllBuilt(rows: seq<PullRow>) {
    forall k | 0 <= k < |rows| :: BuildChange(rows[k]).Some?
  }

  function BuiltAll(rows: seq<PullRow>): (changes: seq<Change>)
    requires AllBuilt(rows)
    ensures |changes| == |rows|
    ensures forall k | 0 <= k < |rows| :: changes[k] == BuildChange(rows[k]).value
  {
    seq(|rows|, k requires 0 <= k < |rows| => BuildChange(rows[k]).value)
  }

  lemma {:induction false} RowsAreLog(t: Tables, project: string, a: int, b: int)
    requires Invariant(t) && 0 <= a && b < t.nextSeq && Servable(t, a, b)
    ensures AllBuilt(SelectRows(t, project, a, b))
    ensures BuiltAll(SelectRows(t, project, a, b)) == Log(t, project, a, b)
    decreases b - a
  {
    hide Invariant, RowAt, BuildChange, Orphan, Traced, Selected, Wanted;
    if a < b {
      RowsAreLog(t, project, a, b - 1);
      SelectionIsMembership(t, project, b);
      assert Selected(t, project, b) ==> RowAt(t, b).Some?;
    }
  }

  lemma {:induction false} WholeLogIsDense(t: Tables, a: int, b: int)
    requires Invariant(t) && 0 <= a <= b < t.nextSeq && Servable(t, a, b)
    ensures |SelectRows(t, "", a, b)| == b - a
    ensures forall k | 0 <= k < b - a :: SelectRows(t, "", a, b)[k].sequence == a + k + 1
    decreases b - a
  {
    hide Invariant, BuildChange, Orphan, Traced, RowAt;
    if a < b {
      WholeLogIsDense(t, a, b - 1);
      SelectionIsMembership(t, "", b);
      RowSequence(t, b);
    }
  }

  lemma RowSequence(t: Tables, i: int)
    ensures RowAt(t, i).Some? ==> RowAt(t, i).value.sequence == i
  {
    hide LastAccepted, CreatedConflicts, DeletedAt;
  }

  lemma ChangeSequence(t: Tables, i: int)
    ensures ChangeAt(t, i).Some? ==> ChangeAt(t, i).value.sequence == i
  {
    hide PullMutation, ValidateMutation, CanonicalChangeHash, RowAt;
    RowSequence(t, i);
  }

  /** The first n changes of a log are the log up to the n-th one's sequence. */
  lemma {:induction false} LogPrefix(t: Tables, project: string, a: int, b: int, n: nat)
    requires 0 < n <= |Log(t, project, a, b)|
    ensures var last := Log(t, project, a, b)[n - 1].sequence;
            a < last <= b && Log(t, project, a, b)[..n] == Log(t, project, a, last)
    decreases b - a
  {
    hide ChangeAt, Wanted;
    ChangeSequence(t, b);
    if n <= |Log(t, project, a, b - 1)| {
      LogPrefix(t, project, a, b - 1, n);
      assert Log(t, project, a, b)[..n] == Log(t, project, a, b - 1)[..n];
    } else {
      assert Log(t, project, a, b)[..n] == Log(t, project, a, b);
    }
  }

  /** The loop takes a prefix of its rows, as long as the limit and the budget allow. */
  lemma {:induction false} CollectTakes(rows: seq<PullRow>, project: string, position: int, limit: int, remaining: int,
                                        size: Change -> nat, taken: seq<Change>) returns (n: nat)
    requires AllBuilt(rows) && |taken| <= limit && 1 <= limit
    requires project == "" ==> forall k | 0 <= k < |rows| :: rows[k].sequence == position + |taken| + k + 1
    requires taken == [] && rows != [] ==> size(BuiltAll(rows)[0]) <= remaining
    requires 0 <= remaining
    ensures n <= |rows| && |taken| + n <= limit
    ensures Collect(rows, project, position, limit, remaining, size, taken) == Collected(taken + BuiltAll(rows)[..n], n < |rows|)
    ensures Total(size, BuiltAll(rows)[..n]) <= remaining
    ensures taken == [] && rows != [] ==> 0 < n
    ensures n < |rows| ==> |taken| + n == limit || Total(size, BuiltAll(rows)[..n + 1]) > remaining
    decreases |rows|
  {
    hide BuildChange;
    var changes := BuiltAll(rows);
    if rows == [] || |taken| == limit || size(changes[0]) > remaining {
      n := 0;
      assert taken + changes[..0] == taken;
      if rows != [] {
        assert changes[..1] == [changes[0]];
      }
    } else {
      assert BuiltAll(rows[1..]) == changes[1..];
      var k := CollectTakes(rows[1..], project, position, limit, remaining - size(changes[0]), size, taken + [changes[0]]);
      n := k + 1;
      assert changes[..n][1..] == changes[1..][..k] && changes[..n][0] == changes[0];
      assert taken + [changes[0]] + changes[1..][..k] == taken + changes[..n];
      if n < |rows| {
        assert changes[..n + 1][1..] == changes[1..][..k + 1] && changes[..n + 1][0] == changes[0];
      }
    }
  }

  // ---------------------------------------------------------------- pages

  lemma {:induction false} IntervalSize(keys: set<int>, n: nat)
    requires forall i :: i in keys <==> 1 <= i <= n
    ensures |keys| == n
    decreases n
  {
    if n == 0 {
      assert forall k :: k !in keys;
    } else {
      IntervalSize(keys - {n}, n - 1);
    }
  }

  lemma HistoryIsInOrder(t: Tables)
    requires Invariant(t)
    ensures OwnerStateValid(t) && ResolvesMatch(t)
  {
    hide ResolvesMatch, VersionsGrow, RowsShowLatest, RowsHaveOrigin, RequestsRecorded, DeletionsRecorded, RecordsPlaced, ConflictsMatch, VersionsLinked;
    IntervalSize(t.changes.Keys, t.nextSeq - 1);
    assert |t.changes| == |t.changes.Keys|;
  }

  /** A request pull admits: an active device, a limit in range and a cursor within the history. */
  predicate Admissible(t: Tables, history: string, device: string, cursor: Cursor, project: string, limit: int) {
    && Authorised(t, device)
    && (project == "" || ValidProjectId(project))
    && 1 <= limit <= MAX_PULL_LIMIT
    && ValidateCursor(cursor) && Lower(cursor.historyId) == history
    && cursor.position <= EffectiveWatermark(t, cursor) <= t.nextSeq - 1
  }

  lemma ServableHasMembership(t: Tables, position: int, watermark: int)
    requires Invariant(t) && Servable(t, position, watermark)
    ensures !MissingMembership(t, position, watermark)
  {
    hide Invariant, RowAt, Membership, Traced, Orphan, ProjectOf;
    forall i | position < i <= watermark && RowAt(t, i).Some? ensures Membership(RowAt(t, i).value).Some? {
      SelectionIsMembership(t, "", i);
    }
  }

  ghost predicate Fits(t: Tables, position: int, watermark: int, size: Change -> nat) {
    forall i | position < i <= watermark && ChangeAt(t, i).Some? :: size(ChangeAt(t, i).value) <= PAGE_BUDGET
  }

  /** A page is a stretch of the log that starts at the cursor, as long as the limits allow. */
  predicate PageIsStretch(t: Tables, project: string, position: int, watermark: int, limit: int, size: Change -> nat, page: PullPage) {
    var next := page.cursor.position;
    && position <= next <= watermark
    && page.changes == Log(t, project, position, next)
    && |page.changes| <= limit && Total(size, page.changes) <= PAGE_BUDGET
    && (page.hasMore ==>
          && position < next < watermark
          && page.changes != [] && page.changes[|page.changes| - 1].sequence == next
          && var rest := Log(t, project, next, watermark);
             rest != [] && (|page.changes| == limit || Total(size, page.changes + [rest[0]]) > PAGE_BUDGET))
    && (!page.hasMore ==> next == watermark)
  }

  lemma {:induction false} LogFits(t: Tables, project: string, a: int, b: int, size: Change -> nat)
    requires Fits(t, a, b, size)
    ensures forall k | 0 <= k < |Log(t, project, a, b)| :: size(Log(t, project, a, b)[k]) <= PAGE_BUDGET
    decreases b - a
  {
    hide ChangeAt, Wanted;
    if a < b {
      LogFits(t, project, a, b - 1, size);
    }
  }

  /** What the loop collects from the rows of a request, in terms of the log. */
  lemma CollectedIsLogPrefix(t: Tables, project: string, position: int, watermark: int, limit: int, size: Change -> nat) returns (n: nat)
    requires Invariant(t) && 0 <= position <= watermark < t.nextSeq && Servable(t, position, watermark)
    requires Fits(t, position, watermark, size) && 1 <= limit
    ensures var log := Log(t, project, position, watermark);
            && n <= |log| && n <= limit && (log != [] ==> 0 < n)
            && (project == "" ==> |log| == watermark - position)
            && Total(size, log[..n]) <= PAGE_BUDGET
            && (n < |log| ==> n == limit || Total(size, log[..n + 1]) > PAGE_BUDGET)
            && Collect(Limited(SelectRows(t, project, position, watermark), limit), project, position, limit, PAGE_BUDGET, size, [])
               == Collected(log[..n], n < |log|)
  {
    hide Invariant, Servable, Fits, SelectRows, Log, BuildChange;
    var log := Log(t, project, position, watermark);
    var all := SelectRows(t, project, position, watermark);
    RowsAreLog(t, project, position, watermark);
    var rows := Limited(all, limit);
    assert AllBuilt(rows) && BuiltAll(rows) == log[..|rows|];
    LogFits(t, project, position, watermark, size);
    if project == "" {
      WholeLogIsDense(t, position, watermark);
    }
    n := CollectTakes(rows, project, position, limit, PAGE_BUDGET, size, []);
    assert BuiltAll(rows)[..n] == log[..n];
    assert [] + log[..n] == log[..n];
    if n < |log| {
      assert n < |rows|;
      assert BuiltAll(rows)[..n + 1] == log[..n + 1];
    }
  }

  /** Pull answers every admissible request over a servable stretch with exactly the next part of the log. */
  lemma PageIsExact(t: Tables, history: string, device: string, cursor: Cursor, project: string, limit: int, size: Change -> nat)
    requires Invariant(t) && Admissible(t, history, device, cursor, project, limit)
    requires Servable(t, cursor.position, EffectiveWatermark(t, cursor))
    requires Fits(t, cursor.position, EffectiveWatermark(t, cursor), size)
    ensures var outcome := PullPageOf(t, history, device, cursor, project, limit, size);
            && outcome.Page?
            && outcome.page.cursor.historyId == history
            && outcome.page.cursor.watermark == EffectiveWatermark(t, cursor)
            && PageIsStretch(t, project, cursor.position, EffectiveWatermark(t, cursor), limit, size, outcome.page)
  {
    hide Invariant, Servable, Fits, SelectRows, Log, BuildChange, OwnerStateValid, ResolvesMatch, MissingMembership, IsUuid, Collect, Limited, Total, IsCanonicalUuid;
    var watermark := EffectiveWatermark(t, cursor);
    HistoryIsInOrder(t);
    ServableHasMembership(t, cursor.position, watermark);
    var n := CollectedIsLogPrefix(t, project, cursor.position, watermark, limit, size);
    var log := Log(t, project, cursor.position, watermark);
    var page := PullPageOf(t, history, device, cursor, project, limit, size);
    LogEnds(t, project, cursor.position, watermark);
    if n == |log| {
      assert log[..n] == log;
    } else {
      LogPrefix(t, project, cursor.position, watermark, n);
      var next := log[n - 1].sequence;
      LogSplits(t, project, cursor.position, next, watermark);
      assert log[..n + 1] == log[..n] + [log[n]];
    }
  }

  lemma {:induction false} LogLength(t: Tables, project: string, a: int, b: int)
    ensures a <= b ==> |Log(t, project, a, b)| <= b - a
    ensures b <= a ==> Log(t, project, a, b) == []
    decreases b - a
  {
    hide ChangeAt, Wanted;
    if a < b {
      LogLength(t, project, a, b - 1);
    }
  }

  lemma LogEnds(t: Tables, project: string, a: int, b: int)
    ensures b <= a ==> Log(t, project, a, b) == []
    ensures Log(t, project, a, b) != [] ==> a < Log(t, project, a, b)[|Log(t, project, a, b)| - 1].sequence <= b
    ensures a < b && |Log(t, project, a, b)| == b - a ==> Log(t, project, a, b)[b - a - 1].sequence == b
  {
    hide ChangeAt, Wanted;
    ChangeSequence(t, b);
    LogLength(t, project, a, b - 1);
    if Log(t, project, a, b) != [] {
      LogPrefix(t, project, a, b, |Log(t, project, a, b)|);
    }
  }

  // ------------------------------------------------------------- sessions

  /** One pull and the tables it read, which pushes may have moved on since the last one. */
  datatype Visit = Visit(tables: Tables, page: PullPage)

  /** Pulls that follow each other's cursors until there is no more, while other devices keep pushing. */
  ghost predicate Session(t: Tables, history: string, device: string, cursor: Cursor, project: string, limit: int, size: Change -> nat,
                          visits: seq<Visit>)
    decreases |visits|
  {
    visits == [] ||
    (&& Invariant(visits[0].tables) && Follows(t, visits[0].tables)
     && PullPageOf(visits[0].tables, history, device, cursor, project, limit, size) == Page(visits[0].page)
     && (visits[0].page.hasMore || |visits| == 1)
     && Session(visits[0].tables, history, device, visits[0].page.cursor, project, limit, size, visits[1..]))
  }

  function Delivered(visits: seq<Visit>): seq<Change> {
    if visits == [] then [] else visits[0].page.changes + Delivered(visits[1..])
  }

  lemma PageWasAdmitted(t: Tables, history: string, device: string, cursor: Cursor, project: string, limit: int, size: Change -> nat)
    requires PullPageOf(t, history, device, cursor, project, limit, size).Page?
    ensures Admissible(t, history, device, cursor, project, limit)
  {
    hide SelectRows, Collect, OwnerStateValid, ResolvesMatch, MissingMembership, IsUuid;
  }

  lemma ServableStable(t: Tables, u: Tables, a: int, b: int)
    requires Invariant(t) && Invariant(u) && Follows(t, u) && Servable(t, a, b)
    ensures Servable(u, a, b)
    ensures forall i | a < i <= b :: ChangeAt(u, i) == ChangeAt(t, i)
  {
    hide Invariant, Follows, RowAt, BuildChange, Orphan, ValidateMutation, AcceptedMutation, Admitted, SnapshotOf, PayloadMutation;
    forall i | a < i <= b ensures i in u.changes && Traced(u, i) && !Orphan(u, i) && ChangeAt(u, i) == ChangeAt(t, i) {
      RowStable(t, u, i);
      ReadableExactly(t, i);
      ReadableExactly(u, i);
    }
  }

  /** A session delivers the log from its cursor without gap or repetition; a finished one has delivered all of it. */
  lemma {:induction false} SessionDelivers(t: Tables, history: string, device: string, cursor: Cursor, project: string, limit: int,
                                           size: Change -> nat, visits: seq<Visit>)
    requires Invariant(t) && cursor.watermark < t.nextSeq && 0 <= cursor.position <= cursor.watermark && 1 <= cursor.watermark
    requires Servable(t, cursor.position, cursor.watermark) && Fits(t, cursor.position, cursor.watermark, size)
    requires Session(t, history, device, cursor, project, limit, size, visits)
    ensures |visits| <= cursor.watermark - cursor.position + 1
    ensures visits != [] ==>
      var last := visits[|visits| - 1].page;
      && cursor.position <= last.cursor.position <= cursor.watermark == last.cursor.watermark
      && Delivered(visits) == Log(t, project, cursor.position, last.cursor.position)
      && (!last.hasMore ==> Delivered(visits) == Log(t, project, cursor.position, cursor.watermark))
    decreases |visits|
  {
    hide Invariant, Follows, Servable, Fits, PullPageOf, Log, Admissible;
    if visits != [] {
      var u := visits[0].tables;
      var page := visits[0].page;
      var w := cursor.watermark;
      PageWasAdmitted(u, history, device, cursor, project, limit, size);
      ServableStable(t, u, cursor.position, w);
      assert Fits(u, cursor.position, w, size) by { SameFit(t, u, cursor.position, w, size); }
      PageIsExact(u, history, device, cursor, project, limit, size);
      WatermarkBelowHead(t, u, w);
      LogStable(t, u, project, cursor.position, w);
      var rest := visits[1..];
      if rest == [] {
        assert Delivered(visits) == page.changes + Delivered([]) == page.changes;
        LogStable(t, u, project, cursor.position, page.cursor.position);
      } else {
        Narrower(u, cursor.position, page.cursor.position, w, size);
        SessionDelivers(u, history, device, page.cursor, project, limit, size, rest);
        var end := rest[|rest| - 1].page.cursor.position;
        assert rest[|rest| - 1] == visits[|visits| - 1];
        LogSplits(u, project, cursor.position, page.cursor.position, end);
        LogStable(t, u, project, cursor.position, end);
        LogSplits(u, project, cursor.position, page.cursor.position, w);
      }
    }
  }

  lemma SameFit(t: Tables, u: Tables, a: int, b: int, size: Change -> nat)
    requires Fits(t, a, b, size)
    requires forall i | a < i <= b :: ChangeAt(u, i) == ChangeAt(t, i)
    ensures Fits(u, a, b, size)
  {
    hide ChangeAt;
  }

  lemma WatermarkBelowHead(t: Tables, u: Tables, w: int)
    requires Follows(t, u) && w < t.nextSeq
    ensures w < u.nextSeq
  {
  }

  lemma Narrower(t: Tables, a: int, b: int, c: int, size: Change -> nat)
    requires a <= b && Servable(t, a, c) && Fits(t, a, c, size)
    ensures Servable(t, b, c) && Fits(t, b, c, size)
  {
    hide ChangeAt, Traced, Orphan;
  }

  /** Wherever a session stands, the next pull of a device that is still active answers. */
  lemma {:induction false} SessionContinues(t: Tables, history: string, device: string, cursor: Cursor, project: string, limit: int,
                                            size: Change -> nat, visits: seq<Visit>, u: Tables)
    requires Invariant(t) && cursor.watermark < t.nextSeq && 0 <= cursor.position <= cursor.watermark && 1 <= cursor.watermark
    requires Servable(t, cursor.position, cursor.watermark) && Fits(t, cursor.position, cursor.watermark, size)
    requires Session(t, history, device, cursor, project, limit, size, visits)
    requires visits != [] && Invariant(u) && Follows(visits[|visits| - 1].tables, u) && Authorised(u, device)
    requires IsUuid(history) && Lower(history) == history
    ensures PullPageOf(u, history, device, visits[|visits| - 1].page.cursor, project, limit, size).Page?
    decreases |visits|
  {
    hide Invariant, Follows, Servable, Fits, PullPageOf, Log, Admissible, IsUuid, Lower;
    var v := visits[0].tables;
    var page := visits[0].page;
    var w := cursor.watermark;
    PageWasAdmitted(v, history, device, cursor, project, limit, size);
    ServableStable(t, v, cursor.position, w);
    SameFit(t, v, cursor.position, w, size);
    PageIsExact(v, history, device, cursor, project, limit, size);
    WatermarkBelowHead(t, v, w);
    Narrower(v, cursor.position, page.cursor.position, w, size);
    if |visits| == 1 {
      ServableStable(v, u, page.cursor.position, w);
      SameFit(v, u, page.cursor.position, w, size);
      WatermarkBelowHead(v, u, w);
      AdmittedAgain(v, u, history, device, cursor, page.cursor, project, limit);
      PageIsExact(u, history, device, page.cursor, project, limit, size);
    } else {
      assert visits[1..][|visits[1..]| - 1] == visits[|visits| - 1];
      SessionContinues(v, history, device, page.cursor, project, limit, size, visits[1..], u);
    }
  }

  lemma AdmittedAgain(t: Tables, u: Tables, history: string, device: string, cursor: Cursor, next: Cursor, project: string, limit: int)
    requires Admissible(t, history, device, cursor, project, limit) && Authorised(u, device)
    requires next.historyId == history && IsUuid(history) && Lower(history) == history
    requires 0 <= next.position <= next.watermark < u.nextSeq && 1 <= next.watermark
    ensures Admissible(u, history, device, next, project, limit)
  {
    hide IsUuid, Lower, IsCanonicalUuid;
  }
}
