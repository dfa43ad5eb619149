/** Which changes of a page a device takes, and what it has of them: the loop of applyPulledPage, said change by change (internal/memory/sync.go). */
module InboxAnswers {
  import opened Options
  import opened Uuids
  import opened SyncService
  import opened Protocol
  import opened Replica
  import opened PulledChanges
  import opened Inbox

  /** Each change one sequence behind the one before it, as a page has them. */
  predicate Consecutive(changes: seq<Change>) {
    forall k | 0 <= k < |changes| :: changes[k].sequence == changes[0].sequence + k
  }

  /** Work of the device's own is queued on the record, and neither this change nor a resolution settles it. */
  predicate InTheWay(c: Change, pending: Change -> bool, own: Change -> Option<bool>) {
    pending(c) && own(c) == Some(false) && c.mutation.kind != Resolve
  }

  /** A page of resolutions ends in front of a conflict, and of a change that work is in the way of. */
  predicate EndsBefore(c: Change, position: int, mode: PageMode, pending: Change -> bool, own: Change -> Option<bool>) {
    mode == ResolutionPage && c.sequence > position && (c.disposition == ConflictChange || InTheWay(c, pending, own))
  }

  /** Known already under its hash; or new, with no contradicting receipt and nothing in the way. */
  predicate Admissible(s: Durable, historyId: string, c: Change, position: int, pending: Change -> bool, own: Change -> Option<bool>) {
    var key := InboxKey(historyId, c.sequence);
    if c.sequence <= position then key in s.inbox && s.inbox[key] == c.changeHash
    else key !in s.inbox && own(c).Some? && !InTheWay(c, pending, own)
  }

  /** New, and not a write of the device's own that was taken as it was. */
  predicate ToApply(c: Change, position: int, own: Change -> Option<bool>) {
    c.sequence > position && !(own(c) == Some(true) && c.disposition != ConflictChange)
  }

  /** The rows behind those changes, one applied after the other. */
  function RowsBehind(local: Local, changes: seq<Change>, position: int, own: Change -> Option<bool>): Applied
    decreases |changes|
  {
    if changes == [] then Applied(local)
    else if !ToApply(changes[0], position, own) then RowsBehind(local, changes[1..], position, own)
    else
      match Apply(local, changes[0])
      case NotApplied => NotApplied
      case Applied(after) => RowsBehind(after, changes[1..], position, own)
  }

  /** How many changes the page gets to. */
  function Reach(changes: seq<Change>, position: int, mode: PageMode, pending: Change -> bool, own: Change -> Option<bool>): (n: nat)
    ensures n <= |changes|
    decreases |changes|
  {
    if changes == [] || EndsBefore(changes[0], position, mode, pending, own) then 0
    else 1 + Reach(changes[1..], position, mode, pending, own)
  }

  /** The inbox has a row of each new change among the first n, and is otherwise as before. */
  ghost predicate Entered(s: Durable, u: Durable, historyId: string, changes: seq<Change>, position: int, n: int)
    requires 0 <= n <= |changes|
  {
    && (forall key | key in s.inbox :: key in u.inbox && u.inbox[key] == s.inbox[key])
    && (forall k | 0 <= k < n && changes[k].sequence > position ::
          InboxKey(historyId, changes[k].sequence) in u.inbox && u.inbox[InboxKey(historyId, changes[k].sequence)] == changes[k].changeHash)
    && (forall key | key in u.inbox && key !in s.inbox ::
          exists k :: 0 <= k < n && changes[k].sequence > position && key == InboxKey(historyId, changes[k].sequence))
  }

  lemma TailConsecutive(changes: seq<Change>)
    requires Consecutive(changes) && changes != []
    ensures Consecutive(changes[1..])
    ensures |changes| > 1 ==> changes[1].sequence == changes[0].sequence + 1
    ensures forall k | 0 <= k < |changes[1..]| :: changes[1..][k] == changes[k + 1] && changes[k + 1].sequence > changes[0].sequence
  {
  }

  /** Where the rest of a page is new from either position, both say the same of it. */
  lemma {:induction false} SameFromThere(local: Local, changes: seq<Change>, position: int, later: int, mode: PageMode,
                                         pending: Change -> bool, own: Change -> Option<bool>)
    requires forall k | 0 <= k < |changes| :: changes[k].sequence > position && changes[k].sequence > later
    ensures RowsBehind(local, changes, position, own) == RowsBehind(local, changes, later, own)
    ensures Reach(changes, position, mode, pending, own) == Reach(changes, later, mode, pending, own)
    decreases |changes|
  {
    hide Apply;
    if changes != [] {
      SameFromThere(local, changes[1..], position, later, mode, pending, own);
      if Apply(local, changes[0]).Applied? {
        SameFromThere(Apply(local, changes[0]).local, changes[1..], position, later, mode, pending, own);
      }
    }
  }

  /**
   The loop takes a page if and only if each change up to where it ends is admissible and the new ones, but for the
   device's own, apply one after the other. It leaves those rows, an inbox row for each new change, and the position
   of the last one; a page of resolutions ends early exactly in front of a change it may not take.
   */
  lemma {:induction false} ChangesTakenExactly(s: Durable, historyId: string, changes: seq<Change>, position: int, mode: PageMode,
                                               pending: Change -> bool, own: Change -> Option<bool>, applied: bool)
    requires Consecutive(changes) && (changes != [] ==> changes[0].sequence <= position + 1)
    ensures var r := ApplyChanges(s, historyId, changes, position, mode, pending, own, applied);
            var n := Reach(changes, position, mode, pending, own);
            r.Stopped? <==>
              && (forall k | 0 <= k < n :: Admissible(s, historyId, changes[k], position, pending, own))
              && RowsBehind(s.local, changes[..n], position, own).Applied?
    ensures var r := ApplyChanges(s, historyId, changes, position, mode, pending, own, applied);
            var n := Reach(changes, position, mode, pending, own);
            r.Stopped? ==>
              && r.state.cursor == s.cursor && r.state.checkpoint == s.checkpoint
              && RowsBehind(s.local, changes[..n], position, own) == Applied(r.state.local)
              && Entered(s, r.state, historyId, changes, position, n)
              && r.position == (if n > 0 && changes[n - 1].sequence > position then changes[n - 1].sequence else position)
              && r.applied == (applied || r.position > position)
              && r.blocked == (n < |changes|)
    decreases |changes|
  {
    hide Apply;
    if changes != [] && !EndsBefore(changes[0], position, mode, pending, own) {
      var c := changes[0];
      var rest := changes[1..];
      var n := Reach(changes, position, mode, pending, own);
      TailConsecutive(changes);
      assert changes[..n][0] == c && changes[..n][1..] == rest[..n - 1];
      if c.sequence <= position {
        ChangesTakenExactly(s, historyId, rest, position, mode, pending, own, applied);
        KnownFirst(s, historyId, changes, position, n, pending, own);
      } else {
        NewFirst(s, historyId, changes, position, mode, pending, own, applied);
      }
    }
  }

  lemma KnownFirst(s: Durable, historyId: string, changes: seq<Change>, position: int, n: int, pending: Change -> bool, own: Change -> Option<bool>)
    requires 0 < n <= |changes| && changes[0].sequence <= position
    ensures (forall k | 0 <= k < n :: Admissible(s, historyId, changes[k], position, pending, own)) <==>
      && Admissible(s, historyId, changes[0], position, pending, own)
      && forall k | 0 <= k < n - 1 :: Admissible(s, historyId, changes[1..][k], position, pending, own)
    ensures forall u :: Entered(s, u, historyId, changes[1..], position, n - 1) ==> Entered(s, u, historyId, changes, position, n)
  {
    hide Admissible;
    assert forall k | 0 <= k < n - 1 :: changes[1..][k] == changes[k + 1];
    if forall k | 0 <= k < n - 1 :: Admissible(s, historyId, changes[1..][k], position, pending, own) {
      forall k | 1 <= k < n ensures Admissible(s, historyId, changes[k], position, pending, own) {
        assert changes[1..][k - 1] == changes[k];
      }
    }
    forall u | Entered(s, u, historyId, changes[1..], position, n - 1) ensures Entered(s, u, historyId, changes, position, n) {
      forall k | 0 <= k < n && changes[k].sequence > position
        ensures InboxKey(historyId, changes[k].sequence) in u.inbox && u.inbox[InboxKey(historyId, changes[k].sequence)] == changes[k].changeHash
      {
        assert changes[1..][k - 1] == changes[k];
      }
    }
  }

  /** A new change, and the rest of the page behind it. */
  lemma {:induction false} NewFirst(s: Durable, historyId: string, changes: seq<Change>, position: int, mode: PageMode,
                                    pending: Change -> bool, own: Change -> Option<bool>, applied: bool)
    requires Consecutive(changes) && changes != [] && changes[0].sequence == position + 1
    requires !EndsBefore(changes[0], position, mode, pending, own)
    ensures var r := ApplyChanges(s, historyId, changes, position, mode, pending, own, applied);
            var n := Reach(changes, position, mode, pending, own);
            r.Stopped? <==>
              && (forall k | 0 <= k < n :: Admissible(s, historyId, changes[k], position, pending, own))
              && RowsBehind(s.local, changes[..n], position, own).Applied?
    ensures var r := ApplyChanges(s, historyId, changes, position, mode, pending, own, applied);
            var n := Reach(changes, position, mode, pending, own);
            r.Stopped? ==>
              && r.state.cursor == s.cursor && r.state.checkpoint == s.checkpoint
              && RowsBehind(s.local, changes[..n], position, own) == Applied(r.state.local)
              && Entered(s, r.state, historyId, changes, position, n)
              && r.position == (if n > 0 && changes[n - 1].sequence > position then changes[n - 1].sequence else position)
              && r.applied == (applied || r.position > position)
              && r.blocked == (n < |changes|)
    decreases |changes|, 0
  {
    hide Apply, Admissible, Entered, Consecutive;
    FirstAdmissible(s, historyId, changes, position, pending, own);
    var c := changes[0];
    var rest := changes[1..];
    var n := Reach(changes, position, mode, pending, own);
    TailConsecutive(changes);
    assert changes[..n][0] == c && changes[..n][1..] == rest[..n - 1];
    var local := if ToApply(c, position, own) then Apply(s.local, c) else Applied(s.local);
    if own(c).Some? && !InTheWay(c, pending, own) && local.Applied? && InboxKey(historyId, c.sequence) !in s.inbox {
      var t := s.(local := local.local, inbox := s.inbox[InboxKey(historyId, c.sequence) := c.changeHash]);
      ChangesTakenExactly(t, historyId, rest, c.sequence, mode, pending, own, true);
      SameFromThere(t.local, rest, position, c.sequence, mode, pending, own);
      SameFromThere(t.local, rest[..n - 1], position, c.sequence, mode, pending, own);
      NewRest(s, t, historyId, changes, position, n, pending, own);
    }
  }

  lemma FirstAdmissible(s: Durable, historyId: string, changes: seq<Change>, position: int, pending: Change -> bool, own: Change -> Option<bool>)
    requires changes != [] && changes[0].sequence == position + 1
    ensures Admissible(s, historyId, changes[0], position, pending, own) <==>
      InboxKey(historyId, changes[0].sequence) !in s.inbox && own(changes[0]).Some? && !InTheWay(changes[0], pending, own)
  {
  }

  lemma NewRest(s: Durable, t: Durable, historyId: string, changes: seq<Change>, position: int, n: int, pending: Change -> bool, own: Change -> Option<bool>)
    requires Consecutive(changes) && 0 < n <= |changes| && changes[0].sequence == position + 1
    requires InboxKey(historyId, changes[0].sequence) !in s.inbox
    requires t.inbox == s.inbox[InboxKey(historyId, changes[0].sequence) := changes[0].changeHash]
    requires own(changes[0]).Some? && !InTheWay(changes[0], pending, own)
    ensures (forall k | 0 <= k < n :: Admissible(s, historyId, changes[k], position, pending, own)) <==>
      forall k | 0 <= k < n - 1 :: Admissible(t, historyId, changes[1..][k], changes[0].sequence, pending, own)
    ensures forall u :: Entered(t, u, historyId, changes[1..], changes[0].sequence, n - 1) ==> Entered(s, u, historyId, changes, position, n)
  {
    TailConsecutive(changes);
    hide InTheWay;
    forall k | 1 <= k < n
      ensures Admissible(s, historyId, changes[k], position, pending, own)
        <==> Admissible(t, historyId, changes[1..][k - 1], changes[0].sequence, pending, own)
    {
      assert changes[1..][k - 1] == changes[k];
    }
    if forall k | 0 <= k < n - 1 :: Admissible(t, historyId, changes[1..][k], changes[0].sequence, pending, own) {
      forall k | 0 <= k < n ensures Admissible(s, historyId, changes[k], position, pending, own) {
        assert k > 0 ==> Admissible(t, historyId, changes[1..][k - 1], changes[0].sequence, pending, own);
      }
    }
    forall u | Entered(t, u, historyId, changes[1..], changes[0].sequence, n - 1) ensures Entered(s, u, historyId, changes, position, n) {
      NewEntered(s, t, u, historyId, changes, position, n);
    }
  }

  lemma NewEntered(s: Durable, t: Durable, u: Durable, historyId: string, changes: seq<Change>, position: int, n: int)
    requires Consecutive(changes) && 0 < n <= |changes| && changes[0].sequence == position + 1
    requires InboxKey(historyId, changes[0].sequence) !in s.inbox
    requires t.inbox == s.inbox[InboxKey(historyId, changes[0].sequence) := changes[0].changeHash]
    requires Entered(t, u, historyId, changes[1..], changes[0].sequence, n - 1)
    ensures Entered(s, u, historyId, changes, position, n)
  {
    TailConsecutive(changes);
    forall k | 0 <= k < n
      ensures InboxKey(historyId, changes[k].sequence) in u.inbox && u.inbox[InboxKey(historyId, changes[k].sequence)] == changes[k].changeHash
    {
      if k > 0 {
        assert changes[1..][k - 1] == changes[k];
      } else {
        assert InboxKey(historyId, changes[0].sequence) in t.inbox;
      }
    }
    forall key | key in u.inbox && key !in s.inbox
      ensures exists k :: 0 <= k < n && changes[k].sequence > position && key == InboxKey(historyId, changes[k].sequence)
    {
      if key in t.inbox {
        assert key == InboxKey(historyId, changes[0].sequence);
      } else {
        var k :| 0 <= k < n - 1 && changes[1..][k].sequence > changes[0].sequence && key == InboxKey(historyId, changes[1..][k].sequence);
        assert changes[1..][k] == changes[k + 1];
      }
    }
  }

  /** Where the loop over a page's changes ends. */
  function EndOf(page: PullPage, position: int, mode: PageMode, pending: Change -> bool, own: Change -> Option<bool>): int {
    var n := Reach(page.changes, position, mode, pending, own);
    if n > 0 && page.changes[n - 1].sequence > position then page.changes[n - 1].sequence else position
  }

  /** The checkpoint a page brings, if any: not over queued work unless it settles it, and one that may follow the last. */
  predicate CheckpointFits(s: Durable, page: PullPage, checkpoint: Option<BootstrapCheckpoint>, mode: PageMode, anyPending: bool, start: int, end: int) {
    checkpoint.Some? ==>
      && (mode == DefaultPage ==> !anyPending)
      && CheckpointMayFollow(s.checkpoint, checkpoint.value, page.cursor.historyId, start, mode == ResolutionPage)
      && (mode == ResolutionPage && end > start ==>
            CheckpointMayFollow(s.checkpoint, NextCheckpoint(checkpoint.value, mode, end), page.cursor.historyId, start, true))
  }

  /** A page is applied if and only if it answers, starts where the device is, its checkpoint fits and the loop takes it. */
  lemma PageTakenExactly(s: Durable, page: PullPage, checkpoint: Option<BootstrapCheckpoint>, mode: PageMode, anyPending: bool,
                         pending: Change -> bool, own: Change -> Option<bool>)
    ensures var r := ApplyPage(s, page, checkpoint, mode, anyPending, pending, own);
            var start := StartOf(s, page);
            r.PageApplied? <==>
              && PulledPage(page, checkpoint) && start.CursorAt?
              && (forall k | 0 <= k < Reach(page.changes, start.position, mode, pending, own) ::
                    Admissible(s, page.cursor.historyId, page.changes[k], start.position, pending, own))
              && RowsBehind(s.local, page.changes[..Reach(page.changes, start.position, mode, pending, own)], start.position, own).Applied?
              && CheckpointFits(s, page, checkpoint, mode, anyPending, start.position, EndOf(page, start.position, mode, pending, own))
    ensures var r := ApplyPage(s, page, checkpoint, mode, anyPending, pending, own);
            r.PageApplied? ==>
              var start := StartOf(s, page).position;
              var n := Reach(page.changes, start, mode, pending, own);
              && RowsBehind(s.local, page.changes[..n], start, own) == Applied(r.state.local)
              && Entered(s, r.state, page.cursor.historyId, page.changes, start, n)
              && r.position == EndOf(page, start, mode, pending, own) && r.blocked == (n < |page.changes|)
              && r.state.cursor == (if r.position > start then Some(Mark(page.cursor.historyId, r.position)) else s.cursor)
              && r.state.checkpoint == (if checkpoint.None? || (mode == ResolutionPage && r.position == start) then s.checkpoint
                                        else Some(NextCheckpoint(checkpoint.value, mode, r.position)))
  {
    hide CheckpointMayFollow, NextCheckpoint, Admissible, RowsBehind, Entered, ApplyChanges, PulledPage, StartOf, Reach;
    if PulledPage(page, checkpoint) && StartOf(s, page).CursorAt? {
      var start := StartOf(s, page);
      PageIsConsecutive(s, page, checkpoint);
      ChangesTakenExactly(s, page.cursor.historyId, page.changes, start.position, mode, pending, own, false);
      var r := ApplyChanges(s, page.cursor.historyId, page.changes, start.position, mode, pending, own, false);
      if r.Stopped? {
        SameEntered(s, r.state, page, start.position, Reach(page.changes, start.position, mode, pending, own));
      }
    }
  }

  lemma PageIsConsecutive(s: Durable, page: PullPage, checkpoint: Option<BootstrapCheckpoint>)
    requires PulledPage(page, checkpoint) && StartOf(s, page).CursorAt?
    ensures Consecutive(page.changes) && (page.changes != [] ==> page.changes[0].sequence <= StartOf(s, page).position + 1)
  {
    hide ValidPulledChange, PulledCursor;
  }

  /** Cursor and checkpoint are no part of it. */
  lemma SameEntered(s: Durable, u: Durable, page: PullPage, position: int, n: int)
    requires 0 <= n <= |page.changes|
    ensures forall v: Durable | v.inbox == u.inbox ::
      Entered(s, v, page.cursor.historyId, page.changes, position, n) == Entered(s, u, page.cursor.historyId, page.changes, position, n)
  {
  }

  // ---------------------------------------------------------------- the start

  /** The device is at a position of a history, its inbox exactly what came before. */
  predicate StandsAt(s: Durable, historyId: string, position: int) {
    match s.cursor
    case None => position == 0 && s.inbox == map[]
    case Some(mark) =>
      && mark == Mark(historyId, position) && IsCanonicalUuid(historyId) && 0 <= position
      && (forall key | key in s.inbox :: key.historyId == historyId && 1 <= key.sequence <= position)
      && forall i | 1 <= i <= position :: InboxKey(historyId, i) in s.inbox
  }

  function PositionOf(s: Durable): int {
    if s.cursor.Some? then s.cursor.value.position else 0
  }

  /** A page starts where the device stands: an empty one exactly there, another with its next change or one it knows. */
  lemma StartsExactly(s: Durable, page: PullPage)
    requires page.changes != [] ==> 1 <= page.changes[0].sequence
    ensures StartOf(s, page).CursorAt? <==>
      && StandsAt(s, page.cursor.historyId, PositionOf(s))
      && if page.changes == [] then page.cursor.position == PositionOf(s)
         else
           && PositionOf(s) != MAX_INT64 && page.changes[0].sequence <= PositionOf(s) + 1
           && (page.changes[0].sequence <= PositionOf(s) ==>
                 var key := InboxKey(page.cursor.historyId, page.changes[0].sequence);
                 key in s.inbox && s.inbox[key] == page.changes[0].changeHash)
    ensures StartOf(s, page).CursorAt? ==> StartOf(s, page).position == PositionOf(s)
  {
    hide IsCanonicalUuid;
  }

  /** The bootstrap the device is in, if in one: of this history, up to here, and not behind what the conflict makes of it. */
  predicate LandingFits(s: Durable, page: PullPage) {
    s.checkpoint.Some? ==>
      var c := s.checkpoint.value;
      && c.historyId == page.cursor.historyId && c.position == PositionOf(s) && c.watermark == page.cursor.watermark
      && c.phase != "complete"
      && (page.cursor.position < page.cursor.watermark ==> CheckpointPhaseRank(c.phase) <= CheckpointPhaseRank("observations"))
      && (page.cursor.position == page.cursor.watermark ==> CheckpointPhaseRank(c.phase) <= CheckpointPhaseRank("complete"))
  }

  /**
   The device's own conflict lands if and only if it is the one change behind the device's position, the conflict of
   the mutation asked for, by a receipt that agrees, its queued work can be moved, and the rows and the bootstrap fit.
   */
  lemma OwnConflictLandsExactly(s: Durable, page: PullPage, mutationId: string, rebased: bool, own: Change -> Option<bool>)
    requires page.changes != []
    ensures ApplyOwnConflict(s, page, mutationId, rebased, own).PageApplied? <==>
      && PulledPage(page, None) && |page.changes| == 1
      && StandsAt(s, page.cursor.historyId, PositionOf(s)) && page.cursor.position == PositionOf(s) + 1
      && page.changes[0].mutation.mutationId == mutationId && page.changes[0].disposition == ConflictChange
      && own(page.changes[0]) == Some(true) && rebased
      && Takes(s.local, page.changes[0])
      && LandingFits(s, page)
  {
    hide IsCanonicalUuid, ValidPulledChange, Apply, Takes, CheckpointMayFollow, PulledHeader;
    ChangeAppliesExactly(s.local, page.changes[0]);
    var next := LandingCheckpoint(page);
    if PulledPage(page, None) && |page.changes| == 1 {
      assert page.changes[0].sequence == page.cursor.position;
      HeaderBounds(page);
      if page.cursor.position == PositionOf(s) + 1 {
        LandingIs(s, page, next);
      }
    }
  }

  lemma HeaderBounds(page: PullPage)
    requires PulledHeader(page)
    ensures 0 <= page.cursor.position <= page.cursor.watermark
  {
    hide IsCanonicalUuid;
  }

  lemma LandingIs(s: Durable, page: PullPage, next: BootstrapCheckpoint)
    requires page.changes != [] && page.changes[0].sequence == page.cursor.position == PositionOf(s) + 1
    requires page.cursor.position <= page.cursor.watermark && next == LandingCheckpoint(page)
    ensures (s.checkpoint.Some? ==> CheckpointMayFollow(s.checkpoint, next, page.cursor.historyId, PositionOf(s), false)) <==> LandingFits(s, page)
  {
  }
}
