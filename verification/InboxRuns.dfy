/** Whole runs of pages against one device. */
module InboxRuns {
  import opened Options
  import opened Uuids
  import opened SyncService
  import opened Tables
  import opened Readable
  import opened Paging
  import opened Recovery
  import opened WireContract
  import opened Examples
  import opened Protocol
  import opened Replica
  import opened ReplicaMirror
  import opened ReplicaRefinement
  import opened Inbox

  function PositionOf(s: Durable): int {
    if s.cursor.Some? then s.cursor.value.position else 0
  }

  // --------------------------------------------------------- page arithmetic

  /** Consecutive changes end at their last unless the loop stops before it; changes that are all applied move nothing. */
  lemma {:induction false} LoopReaches(s: Durable, historyId: string, changes: seq<Change>, position: int, mode: PageMode,
                                       pending: Change -> bool, own: Change -> Option<bool>, applied: bool)
    requires forall k | 0 <= k < |changes| :: changes[k].sequence == changes[0].sequence + k
    requires ApplyChanges(s, historyId, changes, position, mode, pending, own, applied).Stopped?
    ensures var p := ApplyChanges(s, historyId, changes, position, mode, pending, own, applied);
            && (p.blocked ==> mode == ResolutionPage)
            && (changes == [] || LastSequence(changes) <= position ==>
                  p.state == s && p.applied == applied && p.position == position && !p.blocked)
            && (changes != [] && LastSequence(changes) > position ==>
                  if p.blocked then position <= p.position < LastSequence(changes) else p.applied && p.position == LastSequence(changes))
    decreases |changes|
  {
    hide Apply;
    if changes != [] {
      var c := changes[0];
      assert forall k | 0 <= k < |changes[1..]| :: changes[1..][k] == changes[k + 1];
      if c.sequence <= position {
        LoopReaches(s, historyId, changes[1..], position, mode, pending, own, applied);
      } else if own(c).Some? && !(mode == ResolutionPage && c.disposition == ConflictChange) {
        var key := InboxKey(historyId, c.sequence);
        var local := if !own(c).value || c.disposition == ConflictChange then Apply(s.local, c) else Applied(s.local);
        if local.Applied? && c.sequence == position + 1 && !(pending(c) && !own(c).value && c.mutation.kind != Resolve) {
          LoopReaches(s.(local := local.local, inbox := s.inbox[key := c.changeHash]), historyId, changes[1..], c.sequence, mode,
                      pending, own, true);
        }
      }
    }
  }

  /** Where a page that was applied leaves the device. Only a page of resolutions can stop before its end. */
  lemma AppliedPagePosition(s: Durable, page: PullPage, checkpoint: Option<BootstrapCheckpoint>, mode: PageMode, anyPending: bool,
                            pending: Change -> bool, own: Change -> Option<bool>)
    requires ApplyPage(s, page, checkpoint, mode, anyPending, pending, own).PageApplied?
    ensures var r := ApplyPage(s, page, checkpoint, mode, anyPending, pending, own);
            var start := StartOf(s, page);
            && start.CursorAt? && start.position == PositionOf(s) <= r.position
            && (r.blocked ==> mode == ResolutionPage)
            && (page.cursor.position <= start.position ==>
                  r.position == start.position && r.state == s.(checkpoint := r.state.checkpoint))
            && (page.cursor.position > start.position ==>
                  if r.blocked then r.position < page.cursor.position else r.position == page.cursor.position)
            && (r.position > start.position ==> r.state.cursor == Some(Mark(page.cursor.historyId, r.position)))
            && (r.position == start.position ==> r.state == s.(checkpoint := r.state.checkpoint))
            && (checkpoint.None? ==> r.state.checkpoint == s.checkpoint)
            && (checkpoint.Some? ==>
                  if mode != ResolutionPage then r.state.checkpoint == checkpoint
                  else if r.position == start.position then r.state.checkpoint == s.checkpoint
                  else r.state.checkpoint == Some(NextCheckpoint(checkpoint.value, mode, r.position)))
            && (s.cursor.Some? ==> s.cursor.value.historyId == page.cursor.historyId)
            && InboxExactly(s.inbox, page.cursor.historyId, start.position)
            && InboxExactly(r.state.inbox, page.cursor.historyId, r.position)
            && (r.state.cursor == Some(Mark(page.cursor.historyId, r.position)) || (r.state.cursor.None? && r.position == 0))
  {
    hide Apply, IsCanonicalUuid, InboxExactly, ApplyChanges, CheckpointMayFollow, ValidPulledChange;
    StartIsExact(s, page);
    var start := StartOf(s, page);
    LoopReaches(s, page.cursor.historyId, page.changes, start.position, mode, pending, own, false);
    AppliedInboxExact(s, page.cursor.historyId, page.changes, start.position, mode, pending, own, false);
    assert page.changes != [] ==> LastSequence(page.changes) == page.cursor.position;
    hide StartOf;
    EmptyPageStart(s, page);
  }

  lemma EmptyPageStart(s: Durable, page: PullPage)
    requires StartOf(s, page).CursorAt?
    ensures page.changes == [] ==> StartOf(s, page).position == page.cursor.position
    ensures StartOf(s, page).position == PositionOf(s)
    ensures s.cursor.Some? ==> s.cursor.value.historyId == page.cursor.historyId
  {
    hide IsCanonicalUuid, InboxExactly;
  }

  // ---------------------------------------------------------------- replays

  /** Reapplying a page that is already applied changes no record, no inbox row and not the cursor. */
  lemma ReappliedPageChangesNothing(s: Durable, page: PullPage, checkpoint: Option<BootstrapCheckpoint>, mode: PageMode, anyPending: bool,
                                    pending: Change -> bool, own: Change -> Option<bool>)
    requires page.cursor.position <= PositionOf(s)
    requires ApplyPage(s, page, checkpoint, mode, anyPending, pending, own).PageApplied?
    ensures var r := ApplyPage(s, page, checkpoint, mode, anyPending, pending, own);
            r.state.local == s.local && r.state.inbox == s.inbox && r.state.cursor == s.cursor && r.position == PositionOf(s)
  {
    hide ApplyPage;
    AppliedPagePosition(s, page, checkpoint, mode, anyPending, pending, own);
  }

  lemma {:induction false} LoopRefusesOtherHash(s: Durable, historyId: string, changes: seq<Change>, position: int, mode: PageMode,
                                                pending: Change -> bool, own: Change -> Option<bool>, applied: bool, k: nat)
    requires k < |changes| && changes[k].sequence <= position
    requires forall j | 0 <= j < |changes| :: changes[j].sequence == changes[0].sequence + j
    requires InboxKey(historyId, changes[k].sequence) in s.inbox
    requires s.inbox[InboxKey(historyId, changes[k].sequence)] != changes[k].changeHash
    ensures ApplyChanges(s, historyId, changes, position, mode, pending, own, applied).Broken?
    decreases |changes|
  {
    hide Apply;
    assert changes[0].sequence <= changes[k].sequence;
    assert forall j | 0 <= j < |changes[1..]| :: changes[1..][j] == changes[j + 1];
    if 0 < k {
      LoopRefusesOtherHash(s, historyId, changes[1..], position, mode, pending, own, applied, k - 1);
    }
  }

  /** A page that differs from what was applied is refused, in every mode. */
  lemma DifferentHistoryRefused(s: Durable, page: PullPage, checkpoint: Option<BootstrapCheckpoint>, mode: PageMode, anyPending: bool,
                                pending: Change -> bool, own: Change -> Option<bool>, k: nat)
    requires k < |page.changes| && page.changes[k].sequence <= PositionOf(s)
    requires InboxKey(page.cursor.historyId, page.changes[k].sequence) in s.inbox
    requires s.inbox[InboxKey(page.cursor.historyId, page.changes[k].sequence)] != page.changes[k].changeHash
    ensures ApplyPage(s, page, checkpoint, mode, anyPending, pending, own) == PageRefused
  {
    hide Apply, IsCanonicalUuid, InboxExactly, ApplyChanges, CheckpointMayFollow, ValidPulledChange;
    if PulledPage(page, checkpoint) && StartOf(s, page).CursorAt? {
      EmptyPageStart(s, page);
      LoopRefusesOtherHash(s, page.cursor.historyId, page.changes, PositionOf(s), mode, pending, own, false, k);
    }
  }

  // ------------------------------------------------------------- checkpoint

  /**
   A page that carries its checkpoint leaves checkpoint and cursor in agreement if and only
   if it is a page of resolutions or does not lie behind the cursor: any other older page,
   fully replayed, still rewrites the checkpoint. At position 0 only a complete phase agrees.
   */
  lemma CheckpointAgreesExactly(s: Durable, page: PullPage, checkpoint: BootstrapCheckpoint, mode: PageMode, anyPending: bool,
                                pending: Change -> bool, own: Change -> Option<bool>)
    requires ValidateLocal(s)
    requires ApplyPage(s, page, Some(checkpoint), mode, anyPending, pending, own).PageApplied?
    ensures ValidateLocal(ApplyPage(s, page, Some(checkpoint), mode, anyPending, pending, own).state) <==>
      mode == ResolutionPage || (PositionOf(s) <= page.cursor.position && (checkpoint.phase == "complete" || 1 <= page.cursor.position))
  {
    PageMatchesCheckpoint(s, page, checkpoint, mode, anyPending, pending, own);
    hide ApplyPage, InboxExactly, StartOf;
    AppliedPagePosition(s, page, Some(checkpoint), mode, anyPending, pending, own);
  }

  lemma PageMatchesCheckpoint(s: Durable, page: PullPage, checkpoint: BootstrapCheckpoint, mode: PageMode, anyPending: bool,
                              pending: Change -> bool, own: Change -> Option<bool>)
    requires ApplyPage(s, page, Some(checkpoint), mode, anyPending, pending, own).PageApplied?
    ensures CheckpointMatches(page, checkpoint) && PulledHeader(page)
  {
    hide Apply, IsCanonicalUuid, InboxExactly, ApplyChanges, CheckpointMayFollow, ValidPulledChange, StartOf, PulledHeader, CheckpointMatches;
  }

  // --------------------------------------------------------------- bootstrap

  /** The cursor BootstrapSync asks with, and the checkpoint it files the answer under. */
  function ResumeCursor(s: Durable, historyId: string): Cursor {
    if s.checkpoint.None? then Cursor(historyId, 0, 0)
    else Cursor(historyId, s.checkpoint.value.position, s.checkpoint.value.watermark)
  }

  function PageCheckpoint(page: PullPage): BootstrapCheckpoint {
    BootstrapCheckpoint(page.cursor.historyId, if page.cursor.position == page.cursor.watermark then "complete" else "observations",
                        page.cursor.position, page.cursor.watermark)
  }

  predicate Complete(s: Durable) {
    s.checkpoint.Some? && s.checkpoint.value.phase == "complete"
  }

  /** One round of a bootstrap that is not complete yet: a page for the durable cursor, applied with its checkpoint. */
  ghost predicate BootstrapRound(s: Durable, historyId: string, page: PullPage, u: Durable) {
    && !Complete(s)
    && (s.checkpoint.Some? ==> s.checkpoint.value.historyId == historyId)
    && BootstrapPage(page, ResumeCursor(s, historyId))
    && exists pending, own ::
         ApplyPage(s, page, Some(PageCheckpoint(page)), DefaultPage, false, pending, own) == PageApplied(u, page.cursor.position, false)
  }

  /** A round keeps cursor and checkpoint together, keeps history and watermark, and gets closer to the watermark or completes. */
  lemma BootstrapRoundAdvances(s: Durable, historyId: string, page: PullPage, u: Durable)
    requires ValidateLocal(s) && BootstrapRound(s, historyId, page, u)
    ensures ValidateLocal(u)
    ensures u.checkpoint == Some(PageCheckpoint(page)) && u.checkpoint.value.historyId == historyId
    ensures PositionOf(u) == page.cursor.position
    ensures InboxExactly(u.inbox, historyId, page.cursor.position)
    ensures Complete(u) || PositionOf(s) < PositionOf(u) < page.cursor.watermark
    ensures PositionOf(s) <= PositionOf(u)
    ensures s.checkpoint.Some? && s.checkpoint.value.watermark != 0 ==> page.cursor.watermark == s.checkpoint.value.watermark
  {
    hide ApplyPage, InboxExactly, ValidPulledChange, IsCanonicalUuid;
    var pending, own :| ApplyPage(s, page, Some(PageCheckpoint(page)), DefaultPage, false, pending, own) == PageApplied(u, page.cursor.position, false);
    AppliedPagePosition(s, page, Some(PageCheckpoint(page)), DefaultPage, false, pending, own);
    CheckpointAgreesExactly(s, page, PageCheckpoint(page), DefaultPage, false, pending, own);
    PageMatchesCheckpoint(s, page, PageCheckpoint(page), DefaultPage, false, pending, own);
  }

  /** Rounds from one device state to the next. */
  ghost predicate BootstrapRun(states: seq<Durable>, historyId: string, pages: seq<PullPage>) {
    |states| == |pages| + 1 && forall k | 0 <= k < |pages| :: BootstrapRound(states[k], historyId, pages[k], states[k + 1])
  }

  /** A bootstrap keeps every state valid, moves strictly towards one watermark, and so cannot run forever. */
  lemma {:induction false} BootstrapRunAdvances(states: seq<Durable>, historyId: string, pages: seq<PullPage>)
    requires BootstrapRun(states, historyId, pages) && ValidateLocal(states[0])
    ensures forall k | 0 <= k <= |pages| :: ValidateLocal(states[k])
    ensures forall j, k | 0 <= j <= k <= |pages| :: PositionOf(states[j]) <= PositionOf(states[k])
    ensures forall j, k | 0 <= j < k < |pages| :: pages[j].cursor.watermark == pages[k].cursor.watermark
    ensures forall k | 0 <= k < |pages| :: PositionOf(states[0]) + k <= PositionOf(states[k])
    ensures 2 <= |pages| ==> |pages| <= pages[0].cursor.watermark - PositionOf(states[0])
    decreases |pages|
  {
    hide BootstrapRound, ValidateLocal;
    if pages != [] {
      var n := |pages| - 1;
      BootstrapRunAdvances(states[..n + 1], historyId, pages[..n]);
      assert BootstrapRound(states[n], historyId, pages[n], states[n + 1]);
      BootstrapRoundAdvances(states[n], historyId, pages[n], states[n + 1]);
      if 0 < n {
        assert BootstrapRound(states[n - 1], historyId, pages[n - 1], states[n]);
        BootstrapRoundAdvances(states[n - 1], historyId, pages[n - 1], states[n]);
        RoundNotComplete(states[n], historyId, pages[n], states[n + 1]);
        assert PositionOf(states[n - 1]) < PositionOf(states[n]) < pages[n - 1].cursor.watermark;
      }
    }
  }

  lemma RoundNotComplete(s: Durable, historyId: string, page: PullPage, u: Durable)
    requires BootstrapRound(s, historyId, page, u)
    ensures !Complete(s)
  {
  }

  // ---------------------------------------------------------- faithfulness

  /** The device holds the replay of exactly this log, and remembers its hashes. */
  ghost predicate Faithful(local: Local, inbox: map<InboxKey, ChangeHash>, historyId: string, log: seq<Change>) {
    && ReplayLog(log) == Applied(local)
    && InboxExactly(inbox, historyId, |log|)
    && forall k | 0 <= k < |log| :: inbox[InboxKey(historyId, k + 1)] == log[k].changeHash
  }

  function NothingPending(): Change -> bool {
    c => false
  }

  function NothingOwn(): Change -> Option<bool> {
    c => Some(false)
  }

  /** One more change, applied and remembered. */
  lemma FaithfulStep(local: Local, inbox: map<InboxKey, ChangeHash>, historyId: string, log: seq<Change>, position: int)
    requires 0 <= position < |log| && log[position].sequence == position + 1
    requires Faithful(local, inbox, historyId, log[..position])
    ensures var key := InboxKey(historyId, position + 1);
            && key !in inbox
            && (Apply(local, log[position]).Applied? <==> ReplayLog(log[..position + 1]).Applied?)
            && (Apply(local, log[position]).Applied? ==>
                  Faithful(Apply(local, log[position]).local, inbox[key := log[position].changeHash], historyId, log[..position + 1]))
  {
    hide Apply;
    var before, after := log[..position], log[..position + 1];
    assert after[..position] == before && after[position] == log[position];
    assert forall k | 0 <= k < position :: after[k] == before[k];
  }

  /** On a device without work of its own the loop replays the log further. */
  lemma {:induction false} LoopReplays(s: Durable, historyId: string, log: seq<Change>, changes: seq<Change>, position: int, mode: PageMode, applied: bool)
    requires 0 <= position <= |log| && Numbered(log)
    requires Faithful(s.local, s.inbox, historyId, log[..position])
    requires forall k | 0 <= k < |changes| :: 1 <= changes[k].sequence <= |log| && changes[k] == log[changes[k].sequence - 1]
    requires ApplyChanges(s, historyId, changes, position, mode, NothingPending(), NothingOwn(), applied).Stopped?
    ensures var p := ApplyChanges(s, historyId, changes, position, mode, NothingPending(), NothingOwn(), applied);
            position <= p.position <= |log| && Faithful(p.state.local, p.state.inbox, historyId, log[..p.position])
    decreases |changes|
  {
    hide Apply, Faithful;
    if changes != [] {
      var c := changes[0];
      assert forall k | 0 <= k < |changes[1..]| :: changes[1..][k] == changes[k + 1];
      if c.sequence <= position {
        LoopReplays(s, historyId, log, changes[1..], position, mode, applied);
      } else if !(mode == ResolutionPage && c.disposition == ConflictChange) {
        FaithfulStep(s.local, s.inbox, historyId, log, position);
        var u := s.(local := Apply(s.local, c).local, inbox := s.inbox[InboxKey(historyId, c.sequence) := c.changeHash]);
        LoopReplays(u, historyId, log, changes[1..], c.sequence, mode, true);
      }
    }
  }

  /** A page of the history keeps a faithful device faithful. */
  lemma PageKeepsFaithful(s: Durable, log: seq<Change>, page: PullPage, checkpoint: Option<BootstrapCheckpoint>, mode: PageMode)
    requires Numbered(log)
    requires PositionOf(s) <= |log| && 0 <= PositionOf(s) && Faithful(s.local, s.inbox, page.cursor.historyId, log[..PositionOf(s)])
    requires forall k | 0 <= k < |page.changes| ::
      1 <= page.changes[k].sequence <= |log| && page.changes[k] == log[page.changes[k].sequence - 1]
    requires ApplyPage(s, page, checkpoint, mode, false, NothingPending(), NothingOwn()).PageApplied?
    ensures var r := ApplyPage(s, page, checkpoint, mode, false, NothingPending(), NothingOwn());
            && PositionOf(s) <= r.position == PositionOf(r.state) <= |log|
            && Faithful(r.state.local, r.state.inbox, page.cursor.historyId, log[..r.position])
  {
    hide Apply, IsCanonicalUuid, InboxExactly, ApplyChanges, CheckpointMayFollow, ValidPulledChange, Faithful, StartOf, PulledPage;
    AppliedPagePosition(s, page, checkpoint, mode, false, NothingPending(), NothingOwn());
    LoopReplays(s, page.cursor.historyId, log, page.changes, PositionOf(s), mode, false);
  }

  /** The server history a device is fed from; its pages may have been read while others kept pushing. */
  ghost predicate PagesOf(t: Tables, page: PullPage) {
    forall k | 0 <= k < |page.changes| ::
      1 <= page.changes[k].sequence <= |WholeLog(t)| && page.changes[k] == WholeLog(t)[page.changes[k].sequence - 1]
  }

  lemma StretchIsOfHistory(t: Tables, page: PullPage, position: int)
    requires WhollyReadable(t) && 0 <= position <= page.cursor.position <= t.nextSeq - 1
    requires page.changes == Log(t, "", position, page.cursor.position)
    ensures PagesOf(t, page)
  {
    hide Log, Servable, Invariant;
    var head := t.nextSeq - 1;
    LogSplits(t, "", 0, position, head);
    LogSplits(t, "", position, page.cursor.position, head);
    Narrow(t, position, page.cursor.position);
    WholeLogSequences(t, 0, position);
    WholeLogSequences(t, position, page.cursor.position);
    forall k | 0 <= k < |page.changes| ensures page.changes[k] == WholeLog(t)[page.changes[k].sequence - 1] {
      assert page.changes[k].sequence == position + k + 1;
    }
  }

  lemma Narrow(t: Tables, a: int, b: int)
    requires WhollyReadable(t) && 0 <= a <= b <= t.nextSeq - 1
    ensures Servable(t, 0, a) && Servable(t, a, b)
  {
    hide Invariant, Traced, Orphan;
  }

  // -------------------------------------------------- a rewritten checkpoint

  const EXAMPLE_HISTORY := ExampleId('1')

  function ExampleChange(n: nat, id: string): Change
    requires 1 <= n <= 9
  {
    Change(n, 1, None, Unstated, "", ExampleProject(n, id), ChangeDigest(1, n, 1, Unstated, "", ExampleProject(n, id)))
  }

  const FIRST := ExampleChange(1, "A")
  const SECOND := ExampleChange(2, "B")

  /** The first page of a bootstrap over three changes. */
  const FIRST_PAGE := PullPage(Cursor(EXAMPLE_HISTORY, 2, 3), true, [FIRST, SECOND])

  /** A fresh device after it. */
  const MIDWAY := Durable(
    Some(Mark(EXAMPLE_HISTORY, 2)),
    map[InboxKey(EXAMPLE_HISTORY, 1) := FIRST.changeHash, InboxKey(EXAMPLE_HISTORY, 2) := SECOND.changeHash],
    Some(BootstrapCheckpoint(EXAMPLE_HISTORY, "observations", 2, 3)),
    EMPTY_STORE.(projects := map["A" := 1, "B" := 1]))

  /** The first change again, as a slower bootstrap of the same device would bring it. */
  const STALE_PAGE := PullPage(Cursor(EXAMPLE_HISTORY, 1, 3), true, [FIRST])

  lemma ExampleChangeValid(n: nat, id: string)
    requires 1 <= n <= 9 && Letter(id)
    ensures ValidPulledChange(ExampleChange(n, id))
  {
    hide IsUuid, Lower, ExampleId, ValidateMutation;
    ExampleProjectValid(n, id);
  }

  lemma ExamplePages()
    ensures PulledPage(FIRST_PAGE, Some(PageCheckpoint(FIRST_PAGE))) && PulledPage(STALE_PAGE, Some(PageCheckpoint(STALE_PAGE)))
  {
    hide IsUuid, Lower, ExampleId, ValidPulledChange;
    ExampleIds('1');
    ExampleChangeValid(1, "A");
    ExampleChangeValid(2, "B");
  }

  lemma MidwayIsReached()
    ensures ApplyPage(FRESH_DEVICE, FIRST_PAGE, Some(PageCheckpoint(FIRST_PAGE)), DefaultPage, false, NothingPending(), NothingOwn())
         == PageApplied(MIDWAY, 2, false)
  {
    hide IsUuid, Lower, ExampleId, ValidPulledChange, PulledPage;
    ExamplePages();
    var history := EXAMPLE_HISTORY;
    var one := FRESH_DEVICE.(local := EMPTY_STORE.(projects := map["A" := 1]), inbox := map[InboxKey(history, 1) := FIRST.changeHash]);
    var two := MIDWAY.(cursor := None, checkpoint := None);
    assert Apply(EMPTY_STORE, FIRST) == Applied(one.local);
    assert Apply(one.local, SECOND) == Applied(two.local);
    assert two.inbox == one.inbox[InboxKey(history, 2) := SECOND.changeHash];
    assert FIRST_PAGE.changes[1..] == [SECOND] && [SECOND][1..] == [];
    assert ApplyChanges(two, history, [], 2, DefaultPage, NothingPending(), NothingOwn(), true) == Stopped(two, 2, true, false);
    assert ApplyChanges(one, history, [SECOND], 1, DefaultPage, NothingPending(), NothingOwn(), true) == Stopped(two, 2, true, false);
    assert ApplyChanges(FRESH_DEVICE, history, FIRST_PAGE.changes, 0, DefaultPage, NothingPending(), NothingOwn(), false)
        == Stopped(two, 2, true, false);
    assert StartOf(FRESH_DEVICE, FIRST_PAGE) == CursorAt(0, false);
  }

  /** A device on its way takes an older page, and is left with a checkpoint behind its cursor. */
  lemma CheckpointCanFallBehind()
    ensures ApplyPage(FRESH_DEVICE, FIRST_PAGE, Some(PageCheckpoint(FIRST_PAGE)), DefaultPage, false, NothingPending(), NothingOwn())
         == PageApplied(MIDWAY, 2, false)
    ensures ValidateLocal(MIDWAY)
    ensures var r := ApplyPage(MIDWAY, STALE_PAGE, Some(PageCheckpoint(STALE_PAGE)), DefaultPage, false, NothingPending(), NothingOwn());
            r.PageApplied? && !ValidateLocal(r.state)
  {
    hide IsUuid, Lower, ExampleId, ValidPulledChange, PulledPage, Apply;
    MidwayIsReached();
    ExamplePages();
    ExampleIds('1');
    assert InboxExactly(MIDWAY.inbox, EXAMPLE_HISTORY, 2);
    assert StartOf(MIDWAY, STALE_PAGE) == CursorAt(2, true);
    var key := InboxKey(EXAMPLE_HISTORY, 1);
    assert key in MIDWAY.inbox && MIDWAY.inbox[key] == FIRST.changeHash by {
      assert InboxKey(EXAMPLE_HISTORY, 1) != InboxKey(EXAMPLE_HISTORY, 2);
    }
    assert CheckpointMayFollow(MIDWAY.checkpoint, PageCheckpoint(STALE_PAGE), EXAMPLE_HISTORY, 2, false);
    assert STALE_PAGE.changes[1..] == [];
    assert ApplyChanges(MIDWAY, EXAMPLE_HISTORY, [], 2, DefaultPage, NothingPending(), NothingOwn(), false) == Stopped(MIDWAY, 2, false, false);
    assert ApplyChanges(MIDWAY, EXAMPLE_HISTORY, STALE_PAGE.changes, 2, DefaultPage, NothingPending(), NothingOwn(), false)
        == Stopped(MIDWAY, 2, false, false);
  }
}
