/**
 Every way the device's inbox moves: pages of a bootstrap, pages up to the device's own
 conflict, that conflict itself, and pages of resolutions, from any number of callers.
 */
module InboxEvents {
  import opened Options
  import opened Uuids
  import opened SyncService
  import opened Protocol
  import opened Replica
  import opened Inbox
  import opened InboxRuns

  /** What the outbox and the receipts answer while a page is applied. */
  datatype Guards = Guards(anyPending: bool, pending: Change -> bool, own: Change -> Option<bool>, rebased: bool)

  datatype Event =
    | SyncPage(page: PullPage, guards: Guards)
    | ConflictPage(page: PullPage, guards: Guards)
    | Landing(page: PullPage, mutationId: string, guards: Guards)
    | Resolutions(page: PullPage, guards: Guards)

  /** The checkpoint of a page on the way to an own conflict: never complete. */
  function WayCheckpoint(page: PullPage): BootstrapCheckpoint {
    BootstrapCheckpoint(page.cursor.historyId, "observations", page.cursor.position, page.cursor.watermark)
  }

  function Attempt(s: Durable, e: Event): PageOutcome {
    match e
    case SyncPage(page, g) => ApplyPage(s, page, Some(PageCheckpoint(page)), DefaultPage, g.anyPending, g.pending, g.own)
    case ConflictPage(page, g) =>
      if page.changes == [] then PageRefused
      else ApplyPage(s, page, Some(WayCheckpoint(page)), OwnConflictPage, g.anyPending, g.pending, g.own)
    case Landing(page, mutationId, g) =>
      if page.changes == [] then PageRefused else ApplyOwnConflict(s, page, mutationId, g.rebased, g.own)
    case Resolutions(page, g) => ApplyPage(s, page, Some(PageCheckpoint(page)), ResolutionPage, g.anyPending, g.pending, g.own)
  }

  function Step(s: Durable, e: Event): Durable {
    var r := Attempt(s, e);
    if r.PageApplied? then r.state else s
  }

  function After(s: Durable, events: seq<Event>): Durable
    decreases |events|
  {
    if events == [] then s else After(Step(s, events[0]), events[1..])
  }

  // -------------------------------------------------------------- invariant

  /** readBootstrapState finds nothing corrupt. */
  predicate StateReads(s: Durable) {
    && (match s.cursor
        case None => s.inbox == map[]
        case Some(mark) => IsCanonicalUuid(mark.historyId) && 1 <= mark.position && InboxExactly(s.inbox, mark.historyId, mark.position))
    && (s.checkpoint.Some? ==>
          && CheckpointPhaseRank(s.checkpoint.value.phase) != 0
          && IsCanonicalUuid(s.checkpoint.value.historyId)
          && 0 <= s.checkpoint.value.position <= s.checkpoint.value.watermark)
  }

  /** Inbox, cursor and checkpoint agree. */
  predicate Sound(s: Durable) {
    ValidateLocal(s) && StateReads(s)
  }

  /**
   What time does to a device: the position, the watermark and the inbox only grow, a row
   never changes, the history stays, and a complete checkpoint is only left for a later position.
   */
  ghost predicate Onward(s: Durable, u: Durable) {
    && PositionOf(s) <= PositionOf(u)
    && (s.cursor.Some? ==> u.cursor.Some? && u.cursor.value.historyId == s.cursor.value.historyId)
    && (forall key | key in s.inbox :: key in u.inbox && u.inbox[key] == s.inbox[key])
    && (s.checkpoint.Some? ==>
          && u.checkpoint.Some? && u.checkpoint.value.historyId == s.checkpoint.value.historyId
          && s.checkpoint.value.watermark <= u.checkpoint.value.watermark)
    && (Complete(s) && PositionOf(u) == PositionOf(s) ==> u == s)
  }

  /** A page that rewrites the checkpoint does not lie behind the cursor. */
  predicate Timely(s: Durable, e: Event) {
    Attempt(s, e).PageApplied? && (e.SyncPage? || e.ConflictPage?) ==> PositionOf(s) <= e.page.cursor.position
  }

  ghost predicate AllTimely(s: Durable, events: seq<Event>)
    decreases |events|
  {
    events == [] || (Timely(s, events[0]) && AllTimely(Step(s, events[0]), events[1..]))
  }

  ghost predicate AllSound(s: Durable, events: seq<Event>)
    decreases |events|
  {
    Sound(s) && (events == [] || AllSound(Step(s, events[0]), events[1..]))
  }

  // ------------------------------------------------------------------ steps

  lemma {:induction false} InboxGrows(s: Durable, historyId: string, changes: seq<Change>, position: int, mode: PageMode,
                                      pending: Change -> bool, own: Change -> Option<bool>, applied: bool)
    requires ApplyChanges(s, historyId, changes, position, mode, pending, own, applied).Stopped?
    ensures var p := ApplyChanges(s, historyId, changes, position, mode, pending, own, applied);
            forall key | key in s.inbox :: key in p.state.inbox && p.state.inbox[key] == s.inbox[key]
    decreases |changes|
  {
    hide Apply;
    if changes != [] {
      var c := changes[0];
      if c.sequence <= position {
        InboxGrows(s, historyId, changes[1..], position, mode, pending, own, applied);
      } else if own(c).Some? && !(mode == ResolutionPage && c.disposition == ConflictChange) {
        var key := InboxKey(historyId, c.sequence);
        var local := if !own(c).value || c.disposition == ConflictChange then Apply(s.local, c) else Applied(s.local);
        if local.Applied? && c.sequence == position + 1 && key !in s.inbox
           && !(pending(c) && !own(c).value && c.mutation.kind != Resolve) {
          InboxGrows(s.(local := local.local, inbox := s.inbox[key := c.changeHash]), historyId, changes[1..], c.sequence, mode,
                     pending, own, true);
        }
      }
    }
  }

  lemma PageGrowsInbox(s: Durable, page: PullPage, checkpoint: Option<BootstrapCheckpoint>, mode: PageMode, anyPending: bool,
                       pending: Change -> bool, own: Change -> Option<bool>)
    requires ApplyPage(s, page, checkpoint, mode, anyPending, pending, own).PageApplied?
    ensures var u := ApplyPage(s, page, checkpoint, mode, anyPending, pending, own).state;
            forall key | key in s.inbox :: key in u.inbox && u.inbox[key] == s.inbox[key]
  {
    hide Apply, IsCanonicalUuid, InboxExactly, ApplyChanges, CheckpointMayFollow, PulledPage;
    InboxGrows(s, page.cursor.historyId, page.changes, StartOf(s, page).position, mode, pending, own, false);
  }

  /** What CheckpointMayFollow was asked about an applied page. */
  lemma PageMayFollow(s: Durable, page: PullPage, checkpoint: BootstrapCheckpoint, mode: PageMode, anyPending: bool,
                      pending: Change -> bool, own: Change -> Option<bool>)
    requires ApplyPage(s, page, Some(checkpoint), mode, anyPending, pending, own).PageApplied?
    ensures CheckpointMayFollow(s.checkpoint, checkpoint, page.cursor.historyId, StartOf(s, page).position, mode == ResolutionPage)
  {
    hide Apply, IsCanonicalUuid, InboxExactly, ApplyChanges, CheckpointMayFollow, PulledPage, StartOf;
  }

  lemma PageStep(s: Durable, page: PullPage, checkpoint: BootstrapCheckpoint, mode: PageMode, anyPending: bool,
                 pending: Change -> bool, own: Change -> Option<bool>)
    requires Sound(s) && ApplyPage(s, page, Some(checkpoint), mode, anyPending, pending, own).PageApplied?
    requires checkpoint.phase == "complete" || 1 <= page.cursor.position
    ensures var u := ApplyPage(s, page, Some(checkpoint), mode, anyPending, pending, own).state;
            && StateReads(u)
            && (ValidateLocal(u) <==> mode == ResolutionPage || PositionOf(s) <= page.cursor.position)
            && (ValidateLocal(u) ==> Onward(s, u))
  {
    CheckpointAgreesExactly(s, page, checkpoint, mode, anyPending, pending, own);
    PageMatchesCheckpoint(s, page, checkpoint, mode, anyPending, pending, own);
    PageMayFollow(s, page, checkpoint, mode, anyPending, pending, own);
    PageGrowsInbox(s, page, Some(checkpoint), mode, anyPending, pending, own);
    AppliedPagePosition(s, page, Some(checkpoint), mode, anyPending, pending, own);
    hide ApplyPage, InboxExactly, StartOf, IsCanonicalUuid;
  }

  lemma LandingStep(s: Durable, page: PullPage, mutationId: string, rebased: bool, own: Change -> Option<bool>)
    requires Sound(s) && page.changes != [] && ApplyOwnConflict(s, page, mutationId, rebased, own).PageApplied?
    ensures var u := ApplyOwnConflict(s, page, mutationId, rebased, own).state;
            Sound(u) && Onward(s, u)
  {
    OwnConflictLands(s, page, mutationId, rebased, own);
    LandingFollows(s, page, mutationId, rebased, own);
    hide ApplyOwnConflict, InboxExactly, IsCanonicalUuid;
  }

  lemma LandingFollows(s: Durable, page: PullPage, mutationId: string, rebased: bool, own: Change -> Option<bool>)
    requires page.changes != [] && ApplyOwnConflict(s, page, mutationId, rebased, own).PageApplied?
    ensures IsCanonicalUuid(page.cursor.historyId) && 1 <= page.cursor.position <= page.cursor.watermark
    ensures s.checkpoint.Some? ==>
      s.checkpoint.value.historyId == page.cursor.historyId && s.checkpoint.value.watermark == page.cursor.watermark
    ensures InboxKey(page.cursor.historyId, page.cursor.position) !in s.inbox
  {
    hide Apply, IsCanonicalUuid, InboxExactly, ValidPulledChange, PulledCursor;
  }

  /** Exactly the untimely pages break the agreement; nothing else does. */
  lemma StepKeepsExactly(s: Durable, e: Event)
    requires Sound(s)
    ensures StateReads(Step(s, e))
    ensures Sound(Step(s, e)) <==> Timely(s, e)
    ensures Timely(s, e) ==> Onward(s, Step(s, e))
  {
    if Attempt(s, e).PageApplied? {
      match e
      case SyncPage(page, g) =>
        HeaderOf(s, page, PageCheckpoint(page), DefaultPage, g);
        PageStep(s, page, PageCheckpoint(page), DefaultPage, g.anyPending, g.pending, g.own);
      case ConflictPage(page, g) =>
        HeaderOf(s, page, WayCheckpoint(page), OwnConflictPage, g);
        PageStep(s, page, WayCheckpoint(page), OwnConflictPage, g.anyPending, g.pending, g.own);
      case Landing(page, mutationId, g) =>
        LandingStep(s, page, mutationId, g.rebased, g.own);
      case Resolutions(page, g) =>
        HeaderOf(s, page, PageCheckpoint(page), ResolutionPage, g);
        PageStep(s, page, PageCheckpoint(page), ResolutionPage, g.anyPending, g.pending, g.own);
    }
    hide ApplyPage, ApplyOwnConflict, StateReads, ValidateLocal;
  }

  lemma HeaderOf(s: Durable, page: PullPage, checkpoint: BootstrapCheckpoint, mode: PageMode, g: Guards)
    requires ApplyPage(s, page, Some(checkpoint), mode, g.anyPending, g.pending, g.own).PageApplied?
    ensures page.changes == [] ==> page.cursor.position == page.cursor.watermark
    ensures page.changes != [] ==> 1 <= page.cursor.position
  {
    PageMatchesCheckpoint(s, page, checkpoint, mode, g.anyPending, g.pending, g.own);
    hide ApplyPage;
  }

  // ------------------------------------------------------------------- runs

  lemma OnwardTransitive(s: Durable, u: Durable, v: Durable)
    requires Onward(s, u) && Onward(u, v)
    ensures Onward(s, v)
  {
  }

  lemma OnwardSelf(s: Durable)
    ensures Onward(s, s)
  {
  }

  /**
   Whoever interleaves with whom: inbox, cursor and checkpoint agree in every state of a run
   if and only if no page that rewrites the checkpoint is applied behind the cursor.
   */
  lemma {:induction false} RunAgreesExactly(s: Durable, events: seq<Event>)
    requires Sound(s)
    ensures AllSound(s, events) <==> AllTimely(s, events)
    ensures AllTimely(s, events) ==> Sound(After(s, events)) && Onward(s, After(s, events))
    decreases |events|
  {
    hide Sound, Timely, Step, Onward;
    OnwardSelf(s);
    if events != [] {
      StepKeepsExactly(s, events[0]);
      var u := Step(s, events[0]);
      if Timely(s, events[0]) {
        RunAgreesExactly(u, events[1..]);
        if AllTimely(u, events[1..]) {
          OnwardTransitive(s, u, After(u, events[1..]));
        }
      } else {
        NotSound(u, events[1..]);
      }
    }
  }

  lemma NotSound(s: Durable, events: seq<Event>)
    requires !Sound(s)
    ensures !AllSound(s, events)
  {
    hide Sound;
  }

  // ------------------------------------------------------------------ calls

  /** forHistory: whether the bootstrap of this history is complete, None when the state does not fit it. */
  function ForHistory(s: Durable, historyId: string): Option<bool> {
    if s.cursor.Some? && s.cursor.value.historyId != historyId then None
    else if s.checkpoint.None? then (if s.cursor.Some? then None else Some(false))
    else
      var c := s.checkpoint.value;
      if c.historyId != historyId then None
      else if c.phase == "complete" then
        if c.position != c.watermark || (c.position == 0 && s.cursor.Some?)
           || (c.position > 0 && (s.cursor.None? || s.cursor.value.position != c.position)) then None
        else Some(true)
      else if c.position < 1 || c.watermark < c.position || s.cursor.None? || s.cursor.value.position != c.position then None
      else Some(false)
  }

  /** ownConflictCursor */
  function OwnConflictCursor(s: Durable, historyId: string): Option<Cursor> {
    if !StateReads(s) || (s.cursor.Some? && s.cursor.value.historyId != historyId) then None
    else if s.checkpoint.Some? && ForHistory(s, historyId) != Some(false) then None
    else Some(Cursor(historyId, PositionOf(s), if s.checkpoint.Some? then s.checkpoint.value.watermark else 0))
  }

  predicate HasUnresolved(local: Local) {
    exists i :: i in local.conflicts && local.conflicts[i].resolvedSeq.None?
  }

  /** One remote page's worth of BootstrapSync, BootstrapOwnConflict or PullConflictResolutions. */
  datatype Call =
    | Bootstrap(historyId: string, page: PullPage, guards: Guards)
    | OwnConflict(historyId: string, sequence: int, mutationId: string, page: PullPage, guards: Guards)
    | PullResolutions(historyId: string, page: PullPage, guards: Guards)

  /** The part of a page before the conflict. */
  function WayTo(page: PullPage, index: int): PullPage
    requires 0 < index < |page.changes|
  {
    PullPage(page.cursor.(position := page.changes[index - 1].sequence), true, page.changes[..index])
  }

  /** The conflict alone. */
  function Alone(page: PullPage, index: int): PullPage
    requires 0 <= index < |page.changes|
  {
    var sequence := page.changes[index].sequence;
    PullPage(page.cursor.(position := sequence), sequence < page.cursor.watermark, [page.changes[index]])
  }

  /** What a call commits, when its checks of the state it read and of the page let it. */
  function Commits(s: Durable, call: Call): seq<Event> {
    match call
    case Bootstrap(historyId, page, g) =>
      if !StateReads(s) || !ValidateLocal(s) || ForHistory(s, historyId) != Some(false) || !BootstrapPage(page, ResumeCursor(s, historyId)) then []
      else [SyncPage(page, g)]
    case OwnConflict(historyId, sequence, mutationId, page, g) =>
      var cursor := OwnConflictCursor(s, historyId);
      if cursor.None? || cursor.value.position >= sequence || !BootstrapPage(page, cursor.value) || page.changes == [] then []
      else if page.cursor.position < sequence then [ConflictPage(page, g)]
      else
        var index := sequence - page.changes[0].sequence;
        if index < 0 || index >= |page.changes| || page.changes[index].mutation.mutationId != mutationId then []
        else (if index > 0 then [ConflictPage(WayTo(page, index), g)] else []) + [Landing(Alone(page, index), mutationId, g)]
    case PullResolutions(historyId, page, g) =>
      if || !StateReads(s) || !ValidateLocal(s) || (s.cursor.Some? && s.cursor.value.historyId != historyId)
         || !HasUnresolved(s.local)
         || !BootstrapPage(page, Cursor(historyId, PositionOf(s), 0)) || page.changes == [] then []
      else [Resolutions(page, g)]
  }

  /** A page that answers the cursor it was asked with is timely where that cursor still stands. */
  lemma CallIsTimely(s: Durable, call: Call)
    requires Sound(s)
    ensures AllTimely(s, Commits(s, call))
  {
    hide ApplyPage, ApplyOwnConflict, ValidPulledChange, IsCanonicalUuid, InboxExactly;
    var events := Commits(s, call);
    if events != [] {
      assert |events| == 1 || |events| == 2;
      if |events| == 2 {
        var u := Step(s, events[0]);
        assert events[1].Landing?;
        assert events[1..][1..] == [];
        assert AllTimely(u, events[1..]);
      } else {
        assert events[1..] == [];
      }
    }
  }

  function AfterCalls(s: Durable, calls: seq<Call>): Durable
    decreases |calls|
  {
    if calls == [] then s else AfterCalls(After(s, Commits(s, calls[0])), calls[1..])
  }

  /** Whatever the remote answers, calls one after the other keep every state sound and only move on. */
  lemma {:induction false} CallsKeepSound(s: Durable, calls: seq<Call>)
    requires Sound(s)
    ensures Sound(AfterCalls(s, calls)) && Onward(s, AfterCalls(s, calls))
    decreases |calls|
  {
    hide Sound, Onward, Commits, After, AllTimely, AllSound;
    OnwardSelf(s);
    if calls != [] {
      CallIsTimely(s, calls[0]);
      RunAgreesExactly(s, Commits(s, calls[0]));
      var u := After(s, Commits(s, calls[0]));
      CallsKeepSound(u, calls[1..]);
      OnwardTransitive(s, u, AfterCalls(u, calls[1..]));
    }
  }

  /** In particular from a device that has never synchronised. */
  lemma DeviceStaysSound(calls: seq<Call>)
    ensures Sound(AfterCalls(FRESH_DEVICE, calls))
  {
    hide AfterCalls;
    CallsKeepSound(FRESH_DEVICE, calls);
  }

  /** A round towards the own conflict never goes past it: later history is left to the ordinary bootstrap. */
  lemma OwnConflictStopsThere(s: Durable, call: Call)
    requires call.OwnConflict?
    ensures var u := After(s, Commits(s, call));
            PositionOf(u) == PositionOf(s) || PositionOf(s) < PositionOf(u) <= call.sequence
  {
    hide Step, Commits, PositionOf, After;
    var events := Commits(s, call);
    CommitsEndBy(s, call);
    AfterFew(s, events);
    if events != [] {
      EventEndsAt(s, events[0]);
      if |events| == 2 {
        EventEndsAt(Step(s, events[0]), events[1]);
      }
    }
  }

  lemma AfterFew(s: Durable, events: seq<Event>)
    ensures events == [] ==> After(s, events) == s
    ensures |events| == 1 ==> After(s, events) == Step(s, events[0])
    ensures |events| == 2 ==> After(s, events) == Step(Step(s, events[0]), events[1])
  {
    hide Step;
    if |events| == 2 {
      assert events[1..][1..] == [];
      assert After(s, events) == After(Step(s, events[0]), events[1..]);
      assert After(Step(s, events[0]), events[1..]) == After(Step(Step(s, events[0]), events[1]), []);
    } else if |events| == 1 {
      assert events[1..] == [];
    }
  }

  lemma CommitsEndBy(s: Durable, call: Call)
    requires call.OwnConflict?
    ensures |Commits(s, call)| <= 2
    ensures forall k | 0 <= k < |Commits(s, call)| ::
      var e := Commits(s, call)[k]; (e.ConflictPage? || e.Landing?) && e.page.cursor.position <= call.sequence
  {
    hide ValidPulledChange, IsCanonicalUuid, InboxExactly, OwnConflictCursor;
    var page := call.page;
    if |Commits(s, call)| != 0 && call.sequence <= page.cursor.position {
      var index := call.sequence - page.changes[0].sequence;
      assert page.changes[index].sequence == call.sequence;
      assert 0 < index ==> page.changes[index - 1].sequence < call.sequence;
    }
  }

  lemma EventEndsAt(s: Durable, e: Event)
    requires e.ConflictPage? || e.Landing?
    ensures PositionOf(Step(s, e)) == PositionOf(s) || PositionOf(s) < PositionOf(Step(s, e)) == e.page.cursor.position
  {
    if Attempt(s, e).PageApplied? {
      match e
      case ConflictPage(page, g) => AppliedPagePosition(s, page, Some(WayCheckpoint(page)), OwnConflictPage, g.anyPending, g.pending, g.own);
      case Landing(page, mutationId, g) => OwnConflictLands(s, page, mutationId, g.rebased, g.own);
      case _ =>
    }
    hide ApplyPage, ApplyOwnConflict, InboxExactly, StartOf;
  }
}
