/**
 Server and device together: a device bootstraps, page by page, from a server that keeps
 growing, and ends up with the tables the server had when the bootstrap began.
 */
module BootstrapRuns {
  import opened Options
  import opened Uuids
  import opened SyncService
  import opened Tables
  import opened Recovery
  import opened PushInvariant
  import opened History
  import opened Pull
  import opened Readable
  import opened Paging
  import opened Protocol
  import opened WireContract
  import opened Replica
  import opened ReplicaMirror
  import opened ReplicaRefinement
  import opened Inbox
  import opened InboxRuns
  import opened InboxEvents

  /** The names of one connection, and how large a change is on the wire. */
  datatype Link = Link(history: string, device: string, limit: int, size: Change -> nat)

  /** A device without work of its own. */
  const QUIET := Guards(false, NothingPending(), NothingOwn(), true)

  /** What the server answers the device's request. */
  function Answer(s: Durable, u: Tables, link: Link): PullOutcome {
    var request := CheckedPullRequest(PullRequest(PROTOCOL_VERSION, ResumeCursor(s, link.history), "", link.limit));
    if request.None? then PullRefused
    else PullPageOf(u, link.history, link.device, request.value.cursor, "", request.value.limit, link.size)
  }

  /** One round of BootstrapSync. */
  function Round(s: Durable, u: Tables, link: Link): Durable {
    var answer := Answer(s, u, link);
    if answer.Page? then After(s, Commits(s, Bootstrap(link.history, answer.page, QUIET))) else s
  }

  /** A fresh device after one round with each of these states of the server. */
  function Fed(servers: seq<Tables>, link: Link): Durable {
    if servers == [] then FRESH_DEVICE else Round(Fed(servers[..|servers| - 1], link), servers[|servers| - 1], link)
  }

  /** Readable states of one server, each continuing the earlier ones. */
  ghost predicate Growing(servers: seq<Tables>, link: Link) {
    && (forall k | 0 <= k < |servers| ::
          WhollyReadable(servers[k]) && Fits(servers[k], 0, servers[k].nextSeq - 1, link.size) && servers[k].nextSeq <= MAX_INT64)
    && (forall j, k | 0 <= j <= k < |servers| :: Follows(servers[j], servers[k]))
  }

  // -------------------------------------------------------------- one round

  /** A device on its way through the log of t: it is the replay of a prefix, and bound for its end. */
  ghost predicate Partway(s: Durable, t: Tables, history: string) {
    && Sound(s)
    && 0 <= PositionOf(s) <= |WholeLog(t)|
    && Faithful(s.local, s.inbox, history, WholeLog(t)[..PositionOf(s)])
    && (s.checkpoint.Some? ==> s.checkpoint.value.historyId == history && s.checkpoint.value.watermark == |WholeLog(t)|)
  }

  lemma {:induction false} PrefixReplays(log: seq<Change>, n: nat)
    requires n <= |log| && ReplayLog(log).Applied?
    ensures ReplayLog(log[..n]).Applied?
    decreases |log|
  {
    hide Apply;
    if n < |log| {
      PrefixReplays(log[..|log| - 1], n);
      assert log[..|log| - 1][..n] == log[..n];
    } else {
      assert log[..n] == log;
    }
  }

  /** The loop takes the next stretch of a log whose replay goes on that far. */
  lemma {:induction false} LoopTakes(s: Durable, historyId: string, log: seq<Change>, changes: seq<Change>, position: int, applied: bool)
    requires Numbered(log) && 0 <= position && position + |changes| <= |log| && changes == log[position..position + |changes|]
    requires Faithful(s.local, s.inbox, historyId, log[..position])
    requires ReplayLog(log[..position + |changes|]).Applied?
    ensures ApplyChanges(s, historyId, changes, position, DefaultPage, NothingPending(), NothingOwn(), applied).Stopped?
    decreases |changes|
  {
    hide Apply, Faithful, ReplayLog;
    if changes != [] {
      var c := changes[0];
      assert c == log[position] && c.sequence == position + 1;
      PrefixReplays(log[..position + |changes|], position + 1);
      assert log[..position + |changes|][..position + 1] == log[..position + 1];
      FaithfulStep(s.local, s.inbox, historyId, log, position);
      var u := s.(local := Apply(s.local, c).local, inbox := s.inbox[InboxKey(historyId, c.sequence) := c.changeHash]);
      assert changes[1..] == log[position + 1..position + 1 + |changes[1..]|];
      LoopTakes(u, historyId, log, changes[1..], position + 1, true);
    }
  }

  /** The next page of a log, in the form the server sends it. */
  predicate NextPage(s: Durable, log: seq<Change>, historyId: string, page: PullPage) {
    && PulledPage(page, None)
    && 0 <= PositionOf(s) <= page.cursor.position <= page.cursor.watermark == |log| < MAX_INT64
    && page.cursor.historyId == historyId
    && page.changes == log[PositionOf(s)..page.cursor.position]
  }

  lemma NextPageStarts(s: Durable, log: seq<Change>, historyId: string, page: PullPage)
    requires Sound(s) && InboxExactly(s.inbox, historyId, PositionOf(s)) && Numbered(log)
    requires s.checkpoint.Some? ==> s.checkpoint.value.historyId == historyId
    requires 0 <= PositionOf(s) && NextPage(s, log, historyId, page)
    ensures StartOf(s, page) == CursorAt(PositionOf(s), false)
  {
    hide IsCanonicalUuid, InboxExactly, ValidPulledChange;
    if page.changes != [] {
      assert page.changes[0] == log[PositionOf(s)];
    }
  }

  /** A page of the log is applied exactly when the replay goes on to its end. */
  lemma NextPageApplies(s: Durable, log: seq<Change>, historyId: string, page: PullPage)
    requires Sound(s) && !Complete(s) && 0 <= PositionOf(s) <= |log| && Numbered(log)
    requires Faithful(s.local, s.inbox, historyId, log[..PositionOf(s)])
    requires s.checkpoint.Some? ==> s.checkpoint.value.historyId == historyId && s.checkpoint.value.watermark == |log|
    requires NextPage(s, log, historyId, page)
    ensures var r := ApplyPage(s, page, Some(PageCheckpoint(page)), DefaultPage, false, NothingPending(), NothingOwn());
            && (r.PageApplied? <==> ReplayLog(log[..page.cursor.position]).Applied?)
            && (r.PageApplied? ==>
                  && PositionOf(r.state) == page.cursor.position
                  && r.state.checkpoint == Some(PageCheckpoint(page))
                  && Faithful(r.state.local, r.state.inbox, historyId, log[..page.cursor.position]))
  {
    hide ApplyPage, ReplayLog, Faithful, Sound, PulledPage;
    if ApplyPage(s, page, Some(PageCheckpoint(page)), DefaultPage, false, NothingPending(), NothingOwn()).PageApplied? {
      NextPageMirrors(s, log, historyId, page);
    }
    if ReplayLog(log[..page.cursor.position]).Applied? {
      NextPageIsTaken(s, log, historyId, page);
    }
  }

  lemma NextPageMirrors(s: Durable, log: seq<Change>, historyId: string, page: PullPage)
    requires Sound(s) && !Complete(s) && 0 <= PositionOf(s) <= |log| && Numbered(log)
    requires Faithful(s.local, s.inbox, historyId, log[..PositionOf(s)])
    requires s.checkpoint.Some? ==> s.checkpoint.value.historyId == historyId && s.checkpoint.value.watermark == |log|
    requires NextPage(s, log, historyId, page)
    requires ApplyPage(s, page, Some(PageCheckpoint(page)), DefaultPage, false, NothingPending(), NothingOwn()).PageApplied?
    ensures var r := ApplyPage(s, page, Some(PageCheckpoint(page)), DefaultPage, false, NothingPending(), NothingOwn());
            && 0 <= page.cursor.position <= |log| && ReplayLog(log[..page.cursor.position]).Applied?
            && PositionOf(r.state) == page.cursor.position
            && r.state.checkpoint == Some(PageCheckpoint(page))
            && Faithful(r.state.local, r.state.inbox, historyId, log[..page.cursor.position])
  {
    hide Apply, ReplayLog, IsCanonicalUuid, ValidPulledChange, StartOf, ApplyPage, InboxExactly;
    var a, b := PositionOf(s), page.cursor.position;
    NextPageStarts(s, log, historyId, page);
    forall k | 0 <= k < |page.changes|
      ensures 1 <= page.changes[k].sequence <= |log| && page.changes[k] == log[page.changes[k].sequence - 1]
    {
      assert page.changes[k] == log[a + k];
    }
    var r := ApplyPage(s, page, Some(PageCheckpoint(page)), DefaultPage, false, NothingPending(), NothingOwn());
    PageKeepsFaithful(s, log, page, Some(PageCheckpoint(page)), DefaultPage);
    AppliedPagePosition(s, page, Some(PageCheckpoint(page)), DefaultPage, false, NothingPending(), NothingOwn());
    hide PulledPage;
    FaithfulReplays(r.state.local, r.state.inbox, historyId, log[..b]);
  }

  lemma NextPageIsTaken(s: Durable, log: seq<Change>, historyId: string, page: PullPage)
    requires Sound(s) && !Complete(s) && 0 <= PositionOf(s) <= |log| && Numbered(log)
    requires Faithful(s.local, s.inbox, historyId, log[..PositionOf(s)])
    requires s.checkpoint.Some? ==> s.checkpoint.value.historyId == historyId && s.checkpoint.value.watermark == |log|
    requires NextPage(s, log, historyId, page)
    requires ReplayLog(log[..page.cursor.position]).Applied?
    ensures ApplyPage(s, page, Some(PageCheckpoint(page)), DefaultPage, false, NothingPending(), NothingOwn()).PageApplied?
  {
    hide Apply, ApplyChanges, ReplayLog, IsCanonicalUuid, ValidPulledChange, StartOf;
    var a := PositionOf(s);
    assert InboxExactly(s.inbox, historyId, a);
    hide InboxExactly;
    NextPageStarts(s, log, historyId, page);
    forall k | 0 <= k < |page.changes|
      ensures 1 <= page.changes[k].sequence <= |log| && page.changes[k] == log[page.changes[k].sequence - 1]
    {
      assert page.changes[k] == log[a + k];
    }
    hide Faithful;
    LoopTakes(s, historyId, log, page.changes, a, false);
  }

  lemma FaithfulReplays(local: Local, inbox: map<InboxKey, ChangeHash>, historyId: string, log: seq<Change>)
    requires Faithful(local, inbox, historyId, log)
    ensures ReplayLog(log) == Applied(local) && InboxExactly(inbox, historyId, |log|)
  {
    hide InboxExactly, ReplayLog;
  }

  // ---------------------------------------------------------- the server's part

  lemma LogOf(t: Tables)
    requires WhollyReadable(t)
    ensures Invariant(t) && Servable(t, 0, t.nextSeq - 1)
    ensures |WholeLog(t)| == t.nextSeq - 1 && Numbered(WholeLog(t)) && 1 <= t.nextSeq
  {
    hide Invariant, Servable, WholeLog, ServedAs;
    WholeLogServed(t);
    HeadNotNegative(t);
  }

  lemma ResumesAtPosition(s: Durable, history: string)
    requires Sound(s) && !Complete(s)
    ensures ResumeCursor(s, history).position == PositionOf(s)
    ensures s.checkpoint.Some? ==> 1 <= PositionOf(s) <= s.checkpoint.value.watermark
    ensures s.checkpoint.None? ==> s.cursor.None? && PositionOf(s) == 0
  {
    hide InboxExactly, IsCanonicalUuid;
  }

  /** A stretch of a readable history is a slice of its log. */
  lemma StretchIsSlice(t: Tables, page: PullPage, position: int)
    requires WhollyReadable(t) && 0 <= position <= page.cursor.position <= |WholeLog(t)|
    requires page.changes == Log(t, "", position, page.cursor.position)
    ensures page.changes == WholeLog(t)[position..page.cursor.position]
  {
    hide Invariant, Servable, Log;
    LogOf(t);
    Narrow(t, position, page.cursor.position);
    WholeLogSequences(t, position, page.cursor.position);
    StretchIsOfHistory(t, page, position);
    hide WholeLog, WhollyReadable;
    forall k | 0 <= k < |page.changes| ensures page.changes[k] == WholeLog(t)[position..page.cursor.position][k] {
      assert page.changes[k].sequence == position + k + 1;
    }
  }

  /** The request of a device on its way, and the stretch of the log that answers it. */
  lemma AnswerIsStretch(s: Durable, t: Tables, u: Tables, link: Link)
    requires WhollyReadable(t) && WhollyReadable(u) && Follows(t, u) && u.nextSeq <= MAX_INT64
    requires Fits(u, 0, u.nextSeq - 1, link.size) && IsCanonicalUuid(link.history)
    requires Partway(s, t, link.history) && !Complete(s) && (s.checkpoint.None? ==> u == t)
    requires Answer(s, u, link).Page?
    ensures var page := Answer(s, u, link).page;
            && page.cursor.historyId == link.history && page.cursor.watermark == |WholeLog(t)|
            && 0 <= PositionOf(s) <= page.cursor.position <= page.cursor.watermark
            && page.changes == Log(t, "", PositionOf(s), page.cursor.position)
            && PulledPage(page, None) && BootstrapPage(page, ResumeCursor(s, link.history))
            && (page.cursor.position == PositionOf(s) ==> page.cursor.position == page.cursor.watermark)
  {
    hide Invariant, Servable, Log, WholeLog, WhollyReadable, Faithful, Follows, IsCanonicalUuid, IsUuid, PulledPage, BootstrapPage, Fits,
      PullPageOf, Admissible, Total;
    LogOf(t);
    LogOf(u);
    ResumesAtPosition(s, link.history);
    var cursor := ResumeCursor(s, link.history);
    var request := CheckedPullRequest(PullRequest(PROTOCOL_VERSION, cursor, "", link.limit)).value;
    var a, w := PositionOf(s), |WholeLog(t)|;
    PageWasAdmitted(u, link.history, link.device, cursor, "", request.limit, link.size);
    assert EffectiveWatermark(u, cursor) == w;
    WatermarkBelowHead(t, u, w);
    Within(u, a, w, link.size);
    PageIsExact(u, link.history, link.device, cursor, "", request.limit, link.size);
    ServedPagePasses(u, link.history, link.device, request, link.size);
    LogStable(t, u, "", a, Answer(s, u, link).page.cursor.position);
  }

  lemma Within(t: Tables, a: int, b: int, size: Change -> nat)
    requires 0 <= a <= b <= t.nextSeq - 1 && Servable(t, 0, t.nextSeq - 1) && Fits(t, 0, t.nextSeq - 1, size)
    ensures Servable(t, a, b) && Fits(t, a, b, size)
  {
    hide ChangeAt, Traced, Orphan;
  }

  /** What a device on its way is answered is the next page of the log it is bound for. */
  lemma AnswerIsNextPage(s: Durable, t: Tables, u: Tables, link: Link)
    requires WhollyReadable(t) && WhollyReadable(u) && Follows(t, u) && u.nextSeq <= MAX_INT64
    requires Fits(u, 0, u.nextSeq - 1, link.size) && IsCanonicalUuid(link.history)
    requires Partway(s, t, link.history) && !Complete(s) && (s.checkpoint.None? ==> u == t)
    requires Answer(s, u, link).Page?
    ensures var page := Answer(s, u, link).page;
            && NextPage(s, WholeLog(t), link.history, page)
            && BootstrapPage(page, ResumeCursor(s, link.history))
            && (page.cursor.position == PositionOf(s) ==> page.cursor.position == page.cursor.watermark)
  {
    hide WhollyReadable, WholeLog, Log, Follows, Fits, Faithful, Answer, PulledPage, BootstrapPage, IsCanonicalUuid, Sound;
    AnswerIsStretch(s, t, u, link);
    StretchIsSlice(t, Answer(s, u, link).page, PositionOf(s));
    LogOf(t);
    HeadGrows(t, u);
  }

  lemma HeadGrows(t: Tables, u: Tables)
    requires Follows(t, u)
    ensures t.nextSeq <= u.nextSeq
  {
    WatermarkBelowHead(t, u, t.nextSeq - 1);
  }

  // -------------------------------------------------------------- one round

  /** What one answered round does to a device on its way. */
  lemma RoundMoves(s: Durable, t: Tables, u: Tables, link: Link)
    requires WhollyReadable(t) && WhollyReadable(u) && Follows(t, u) && u.nextSeq <= MAX_INT64
    requires Fits(u, 0, u.nextSeq - 1, link.size) && IsCanonicalUuid(link.history)
    requires Partway(s, t, link.history) && !Complete(s) && (s.checkpoint.None? ==> u == t)
    ensures var v := Round(s, u, link);
            && Partway(v, t, link.history)
            && (v == s || (v.checkpoint.Some? && (Complete(v) || PositionOf(s) < PositionOf(v))))
            && (Answer(s, u, link).Page? && ReplayLog(WholeLog(t)).Applied? ==> v != s)
  {
    if Answer(s, u, link).Page? {
      var page := Answer(s, u, link).page;
      AnswerIsNextPage(s, t, u, link);
      PageMoves(s, t, link.history, page);
      hide Answer;
    }
  }

  lemma PageMoves(s: Durable, t: Tables, history: string, page: PullPage)
    requires WhollyReadable(t) && Partway(s, t, history) && !Complete(s)
    requires NextPage(s, WholeLog(t), history, page) && BootstrapPage(page, ResumeCursor(s, history))
    requires page.cursor.position == PositionOf(s) ==> page.cursor.position == page.cursor.watermark
    ensures var v := After(s, Commits(s, Bootstrap(history, page, QUIET)));
            && Partway(v, t, history)
            && (v == s || (v.checkpoint.Some? && (Complete(v) || PositionOf(s) < PositionOf(v))))
            && (ReplayLog(WholeLog(t)).Applied? ==> v != s)
  {
    hide WhollyReadable, WholeLog, ReplayLog, Faithful, BootstrapPage, ApplyPage, PulledPage, InboxExactly, IsCanonicalUuid;
    LogOf(t);
    var log := WholeLog(t);
    assert InboxExactly(s.inbox, history, PositionOf(s)) by { FaithfulReplays(s.local, s.inbox, history, log[..PositionOf(s)]); }
    NotCompleteFits(s, history);
    var event := SyncPage(page, QUIET);
    assert Commits(s, Bootstrap(history, page, QUIET)) == [event];
    assert [event][1..] == [];
    NextPageApplies(s, log, history, page);
    CallsKeepSound(s, [Bootstrap(history, page, QUIET)]);
    if ReplayLog(log).Applied? {
      PrefixReplays(log, page.cursor.position);
    }
  }

  /** A sound device that is not complete passes the checks of the history it is bound for. */
  lemma NotCompleteFits(s: Durable, history: string)
    requires Sound(s) && !Complete(s)
    requires InboxExactly(s.inbox, history, PositionOf(s))
    requires s.checkpoint.Some? ==> s.checkpoint.value.historyId == history
    ensures ForHistory(s, history) == Some(false)
  {
    hide IsCanonicalUuid;
  }

  // ------------------------------------------------------------------- runs

  /** A device that has not begun, or is bound for the end of one of these histories. */
  ghost predicate Bound(s: Durable, servers: seq<Tables>, history: string) {
    s == FRESH_DEVICE || exists k :: 0 <= k < |servers| && BoundFor(s, servers[k], history)
  }

  ghost predicate BoundFor(s: Durable, t: Tables, history: string) {
    s.checkpoint.Some? && Partway(s, t, history)
  }

  lemma FreshIsPartway(t: Tables, history: string)
    ensures Partway(FRESH_DEVICE, t, history) && !Complete(FRESH_DEVICE)
  {
    hide WholeLog;
    assert WholeLog(t)[..0] == [];
  }

  lemma GrowingPrefix(servers: seq<Tables>, link: Link)
    requires servers != [] && Growing(servers, link)
    ensures Growing(servers[..|servers| - 1], link)
  {
    hide WhollyReadable, Fits, Follows;
  }

  lemma BoundLater(s: Durable, servers: seq<Tables>, history: string)
    requires servers != [] && Bound(s, servers[..|servers| - 1], history)
    ensures Bound(s, servers, history)
  {
    hide BoundFor;
    if s != FRESH_DEVICE {
      var k :| 0 <= k < |servers| - 1 && BoundFor(s, servers[..|servers| - 1][k], history);
      assert BoundFor(s, servers[k], history);
    }
  }

  lemma CompleteStays(s: Durable, u: Tables, link: Link)
    requires Sound(s) && Complete(s)
    ensures Round(s, u, link) == s
  {
    hide Answer, StateReads, BootstrapPage;
  }

  /** Rounds keep a device bound for the end of one history, whichever of them are refused. */
  lemma {:induction false} FedIsBound(servers: seq<Tables>, link: Link)
    requires Growing(servers, link) && IsCanonicalUuid(link.history)
    ensures Bound(Fed(servers, link), servers, link.history)
    decreases |servers|
  {
    hide WhollyReadable, Fits, Follows, Round, Partway, IsCanonicalUuid, Complete;
    if servers != [] {
      var n := |servers| - 1;
      var s := Fed(servers[..n], link);
      GrowingPrefix(servers, link);
      FedIsBound(servers[..n], link);
      BoundLater(s, servers, link.history);
      if s == FRESH_DEVICE {
        FreshIsPartway(servers[n], link.history);
        FollowsItself(servers[n]);
        RoundMoves(s, servers[n], servers[n], link);
        assert Fed(servers, link) != s ==> BoundFor(Fed(servers, link), servers[n], link.history);
      } else {
        var k :| 0 <= k < |servers| && BoundFor(s, servers[k], link.history);
        if Complete(s) {
          PartwayIsSound(s, servers[k], link.history);
          CompleteStays(s, servers[n], link);
        } else {
          RoundMoves(s, servers[k], servers[n], link);
          assert BoundFor(Fed(servers, link), servers[k], link.history);
        }
      }
    }
  }

  lemma FollowsItself(t: Tables)
    ensures Follows(t, t)
  {
  }

  lemma PartwayIsSound(s: Durable, t: Tables, history: string)
    requires Partway(s, t, history)
    ensures Sound(s)
  {
    hide Sound, Faithful, WholeLog;
  }

  /** A device whose bootstrap is complete holds the tables of the history it was bound for. */
  lemma CompleteAgrees(s: Durable, t: Tables, history: string)
    requires WhollyReadable(t) && BoundFor(s, t, history) && Complete(s)
    ensures ReplayLog(WholeLog(t)) == Applied(s.local) && Agrees(t, s.local)
    ensures PositionOf(s) == t.nextSeq - 1 && InboxExactly(s.inbox, history, t.nextSeq - 1)
  {
    hide WhollyReadable, WholeLog, ReplayLog, InboxExactly, Agrees, IsCanonicalUuid;
    LogOf(t);
    var log := WholeLog(t);
    assert PositionOf(s) == |log| by { hide Faithful; }
    assert log[..|log|] == log;
    FaithfulReplays(s.local, s.inbox, history, log);
    ReplicaAgrees(t);
  }

  /** Safety: whatever rounds a fresh device took, when its bootstrap is complete it agrees with the tables of one of them. */
  lemma FedAgrees(servers: seq<Tables>, link: Link) returns (k: int)
    requires Growing(servers, link) && IsCanonicalUuid(link.history) && Complete(Fed(servers, link))
    ensures 0 <= k < |servers| && Agrees(servers[k], Fed(servers, link).local)
    ensures ReplayLog(WholeLog(servers[k])) == Applied(Fed(servers, link).local)
    ensures PositionOf(Fed(servers, link)) == servers[k].nextSeq - 1
  {
    hide WhollyReadable, Fits, Follows, Fed, BoundFor, IsCanonicalUuid, Agrees, ReplayLog, WholeLog, PositionOf;
    FedIsBound(servers, link);
    var s := Fed(servers, link);
    assert s != FRESH_DEVICE;
    k :| 0 <= k < |servers| && BoundFor(s, servers[k], link.history);
    CompleteAgrees(s, servers[k], link.history);
  }

  // ------------------------------------------------------------ convergence

  /** The device is active throughout and asks within the limits. */
  ghost predicate Connected(servers: seq<Tables>, link: Link) {
    && (forall k | 0 <= k < |servers| :: Authorised(servers[k], link.device))
    && 0 <= link.limit <= MAX_PULL_LIMIT
  }

  lemma ConnectedIsAnswered(s: Durable, t: Tables, u: Tables, link: Link)
    requires WhollyReadable(t) && WhollyReadable(u) && Follows(t, u) && Fits(u, 0, u.nextSeq - 1, link.size)
    requires IsCanonicalUuid(link.history) && Authorised(u, link.device) && 0 <= link.limit <= MAX_PULL_LIMIT
    requires Partway(s, t, link.history) && !Complete(s) && (s.checkpoint.None? ==> u == t)
    ensures Answer(s, u, link).Page?
  {
    hide Invariant, Servable, Log, WholeLog, WhollyReadable, Faithful, Follows, PulledPage, BootstrapPage, Fits, PullPageOf, Total,
      Authorised, Lower, LowerChar;
    LogOf(t);
    LogOf(u);
    HeadGrows(t, u);
    ResumesAtPosition(s, link.history);
    CanonicalIsUuid(link.history);
    CanonicalIsLower(link.history);
    hide IsCanonicalUuid, IsUuid;
    var cursor := ResumeCursor(s, link.history);
    var limit := if link.limit == 0 then DEFAULT_PULL_LIMIT else link.limit;
    Within(u, PositionOf(s), |WholeLog(t)|, link.size);
    PageIsExact(u, link.history, link.device, cursor, "", limit, link.size);
  }

  lemma CanonicalIsLower(s: string)
    requires IsCanonicalUuid(s)
    ensures Lower(s) == s
  {
  }

  /** While the history of the first round replays, every round of a connected device brings it closer. */
  lemma {:induction false} FedConverges(servers: seq<Tables>, link: Link)
    requires servers != [] && Growing(servers, link) && IsCanonicalUuid(link.history) && Connected(servers, link)
    requires ReplayLog(WholeLog(servers[0])).Applied?
    ensures var s := Fed(servers, link);
            BoundFor(s, servers[0], link.history) && (Complete(s) || |servers| <= PositionOf(s))
    decreases |servers|
  {
    hide WhollyReadable, Fits, Follows, Round, IsCanonicalUuid, Complete, Authorised, WholeLog, ReplayLog, PositionOf, Partway;
    var n := |servers| - 1;
    var t, u := servers[0], servers[n];
    var s := Fed(servers[..n], link);
    if n == 0 {
      FreshIsPartway(t, link.history);
      FollowsItself(t);
    } else {
      GrowingPrefix(servers, link);
      assert Connected(servers[..n], link);
      FedConverges(servers[..n], link);
    }
    PartwayIsSound(s, t, link.history);
    if Complete(s) {
      CompleteStays(s, u, link);
    } else {
      ConnectedIsAnswered(s, t, u, link);
      RoundMoves(s, t, u, link);
      FreshPosition();
    }
  }

  lemma FreshPosition()
    ensures PositionOf(FRESH_DEVICE) == 0
  {
  }

  /** What a later history replays, an earlier one of the same server does. */
  lemma EarlierReplays(t: Tables, u: Tables)
    requires WhollyReadable(t) && WhollyReadable(u) && Follows(t, u) && ReplayLog(WholeLog(u)).Applied?
    ensures ReplayLog(WholeLog(t)).Applied?
  {
    hide Invariant, Servable, Log, Follows, ReplayLog;
    LogOf(t);
    LogOf(u);
    HeadGrows(t, u);
    LogStable(t, u, "", 0, t.nextSeq - 1);
    LogSplits(u, "", 0, t.nextSeq - 1, u.nextSeq - 1);
    assert WholeLog(u)[..|WholeLog(t)|] == WholeLog(t);
    PrefixReplays(WholeLog(u), |WholeLog(t)|);
  }

  /**
   A connected device that keeps asking completes its bootstrap if and only if the history the
   server had at its first round replays; it is then the replica of exactly that history,
   however the server went on.
   */
  lemma BootstrapCompletesExactly(servers: seq<Tables>, link: Link)
    requires servers != [] && Growing(servers, link) && IsCanonicalUuid(link.history) && Connected(servers, link)
    requires servers[0].nextSeq <= |servers|
    ensures Complete(Fed(servers, link)) <==> ReplayLog(WholeLog(servers[0])).Applied?
    ensures Complete(Fed(servers, link)) ==> Agrees(servers[0], Fed(servers, link).local)
  {
    hide WhollyReadable, Fits, Follows, Fed, IsCanonicalUuid, Complete, Authorised, WholeLog, ReplayLog, Agrees, PositionOf, Partway;
    var s, t := Fed(servers, link), servers[0];
    if ReplayLog(WholeLog(t)).Applied? {
      FedConverges(servers, link);
      LogOf(t);
      assert PositionOf(s) <= |WholeLog(t)| by { PartwayBound(s, t, link.history); }
      CompleteAgrees(s, t, link.history);
    }
    if Complete(s) {
      var k := FedAgrees(servers, link);
      EarlierReplays(t, servers[k]);
    }
  }

  lemma PartwayBound(s: Durable, t: Tables, history: string)
    requires Partway(s, t, history)
    ensures PositionOf(s) <= |WholeLog(t)|
  {
    hide Sound, Faithful, WholeLog;
  }
}
