/**
 The device's ordered inbox: pages of the history applied once, in order, with a
 cursor, a bootstrap checkpoint and an in-memory fast path (applyPulledPage,
 internal/memory/sync.go).
 */
module Inbox {
  import opened Options
  import opened Uuids
  import opened SyncService
  import opened Protocol
  import opened Replica
  import opened ReplicaStore

  datatype Mark = Mark(historyId: string, position: int)
  datatype InboxKey = InboxKey(historyId: string, sequence: int)
  datatype Cache = Cache(known: bool, dataVersion: int, mark: Mark)

  /** The tables a page touches. Stored times and column types are not modelled. */
  datatype Durable = Durable(
    cursor: Option<Mark>,
    inbox: map<InboxKey, ChangeHash>,
    checkpoint: Option<BootstrapCheckpoint>,
    local: Local)

  const FRESH_DEVICE := Durable(None, map[], None, EMPTY_STORE)

  datatype PageMode = DefaultPage | OwnConflictPage | ResolutionPage

  // -------------------------------------------------------------- cursor

  datatype CursorCheck = CursorConflict | CursorCorrupt | CursorAt(position: int, replay: bool)

  /** pulledInboxConsistent: the rows, in sequence order, are exactly 1 to position of one history. */
  predicate InboxExactly(inbox: map<InboxKey, ChangeHash>, historyId: string, position: int) {
    && 0 <= position
    && (forall key | key in inbox :: key.historyId == historyId && 1 <= key.sequence <= position)
    && (forall i | 1 <= i <= position :: InboxKey(historyId, i) in inbox)
  }

  /** pulledCursor: the full scan. */
  function PulledCursor(s: Durable, historyId: string, sequence: int, hash: ChangeHash): CursorCheck {
    match s.cursor
    case None =>
      if sequence != 1 then CursorConflict
      else if s.inbox != map[] then CursorCorrupt
      else CursorAt(0, false)
    case Some(mark) =>
      if !IsCanonicalUuid(mark.historyId) || mark.position < 0 || mark.historyId != historyId then CursorCorrupt
      else if !InboxExactly(s.inbox, historyId, mark.position) then CursorCorrupt
      else if sequence > mark.position then CursorAt(mark.position, false)
      else if InboxKey(historyId, sequence) !in s.inbox || s.inbox[InboxKey(historyId, sequence)] != hash then CursorCorrupt
      else CursorAt(mark.position, true)
  }

  datatype CachedCheck = Miss | Hit(check: CursorCheck)

  /** cachedPulledCursor: a constant number of row lookups. */
  function CachedPulledCursor(s: Durable, historyId: string, sequence: int, hash: ChangeHash, cache: Cache, epoch: int): CachedCheck {
    if !cache.known || cache.dataVersion != epoch then Miss
    else
      match s.cursor
      case None => Miss
      case Some(mark) =>
        if !IsCanonicalUuid(mark.historyId) || mark.position < 0 || mark != cache.mark || mark.historyId != historyId then Miss
        else if mark.position > 0 && InboxKey(historyId, mark.position) !in s.inbox then Hit(CursorCorrupt)
        else if sequence <= mark.position then
          if sequence <= 0 || InboxKey(historyId, sequence) !in s.inbox || s.inbox[InboxKey(historyId, sequence)] != hash then
            Hit(CursorCorrupt)
          else Hit(CursorAt(mark.position, true))
        else if InboxKey(historyId, mark.position + 1) in s.inbox then Hit(CursorCorrupt)
        else Hit(CursorAt(mark.position, false))
  }

  /** What a remembered mark promises as long as no other connection has written. */
  predicate CacheSound(s: Durable, cache: Cache, epoch: int) {
    cache.known && cache.dataVersion == epoch ==>
      InboxExactly(s.inbox, cache.mark.historyId, cache.mark.position)
  }

  /** A hit says exactly what the full scan would have said. */
  lemma CacheRefinesScan(s: Durable, historyId: string, sequence: int, hash: ChangeHash, cache: Cache, epoch: int)
    requires CacheSound(s, cache, epoch)
    ensures CachedPulledCursor(s, historyId, sequence, hash, cache, epoch).Hit? ==>
      CachedPulledCursor(s, historyId, sequence, hash, cache, epoch).check == PulledCursor(s, historyId, sequence, hash)
  {
    hide IsCanonicalUuid;
  }

  // ---------------------------------------------------------- checkpoint

  /** verifyBootstrapCheckpoint */
  predicate CheckpointMayFollow(prior: Option<BootstrapCheckpoint>, next: BootstrapCheckpoint, historyId: string, position: int, resolution: bool) {
    match prior
    case None => position == 0
    case Some(p) =>
      var resolutionAdvance :=
        && resolution && (p.phase == "observations" || p.phase == "complete")
        && next.position > position && next.position <= next.watermark && next.watermark >= p.watermark
        && ((next.position == next.watermark && next.phase == "complete") || (next.position < next.watermark && next.phase == "observations"));
      && p.historyId == historyId && p.position == position
      && (resolution ==> resolutionAdvance)
      && (p.watermark == next.watermark || resolutionAdvance)
      && (p.phase == "complete" && !resolutionAdvance ==> next.phase == "complete" && next.position == position)
      && (p.phase != "complete" ==> CheckpointPhaseRank(next.phase) >= CheckpointPhaseRank(p.phase))
  }

  /** validateLocal */
  predicate ValidateLocal(s: Durable) {
    match s.checkpoint
    case None => s.cursor.None?
    case Some(c) =>
      if c.phase == "complete" then
        && c.position == c.watermark
        && (c.position == 0 ==> s.cursor.None?)
        && (c.position > 0 ==> s.cursor == Some(Mark(c.historyId, c.position)))
      else 1 <= c.position && s.cursor == Some(Mark(c.historyId, c.position))
  }

  // ---------------------------------------------------------------- pages

  datatype Progress = Broken | Stopped(state: Durable, position: int, applied: bool, blocked: bool)

  /** The loop over a page's changes. own answers whether a change is the device's own, None when its receipt is broken. */
  function ApplyChanges(s: Durable, historyId: string, changes: seq<Change>, position: int, mode: PageMode,
                        pending: Change -> bool, own: Change -> Option<bool>, applied: bool): Progress
    decreases |changes|
  {
    if changes == [] then Stopped(s, position, applied, false)
    else
      var c := changes[0];
      var key := InboxKey(historyId, c.sequence);
      if c.sequence <= position then
        if key !in s.inbox || s.inbox[key] != c.changeHash then Broken
        else ApplyChanges(s, historyId, changes[1..], position, mode, pending, own, applied)
      else if c.sequence != position + 1 then Broken
      else if mode == ResolutionPage && c.disposition == ConflictChange then Stopped(s, position, applied, true)
      else if own(c).None? then Broken
      else if pending(c) && !own(c).value && c.mutation.kind != Resolve then
        if mode == ResolutionPage then Stopped(s, position, applied, true) else Broken
      else
        var local := if !own(c).value || c.disposition == ConflictChange then Apply(s.local, c) else Applied(s.local);
        if local.NotApplied? || key in s.inbox then Broken
        else
          ApplyChanges(s.(local := local.local, inbox := s.inbox[key := c.changeHash]), historyId, changes[1..], c.sequence, mode,
                       pending, own, true)
  }

  /** Where a page starts from: the durable cursor, or for an empty page the position it names. */
  function StartOf(s: Durable, page: PullPage): CursorCheck {
    if page.changes == [] then
      (match s.cursor
       case None =>
         if page.cursor.position != 0 then CursorConflict
         else if s.inbox != map[] then CursorCorrupt
         else CursorAt(0, false)
       case Some(mark) =>
         if !IsCanonicalUuid(mark.historyId) || mark != Mark(page.cursor.historyId, page.cursor.position) || mark.position < 0 then CursorCorrupt
         else if !InboxExactly(s.inbox, mark.historyId, mark.position) then CursorCorrupt
         else CursorAt(mark.position, false))
    else
      var start := PulledCursor(s, page.cursor.historyId, page.changes[0].sequence, page.changes[0].changeHash);
      if start.CursorAt? && (start.position == MAX_INT64 || page.changes[0].sequence > start.position + 1) then CursorConflict
      else start
  }

  datatype PageOutcome = PageRefused | PageApplied(state: Durable, position: int, blocked: bool)

  function NextCheckpoint(checkpoint: BootstrapCheckpoint, mode: PageMode, position: int): BootstrapCheckpoint {
    if mode != ResolutionPage then checkpoint
    else checkpoint.(position := position, phase := if position == checkpoint.watermark then "complete" else "observations")
  }

  /** applyPulledPage. anyPending: the outbox holds any work at all. */
  function ApplyPage(s: Durable, page: PullPage, checkpoint: Option<BootstrapCheckpoint>, mode: PageMode, anyPending: bool,
                     pending: Change -> bool, own: Change -> Option<bool>): PageOutcome {
    var historyId := page.cursor.historyId;
    if !PulledPage(page, checkpoint) then PageRefused
    else if checkpoint.Some? && mode == DefaultPage && anyPending then PageRefused
    else
      var start := StartOf(s, page);
      if !start.CursorAt? then PageRefused
      else if checkpoint.Some? && !CheckpointMayFollow(s.checkpoint, checkpoint.value, historyId, start.position, mode == ResolutionPage) then
        PageRefused
      else
        var progress := ApplyChanges(s, historyId, page.changes, start.position, mode, pending, own, false);
        if progress.Broken? then PageRefused
        else
          var moved := if progress.applied then progress.state.(cursor := Some(Mark(historyId, progress.position))) else progress.state;
          if checkpoint.None? || (mode == ResolutionPage && !progress.applied) then PageApplied(moved, progress.position, progress.blocked)
          else
            var next := NextCheckpoint(checkpoint.value, mode, progress.position);
            if mode == ResolutionPage && !CheckpointMayFollow(s.checkpoint, next, historyId, start.position, true) then PageRefused
            else PageApplied(moved.(checkpoint := Some(next)), progress.position, progress.blocked)
  }

  /**
   applyOwnConflictPage: one change, the device's own conflict, right behind the cursor.
   rebased says that the record's queued work could be moved onto the conflict's version.
   A checkpoint that may not follow is refused only if there is one to follow.
   */
  function ApplyOwnConflict(s: Durable, page: PullPage, mutationId: string, rebased: bool, own: Change -> Option<bool>): PageOutcome
    requires page.changes != []
  {
    var historyId, first := page.cursor.historyId, page.changes[0];
    if !PulledPage(page, None) then PageRefused
    else
      var start := PulledCursor(s, historyId, first.sequence, first.changeHash);
      if !start.CursorAt? || first.sequence != start.position + 1 || |page.changes| != 1 then PageRefused
      else if first.mutation.mutationId != mutationId || first.disposition != ConflictChange || own(first) != Some(true) || !rebased then PageRefused
      else
        var local := Apply(s.local, first);
        var key := InboxKey(historyId, first.sequence);
        var next := LandingCheckpoint(page);
        if local.NotApplied? || key in s.inbox then PageRefused
        else if s.checkpoint.Some? && !CheckpointMayFollow(s.checkpoint, next, historyId, start.position, false) then PageRefused
        else
          PageApplied(Durable(Some(Mark(historyId, first.sequence)), s.inbox[key := first.changeHash], Some(next), local.local),
                      first.sequence, false)
  }

  function LandingCheckpoint(page: PullPage): BootstrapCheckpoint
    requires page.changes != []
  {
    var position := page.changes[0].sequence;
    BootstrapCheckpoint(page.cursor.historyId, if position == page.cursor.watermark then "complete" else "observations", position, page.cursor.watermark)
  }

  /** A landed conflict leaves cursor and checkpoint together on it, whatever the checkpoint was before. */
  lemma OwnConflictLands(s: Durable, page: PullPage, mutationId: string, rebased: bool, own: Change -> Option<bool>)
    requires page.changes != [] && ApplyOwnConflict(s, page, mutationId, rebased, own).PageApplied?
    ensures var r := ApplyOwnConflict(s, page, mutationId, rebased, own);
            && ValidateLocal(r.state)
            && r.state.cursor == Some(Mark(page.cursor.historyId, r.position)) && r.position == page.cursor.position
            && InboxExactly(r.state.inbox, page.cursor.historyId, r.position)
            && r.position == (if s.cursor.Some? then s.cursor.value.position else 0) + 1
            && (s.cursor.Some? ==> s.cursor.value.historyId == page.cursor.historyId)
            && r.state.checkpoint == Some(LandingCheckpoint(page))
            && Apply(s.local, page.changes[0]) == Applied(r.state.local)
            && r.state.inbox == s.inbox[InboxKey(page.cursor.historyId, r.position) := page.changes[0].changeHash]
            && InboxExactly(s.inbox, page.cursor.historyId, r.position - 1)
  {
    hide Apply, IsCanonicalUuid, ValidPulledChange;
  }

  /** Whatever the tables held before, a start that was found means an exact inbox. */
  lemma StartIsExact(s: Durable, page: PullPage)
    requires StartOf(s, page).CursorAt?
    ensures InboxExactly(s.inbox, page.cursor.historyId, StartOf(s, page).position)
    ensures s.cursor == Some(Mark(page.cursor.historyId, StartOf(s, page).position)) || (s.cursor.None? && StartOf(s, page).position == 0)
  {
    hide IsCanonicalUuid;
  }

  lemma {:induction false} AppliedInboxExact(s: Durable, historyId: string, changes: seq<Change>, position: int, mode: PageMode,
                                             pending: Change -> bool, own: Change -> Option<bool>, applied: bool)
    requires InboxExactly(s.inbox, historyId, position)
    requires ApplyChanges(s, historyId, changes, position, mode, pending, own, applied).Stopped?
    ensures var p := ApplyChanges(s, historyId, changes, position, mode, pending, own, applied);
            && InboxExactly(p.state.inbox, historyId, p.position) && position <= p.position
            && p.state.cursor == s.cursor && p.state.checkpoint == s.checkpoint
            && (applied ==> p.applied) && (!p.applied ==> p.position == position && p.state == s)
            && (p.applied && !applied ==> position < p.position)
    decreases |changes|
  {
    hide Apply;
    if changes != [] {
      var c := changes[0];
      var key := InboxKey(historyId, c.sequence);
      if c.sequence <= position {
        AppliedInboxExact(s, historyId, changes[1..], position, mode, pending, own, applied);
      } else if own(c).Some? {
        var local := if !own(c).value || c.disposition == ConflictChange then Apply(s.local, c) else Applied(s.local);
        if local.Applied? && c.sequence == position + 1 && !(mode == ResolutionPage && c.disposition == ConflictChange)
           && !(pending(c) && !own(c).value && c.mutation.kind != Resolve) {
          AppliedInboxExact(s.(local := local.local, inbox := s.inbox[key := c.changeHash]), historyId, changes[1..], c.sequence, mode,
                            pending, own, true);
        }
      }
    }
  }

  // ------------------------------------------------------------ the store

  /** The device's connection: its durable tables, what it remembers of them, and SQLite's data_version. */
  class Device {
    var cursor: Option<Mark>
    var inbox: map<InboxKey, ChangeHash>
    var checkpoint: Option<BootstrapCheckpoint>
    var tables: Store
    var cache: Cache
    var dataVersion: int

    function State(): Durable
      reads this, tables
    {
      Durable(cursor, inbox, checkpoint, tables.State())
    }

    ghost predicate Valid()
      reads this, tables
    {
      CacheSound(State(), cache, dataVersion)
    }

    constructor ()
      ensures Valid() && State() == FRESH_DEVICE && fresh(tables)
    {
      cursor, inbox, checkpoint := None, map[], None;
      tables := new Store();
      cache := Cache(false, 0, Mark("", 0));
      dataVersion := 0;
    }

    /** Another connection commits: SQLite moves data_version on. */
    method ForeignCommit(to: Durable)
      requires Valid()
      modifies this, tables
      ensures Valid() && State() == to && tables == old(tables)
    {
      cursor, inbox, checkpoint := to.cursor, to.inbox, to.checkpoint;
      tables.Rollback(to.local);
      dataVersion := dataVersion + 1;
      if cache.dataVersion >= dataVersion {
        dataVersion := cache.dataVersion + 1;
      }
    }

    /** The cursor check, through the cache when it applies. */
    method CheckCursor(historyId: string, sequence: int, hash: ChangeHash) returns (check: CursorCheck)
      requires Valid()
      ensures check == PulledCursor(State(), historyId, sequence, hash)
    {
      hide IsCanonicalUuid, CacheSound;
      var cached := CachedPulledCursor(State(), historyId, sequence, hash, cache, dataVersion);
      CacheRefinesScan(State(), historyId, sequence, hash, cache, dataVersion);
      if cached.Hit? {
        return cached.check;
      }
      check := PulledCursor(State(), historyId, sequence, hash);
    }

    method StartCursor(page: PullPage) returns (start: CursorCheck)
      requires Valid()
      ensures start == StartOf(State(), page)
    {
      hide IsCanonicalUuid, CacheSound;
      if |page.changes| == 0 {
        return StartOf(State(), page);
      }
      var first := page.changes[0];
      start := CheckCursor(page.cursor.historyId, first.sequence, first.changeHash);
      if start.CursorAt? && (start.position == MAX_INT64 || first.sequence > start.position + 1) {
        start := CursorConflict;
      }
    }

    method Rollback(saved: Durable, forget: bool)
      modifies this, tables
      ensures State() == saved && tables == old(tables) && dataVersion == old(dataVersion)
      ensures cache == old(cache) || !cache.known
    {
      cursor, inbox, checkpoint := saved.cursor, saved.inbox, saved.checkpoint;
      tables.Rollback(saved.local);
      if forget {
        cache := cache.(known := false);
      }
    }

    /** The loop over a page's changes. */
    method ApplyAll(page: PullPage, start: int, mode: PageMode, pending: Change -> bool, own: Change -> Option<bool>)
      returns (progress: Progress)
      modifies this, tables
      ensures progress == ApplyChanges(old(State()), page.cursor.historyId, page.changes, start, mode, pending, own, false)
      ensures State() == if progress.Stopped? then progress.state else old(State())
      ensures tables == old(tables) && dataVersion == old(dataVersion) && (cache == old(cache) || !cache.known)
    {
      hide Apply;
      var saved := State();
      var historyId := page.cursor.historyId;
      var position, applied, i := start, false, 0;
      while i < |page.changes|
        invariant 0 <= i <= |page.changes|
        invariant tables == old(tables) && dataVersion == old(dataVersion) && (cache == old(cache) || !cache.known)
        invariant State() == saved.(inbox := inbox, local := tables.State())
        invariant ApplyChanges(State(), historyId, page.changes[i..], position, mode, pending, own, applied)
               == ApplyChanges(saved, historyId, page.changes, start, mode, pending, own, false)
      {
        var change := page.changes[i];
        assert page.changes[i..][0] == change && page.changes[i..][1..] == page.changes[i + 1..];
        var key := InboxKey(historyId, change.sequence);
        if change.sequence <= position {
          if key !in inbox || inbox[key] != change.changeHash {
            Rollback(saved, true);
            return Broken;
          }
        } else {
          if change.sequence != position + 1 {
            Rollback(saved, false);
            return Broken;
          }
          if mode == ResolutionPage && change.disposition == ConflictChange {
            return Stopped(State(), position, applied, true);
          }
          var mine := own(change);
          if mine.None? {
            Rollback(saved, true);
            return Broken;
          }
          if pending(change) && !mine.value && change.mutation.kind != Resolve {
            if mode == ResolutionPage {
              return Stopped(State(), position, applied, true);
            }
            Rollback(saved, false);
            return Broken;
          }
          if !mine.value || change.disposition == ConflictChange {
            var ok := tables.ApplyPulledMutation(change);
            if !ok {
              Rollback(saved, false);
              return Broken;
            }
          }
          if key in inbox {
            Rollback(saved, true);
            return Broken;
          }
          inbox := inbox[key := change.changeHash];
          position := change.sequence;
          applied := true;
        }
        i := i + 1;
      }
      progress := Stopped(State(), position, applied, false);
    }

    /** A page and its bookkeeping commit together, or not at all. */
    method ApplyPulledPage(page: PullPage, next: Option<BootstrapCheckpoint>, mode: PageMode, anyPending: bool,
                           pending: Change -> bool, own: Change -> Option<bool>)
      returns (outcome: PageOutcome)
      requires Valid()
      modifies this, tables
      ensures Valid() && tables == old(tables)
      ensures outcome == ApplyPage(old(State()), page, next, mode, anyPending, pending, own)
      ensures State() == if outcome.PageApplied? then outcome.state else old(State())
    {
      hide PulledPage, CheckpointMayFollow, Apply, InboxExactly, StartOf, IsCanonicalUuid, ApplyChanges;
      if !PulledPage(page, next) || (next.Some? && mode == DefaultPage && anyPending) {
        return PageRefused;
      }
      var before := State();
      var historyId := page.cursor.historyId;
      var start := StartCursor(page);
      if !start.CursorAt? {
        cache := cache.(known := false);
        return PageRefused;
      }
      if next.Some? && !CheckpointMayFollow(checkpoint, next.value, historyId, start.position, mode == ResolutionPage) {
        cache := cache.(known := false);
        return PageRefused;
      }
      var progress := ApplyAll(page, start.position, mode, pending, own);
      if progress.Broken? {
        return PageRefused;
      }
      StartIsExact(before, page);
      AppliedInboxExact(before, historyId, page.changes, start.position, mode, pending, own, false);
      if progress.applied {
        cursor := Some(Mark(historyId, progress.position));
      }
      if next.Some? && (mode != ResolutionPage || progress.applied) {
        var advanced := NextCheckpoint(next.value, mode, progress.position);
        if mode == ResolutionPage && !CheckpointMayFollow(before.checkpoint, advanced, historyId, start.position, true) {
          Rollback(before, true);
          return PageRefused;
        }
        checkpoint := Some(advanced);
      }
      cache := Cache(true, dataVersion, Mark(historyId, progress.position));
      outcome := PageApplied(State(), progress.position, progress.blocked);
    }

    /** The device's own conflict, its rebased work and the checkpoint commit together; always through the full scan. */
    method ApplyOwnConflictPage(page: PullPage, mutationId: string, rebased: bool, own: Change -> Option<bool>) returns (outcome: PageOutcome)
      requires Valid() && page.changes != []
      modifies this, tables
      ensures Valid() && tables == old(tables)
      ensures outcome == ApplyOwnConflict(old(State()), page, mutationId, rebased, own)
      ensures State() == if outcome.PageApplied? then outcome.state else old(State())
    {
      hide PulledPage, CheckpointMayFollow, Apply, InboxExactly, IsCanonicalUuid, PulledCursor;
      if !PulledPage(page, None) {
        return PageRefused;
      }
      var before := State();
      var historyId, first := page.cursor.historyId, page.changes[0];
      var start := PulledCursor(before, historyId, first.sequence, first.changeHash);
      if !start.CursorAt? || first.sequence != start.position + 1 || |page.changes| != 1 {
        return PageRefused;
      }
      if first.mutation.mutationId != mutationId || first.disposition != ConflictChange {
        return PageRefused;
      }
      if own(first) != Some(true) || !rebased {
        return PageRefused;
      }
      var ok := tables.ApplyPulledMutation(first);
      if !ok {
        return PageRefused;
      }
      var key := InboxKey(historyId, first.sequence);
      if key in inbox {
        Rollback(before, true);
        return PageRefused;
      }
      inbox := inbox[key := first.changeHash];
      cursor := Some(Mark(historyId, first.sequence));
      var next := LandingCheckpoint(page);
      if !CheckpointMayFollow(checkpoint, next, historyId, start.position, false) && checkpoint.Some? {
        Rollback(before, false);
        return PageRefused;
      }
      checkpoint := Some(next);
      OwnConflictLands(before, page, mutationId, rebased, own);
      cache := Cache(true, dataVersion, Mark(historyId, first.sequence));
      outcome := PageApplied(State(), first.sequence, false);
    }
  }
}
