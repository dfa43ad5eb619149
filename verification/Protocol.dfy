/**
 The checks that server, wire decoder and client make of a page and of a list of
 push results (internal/syncapi, internal/syncclient, internal/memory). Each loop is
 proved equal to a predicate over the whole page.
 */
module Protocol {
  import opened Options
  import opened Uuids
  import opened SyncService
  import opened Pull

  const PROTOCOL_VERSION := 1
  const MAX_PUSH_ITEMS := 16
  const DEFAULT_PULL_LIMIT := 10

  datatype PullRequest = PullRequest(protocolVersion: int, cursor: Cursor, projectId: string, limit: int)
  datatype PullResponse = PullResponse(
    protocolVersion: int, historyId: string, projectId: string, position: int, watermark: int, hasMore: bool, changes: seq<Change>)
  datatype PushRequest = PushRequest(protocolVersion: int, items: seq<Mutation>)
  datatype PushResponse = PushResponse(protocolVersion: int, results: seq<Result>)

  function LastSequence(changes: seq<Change>): int
    requires changes != []
  {
    changes[|changes| - 1].sequence
  }

  // ------------------------------------------------------------ requests

  /** ValidatePullRequest, which fills in the default limit. */
  function CheckedPullRequest(r: PullRequest): Option<PullRequest> {
    var limit := if r.limit == 0 then DEFAULT_PULL_LIMIT else r.limit;
    if r.protocolVersion != PROTOCOL_VERSION || limit > MAX_PULL_LIMIT || limit < 1 || !ValidateCursor(r.cursor) then None
    else if r.projectId != "" && !ValidProjectId(r.projectId) then None
    else if r.cursor.watermark < 0 || (r.cursor.watermark > 0 && r.cursor.watermark < r.cursor.position) then None
    else Some(r.(limit := limit))
  }

  // -------------------------------------------------- changes of a project

  predicate ValidateProjectPullChange(c: Change, project: string) {
    var m := c.mutation;
    && ValidProjectId(project)
    && if m.project.Some? then m.project.value.id == project
       else if m.session.Some? then m.session.value.projectId == project
       else if m.observation.Some? then m.observation.value.projectId == project
       else if m.resolution.Some? && m.resolution.value.observation.Some? then m.resolution.value.observation.value.projectId == project
       else m.tombstone.Some? && ValidProjectId(m.tombstone.value.projectId) && m.tombstone.value.projectId == project
  }

  // ------------------------------------------- validatePullPage (the server)

  predicate Ascending(changes: seq<Change>, position: int) {
    && (forall k | 0 <= k < |changes| :: position < changes[k].sequence)
    && (forall j, k | 0 <= j < k < |changes| :: changes[j].sequence < changes[k].sequence)
  }

  /** An ascending prefix takes one more change exactly when that one lies above the last. */
  lemma AscendingGrows(changes: seq<Change>, i: nat, position: int)
    requires i < |changes|
    ensures Ascending(changes[..i + 1], position) <==>
      Ascending(changes[..i], position) && (if i == 0 then position else changes[i - 1].sequence) < changes[i].sequence
  {
    var longer, shorter := changes[..i + 1], changes[..i];
    assert forall k | 0 <= k < i :: longer[k] == shorter[k];
    if Ascending(shorter, position) && 0 < i {
      assert forall j | 0 <= j < i :: longer[j].sequence <= longer[i - 1].sequence;
    }
    if Ascending(longer, position) {
      assert forall j, k | 0 <= j < k < i :: shorter[j].sequence == longer[j].sequence < longer[k].sequence == shorter[k].sequence;
    }
  }

  predicate PageEndsAsAsked(project: string, changes: seq<Change>, position: int, watermark: int, hasMore: bool)
    requires changes != []
  {
    if project == "" then position == LastSequence(changes)
    else if hasMore then position == LastSequence(changes)
    else position == watermark
  }

  predicate PageHeaderAnswers(request: PullRequest, page: PullPage) {
    && page.cursor.historyId == request.cursor.historyId
    && request.cursor.position <= page.cursor.position
    && |page.changes| <= request.limit
    && (request.cursor.watermark != 0 ==> page.cursor.watermark == request.cursor.watermark)
    && (page.cursor.watermark == 0 ==> page.changes == [] && page.cursor.position == 0 && !page.hasMore)
  }

  predicate EmptyPageAnswers(request: PullRequest, page: PullPage) {
    && !page.hasMore
    && page.cursor.position == if request.projectId == "" then request.cursor.position else page.cursor.watermark
  }

  /** A page the server may send in answer to a request. */
  predicate PageAnswers(request: PullRequest, page: PullPage) {
    && PageHeaderAnswers(request, page)
    && if page.changes == [] then EmptyPageAnswers(request, page)
       else
         && Ascending(page.changes, request.cursor.position)
         && (forall k | 0 <= k < |page.changes| ::
               VerifyChangeHash(page.changes[k])
               && (request.projectId != "" ==> ValidateProjectPullChange(page.changes[k], request.projectId)))
         && PageEndsAsAsked(request.projectId, page.changes, page.cursor.position, page.cursor.watermark, page.hasMore)
  }

  method ValidatePullPage(request: PullRequest, page: PullPage) returns (ok: bool)
    ensures ok <==> PageAnswers(request, page)
  {
    hide VerifyChangeHash, ValidateProjectPullChange;
    if page.cursor.historyId != request.cursor.historyId || page.cursor.position < request.cursor.position
       || |page.changes| > request.limit
       || (request.cursor.watermark != 0 && page.cursor.watermark != request.cursor.watermark) {
      return false;
    }
    if page.cursor.watermark == 0 && (|page.changes| != 0 || page.cursor.position != 0 || page.hasMore) {
      return false;
    }
    if |page.changes| == 0 {
      if page.hasMore || (request.projectId == "" && page.cursor.position != request.cursor.position)
         || (request.projectId != "" && page.cursor.position != page.cursor.watermark) {
        return false;
      }
      return true;
    }
    var expected := request.cursor.position + 1;
    var i := 0;
    while i < |page.changes|
      invariant 0 <= i <= |page.changes|
      invariant expected == if i == 0 then request.cursor.position + 1 else page.changes[i - 1].sequence + 1
      invariant Ascending(page.changes[..i], request.cursor.position)
      invariant forall k | 0 <= k < i :: VerifyChangeHash(page.changes[k])
                  && (request.projectId != "" ==> ValidateProjectPullChange(page.changes[k], request.projectId))
    {
      var change := page.changes[i];
      if change.sequence < expected || !VerifyChangeHash(change)
         || (request.projectId != "" && !ValidateProjectPullChange(change, request.projectId)) {
        return false;
      }
      AscendingGrows(page.changes, i, request.cursor.position);
      expected := change.sequence + 1;
      i := i + 1;
    }
    assert page.changes[..i] == page.changes;
    var last := LastSequence(page.changes);
    if (request.projectId == "" && page.cursor.position != last)
       || (request.projectId != "" && page.hasMore && page.cursor.position != last)
       || (request.projectId != "" && !page.hasMore && page.cursor.position != page.cursor.watermark) {
      return false;
    }
    return true;
  }

  // ----------------------------------------- DecodePullResponse (the wire)

  predicate ResponseHeaderWellFormed(r: PullResponse) {
    && r.protocolVersion == PROTOCOL_VERSION
    && ValidateCursor(Cursor(r.historyId, r.position, 0))
    && 0 <= r.watermark && (r.watermark > 0 ==> r.position <= r.watermark)
    && (r.watermark > 0 ==> r.hasMore == (r.position < r.watermark))
    && |r.changes| <= MAX_PULL_LIMIT
  }

  predicate ChangeWellFormed(r: PullResponse, c: Change) {
    && 1 <= c.canonicalVersion
    && (r.watermark > 0 ==> c.sequence <= r.watermark)
    && ValidateMutation(c.mutation) == Valid
    && ValidateChangeEnvelope(c)
    && VerifyChangeHash(c)
    && (r.projectId != "" ==> ValidateProjectPullChange(c, r.projectId))
  }

  predicate Consecutive(changes: seq<Change>) {
    forall k | 1 <= k < |changes| :: changes[k].sequence == changes[k - 1].sequence + 1
  }

  predicate ResponseEndsWell(r: PullResponse) {
    var previous := if r.changes == [] then 0 else LastSequence(r.changes);
    && (r.projectId == "" && previous > 0 ==> previous == r.position)
    && (r.projectId != "" ==> ValidProjectId(r.projectId))
    && (r.projectId != "" ==> if r.hasMore then previous != 0 && r.position == previous else r.position == r.watermark)
    && (r.projectId != "" && (r.changes != [] || r.position > 0 || r.hasMore) ==> 0 < r.watermark)
  }

  /** What a decoded response must be, beyond being JSON of the right shape. */
  predicate WellFormedResponse(r: PullResponse) {
    && ResponseHeaderWellFormed(r)
    && Ascending(r.changes, 0)
    && (r.projectId == "" ==> Consecutive(r.changes))
    && (forall k | 0 <= k < |r.changes| :: ChangeWellFormed(r, r.changes[k]))
    && ResponseEndsWell(r)
  }

  method CheckPullResponse(r: PullResponse) returns (ok: bool)
    ensures ok <==> WellFormedResponse(r)
  {
    hide ValidateMutation, ValidateChangeEnvelope, VerifyChangeHash, ValidateProjectPullChange, ValidateCursor, ValidProjectId, ChangeWellFormed;
    if r.protocolVersion != PROTOCOL_VERSION || !ValidateCursor(Cursor(r.historyId, r.position, 0)) {
      return false;
    }
    if r.watermark < 0 || (r.watermark > 0 && r.position > r.watermark) {
      return false;
    }
    if r.watermark > 0 && r.hasMore != (r.position < r.watermark) {
      return false;
    }
    if |r.changes| > MAX_PULL_LIMIT {
      return false;
    }
    var previous := 0;
    var i := 0;
    while i < |r.changes|
      invariant 0 <= i <= |r.changes|
      invariant previous == if i == 0 then 0 else r.changes[i - 1].sequence
      invariant Ascending(r.changes[..i], 0)
      invariant r.projectId == "" ==> Consecutive(r.changes[..i])
      invariant forall k | 0 <= k < i :: ChangeWellFormed(r, r.changes[k])
    {
      var change := r.changes[i];
      if change.sequence <= previous || (r.projectId == "" && previous > 0 && change.sequence != previous + 1)
         || !ChangeWellFormed(r, change) {
        return false;
      }
      AscendingGrows(r.changes, i, 0);
      previous := change.sequence;
      i := i + 1;
    }
    assert r.changes[..i] == r.changes;
    if r.projectId == "" && previous > 0 && previous != r.position {
      return false;
    }
    if r.projectId != "" && !ValidProjectId(r.projectId) {
      return false;
    }
    if r.projectId != "" && ((r.hasMore && (previous == 0 || r.position != previous)) || (!r.hasMore && r.position != r.watermark)) {
      return false;
    }
    if r.projectId != "" && (|r.changes| != 0 || r.position > 0 || r.hasMore) && r.watermark <= 0 {
      return false;
    }
    return true;
  }

  // ------------------------------------------------ pullMatches (the client)

  /** Whether a response answers the request that was sent. */
  predicate ResponseMatches(request: PullRequest, r: PullResponse) {
    && r.historyId == request.cursor.historyId && r.projectId == request.projectId
    && request.cursor.position <= r.position && |r.changes| <= request.limit
    && (request.cursor.watermark != 0 ==> r.watermark == request.cursor.watermark)
    && if r.changes == [] then
         !r.hasMore && r.position == (if request.projectId == "" then request.cursor.position else r.watermark)
       else
         && (if request.projectId == "" then
               forall k | 0 <= k < |r.changes| :: r.changes[k].sequence == request.cursor.position + k + 1
             else
               && Ascending(r.changes, request.cursor.position)
               && forall k | 0 <= k < |r.changes| :: ValidateProjectPullChange(r.changes[k], request.projectId))
         && PageEndsAsAsked(request.projectId, r.changes, r.position, r.watermark, r.hasMore)
  }

  method PullMatches(request: PullRequest, r: PullResponse) returns (ok: bool)
    ensures ok <==> ResponseMatches(request, r)
  {
    hide ValidateProjectPullChange;
    if r.historyId != request.cursor.historyId || r.projectId != request.projectId || r.position < request.cursor.position
       || |r.changes| > request.limit || (request.cursor.watermark != 0 && r.watermark != request.cursor.watermark) {
      return false;
    }
    if |r.changes| == 0 {
      return !r.hasMore && ((request.projectId == "" && r.position == request.cursor.position)
                            || (request.projectId != "" && r.position == r.watermark));
    }
    var previous := request.cursor.position;
    var i := 0;
    while i < |r.changes|
      invariant 0 <= i <= |r.changes|
      invariant previous == if i == 0 then request.cursor.position else r.changes[i - 1].sequence
      invariant request.projectId == "" ==> forall k | 0 <= k < i :: r.changes[k].sequence == request.cursor.position + k + 1
      invariant request.projectId != "" ==> Ascending(r.changes[..i], request.cursor.position)
      invariant request.projectId != "" ==> forall k | 0 <= k < i :: ValidateProjectPullChange(r.changes[k], request.projectId)
    {
      var change := r.changes[i];
      if (request.projectId == "" && change.sequence != request.cursor.position + i + 1)
         || (request.projectId != "" && (change.sequence <= previous || !ValidateProjectPullChange(change, request.projectId))) {
        return false;
      }
      AscendingGrows(r.changes, i, request.cursor.position);
      previous := change.sequence;
      i := i + 1;
    }
    assert r.changes[..i] == r.changes;
    var last := LastSequence(r.changes);
    return (request.projectId == "" && r.position == last)
           || (request.projectId != "" && r.hasMore && r.position == last)
           || (request.projectId != "" && !r.hasMore && r.position == r.watermark);
  }

  // ----------------------------- validatePulledPage, validateBootstrapPage

  datatype BootstrapCheckpoint = BootstrapCheckpoint(historyId: string, phase: string, position: int, watermark: int)

  function CheckpointPhaseRank(phase: string): nat {
    if phase == "projects" then 1
    else if phase == "sessions" then 2
    else if phase == "observations" then 3
    else if phase == "complete" then 4
    else 0
  }

  predicate OrdinaryPulledMutation(m: Mutation) {
    if m.recordKind != ObservationKind then m.kind == Create || m.kind == Update
    else
      && m.observation.Some?
      && match m.kind
         case Create => m.observation.value.lifecycle == Active || m.observation.value.lifecycle == Archived
         case Update => m.observation.value.lifecycle == Active
         case Archive => m.observation.value.lifecycle == Archived
         case _ => false
  }

  predicate ValidPulledChange(c: Change) {
    && 0 < c.sequence && 0 < c.canonicalVersion
    && ValidateMutation(c.mutation) == Valid
    && VerifyChangeHash(c)
    && if c.mutation.kind == Tombstone || c.mutation.kind == Resolve || c.disposition == ConflictChange then
         && c.hashVersion == Some(2)
         && (if c.disposition == ConflictChange then c.mutation.recordKind == ObservationKind && IsCanonicalUuid(c.conflictId)
             else c.disposition == AcceptedChange && c.conflictId == "" && (c.mutation.kind == Tombstone || c.mutation.kind == Resolve))
       else
         && (c.hashVersion.None? || c.hashVersion == Some(1))
         && c.disposition == Unstated && c.conflictId == ""
         && OrdinaryPulledMutation(c.mutation)
  }

  predicate CheckpointMatches(page: PullPage, checkpoint: BootstrapCheckpoint) {
    && IsCanonicalUuid(checkpoint.historyId)
    && checkpoint.historyId == page.cursor.historyId
    && checkpoint.position == page.cursor.position
    && checkpoint.watermark == page.cursor.watermark
    && CheckpointPhaseRank(checkpoint.phase) != 0
    && (checkpoint.phase == "complete" ==> checkpoint.position == checkpoint.watermark)
  }

  predicate PulledHeader(page: PullPage) {
    && IsCanonicalUuid(page.cursor.historyId)
    && 0 <= page.cursor.position <= page.cursor.watermark
    && page.hasMore == (page.cursor.position < page.cursor.watermark)
    && (if page.changes == [] then page.cursor.position == page.cursor.watermark
        else 1 <= page.cursor.position && LastSequence(page.changes) == page.cursor.position)
  }

  /** A page the client applies: consecutive valid changes up to its position. */
  predicate PulledPage(page: PullPage, checkpoint: Option<BootstrapCheckpoint>) {
    && PulledHeader(page)
    && (forall k | 0 <= k < |page.changes| ::
          page.changes[k].sequence == page.cursor.position - |page.changes| + 1 + k && ValidPulledChange(page.changes[k]))
    && (checkpoint.Some? ==> CheckpointMatches(page, checkpoint.value))
  }

  method ValidatePulledPage(page: PullPage, checkpoint: Option<BootstrapCheckpoint>) returns (ok: bool)
    ensures ok <==> PulledPage(page, checkpoint)
  {
    hide ValidPulledChange, IsCanonicalUuid;
    if !IsCanonicalUuid(page.cursor.historyId) || page.cursor.position < 0 || page.cursor.watermark < page.cursor.position
       || page.hasMore != (page.cursor.position < page.cursor.watermark) {
      return false;
    }
    if |page.changes| == 0 {
      if page.cursor.position != page.cursor.watermark || page.hasMore {
        return false;
      }
    } else if page.cursor.position < 1 || LastSequence(page.changes) != page.cursor.position {
      return false;
    }
    var first := page.cursor.position - |page.changes| + 1;
    var i := 0;
    while i < |page.changes|
      invariant 0 <= i <= |page.changes|
      invariant forall k | 0 <= k < i :: page.changes[k].sequence == first + k && ValidPulledChange(page.changes[k])
    {
      if page.changes[i].sequence != first + i || !ValidPulledChange(page.changes[i]) {
        return false;
      }
      i := i + 1;
    }
    return checkpoint.None? || CheckpointMatches(page, checkpoint.value);
  }

  /** A page that continues a bootstrap from a cursor. */
  predicate BootstrapPage(page: PullPage, cursor: Cursor) {
    && PulledPage(page, None)
    && |page.changes| <= MAX_PULL_LIMIT
    && page.cursor.historyId == cursor.historyId
    && (cursor.watermark != 0 ==> page.cursor.watermark == cursor.watermark)
    && if page.changes == [] then page.cursor.position == cursor.position && page.cursor.position == page.cursor.watermark
       else
         && cursor.position != MAX_INT64
         && page.changes[0].sequence == cursor.position + 1
         && cursor.position < page.cursor.position
  }

  // ------------------------------------------------------- push responses

  predicate SafeResultCode(code: ResultCode) {
    !code.NoCode? && !code.OtherCode?
  }

  predicate TerminalResult(item: Mutation, r: Result) {
    && r.mutationId != "" && r.mutationId == item.mutationId
    && match r.disposition
       case Accepted | PreviouslyAccepted =>
         && r.sequence.Some? && 1 <= r.sequence.value && r.code == NoCode && !r.retryable
         && item.baseVersion != MAX_INT64 && 1 <= r.version && r.version == item.baseVersion + 1
       case Conflict =>
         r.sequence.Some? && 1 <= r.sequence.value && 1 <= r.version && r.code == NoCode && !r.retryable
       case Rejected =>
         r.sequence.None? && r.version == 0 && !r.retryable && SafeResultCode(r.code)
  }

  /** Results that report the same sequence are about the same mutation. */
  predicate SequencesAgree(results: seq<Result>) {
    forall i, j | 0 <= i < j < |results| && results[i].sequence.Some? && results[j].sequence == results[i].sequence ::
      results[i].mutationId == results[j].mutationId
  }

  predicate PushResponseAnswers(request: PushRequest, response: PushResponse) {
    && response.protocolVersion == PROTOCOL_VERSION
    && |response.results| == |request.items|
    && 0 < |response.results| <= MAX_PUSH_ITEMS
    && (forall i | 0 <= i < |response.results| :: TerminalResult(request.items[i], response.results[i]))
    && SequencesAgree(response.results)
  }

  method ValidatePushResponse(request: PushRequest, response: PushResponse) returns (ok: bool)
    ensures ok <==> PushResponseAnswers(request, response)
  {
    hide TerminalResult;
    if response.protocolVersion != PROTOCOL_VERSION || |response.results| != |request.items| || |response.results| == 0
       || |response.results| > MAX_PUSH_ITEMS {
      return false;
    }
    var sequenceMutationIds: map<int, string> := map[];
    var i := 0;
    while i < |response.results|
      invariant 0 <= i <= |response.results|
      invariant forall k | 0 <= k < i :: TerminalResult(request.items[k], response.results[k])
      invariant SequencesAgree(response.results[..i])
      invariant forall s | s in sequenceMutationIds ::
                  exists k :: 0 <= k < i && response.results[k].sequence == Some(s) && response.results[k].mutationId == sequenceMutationIds[s]
      invariant forall k | 0 <= k < i && response.results[k].sequence.Some? ::
                  && response.results[k].sequence.value in sequenceMutationIds
                  && sequenceMutationIds[response.results[k].sequence.value] == response.results[k].mutationId
    {
      var result := response.results[i];
      if !TerminalResult(request.items[i], result) {
        return false;
      }
      RejectedHasNoSequence(request.items[i], result);
      if result.disposition != Rejected {
        var sequence := result.sequence.value;
        if sequence in sequenceMutationIds && sequenceMutationIds[sequence] != result.mutationId {
          ghost var k :| 0 <= k < i && response.results[k].sequence == Some(sequence)
            && response.results[k].mutationId == sequenceMutationIds[sequence];
          assert !SequencesAgree(response.results);
          return false;
        }
        sequenceMutationIds := sequenceMutationIds[sequence := result.mutationId];
      }
      i := i + 1;
    }
    assert response.results[..i] == response.results;
    return true;
  }

  lemma RejectedHasNoSequence(item: Mutation, r: Result)
    requires TerminalResult(item, r)
    ensures r.sequence.Some? <==> r.disposition != Rejected
  {
  }
}
