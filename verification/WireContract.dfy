/** Everything the server answers passes every check made of it on the way to the client's store. */
module WireContract {
  import opened Options
  import opened Uuids
  import opened SyncService
  import opened Tables
  import opened Repository
  import opened Recovery
  import opened PushInvariant
  import opened History
  import opened Pull
  import opened Readable
  import opened Paging
  import opened Protocol

  // ---------------------------------------------------------- pulled pages

  /** The response built from a page by servePull. */
  function ResponseOf(request: PullRequest, page: PullPage): PullResponse {
    PullResponse(PROTOCOL_VERSION, page.cursor.historyId, request.projectId, page.cursor.position, page.cursor.watermark,
                 page.hasMore, page.changes)
  }

  lemma ServedChangePasses(t: Tables, i: int, c: Change)
    requires Invariant(t) && ServedAs(t, i, c)
    ensures ValidPulledChange(c) && ValidateMutation(c.mutation) == Valid && ValidateChangeEnvelope(c)
  {
    hide VerifyRecovery, RequestsRecorded, VersionsGrow, RowsShowLatest, RowsHaveOrigin, RecordsPlaced, DeletionsRecorded, IsUuid,
      ValidateMutation, SnapshotOf, ErasedProject, VerifyChangeHash, Lower, LowerAll, PayloadMutation, VersionsLinked;
    assert CreatedBy(t, c.conflictId, i) ==> ConflictMatches(t, c.conflictId);
  }

  lemma WantedPasses(project: string, c: Change)
    requires ValidProjectId(project) && Wanted(project, c) && ValidateMutation(c.mutation) == Valid
    ensures ValidateProjectPullChange(c, project)
  {
    assert project != "";
    hide ByteLength, Blank, IsUuid, ValidObservation, MutationExceedsLimits, ValidConflictIds;
  }

  lemma {:induction false} LogIsSound(t: Tables, project: string, a: int, b: int)
    requires Invariant(t) && 0 <= a && b < t.nextSeq && Servable(t, a, b)
    ensures forall k | 0 <= k < |Log(t, project, a, b)| ::
      var c := Log(t, project, a, b)[k];
      a < c.sequence <= b && ServedAs(t, c.sequence, c) && Wanted(project, c)
    ensures Ascending(Log(t, project, a, b), a)
    decreases b - a
  {
    hide Invariant, RowAt, BuildChange, Orphan, ServedAs, Wanted;
    if a < b {
      LogIsSound(t, project, a, b - 1);
      Dense(t, b);
      ReadableExactly(t, b);
      ChangeSequence(t, b);
    }
  }

  lemma {:induction false} WholeLogSequences(t: Tables, a: int, b: int)
    requires Invariant(t) && 0 <= a <= b < t.nextSeq && Servable(t, a, b)
    ensures |Log(t, "", a, b)| == b - a
    ensures forall k | 0 <= k < b - a :: Log(t, "", a, b)[k].sequence == a + k + 1
    decreases b - a
  {
    hide Invariant, RowAt, BuildChange, Orphan;
    if a < b {
      WholeLogSequences(t, a, b - 1);
      SelectionIsMembership(t, "", b);
      ChangeSequence(t, b);
    }
  }

  /** The request as the handler passes it on: checked, with its history id in the stored form. */
  predicate Requested(t: Tables, history: string, device: string, request: PullRequest) {
    && request.protocolVersion == PROTOCOL_VERSION
    && IsCanonicalUuid(history)
    && request.cursor.historyId == history
    && 0 <= request.cursor.watermark
    && Admissible(t, history, device, request.cursor, request.projectId, request.limit)
  }

  /** What a stretch of the log is, without the tables it was read from. */
  predicate SoundPage(request: PullRequest, page: PullPage) {
    var a, b := request.cursor.position, page.cursor.position;
    && page.cursor.historyId == request.cursor.historyId
    && 0 <= a <= b <= page.cursor.watermark
    && (request.cursor.watermark != 0 ==> page.cursor.watermark == request.cursor.watermark)
    && |page.changes| <= request.limit <= MAX_PULL_LIMIT
    && Ascending(page.changes, a)
    && (forall k | 0 <= k < |page.changes| :: page.changes[k].sequence <= b && ValidPulledChange(page.changes[k]))
    && (forall k | 0 <= k < |page.changes| :: ValidateChangeEnvelope(page.changes[k]))
    && (page.hasMore ==> a < b < page.cursor.watermark && page.changes != [] && LastSequence(page.changes) == b)
    && (!page.hasMore ==> b == page.cursor.watermark)
    && (if request.projectId == "" then
          |page.changes| == b - a && forall k | 0 <= k < b - a :: page.changes[k].sequence == a + k + 1
        else
          ValidProjectId(request.projectId)
          && forall k | 0 <= k < |page.changes| :: ValidateProjectPullChange(page.changes[k], request.projectId))
  }

  lemma SoundPagePasses(request: PullRequest, page: PullPage)
    requires SoundPage(request, page)
    requires IsCanonicalUuid(request.cursor.historyId) && request.protocolVersion == PROTOCOL_VERSION
    ensures PageAnswers(request, page)
    ensures WellFormedResponse(ResponseOf(request, page))
    ensures ResponseMatches(request, ResponseOf(request, page))
    ensures request.projectId == "" ==> PulledPage(page, None)
    ensures request.projectId == "" && page.cursor.watermark < MAX_INT64 ==> BootstrapPage(page, request.cursor)
  {
    hide IsUuid, ValidateProjectPullChange, VerifyChangeHash, ValidateMutation, ValidateChangeEnvelope, IsCanonicalUuid, Lower;
    assert IsUuid(request.cursor.historyId) by { CanonicalIsUuid(request.cursor.historyId); }
    forall k | 0 <= k < |page.changes| ensures ChangeWellFormed(ResponseOf(request, page), page.changes[k]) && VerifyChangeHash(page.changes[k]) {
      assert ValidPulledChange(page.changes[k]);
    }
    assert page.changes != [] ==> page.changes[0].sequence <= page.cursor.position;
    hide ValidPulledChange, ChangeWellFormed;
  }

  lemma CanonicalIsUuid(s: string)
    requires IsCanonicalUuid(s)
    ensures IsUuid(s)
  {
  }

  lemma StretchIsSound(t: Tables, request: PullRequest, size: Change -> nat, page: PullPage)
    requires Invariant(t) && 0 <= request.cursor.position && 0 <= request.cursor.watermark && 1 <= request.limit <= MAX_PULL_LIMIT
    requires request.projectId == "" || ValidProjectId(request.projectId)
    requires page.cursor.historyId == request.cursor.historyId
    requires page.cursor.watermark == EffectiveWatermark(t, request.cursor) < t.nextSeq
    requires Servable(t, request.cursor.position, page.cursor.watermark)
    requires PageIsStretch(t, request.projectId, request.cursor.position, page.cursor.watermark, request.limit, size, page)
    ensures SoundPage(request, page)
  {
    hide Invariant, Servable, Log, Total, ValidProjectId, ValidateProjectPullChange, ValidPulledChange, ValidateChangeEnvelope;
    var a, b := request.cursor.position, page.cursor.position;
    StretchChangesPass(t, request.projectId, a, b, page.cursor.watermark);
    if request.projectId == "" {
      WholeLogSequences(t, a, b);
    }
  }

  lemma StretchChangesPass(t: Tables, project: string, a: int, b: int, c: int)
    requires Invariant(t) && 0 <= a <= b <= c < t.nextSeq && Servable(t, a, c)
    requires project == "" || ValidProjectId(project)
    ensures Servable(t, a, b) && Ascending(Log(t, project, a, b), a)
    ensures forall k | 0 <= k < |Log(t, project, a, b)| ::
      var change := Log(t, project, a, b)[k];
      && change.sequence <= b && ValidPulledChange(change) && ValidateChangeEnvelope(change)
      && (project != "" ==> ValidateProjectPullChange(change, project))
  {
    hide Invariant, Log, ValidProjectId, Orphan, ValidateProjectPullChange, ValidPulledChange, ValidateChangeEnvelope, Traced, ServedAs, Wanted;
    assert Servable(t, a, b);
    LogIsSound(t, project, a, b);
    forall k | 0 <= k < |Log(t, project, a, b)|
      ensures var change := Log(t, project, a, b)[k];
              && ValidPulledChange(change) && ValidateChangeEnvelope(change)
              && (project != "" ==> ValidateProjectPullChange(change, project))
    {
      var change := Log(t, project, a, b)[k];
      ServedChangePasses(t, change.sequence, change);
      if project != "" {
        WantedPasses(project, change);
      }
    }
  }

  /** Every page a pull returns passes the checks of the server, of the wire decoder and of the client. */
  lemma ServedPagePasses(t: Tables, history: string, device: string, request: PullRequest, size: Change -> nat)
    requires Invariant(t) && t.nextSeq <= MAX_INT64 && Requested(t, history, device, request)
    requires Servable(t, request.cursor.position, EffectiveWatermark(t, request.cursor))
    requires Fits(t, request.cursor.position, EffectiveWatermark(t, request.cursor), size)
    ensures var outcome := PullPageOf(t, history, device, request.cursor, request.projectId, request.limit, size);
            && outcome.Page?
            && PageAnswers(request, outcome.page)
            && WellFormedResponse(ResponseOf(request, outcome.page))
            && ResponseMatches(request, ResponseOf(request, outcome.page))
            && (request.projectId == "" ==> PulledPage(outcome.page, None) && BootstrapPage(outcome.page, request.cursor))
  {
    hide Invariant, Servable, Fits, PullPageOf, PageIsStretch, IsUuid, IsCanonicalUuid, PageAnswers, WellFormedResponse, ResponseMatches,
      PulledPage, BootstrapPage, SoundPage, Authorised;
    PageIsExact(t, history, device, request.cursor, request.projectId, request.limit, size);
    var page := PullPageOf(t, history, device, request.cursor, request.projectId, request.limit, size).page;
    StretchIsSound(t, request, size, page);
    SoundPagePasses(request, page);
  }

  // --------------------------------------------------------- push results

  /** One push of a batch: the tables it found, which other devices may have moved on, and its answer. */
  datatype Answer = Answer(before: Tables, conflictId: string, result: Result)

  /** Push runs the items one transaction each, in order; other pushes may come in between. */
  ghost predicate Answers(t: Tables, device: string, items: seq<Mutation>, answers: seq<Answer>)
    decreases |answers|
  {
    |items| == |answers| &&
    (answers == [] ||
     (&& Invariant(answers[0].before) && Follows(t, answers[0].before) && IsCanonicalUuid(answers[0].conflictId)
      && Push(answers[0].before, device, items[0], answers[0].conflictId).Committed?
      && Push(answers[0].before, device, items[0], answers[0].conflictId).result == answers[0].result
      && Answers(Push(answers[0].before, device, items[0], answers[0].conflictId).tables, device, items[1..], answers[1..])))
  }

  function Results(answers: seq<Answer>): (results: seq<Result>)
    ensures |results| == |answers| && forall i | 0 <= i < |answers| :: results[i] == answers[i].result
  {
    seq(|answers|, i requires 0 <= i < |answers| => answers[i].result)
  }

  lemma OnRecordIsTerminal(t: Tables, device: string, m: Mutation, r: Result)
    requires Invariant(t) && OnRecord(t, device, m, r) && IsUuid(m.mutationId)
    ensures TerminalResult(m, r)
  {
    hide VersionsGrow, RowsShowLatest, RowsHaveOrigin, RecordsPlaced, DeletionsRecorded, ConflictsMatch, TombstonesMatch, ResolvesMatch,
      ValidateMutation, AcceptedMutation, SnapshotOf, PayloadMutation, VersionsLinked;
    var key := KeyOf(device, m);
    assert RequestRecorded(t, key) && MutationMatches(t, key) && ChangeMatches(t, t.mutations[key].canonicalSeq);
    assert m.mutationId != "";
  }

  lemma PushResultIsTerminal(t: Tables, device: string, m: Mutation, conflictId: string)
    requires Invariant(t) && IsCanonicalUuid(conflictId) && ValidateMutation(m) == Valid
    requires Push(t, device, m, conflictId).Committed?
    ensures TerminalResult(m, Push(t, device, m, conflictId).result)
  {
    var outcome := Push(t, device, m, conflictId);
    assert IsUuid(m.mutationId);
    if Acknowledged(outcome.result) {
      PushKeepsInvariant(t, device, m, conflictId);
      AcknowledgedIsOnRecord(t, device, m, conflictId);
      OnRecordIsTerminal(outcome.tables, device, m, outcome.result);
    } else {
      RefusalIsTerminal(t, device, m, conflictId);
    }
  }

  lemma RefusalIsTerminal(t: Tables, device: string, m: Mutation, conflictId: string)
    requires Push(t, device, m, conflictId).Committed? && !Acknowledged(Push(t, device, m, conflictId).result) && IsUuid(m.mutationId)
    ensures TerminalResult(m, Push(t, device, m, conflictId).result)
  {
    hide ValidateMutation, AcceptedMutation, PrerequisitesHold, TopicTaken, BreaksConstraint, SnapshotOf, IdsExist, IdsUnresolved;
  }

  lemma OnRecordKept(t: Tables, u: Tables, device: string, m: Mutation, r: Result)
    requires Follows(t, u) && OnRecord(t, device, m, r)
    ensures OnRecord(u, device, m, r)
  {
  }

  /** The tables after the last answer. */
  function EndOf(t: Tables, device: string, items: seq<Mutation>, answers: seq<Answer>): Tables
    decreases |answers|
  {
    if answers == [] || |items| != |answers| then t
    else
      var outcome := Push(answers[0].before, device, items[0], answers[0].conflictId);
      if outcome.Failed? then t else EndOf(outcome.tables, device, items[1..], answers[1..])
  }

  lemma {:induction false} AnswersStayOnRecord(t: Tables, device: string, items: seq<Mutation>, answers: seq<Answer>)
    requires Invariant(t) && Answers(t, device, items, answers)
    ensures Invariant(EndOf(t, device, items, answers)) && Follows(t, EndOf(t, device, items, answers))
    ensures forall i | 0 <= i < |answers| && Acknowledged(answers[i].result) ::
      OnRecord(EndOf(t, device, items, answers), device, items[i], answers[i].result)
    decreases |answers|
  {
    hide Invariant, Follows, OnRecord, Push, IsCanonicalUuid;
    if answers == [] {
      assert Follows(t, t) by { FollowsItself(t); }
    } else {
      var before := answers[0].before;
      var e := PushMutation(device, items[0], answers[0].conflictId);
      var after := Push(before, device, items[0], answers[0].conflictId).tables;
      StepFollows(before, e);
      AnswersStayOnRecord(after, device, items[1..], answers[1..]);
      var end := EndOf(t, device, items, answers);
      FollowsTransitively(t, before, after);
      FollowsTransitively(t, after, end);
      if Acknowledged(answers[0].result) {
        AcknowledgedIsOnRecord(before, device, items[0], answers[0].conflictId);
        OnRecordKept(after, end, device, items[0], answers[0].result);
      }
      forall i | 0 <= i < |answers| && Acknowledged(answers[i].result) ensures OnRecord(end, device, items[i], answers[i].result) {
        if 0 < i {
          assert answers[1..][i - 1] == answers[i] && items[1..][i - 1] == items[i];
        }
      }
    }
  }

  lemma FollowsItself(t: Tables)
    ensures Follows(t, t)
  {
  }

  /** One sequence stands for one mutation. */
  lemma OneMutationPerSequence(t: Tables, device: string, m1: Mutation, r1: Result, m2: Mutation, r2: Result)
    requires Invariant(t) && OnRecord(t, device, m1, r1) && OnRecord(t, device, m2, r2) && r1.sequence == r2.sequence
    ensures m1 == m2
  {
    hide VersionsGrow, RowsShowLatest, RowsHaveOrigin, RecordsPlaced, DeletionsRecorded, ConflictsMatch, TombstonesMatch, ResolvesMatch,
      RequestsRecorded, ChangesMatch, VersionsLinked;
    assert MutationMatches(t, KeyOf(device, m1)) && MutationMatches(t, KeyOf(device, m2));
  }

  lemma {:induction false} AnswersAreTerminal(t: Tables, device: string, items: seq<Mutation>, answers: seq<Answer>)
    requires Invariant(t) && Answers(t, device, items, answers)
    requires forall i | 0 <= i < |items| :: ValidateMutation(items[i]) == Valid
    ensures forall i | 0 <= i < |answers| :: TerminalResult(items[i], answers[i].result)
    decreases |answers|
  {
    hide Invariant, Follows, Push, IsCanonicalUuid, TerminalResult, ValidateMutation;
    if answers != [] {
      var before := answers[0].before;
      StepFollows(before, PushMutation(device, items[0], answers[0].conflictId));
      PushResultIsTerminal(before, device, items[0], answers[0].conflictId);
      AnswersAreTerminal(Push(before, device, items[0], answers[0].conflictId).tables, device, items[1..], answers[1..]);
      forall i | 0 <= i < |answers| ensures TerminalResult(items[i], answers[i].result) {
        if 0 < i {
          assert answers[1..][i - 1] == answers[i] && items[1..][i - 1] == items[i];
        }
      }
    }
  }

  /** The client accepts every answer to a valid batch: replays, duplicates and concurrent pushes included. */
  lemma PushResponsePasses(t: Tables, device: string, request: PushRequest, answers: seq<Answer>)
    requires Invariant(t) && Answers(t, device, request.items, answers)
    requires request.protocolVersion == PROTOCOL_VERSION && 0 < |request.items| <= MAX_PUSH_ITEMS
    requires forall i | 0 <= i < |request.items| :: ValidateMutation(request.items[i]) == Valid
    ensures PushResponseAnswers(request, PushResponse(PROTOCOL_VERSION, Results(answers)))
  {
    hide Invariant, Follows, Push, OnRecord, ValidateMutation, TerminalResult, Answers, EndOf;
    AnswersCount(t, device, request.items, answers);
    AnswersAreTerminal(t, device, request.items, answers);
    AnswersStayOnRecord(t, device, request.items, answers);
    var results := Results(answers);
    forall i, j | 0 <= i < j < |results| && results[i].sequence.Some? && results[j].sequence == results[i].sequence
      ensures results[i].mutationId == results[j].mutationId
    {
      SequenceMeansAcknowledged(request.items[i], results[i]);
      SequenceMeansAcknowledged(request.items[j], results[j]);
      OneMutationPerSequence(EndOf(t, device, request.items, answers), device, request.items[i], results[i], request.items[j], results[j]);
    }
  }

  lemma SequenceMeansAcknowledged(m: Mutation, r: Result)
    requires TerminalResult(m, r) && r.sequence.Some?
    ensures Acknowledged(r) && r.mutationId == m.mutationId
  {
  }

  lemma AnswersCount(t: Tables, device: string, items: seq<Mutation>, answers: seq<Answer>)
    requires Answers(t, device, items, answers)
    ensures |items| == |answers|
  {
  }
}
