/**
 When a project in transition takes a pulled change or a push result, and what either leaves:
 said of records, receipts, rows and queue alone (internal/memory/sync.go).
 */
module TransitionChanges {
  import opened Options
  import opened Uuids
  import opened SyncService
  import opened Replica
  import opened PulledChanges
  import opened OutboxAnswers
  import opened Transition
  import opened TransitionSafety
  import Inbox
  import Outbox

  // ---------------------------------------------------------------- conditions

  /** A change to a record of the snapshot, while the transition lasts. */
  predicate OnSnapshot(s: ProjectSync, c: Change) {
    s.transition.Some? && s.transition.value.status != Completed && Key(c.mutation.recordKind, c.mutation.recordId) in s.records
  }

  /** Exactly what was snapshotted, as the first version of its record, which the project has. */
  predicate IsEcho(b: Binding, s: ProjectSync, c: Change) {
    var m := c.mutation;
    var key := Key(m.recordKind, m.recordId);
    && key in s.records
    && m.kind == Create && m.baseVersion == 0 && c.canonicalVersion == 1
    && m.(mutationId := "") == s.records[key].payload
    && match m.recordKind
       case ProjectKind => m.recordId == b.project && m.recordId in s.local.projects
       case SessionKind => m.recordId in s.local.sessions && s.local.sessions[m.recordId].projectId == b.project
       case ObservationKind => m.recordId in s.local.observations && s.local.observations[m.recordId].body.projectId == b.project
  }

  /** The device holds a receipt of the mutation. */
  predicate Answered(s: ProjectSync, c: Change) {
    c.mutation.mutationId in s.receipts
  }

  /** The receipt says something else than the change. */
  predicate AnsweredOtherwise(s: ProjectSync, c: Change) {
    && Answered(s, c)
    && var r := s.receipts[c.mutation.mutationId];
       || r.result.retryable || r.result.sequence != Some(c.sequence) || r.result.version != c.canonicalVersion || r.mutation != c.mutation
       || (r.result.disposition == Conflict && c.disposition != ConflictChange)
       || ((r.result.disposition == Accepted || r.result.disposition == PreviouslyAccepted) && c.disposition == ConflictChange)
  }

  predicate CarriesSnapshot(c: Change) {
    c.mutation.kind == Create || c.mutation.kind == Update
  }

  /** The device's own write, taken by the server as it was: nothing is left to do. */
  predicate OwnAccepted(s: ProjectSync, c: Change) {
    CarriesSnapshot(c) && Answered(s, c) && c.disposition != ConflictChange
  }

  predicate CreatesProject(c: Change) {
    c.mutation.recordKind == ProjectKind && c.mutation.kind == Create
  }

  /** The project's row exists before its creation is pulled: on version 0, or on 1 by the device's own push. */
  predicate ProjectCreationFits(s: ProjectSync, c: Change) {
    var id := c.mutation.recordId;
    && id in s.local.projects && c.mutation.baseVersion == 0 && c.canonicalVersion == 1
    && (s.local.projects[id] == 0 || (s.local.projects[id] == 1 && Answered(s, c)))
  }

  predicate OrdinaryFits(s: ProjectSync, c: Change) {
    && !(CarriesSnapshot(c) && AnsweredOtherwise(s, c))
    && if OwnAccepted(s, c) then true
       else if CreatesProject(c) then ProjectCreationFits(s, c)
       else Takes(s.local, c)
  }

  // ------------------------------------------------------------------ effects

  /** The record is on version 1 and seen; nothing else moved. */
  predicate EchoTaken(s: ProjectSync, u: ProjectSync, c: Change) {
    var key := Key(c.mutation.recordKind, c.mutation.recordId);
    && key in s.records && u.records == s.records[key := Snapshot(s.records[key].payload, true)]
    && match key.kind
       case ProjectKind => key.id in s.local.projects && u.local == s.local.(projects := s.local.projects[key.id := 1])
       case SessionKind =>
         && key.id in s.local.sessions
         && u.local == s.local.(sessions := s.local.sessions[key.id := LocalSession(s.local.sessions[key.id].projectId, 1)])
       case ObservationKind =>
         && key.id in s.local.observations
         && u.local == s.local.(observations := s.local.observations[key.id := LocalRow(s.local.observations[key.id].body, 1)])
  }

  ghost predicate OrdinaryTaken(s: ProjectSync, u: ProjectSync, c: Change) {
    && u.records == s.records
    && if OwnAccepted(s, c) then u.local == s.local
       else if CreatesProject(c) then u.local == s.local.(projects := s.local.projects[c.mutation.recordId := 1])
       else Took(s.local, u.local, c)
  }

  // ----------------------------------------------------------- a pulled change

  lemma ReceiptIs(s: ProjectSync, c: Change)
    ensures OwnReceipt(s.receipts, c).None? <==> AnsweredOtherwise(s, c)
    ensures OwnReceipt(s.receipts, c).Some? ==> OwnReceipt(s.receipts, c).value == Answered(s, c)
  {
  }

  lemma OrdinaryExactly(s: ProjectSync, c: Change)
    ensures ApplyOrdinary(s, c).Some? <==> OrdinaryFits(s, c)
    ensures ApplyOrdinary(s, c).Some? ==> OrdinaryTaken(s, s.(local := ApplyOrdinary(s, c).value), c)
  {
    hide OwnReceipt, AnsweredOtherwise, Answered, Apply, Takes, Took;
    ReceiptIs(s, c);
    if CarriesSnapshot(c) && OwnReceipt(s.receipts, c).None? {
    } else if !OwnAccepted(s, c) && !CreatesProject(c) {
      ChangeAppliesExactly(s.local, c);
    } else if CreatesProject(c) && ProjectCreationFits(s, c) && s.local.projects[c.mutation.recordId] == 1 {
      assert s.local.projects[c.mutation.recordId := 1] == s.local.projects;
    }
  }

  /**
   A change beyond the cursor is taken if and only if its sequence is not in the inbox and it is either the echo of
   the snapshotted record it is about or, about any other record, an ordinary change that fits. It leaves its echo or
   its content, and its inbox row.
   */
  lemma MappedExactly(b: Binding, s: ProjectSync, historyId: string, c: Change)
    ensures var r := ApplyMapped(b, s, historyId, c);
            r.Some? <==>
              && Inbox.InboxKey(historyId, c.sequence) !in s.inbox
              && if OnSnapshot(s, c) then IsEcho(b, s, c) else OrdinaryFits(s, c)
    ensures var r := ApplyMapped(b, s, historyId, c);
            r.Some? ==>
              && r.value == s.(local := r.value.local, records := r.value.records, inbox := r.value.inbox)
              && r.value.inbox == s.inbox[Inbox.InboxKey(historyId, c.sequence) := c.changeHash]
              && if OnSnapshot(s, c) then EchoTaken(s, r.value, c) else OrdinaryTaken(s, r.value, c)
  {
    hide ApplyOrdinary, OrdinaryFits, Took, OwnAccepted, CreatesProject;
    OrdinaryExactly(s, c);
    EchoIs(b, s, c);
    if ApplyMapped(b, s, historyId, c).Some? && !OnSnapshot(s, c) {
      SameOrdinary(s, s.(local := ApplyOrdinary(s, c).value), ApplyMapped(b, s, historyId, c).value, c);
    }
  }

  lemma EchoIs(b: Binding, s: ProjectSync, c: Change)
    ensures OnSnapshot(s, c) ==>
      && (HandlePulled(b, s, c).Echoed? <==> IsEcho(b, s, c)) && !HandlePulled(b, s, c).NotHandled?
      && (HandlePulled(b, s, c).Echoed? ==>
            && EchoTaken(s, HandlePulled(b, s, c).s, c)
            && HandlePulled(b, s, c).s == s.(local := HandlePulled(b, s, c).s.local, records := HandlePulled(b, s, c).s.records))
    ensures !OnSnapshot(s, c) ==> HandlePulled(b, s, c).NotHandled?
  {
  }

  lemma SameOrdinary(s: ProjectSync, u: ProjectSync, v: ProjectSync, c: Change)
    requires OrdinaryTaken(s, u, c) && v.records == u.records && v.local == u.local
    ensures OrdinaryTaken(s, v, c)
  {
    hide Took, OwnAccepted, CreatesProject;
  }

  // ------------------------------------------------------------- a push result

  /** As in the outbox, and only an observation can be in conflict. */
  predicate ResultFits(local: Local, m: Mutation, result: Result) {
    && VersionFits(VersionOf(local, Key(m.recordKind, m.recordId)), m.baseVersion, result)
    && (result.disposition == Conflict ==> m.recordKind == ObservationKind)
  }

  predicate NamesActive(s: ProjectSync, identity: Time) {
    identity != 0 ==>
      identity > 0 && s.transition.Some? && s.transition.value.status != Completed && s.transition.value.createdAt == identity
  }

  /** A result is recorded if and only if it is of the entry, final, new, and fits the record's version. */
  lemma ResultExactly(s: ProjectSync, i: int, result: Result, identity: Time)
    requires 0 <= i < |s.queue|
    ensures RecordResult(s, i, result, identity).Some? <==>
      && result.mutationId == s.queue[i].mutationId && Final(result) && NamesActive(s, identity)
      && ResultFits(s.local, s.queue[i], result)
      && s.queue[i].mutationId !in s.receipts && SequenceFree(s.receipts, result)
  {
    hide VersionOf, WithVersion, Outbox.StorableCode;
  }

  /** It leaves its receipt, takes its entry out of the queue, and puts the record on the version it names. */
  lemma ResultLeaves(b: Binding, s: ProjectSync, i: int, result: Result, identity: Time)
    requires 0 <= i < |s.queue| && KeysDistinct(s.queue) && RecordResult(s, i, result, identity).Some?
    ensures var u := RecordResult(s, i, result, identity).value;
            var key := Key(s.queue[i].recordKind, s.queue[i].recordId);
            && u == s.(local := u.local, queue := u.queue, receipts := u.receipts)
            && u.queue == s.queue[..i] + s.queue[i + 1..]
            && u.receipts == s.receipts[s.queue[i].mutationId := Outbox.Receipt(result, s.queue[i])]
            && (result.disposition == Rejected ==> u.local == s.local)
            && (result.disposition != Rejected && OfProject(b, s.local, key) ==> VersionOf(u.local, key) == result.version)
            && (forall other | other != key || result.disposition == Rejected :: VersionOf(u.local, other) == VersionOf(s.local, other))
            && forall other :: SnapshotNow(b, u.local, other) == SnapshotNow(b, s.local, other)
  {
    hide VersionOf, WithVersion, SnapshotNow, OfProject, FinalResult, Outbox.SequenceTaken;
    var key := Key(s.queue[i].recordKind, s.queue[i].recordId);
    RestIsRemoval(s.queue, i, result, |s.queue|);
    assert s.queue[i + 1..|s.queue|] == s.queue[i + 1..];
    VersionOnly(b, s.local, key, result.version);
  }

  // ------------------------------------------------------------ a project page

  /** Where a page finds the project's pull: nowhere yet, or within its own history. */
  predicate PullStands(s: ProjectSync, historyId: string) {
    match s.cursor
    case None => s.inbox == map[]
    case Some(c) =>
      && IsCanonicalUuid(c.historyId) && 0 <= c.position <= c.watermark && c.historyId == historyId
      && forall key | key in s.inbox :: key.historyId == c.historyId && 1 <= key.sequence <= c.position
  }

  function PulledTo(s: ProjectSync): int {
    if s.cursor.Some? then s.cursor.value.position else 0
  }

  function PullingTo(s: ProjectSync): int {
    if s.cursor.Some? then s.cursor.value.watermark else 0
  }

  /** An unfinished pull keeps its watermark, a finished one may begin another; neither goes back. */
  predicate Continues(s: ProjectSync, page: PullPage) {
    && PullStands(s, page.cursor.historyId) && PulledTo(s) <= page.cursor.position
    && (if PulledTo(s) < PullingTo(s) then page.cursor.watermark == PullingTo(s)
        else PulledTo(s) == PullingTo(s) ==> PullingTo(s) <= page.cursor.watermark)
  }

  /** From one state to the next: a change up to the cursor is known under its hash and skipped, any other is mapped and taken. */
  predicate Link(b: Binding, page: PullPage, mapped: seq<Option<Change>>, position: int, k: int, s: ProjectSync, u: ProjectSync)
    requires 0 <= k < |page.changes| == |mapped|
  {
    if page.changes[k].sequence <= position then
      var key := Inbox.InboxKey(page.cursor.historyId, page.changes[k].sequence);
      key in s.inbox && s.inbox[key] == page.changes[k].changeHash && u == s
    else mapped[k].Some? && ApplyMapped(b, s, page.cursor.historyId, mapped[k].value) == Some(u)
  }

  predicate Chain(b: Binding, page: PullPage, mapped: seq<Option<Change>>, position: int, states: seq<ProjectSync>)
    requires |mapped| == |page.changes|
  {
    && 0 < |states| <= |page.changes| + 1
    && forall k | 0 <= k < |states| - 1 :: Link(b, page, mapped, position, k, states[k], states[k + 1])
  }

  lemma {:induction false} ChainExists(b: Binding, s: ProjectSync, page: PullPage, mapped: seq<Option<Change>>, position: int, k: nat)
    returns (states: seq<ProjectSync>)
    requires k <= |page.changes| == |mapped| && ApplyFirst(b, s, page, mapped, position, k).Some?
    ensures |states| == k + 1 && states[0] == s && states[k] == ApplyFirst(b, s, page, mapped, position, k).value
    ensures Chain(b, page, mapped, position, states)
  {
    hide ApplyMapped, Link;
    if k == 0 {
      states := [s];
    } else {
      var before := ChainExists(b, s, page, mapped, position, k - 1);
      states := before + [ApplyFirst(b, s, page, mapped, position, k).value];
      NextLink(b, s, page, mapped, position, k);
      forall j | 0 <= j < k ensures Link(b, page, mapped, position, j, states[j], states[j + 1]) {
        assert j < k - 1 ==> Link(b, page, mapped, position, j, before[j], before[j + 1]);
      }
    }
  }

  lemma NextLink(b: Binding, s: ProjectSync, page: PullPage, mapped: seq<Option<Change>>, position: int, k: nat)
    requires 0 < k <= |page.changes| == |mapped| && ApplyFirst(b, s, page, mapped, position, k).Some?
    ensures ApplyFirst(b, s, page, mapped, position, k - 1).Some?
    ensures Link(b, page, mapped, position, k - 1, ApplyFirst(b, s, page, mapped, position, k - 1).value,
                 ApplyFirst(b, s, page, mapped, position, k).value)
  {
    hide ApplyMapped;
  }

  lemma {:induction false} ChainIsApplied(b: Binding, s: ProjectSync, page: PullPage, mapped: seq<Option<Change>>, position: int, k: nat,
                                          states: seq<ProjectSync>)
    requires |page.changes| == |mapped| && k < |states| && Chain(b, page, mapped, position, states) && states[0] == s
    ensures ApplyFirst(b, s, page, mapped, position, k) == Some(states[k])
  {
    hide ApplyMapped;
    if k > 0 {
      ChainIsApplied(b, s, page, mapped, position, k - 1, states);
      assert Link(b, page, mapped, position, k - 1, states[k - 1], states[k]);
    }
  }

  /** A project page is applied if and only if it is one, continues the pull, the project is there and each change is known or taken in its turn. */
  lemma ProjectPageExactly(b: Binding, s: ProjectSync, page: PullPage, mapped: seq<Option<Change>>, identity: Time)
    requires |mapped| == |page.changes|
    ensures ApplyProjectPage(b, s, page, mapped, identity).Some? <==>
      && ProjectPulledPage(b.portable, page) && NamesActive(s, identity) && b.project in s.local.projects && Continues(s, page)
      && exists states: seq<ProjectSync> :: |states| == |page.changes| + 1 && states[0] == s && Chain(b, page, mapped, PulledTo(s), states)
    ensures forall states: seq<ProjectSync> | |states| == |page.changes| + 1 && states[0] == s && Chain(b, page, mapped, PulledTo(s), states) ::
      ApplyProjectPage(b, s, page, mapped, identity).Some? ==>
        ApplyProjectPage(b, s, page, mapped, identity).value == states[|page.changes|].(cursor := Some(page.cursor))
  {
    hide IsCanonicalUuid, ApplyFirst, Chain, ProjectPulledPage;
    var n := |page.changes|;
    forall states: seq<ProjectSync> | |states| == n + 1 && states[0] == s && Chain(b, page, mapped, PulledTo(s), states)
      ensures ApplyFirst(b, s, page, mapped, PulledTo(s), n) == Some(states[n])
    {
      ChainIsApplied(b, s, page, mapped, PulledTo(s), n, states);
    }
    if ApplyFirst(b, s, page, mapped, PulledTo(s), n).Some? {
      var states := ChainExists(b, s, page, mapped, PulledTo(s), n);
    }
  }
}
