/** Whole runs of a project: prepares, pulls, results, finalizations and local work in any order. */
module TransitionRuns {
  import opened Options
  import opened SyncService
  import opened Replica
  import opened Transition
  import opened TransitionSafety
  import Outbox

  datatype Event =
    | PrepareEvent(mode: Mode, confirmed: bool, bound: bool, claimed: bool, now: Time, ids: nat -> string)
    | FinalizeEvent(identity: Time, now: Time, ids: nat -> string, moreIds: nat -> string)
    | PageEvent(page: PullPage, mapped: seq<Option<Change>>, identity: Time)
    | ResultEvent(index: int, result: Result, identity: Time)
    | LocalEvent(to: ProjectSync)

  ghost predicate Fits(b: Binding, e: Event) {
    e.PageEvent? ==> MappedPage(b, e.page, e.mapped)
  }

  /** What an operation makes of a state, None when it is refused. */
  ghost function Attempt(b: Binding, s: ProjectSync, e: Event): Option<ProjectSync>
    requires Fits(b, e)
  {
    match e
    case PrepareEvent(mode, confirmed, bound, claimed, now, ids) => Prepare(b, s, mode, confirmed, bound, claimed, now, ids)
    case FinalizeEvent(identity, now, ids, moreIds) => Finalize(b, s, identity, now, ids, moreIds)
    case PageEvent(page, mapped, identity) => ApplyProjectPage(b, s, page, mapped, identity)
    case ResultEvent(index, result, identity) => if 0 <= index < |s.queue| then RecordResult(s, index, result, identity) else None
    case LocalEvent(to) => LocalWork(s, to)
  }

  /** A refused operation is rolled back. */
  ghost function Step(b: Binding, s: ProjectSync, e: Event): ProjectSync
    requires Fits(b, e)
  {
    if Attempt(b, s, e).Some? then Attempt(b, s, e).value else s
  }

  ghost predicate Run(b: Binding, states: seq<ProjectSync>, events: seq<Event>) {
    && |states| == |events| + 1
    && forall k | 0 <= k < |events| :: Fits(b, events[k]) && states[k + 1] == Step(b, states[k], events[k])
  }

  lemma StepKeepsValid(b: Binding, s: ProjectSync, e: Event)
    requires ListingExact(b) && TransitionValid(b, s) && Fits(b, e)
    ensures TransitionValid(b, Step(b, s, e))
  {
    hide Prepare, Finalize, ApplyProjectPage, RecordResult, TransitionValid, MappedPage, ListingExact;
    if Attempt(b, s, e).Some? {
      match e
      case PrepareEvent(mode, confirmed, bound, claimed, now, ids) => PrepareKeepsValid(b, s, mode, confirmed, bound, claimed, now, ids);
      case FinalizeEvent(identity, now, ids, moreIds) => FinalizeKeepsValid(b, s, identity, now, ids, moreIds);
      case PageEvent(page, mapped, identity) => TransitionSafety.PageKeepsValid(b, s, page, mapped, identity);
      case ResultEvent(index, result, identity) => ResultKeepsValid(b, s, index, result, identity);
      case LocalEvent(to) => LocalKeepsValid(b, s, to);
    }
  }

  lemma LocalKeepsValid(b: Binding, s: ProjectSync, to: ProjectSync)
    requires TransitionValid(b, s) && LocalWork(s, to).Some?
    ensures TransitionValid(b, LocalWork(s, to).value)
  {
    hide SnapshotNow, VersionOf, QueueOfSnapshot;
    if s.transition.Some? {
      SameNames(b, s, LocalWork(s, to).value);
    }
  }

  /** Every state of every run is valid: snapshots intact, echoes on version 1, a completed transition fully echoed. */
  lemma {:induction false} RunKeepsValid(b: Binding, states: seq<ProjectSync>, events: seq<Event>, k: nat)
    requires ListingExact(b) && Run(b, states, events) && TransitionValid(b, states[0]) && k < |states|
    ensures TransitionValid(b, states[k])
  {
    hide Step, TransitionValid, ListingExact;
    if k > 0 {
      RunKeepsValid(b, states, events, k - 1);
      StepKeepsValid(b, states[k - 1], events[k - 1]);
    }
  }

  /** Whatever the tables hold, a project that was never in transition and never pulled begins valid. */
  lemma UntouchedIsValid(b: Binding, local: Local, queue: seq<Mutation>, receipts: map<string, Outbox.Receipt>)
    ensures TransitionValid(b, ProjectSync(local, None, map[], queue, receipts, None, map[]))
  {
  }

  // ---------------------------------------------------------- generations

  function Rank(status: Status): nat {
    match status
    case Pulling => 0
    case Publishing => 1
    case Completed => 2
  }

  function GenerationOf(s: ProjectSync): Time {
    if s.transition.Some? then s.transition.value.createdAt else 0
  }

  predicate SeenGrows(records: map<Key, Snapshot>, after: map<Key, Snapshot>) {
    && after.Keys == records.Keys
    && forall key | key in records ::
         after[key].payload == records[key].payload && (records[key].seen ==> after[key].seen)
  }

  /** Within a generation the mode and the snapshot stay, echoes accumulate and the status only moves on. */
  predicate Onward(s: ProjectSync, u: ProjectSync) {
    && GenerationOf(s) <= GenerationOf(u)
    && (GenerationOf(s) == GenerationOf(u) ==>
          && (s.transition.Some? <==> u.transition.Some?)
          && SeenGrows(s.records, u.records)
          && (s.transition.Some? ==>
                s.transition.value.mode == u.transition.value.mode && Rank(s.transition.value.status) <= Rank(u.transition.value.status)))
  }

  lemma SeenStays(records: map<Key, Snapshot>)
    ensures SeenGrows(records, records)
  {
  }

  lemma SeenTransitive(a: map<Key, Snapshot>, c: map<Key, Snapshot>, d: map<Key, Snapshot>)
    requires SeenGrows(a, c) && SeenGrows(c, d)
    ensures SeenGrows(a, d)
  {
  }

  lemma SameTransitionIsOnward(s: ProjectSync, u: ProjectSync)
    requires u.transition == s.transition && SeenGrows(s.records, u.records)
    ensures Onward(s, u)
  {
  }

  lemma {:induction false} FirstSeenGrows(b: Binding, s: ProjectSync, page: PullPage, mapped: seq<Option<Change>>, position: int, k: nat)
    requires k <= |page.changes| == |mapped| && ApplyFirst(b, s, page, mapped, position, k).Some?
    ensures var u := ApplyFirst(b, s, page, mapped, position, k).value; u.transition == s.transition && SeenGrows(s.records, u.records)
    ensures ApplyFirst(b, s, page, mapped, position, k).value.queue == s.queue
    ensures ApplyFirst(b, s, page, mapped, position, k).value.receipts == s.receipts
  {
    hide ApplyMapped, SeenGrows;
    SeenStays(s.records);
    if k > 0 {
      FirstSeenGrows(b, s, page, mapped, position, k - 1);
      var before := ApplyFirst(b, s, page, mapped, position, k - 1).value;
      if page.changes[k - 1].sequence > position {
        MappedSeenGrows(b, before, page.cursor.historyId, mapped[k - 1].value);
        SeenTransitive(s.records, before.records, ApplyMapped(b, before, page.cursor.historyId, mapped[k - 1].value).value.records);
      }
    }
  }

  lemma MappedSeenGrows(b: Binding, s: ProjectSync, historyId: string, c: Change)
    requires ApplyMapped(b, s, historyId, c).Some?
    ensures var u := ApplyMapped(b, s, historyId, c).value;
            u.transition == s.transition && SeenGrows(s.records, u.records) && u.queue == s.queue && u.receipts == s.receipts
  {
    hide ApplyOrdinary, WithVersion, OfProject;
  }

  lemma FinalizeIsOnward(b: Binding, s: ProjectSync, identity: Time, now: Time, ids: nat -> string, moreIds: nat -> string)
    requires ListingExact(b) && TransitionValid(b, s) && Finalize(b, s, identity, now, ids, moreIds).Some?
    ensures Onward(s, Finalize(b, s, identity, now, ids, moreIds).value)
    ensures Finalize(b, s, identity, now, ids, moreIds).value.records == s.records
  {
    hide Published, Recover, TransitionValid, ListingExact, AllSeen, SeenGrows;
    SeenStays(s.records);
    if InProgress(s) && s.cursor.value.position == s.cursor.value.watermark {
      PublishedKeepsValid(b, s, ids);
      if s.transition.value.mode == Rejoin {
        var published := Published(b, s, ids).value;
        PartsOfValid(b, published);
        RecoverKeeps(b, published, moreIds);
      }
    }
  }

  lemma PartsOfValid(b: Binding, s: ProjectSync)
    requires TransitionValid(b, s) && InProgress(s)
    ensures QueueOfSnapshot(s.records, s.queue) && RecordsNamed(b, s) && RecordsKept(b, s) && IncarnationValid(s.transition.value)
  {
    hide QueueOfSnapshot, RecordsNamed, RecordsKept;
  }

  lemma {:induction false} EnqueuedSame(s: ProjectSync, list: seq<Mutation>, ids: nat -> string, k: nat)
    requires k <= |list| && EnqueueAll(s, list, ids, k).Some?
    ensures EnqueueAll(s, list, ids, k).value.transition == s.transition
  {
    hide Enqueue;
    if k > 0 {
      EnqueuedSame(s, list, ids, k - 1);
      EnqueueExtends(EnqueueAll(s, list, ids, k - 1).value, WithId(list[k - 1], ids(k - 1)));
    }
  }

  /** A prepare starts a strictly later generation, and never while one is in progress. */
  lemma PrepareIsLater(b: Binding, s: ProjectSync, mode: Mode, confirmed: bool, bound: bool, claimed: bool, now: Time, ids: nat -> string)
    requires Prepare(b, s, mode, confirmed, bound, claimed, now, ids).Some?
    requires s.transition.Some? ==> IncarnationValid(s.transition.value)
    ensures !InProgress(s)
    ensures GenerationOf(s) < GenerationOf(Prepare(b, s, mode, confirmed, bound, claimed, now, ids).value)
    ensures InProgress(Prepare(b, s, mode, confirmed, bound, claimed, now, ids).value)
  {
    hide Snapshots, Taken, ResetVersions, ForeignReceipts, EnqueueAll;
    if mode == Reseed {
      var list := Snapshots(b, s.local).value;
      EnqueuedSame(s.(transition := Some(Incarnation(mode, Publishing, Generation(s.transition, now).value, None)), records := Taken(list),
                      queue := [], receipts := ForeignReceipts(b, s), cursor := None, inbox := map[], local := ResetVersions(b, s.local)),
                   list, ids, |list|);
    }
  }

  lemma StepIsOnward(b: Binding, s: ProjectSync, e: Event)
    requires ListingExact(b) && TransitionValid(b, s) && Fits(b, e)
    ensures Onward(s, Step(b, s, e))
    ensures GenerationOf(s) < GenerationOf(Step(b, s, e)) ==> e.PrepareEvent? && !InProgress(s)
  {
    hide Prepare, Finalize, ApplyFirst, MappedPage, ListingExact, RecordsNamed, RecordsKept, QueueOfSnapshot, SeenGrows, Rest, WithResult,
         ProjectCursor, Protocol.ValidPulledChange;
    SeenStays(s.records);
    SameTransitionIsOnward(s, s);
    if Attempt(b, s, e).Some? {
      match e
      case PrepareEvent(mode, confirmed, bound, claimed, now, ids) => PrepareIsLater(b, s, mode, confirmed, bound, claimed, now, ids);
      case FinalizeEvent(identity, now, ids, moreIds) => FinalizeIsOnward(b, s, identity, now, ids, moreIds);
                                                         FinalizeSameGeneration(b, s, identity, now, ids, moreIds);
      case PageEvent(page, mapped, identity) =>
        SameLength(b, page, mapped);
        FirstSeenGrows(b, s, page, mapped, ProjectCursor(s, page.cursor.historyId).value.0, |page.changes|);
      case ResultEvent(index, result, identity) =>
      case LocalEvent(to) =>
    }
  }

  lemma SameLength(b: Binding, page: PullPage, mapped: seq<Option<Change>>)
    requires MappedPage(b, page, mapped)
    ensures |mapped| == |page.changes|
  {
    hide AboutRecord;
  }

  lemma FinalizeSameGeneration(b: Binding, s: ProjectSync, identity: Time, now: Time, ids: nat -> string, moreIds: nat -> string)
    requires ListingExact(b) && TransitionValid(b, s) && Finalize(b, s, identity, now, ids, moreIds).Some?
    ensures GenerationOf(Finalize(b, s, identity, now, ids, moreIds).value) == GenerationOf(s)
  {
    hide Published, Recover, TransitionValid, ListingExact, AllSeen;
    if InProgress(s) && s.cursor.value.position == s.cursor.value.watermark {
      PublishedKeepsValid(b, s, ids);
      if s.transition.value.mode == Rejoin {
        var published := Published(b, s, ids).value;
        PartsOfValid(b, published);
        RecoverKeeps(b, published, moreIds);
      }
    }
  }

  lemma OnwardTransitive(s: ProjectSync, t: ProjectSync, u: ProjectSync)
    requires Onward(s, t) && Onward(t, u)
    ensures Onward(s, u)
  {
    hide SeenGrows;
    if GenerationOf(s) == GenerationOf(u) {
      SeenTransitive(s.records, t.records, u.records);
    }
  }

  /** Over any stretch of a run generations never go back, and within one the status only advances. */
  lemma {:induction false} RunIsOnward(b: Binding, states: seq<ProjectSync>, events: seq<Event>, i: nat, j: nat)
    requires ListingExact(b) && Run(b, states, events) && TransitionValid(b, states[0]) && i <= j < |states|
    ensures Onward(states[i], states[j])
    decreases j - i
  {
    hide Step, TransitionValid, ListingExact, Onward;
    if i == j {
      SeenStays(states[i].records);
      SameTransitionIsOnward(states[i], states[i]);
    } else {
      RunIsOnward(b, states, events, i, j - 1);
      RunKeepsValid(b, states, events, j - 1);
      StepIsOnward(b, states[j - 1], events[j - 1]);
      OnwardTransitive(states[i], states[j - 1], states[j]);
    }
  }

  predicate Names(e: Event, generation: Time) {
    (e.FinalizeEvent? || e.PageEvent? || e.ResultEvent?) && e.identity == generation
  }

  /** Once a later generation has begun, an operation that names the old one changes nothing, ever. */
  lemma StaleForever(b: Binding, states: seq<ProjectSync>, events: seq<Event>, i: nat, j: nat, generation: Time)
    requires ListingExact(b) && Run(b, states, events) && TransitionValid(b, states[0]) && i <= j < |events|
    requires generation != 0 && generation < GenerationOf(states[i]) && Names(events[j], generation)
    ensures Attempt(b, states[j], events[j]).None? && states[j + 1] == states[j]
  {
    hide ListingExact, TransitionValid, Published, Recover, Settled, ProjectCursor, ApplyFirst, MappedPage, WithResult, Rest;
    RunIsOnward(b, states, events, i, j);
  }

  /** While a generation is in progress its records keep their content, whatever is pulled, pushed or tried locally. */
  lemma FrozenInProgress(b: Binding, states: seq<ProjectSync>, events: seq<Event>, i: nat, j: nat, key: Key)
    requires ListingExact(b) && Run(b, states, events) && TransitionValid(b, states[0]) && i <= j < |states|
    requires InProgress(states[j]) && GenerationOf(states[i]) == GenerationOf(states[j]) && key in states[i].records
    ensures InProgress(states[i]) && key in states[j].records
    ensures SnapshotNow(b, states[i].local, key) == SnapshotNow(b, states[j].local, key) == Some(states[j].records[key].payload)
  {
    hide Step, ListingExact, SnapshotNow, VersionOf, QueueOfSnapshot, RecordsNamed;
    RunKeepsValid(b, states, events, i);
    RunKeepsValid(b, states, events, j);
    RunIsOnward(b, states, events, i, j);
  }

  // ------------------------------------------------------------ completion

  /** Only a finalization completes, and by then nothing is queued and every record was echoed as it still is. */
  lemma CompletionMeansEchoed(b: Binding, s: ProjectSync, e: Event)
    requires ListingExact(b) && TransitionValid(b, s) && Fits(b, e)
    requires InProgress(s) && !InProgress(Step(b, s, e))
    ensures e.FinalizeEvent?
    ensures var u := Step(b, s, e);
            && u.queue == [] && s.queue == []
            && forall key | key in u.records ::
                 u.records[key].seen && SnapshotNow(b, u.local, key) == Some(u.records[key].payload) && VersionOf(u.local, key) == 1
  {
    hide Prepare, Finalize, ApplyFirst, MappedPage, ListingExact, SnapshotNow, VersionOf, RecordsNamed, RecordsKept, QueueOfSnapshot, Rest,
         WithResult, ProjectCursor;
    match e
    case PrepareEvent(mode, confirmed, bound, claimed, now, ids) =>
      if Attempt(b, s, e).Some? {
        PrepareIsLater(b, s, mode, confirmed, bound, claimed, now, ids);
      }
    case FinalizeEvent(identity, now, ids, moreIds) => FinalizeCompletes(b, s, identity, now, ids, moreIds);
    case PageEvent(page, mapped, identity) =>
      if Attempt(b, s, e).Some? {
        SameLength(b, page, mapped);
        FirstSeenGrows(b, s, page, mapped, ProjectCursor(s, page.cursor.historyId).value.0, |page.changes|);
      }
    case ResultEvent(index, result, identity) =>
    case LocalEvent(to) =>
  }

  lemma FinalizeCompletes(b: Binding, s: ProjectSync, identity: Time, now: Time, ids: nat -> string, moreIds: nat -> string)
    requires ListingExact(b) && TransitionValid(b, s) && InProgress(s) && Finalize(b, s, identity, now, ids, moreIds).Some?
    ensures var u := Finalize(b, s, identity, now, ids, moreIds).value;
            !InProgress(u) ==>
              && u.queue == [] && s.queue == [] && AllSeen(s) && u.records == s.records
              && forall key | key in u.records ::
                   u.records[key].seen && SnapshotNow(b, u.local, key) == Some(u.records[key].payload) && VersionOf(u.local, key) == 1
  {
    hide Published, Recover, TransitionValid, ListingExact, SnapshotNow, VersionOf;
    if s.cursor.value.position == s.cursor.value.watermark {
      PublishedKeepsValid(b, s, ids);
      var published := Published(b, s, ids).value;
      PartsOfValid(b, published);
      if s.transition.value.mode == Rejoin {
        RecoverKeeps(b, published, moreIds);
      }
      PublishedQueue(b, s, ids);
    }
  }

  lemma PublishedQueue(b: Binding, s: ProjectSync, ids: nat -> string)
    requires ListingExact(b) && TransitionValid(b, s) && InProgress(s) && Published(b, s, ids).Some?
    ensures s.transition.value.status == Pulling ==> s.queue == []
    ensures s.transition.value.status == Publishing ==> Published(b, s, ids).value == s
  {
    hide RecordsNamed, RecordsKept, QueueOfSnapshot, CursorValid;
  }

  /** With the pull at its watermark, a publishing transition completes if and only if nothing is queued and all was echoed. */
  lemma CompletesExactly(b: Binding, s: ProjectSync, identity: Time, now: Time, ids: nat -> string, moreIds: nat -> string)
    requires ListingExact(b) && TransitionValid(b, s) && InProgress(s) && s.transition.value.status == Publishing
    requires StorableTime(now) && NamesThis(s, identity)
    requires s.cursor.Some? && s.cursor.value.position == s.cursor.value.watermark
    ensures (Finalize(b, s, identity, now, ids, moreIds).Some? && !InProgress(Finalize(b, s, identity, now, ids, moreIds).value))
            <==> (s.queue == [] && AllSeen(s))
  {
    hide ListingExact, SnapshotNow, VersionOf, RecordsNamed, RecordsKept, QueueOfSnapshot, Recover;
    if s.queue == [] && AllSeen(s) {
      if s.transition.value.mode == Rejoin {
        NothingToRecover(b, s, moreIds);
      }
    } else if Finalize(b, s, identity, now, ids, moreIds).Some? {
      FinalizeCompletes(b, s, identity, now, ids, moreIds);
    }
  }

  lemma NothingToRecover(b: Binding, s: ProjectSync, ids: nat -> string)
    requires AllSeen(s)
    ensures Recover(b, s, ids) == Some(s)
  {
  }
}
