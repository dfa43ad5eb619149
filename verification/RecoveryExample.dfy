/** A rejoin whose one observation the server refuses for a prerequisite, and which queues it again. */
module RecoveryExample {
  import opened Options
  import opened Uuids
  import opened SyncService
  import opened Replica
  import opened Examples
  import Outbox
  import Inbox
  import opened Protocol
  import opened TransitionOrder
  import opened Transition
  import opened TransitionSafety
  import opened TransitionRuns
  import opened TransitionBlocks
  import opened TransitionRecovery
  import opened DeviceCounterexamples

  // ------------------------------------------------------------ the states

  const PROJECT_KEY := Key(ProjectKind, "A")
  const X_KEY := Key(ObservationKind, "x")
  const PROJECT_SNAPSHOT := QUEUED.(mutationId := "")
  const X_SNAPSHOT := ExampleWrite(2, Create, 0, X).(mutationId := "")
  const FIRST_TRY := ExampleWrite(2, Create, 0, X)
  const SECOND_TRY := ExampleWrite(3, Create, 0, X)
  const REFUSAL := Result(FIRST_TRY.mutationId, Rejected, false, InvalidPrerequisite, None, 0)

  const REJOINING := ProjectSync(
    TWO, Some(Incarnation(Rejoin, Pulling, 1, None)),
    map[PROJECT_KEY := Snapshot(PROJECT_SNAPSHOT, false), X_KEY := Snapshot(X_SNAPSHOT, false)],
    [], map[], None, map[])

  const PULLED := REJOINING.(
    records := map[PROJECT_KEY := Snapshot(PROJECT_SNAPSHOT, true), X_KEY := Snapshot(X_SNAPSHOT, false)],
    cursor := Some(Cursor(HISTORY, 1, 1)), inbox := map[Inbox.InboxKey(HISTORY, 1) := ECHO.changeHash])

  const UNSENT := TWO.(observations := map["x" := LocalRow(BodyOf(X), 0)])
  const PUBLISHED := PULLED.(
    local := UNSENT, transition := Some(Incarnation(Rejoin, Publishing, 1, None)), queue := [FIRST_TRY])
  const REFUSED := PUBLISHED.(queue := [], receipts := map[FIRST_TRY.mutationId := Outbox.Receipt(REFUSAL, FIRST_TRY)])
  const TRIED_AGAIN := REFUSED.(queue := [SECOND_TRY])

  const FIRST_ID := (i: nat) => ExampleId('2')
  const SECOND_ID := (i: nat) => ExampleId('3')

  const REJOIN := PrepareEvent(Rejoin, false, true, false, 1, FIRST_ID)
  const PUBLISH := FinalizeEvent(1, 2, FIRST_ID, SECOND_ID)
  const REFUSE := ResultEvent(0, REFUSAL, 1)
  const RECOVER := FinalizeEvent(1, 3, FIRST_ID, SECOND_ID)

  // ---------------------------------------------------------- the snapshot

  predicate HoldsX(local: Local) {
    "A" in local.projects && local.sessions == map[] && local.tombstones == map[] && local.observations.Keys == {"x"}
    && local.observations["x"].body == BodyOf(X)
  }

  lemma XItem(b: Binding)
    requires ListingExact(b)
    ensures ObservationSnapshot(b, "x", BodyOf(X)) == X_SNAPSHOT
  {
    assert References([]) == {};
    assert Lists(b.listing({}), {});
    EmptyOrInhabited(b.listing({}));
  }

  lemma XAlone(b: Binding, local: Local)
    requires ListingExact(b) && b.project == "A" && HoldsX(local)
    ensures ObservationIds(b, local) == {"x"} && ReferencesLive(b, local) && !exists walk :: Cycle(Items(b, local), walk)
  {
    hide ListingExact;
    assert References([]) == {};
    assert ObservationIds(b, local) == {"x"};
    forall walk ensures !Cycle(Items(b, local), walk) {
      NothingNeeded(b, local, walk);
    }
  }

  lemma NothingNeeded(b: Binding, local: Local, walk: seq<int>)
    requires ListingExact(b) && b.project == "A" && HoldsX(local)
    ensures !Cycle(Items(b, local), walk)
  {
    hide ListingExact, Items;
    assert References([]) == {};
    if Cycle(Items(b, local), walk) {
      var last := walk[|walk| - 1];
      assert Needs(Items(b, local), last, walk[0]);
      ItemReferences(b, local, last);
      assert false;
    }
  }

  lemma {:induction false} ProjectAndX(b: Binding, local: Local)
    requires ListingExact(b) && b.project == "A" && HoldsX(local)
    ensures Snapshots(b, local) == Some([PROJECT_SNAPSHOT, X_SNAPSHOT])
  {
    hide Snapshots, ListingExact, SnapshotNow, ReferencesLive, Cycle;
    XAlone(b, local);
    SnapshotsExactly(b, local);
    SnapshotsCover(b, local);
    XItem(b);
    var list := Snapshots(b, local).value;
    TwoKeys(b, local);
    forall i | 0 <= i < |list| ensures list[i] == PROJECT_SNAPSHOT || list[i] == X_SNAPSHOT {
      assert SnapshotNow(b, local, KeyOf(list[i])) == Some(list[i]);
    }
    var x :| 0 <= x < |list| && KeyOf(list[x]) == X_KEY;
    NoThird(list);
    assert list == [PROJECT_SNAPSHOT, X_SNAPSHOT];
  }

  predicate ProjectThenX(list: seq<Mutation>) {
    && KeysDistinct(list) && (list != [] ==> list[0] == PROJECT_SNAPSHOT)
    && forall i | 0 <= i < |list| :: list[i] == PROJECT_SNAPSHOT || list[i] == X_SNAPSHOT
  }

  lemma OnePlace(list: seq<Mutation>, i: nat, j: nat)
    requires ProjectThenX(list) && 0 < i < |list| && 0 < j < |list|
    ensures i == j
  {
    assert KeyOf(list[0]) != KeyOf(list[i]) && KeyOf(list[0]) != KeyOf(list[j]);
  }

  lemma NoThird(list: seq<Mutation>)
    requires ProjectThenX(list)
    ensures |list| <= 2
  {
    hide ProjectThenX;
    if |list| > 2 {
      OnePlace(list, 1, 2);
    }
  }

  lemma TwoKeys(b: Binding, local: Local)
    requires ListingExact(b) && b.project == "A" && HoldsX(local)
    ensures SnapshotNow(b, local, PROJECT_KEY) == Some(PROJECT_SNAPSHOT) && SnapshotNow(b, local, X_KEY) == Some(X_SNAPSHOT)
    ensures forall key | SnapshotNow(b, local, key).Some? :: key == PROJECT_KEY || key == X_KEY
  {
    hide ObservationSnapshot, ListingExact;
    XItem(b);
  }

  lemma TriesValid()
    ensures IsCanonicalUuid(ExampleId('2')) && IsCanonicalUuid(ExampleId('3')) && ExampleId('2') != ExampleId('3')
    ensures ValidateMutation(FIRST_TRY) == Valid && ValidateMutation(SECOND_TRY) == Valid
  {
    hide IsUuid, Lower, ExampleId, ValidateMutation;
    DifferentIds('2', '3');
    ExampleIds('2'); ExampleIds('3');
    ExampleWriteValid(2, Create, 0, X);
    ExampleWriteValid(3, Create, 0, X);
  }

  // -------------------------------------------------------------- the steps

  lemma RejoinPrepared(b: Binding)
    requires ListingExact(b) && b.project == "A"
    ensures Prepare(b, Untouched(TWO), Rejoin, false, true, false, 1, FIRST_ID) == Some(REJOINING)
  {
    hide ListingExact, ExampleId, Snapshots;
    ProjectAndX(b, TWO);
    var list := [PROJECT_SNAPSHOT, X_SNAPSHOT];
    assert list[..1] == [PROJECT_SNAPSHOT] && [PROJECT_SNAPSHOT][..0] == [];
    assert Taken([PROJECT_SNAPSHOT]) == map[PROJECT_KEY := Snapshot(PROJECT_SNAPSHOT, false)];
    assert Taken(list) == REJOINING.records;
    assert ForeignReceipts(b, Untouched(TWO)) == map[];
  }

  lemma EchoMapped(b: Binding)
    requires b.project == "A"
    ensures ApplyMapped(b, REJOINING, HISTORY, MAPPED) == Some(PULLED.(cursor := None))
  {
    hide ExampleId;
    assert REJOINING.local.projects["A" := 1] == REJOINING.local.projects;
    assert HandlePulled(b, REJOINING, MAPPED) == Echoed(REJOINING.(records := PULLED.records));
  }

  lemma EchoPulled(b: Binding)
    requires b.project == "A" && b.portable == PORTABLE
    ensures MappedPage(b, ECHO_PAGE, [Some(MAPPED)])
    ensures ApplyProjectPage(b, REJOINING, ECHO_PAGE, [Some(MAPPED)], 1) == Some(PULLED)
  {
    hide ExampleId, ValidateMutation, ValidPulledChange, ValidateProjectPullChange;
    SentIsValid();
    ExampleIds('6'); ExampleIds('9');
    hide IsUuid, Lower;
    assert ProjectPulledPage(PORTABLE, ECHO_PAGE);
    EchoMapped(b);
    hide ApplyMapped, ProjectPulledPage;
    assert ApplyFirst(b, REJOINING, ECHO_PAGE, [Some(MAPPED)], 0, 0) == Some(REJOINING);
    assert ApplyFirst(b, REJOINING, ECHO_PAGE, [Some(MAPPED)], 0, 1) == Some(PULLED.(cursor := None));
  }

  lemma XPublished(b: Binding)
    requires ListingExact(b) && b.project == "A"
    ensures Published(b, PULLED, FIRST_ID) == Some(PUBLISHED)
  {
    hide ListingExact, ExampleId, Snapshots, ValidateMutation, IsCanonicalUuid;
    TriesValid();
    ProjectAndX(b, TWO);
    var list := [PROJECT_SNAPSHOT, X_SNAPSHOT];
    assert PublishUnseen(PULLED, list, FIRST_ID, 0) == Some(PULLED);
    assert PublishUnseen(PULLED, list, FIRST_ID, 1) == Some(PULLED);
    assert TWO.observations["x" := TWO.observations["x"].(version := 0)] == UNSENT.observations;
    assert WithVersion(PULLED.local, X_KEY, 0) == UNSENT;
    assert WithId(X_SNAPSHOT, FIRST_ID(1)) == FIRST_TRY;
    assert PULLED.queue + [FIRST_TRY] == [FIRST_TRY];
    assert Enqueue(PULLED.(local := UNSENT), FIRST_TRY) == Some(PULLED.(local := UNSENT, queue := [FIRST_TRY]));
    assert PublishUnseen(PULLED, list, FIRST_ID, 2) == Some(PULLED.(local := UNSENT, queue := [FIRST_TRY]));
    assert Unseen(PULLED, X_KEY);
    forall key | key in PULLED.records && Unseen(PULLED, key) ensures exists i :: 0 <= i < |list| && KeyOf(list[i]) == key {
      assert KeyOf(list[1]) == X_KEY;
    }
  }

  lemma NothingToRecoverYet(b: Binding)
    ensures Recover(b, PUBLISHED, SECOND_ID) == Some(PUBLISHED)
  {
    hide ExampleId;
    assert KeyOf(PUBLISHED.queue[0]) == X_KEY;
  }

  lemma FirstTryRefused()
    ensures RecordResult(PUBLISHED, 0, REFUSAL, 1) == Some(REFUSED)
  {
    hide ExampleId;
    assert Rest(PUBLISHED.queue, 0, REFUSAL, 1) == Rest(PUBLISHED.queue, 0, REFUSAL, 0) + [] == [];
  }

  lemma XTriedAgain(b: Binding)
    requires b.project == "A"
    ensures RecoverOne(b, REFUSED, X_SNAPSHOT, SECOND_ID(1)) == Some(TRIED_AGAIN)
  {
    hide ExampleId, ValidateMutation, IsCanonicalUuid;
    TriesValid();
    assert CreationReceipts(REFUSED, X_KEY) == {FIRST_TRY.mutationId};
    assert RefusedForPrerequisite(REFUSED, X_SNAPSHOT, FIRST_TRY.mutationId);
    assert WithId(X_SNAPSHOT, SECOND_ID(1)) == SECOND_TRY;
    assert REFUSED.queue + [SECOND_TRY] == [SECOND_TRY];
    assert Enqueue(REFUSED, SECOND_TRY) == Some(TRIED_AGAIN);
  }

  lemma XRecovered(b: Binding)
    requires ListingExact(b) && b.project == "A"
    ensures Recover(b, REFUSED, SECOND_ID) == Some(TRIED_AGAIN)
  {
    hide ListingExact, ExampleId, Snapshots, RecoverOne;
    ProjectAndX(b, UNSENT);
    XTriedAgain(b);
    var list := [PROJECT_SNAPSHOT, X_SNAPSHOT];
    assert Candidate(REFUSED, X_KEY);
    assert RecoverAll(b, REFUSED, list, SECOND_ID, 0) == Some(REFUSED);
    assert RecoverAll(b, REFUSED, list, SECOND_ID, 1) == Some(REFUSED);
    assert RecoverAll(b, REFUSED, list, SECOND_ID, 2) == Some(TRIED_AGAIN);
    forall key | key in REFUSED.records && Candidate(REFUSED, key) ensures exists i :: 0 <= i < |list| && KeyOf(list[i]) == key {
      assert KeyOf(list[1]) == X_KEY;
    }
  }

  /**
   A rejoin of a project with one observation: the remote echoes the project, x is published, the server
   refuses it for a prerequisite, and the next finalization queues it again under another id.
   */
  lemma ARefusalIsTriedAgain() returns (b: Binding)
    ensures ListingExact(b) && TransitionValid(b, Untouched(TWO))
    ensures Run(b, [Untouched(TWO), REJOINING, PULLED, PUBLISHED, REFUSED, TRIED_AGAIN], [REJOIN, ECHOING, PUBLISH, REFUSE, RECOVER])
    ensures Awaiting(REFUSED, X_KEY) && TRIED_AGAIN.queue == [X_SNAPSHOT.(mutationId := ExampleId('3'))]
  {
    hide ListingExact, ExampleId, Prepare, ApplyProjectPage, RecordResult, MappedPage, Published, Recover, TransitionValid;
    b := ListingsExist("A", PORTABLE);
    UntouchedIsValid(b, TWO, [], map[]);
    RejoinPrepared(b);
    EchoPulled(b);
    XPublished(b);
    NothingToRecoverYet(b);
    FirstTryRefused();
    PublishingIsPublished(b, REFUSED, FIRST_ID);
    XRecovered(b);
    ExampleIds('6');
    hide IsUuid, Lower;
    assert Finalize(b, PULLED, 1, 2, FIRST_ID, SECOND_ID) == Some(PUBLISHED);
    assert Finalize(b, REFUSED, 1, 3, FIRST_ID, SECOND_ID) == Some(TRIED_AGAIN);
    var states := [Untouched(TWO), REJOINING, PULLED, PUBLISHED, REFUSED, TRIED_AGAIN];
    var events := [REJOIN, ECHOING, PUBLISH, REFUSE, RECOVER];
    assert Attempt(b, states[0], events[0]) == Some(states[1]);
    assert Attempt(b, states[1], events[1]) == Some(states[2]);
    assert Attempt(b, states[2], events[2]) == Some(states[3]);
    assert Attempt(b, states[3], events[3]) == Some(states[4]);
    assert Attempt(b, states[4], events[4]) == Some(states[5]);
  }
}
