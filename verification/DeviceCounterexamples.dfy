/** Concrete runs of a device: promises that do not hold without their conditions. */
module DeviceCounterexamples {
  import opened Options
  import opened Uuids
  import opened SyncService
  import opened Replica
  import opened Examples
  import Outbox
  import OutboxRuns
  import OutboxEdits
  import SearchIndex
  import Inbox
  import opened Protocol
  import opened TransitionOrder
  import opened Transition
  import opened TransitionSafety
  import opened TransitionRuns
  import opened TransitionBlocks
  import opened Identity
  import IdentityRuns

  // --------------------------------------------------------------- lost edits

  function DerivedId(n: char): string {
    "00000000-0000-5000-8000-00000000000" + [n]
  }

  /** Two records, and the ids a backfill derives for them. */
  const DERIVATION := OutboxRuns.Derivation({"x", "y"}, (id: string) => if id == "x" then DerivedId('1') else DerivedId('2'))

  lemma DerivedIds(n: char)
    requires '0' <= n <= '9'
    ensures IsCanonicalUuid(DerivedId(n)) && OutboxRuns.IsDerived(DerivedId(n))
  {
    var s := DerivedId(n);
    assert |s| == UUID_LENGTH;
    forall i | 0 <= i < UUID_LENGTH ensures LowerChar(s[i]) == s[i] && if IsDash(i) then s[i] == '-' else IsHex(s[i]) {
    }
    assert s[14] == '5' && s[19] == '8';
    assert Lower(s) == s;
  }

  lemma DerivationIsSound()
    ensures OutboxRuns.DerivationSound(DERIVATION)
  {
    hide IsCanonicalUuid;
    DerivedIds('1');
    DerivedIds('2');
    assert DerivedId('1')[UUID_LENGTH - 1] != DerivedId('2')[UUID_LENGTH - 1];
  }

  const DRAFT := ExampleObservation("x", "A", "", [], Active)
  const EDITED := DRAFT.(content := "e")
  const OTHER := ExampleObservation("y", "A", "", [], Active)
  const TOKEN := ExampleId('8')
  const BACKFILL_ID := DerivedId('1')
  const BACKFILLED := Outbox.SnapshotMutation(BACKFILL_ID, DRAFT, 0)
  const ACCEPTED := Result(BACKFILL_ID, Accepted, false, NoCode, Some(1), 1)
  const REJECTED := Result(BACKFILL_ID, Rejected, false, InvalidPrerequisite, None, 0)
  const LEASE := map[BACKFILL_ID := Outbox.Claim(TOKEN, TOKEN, 5, 5, 5 + Outbox.SECOND)]

  function WriteAt(o: Observation, n: char, now: Time): OutboxRuns.Moment {
    OutboxRuns.Moment(OutboxRuns.Write(o, ExampleId(n)), now)
  }

  const FILL := OutboxRuns.Moment(OutboxRuns.Fill(["x"], 0, 1), 2)
  const CONFIGURE := OutboxRuns.Moment(OutboxRuns.Configure, 4)
  const TAKE := OutboxRuns.Moment(OutboxRuns.Lease([0], LEASE, [TOKEN], Outbox.SECOND, (e: Outbox.Entry) => true), 5)

  function Answering(result: Result): OutboxRuns.Moment {
    OutboxRuns.Moment(OutboxRuns.Finish(0, TOKEN, result), 6)
  }

  /** x written without a profile, and queued by a backfill. */
  const WRITTEN := OutboxRuns.EMPTY_WORLD.(queue := Outbox.EMPTY_QUEUE.(versions := map["x" := 0], edits := map["x" := DRAFT]))
  const FILLED := WRITTEN.(
    queue := WRITTEN.queue.(entries := [Outbox.Entry(1, BACKFILLED, 2, 2, 0, NoCode)], nextId := 2))

  /** Its entry in the queue, not yet leased. */
  predicate Waiting(w: OutboxRuns.World) {
    && w.queue.entries == FILLED.queue.entries && w.queue.claims == map[] && w.queue.receipts == map[]
    && "x" in w.queue.versions && w.queue.versions["x"] == 0 && w.issued == {} && w.answers == map[]
  }

  function Leased(w: OutboxRuns.World): OutboxRuns.World {
    w.(queue := w.queue.(claims := LEASE), issued := {TOKEN})
  }

  function Accepting(w: OutboxRuns.World): OutboxRuns.World {
    OutboxRuns.World(
      w.queue.(entries := [], claims := map[], versions := w.queue.versions["x" := 1],
               receipts := map[BACKFILL_ID := Outbox.Receipt(ACCEPTED, BACKFILLED)]),
      map["x" := OutboxRuns.Answer(DRAFT, true)], {TOKEN})
  }

  function Rejecting(w: OutboxRuns.World): OutboxRuns.World {
    OutboxRuns.World(
      w.queue.(entries := [], claims := map[], receipts := map[BACKFILL_ID := Outbox.Receipt(REJECTED, BACKFILLED)]), map[], {TOKEN})
  }

  ghost predicate Leads(w: OutboxRuns.World, m: OutboxRuns.Moment, u: OutboxRuns.World) {
    OutboxRuns.Allowed(w, DERIVATION, m.op, m.now) && OutboxRuns.Did(w, DERIVATION, m.op, m.now) == u
  }

  /** A run, state by state. */
  lemma {:induction false} RunsThrough(worlds: seq<OutboxRuns.World>, moments: seq<OutboxRuns.Moment>, clock: Time)
    requires |worlds| == |moments| + 1 && forall k | 0 <= k < |moments| :: Leads(worlds[k], moments[k], worlds[k + 1])
    requires forall k | 0 <= k < |moments| :: clock <= moments[k].now
    requires forall j, k | 0 <= j <= k < |moments| :: moments[j].now <= moments[k].now
    ensures OutboxRuns.Runs(worlds[0], DERIVATION, clock, moments)
    ensures OutboxRuns.EndOf(worlds[0], DERIVATION, clock, moments) == worlds[|moments|]
    decreases |moments|
  {
    hide OutboxRuns.Allowed, OutboxRuns.Did;
    if moments != [] {
      assert Leads(worlds[0], moments[0], worlds[1]);
      assert OutboxRuns.Did(worlds[0], DERIVATION, moments[0].op, moments[0].now) == worlds[1..][0];
      assert forall k | 0 <= k < |moments[1..]| :: moments[1..][k] == moments[k + 1] && worlds[1..][k] == worlds[k + 1];
      RunsThrough(worlds[1..], moments[1..], moments[0].now);
    }
  }

  lemma DraftQueueable()
    ensures Outbox.Queueable(BACKFILLED)
  {
    hide IsUuid, Lower, ValidateMutation, ExampleId, IsCanonicalUuid;
    ExampleIds('7');
    DerivedIds('1');
    ExampleWriteValid(7, Create, 0, DRAFT);
    assert IsCanonicalUuid(ExampleId('7')) by { CanonicalExample('7'); }
    assert Outbox.SnapshotMutation(ExampleId('7'), DRAFT, 0) == ExampleWrite(7, Create, 0, DRAFT);
    OutboxEdits.QueueableUnderOtherId(ExampleId('7'), BACKFILL_ID, DRAFT, 0);
  }

  lemma CanonicalExample(n: char)
    requires '0' <= n <= '9'
    ensures IsCanonicalUuid(ExampleId(n)) && OutboxRuns.IsDrawn(ExampleId(n)) && ExampleId(n) != BACKFILL_ID
  {
    ExampleIds(n);
    assert ExampleId(n)[14] == '4' && BACKFILL_ID[14] == '5';
  }

  lemma StartLeads()
    ensures Leads(OutboxRuns.EMPTY_WORLD, WriteAt(DRAFT, '1', 1), WRITTEN)
    ensures Leads(WRITTEN, FILL, FILLED)
  {
    hide ExampleId, DerivedId, Outbox.Queueable, IsCanonicalUuid;
    CanonicalExample('1');
    DraftQueueable();
    assert Outbox.FirstCreate(WRITTEN.queue.entries, "x", 0) == None;
    assert Outbox.BackfillOne(WRITTEN.queue, "x", BACKFILL_ID, 0, 2) == Outbox.Backfilled(FILLED.queue, 1, false);
    assert ["x"][1..] == [];
  }

  lemma TakeLeads(w: OutboxRuns.World)
    requires Waiting(w)
    ensures Leads(w, TAKE, Leased(w))
  {
    hide ExampleId, DerivedId;
    assert Outbox.IdsOf(w.queue, [0]) == [BACKFILL_ID];
    assert Outbox.TokenSet([TOKEN]) == {TOKEN} by { assert [TOKEN][0] == TOKEN; }
  }

  lemma ResultsReadable()
    ensures Outbox.ResultReadable(BACKFILL_ID, TOKEN, ACCEPTED) && Outbox.ResultReadable(BACKFILL_ID, TOKEN, REJECTED)
  {
    hide ExampleId, DerivedId, IsCanonicalUuid;
    CanonicalExample('8');
    DerivedIds('1');
  }

  lemma AcceptLeads(w: OutboxRuns.World)
    requires Waiting(w)
    ensures Leads(Leased(w), Answering(ACCEPTED), Accepting(w))
  {
    hide ExampleId, DerivedId, Outbox.ResultReadable;
    ResultsReadable();
    var q := Leased(w).queue;
    assert !Outbox.Survives(q.entries, "x", BACKFILL_ID, 0);
    assert Outbox.CoalescedFrom(q.entries, "x", BACKFILL_ID, 1, 1) == [];
    assert Outbox.Coalesced(q.entries, "x", BACKFILL_ID, 1) == [];
    assert q.claims - {BACKFILL_ID} == map[];
  }

  lemma RejectLeads(w: OutboxRuns.World)
    requires Waiting(w)
    ensures Leads(Leased(w), Answering(REJECTED), Rejecting(w))
  {
    hide ExampleId, DerivedId, Outbox.ResultReadable;
    ResultsReadable();
    var q := Leased(w).queue;
    assert q.entries[..0] == [];
    assert Outbox.WithoutEntry(q.entries, BACKFILL_ID) == [];
    assert q.claims - {BACKFILL_ID} == map[];
  }

  // a second edit behind a backfilled entry

  const LOSING_RUN := [WriteAt(DRAFT, '1', 1), FILL, WriteAt(EDITED, '2', 3), CONFIGURE, TAKE, Answering(ACCEPTED)]
  const REWRITTEN := FILLED.(queue := FILLED.queue.(edits := map["x" := EDITED]))
  const CONFIGURED := REWRITTEN.(queue := REWRITTEN.queue.(profile := true))

  lemma RewriteLeads()
    ensures Leads(FILLED, WriteAt(EDITED, '2', 3), REWRITTEN) && Leads(REWRITTEN, CONFIGURE, CONFIGURED)
  {
    hide ExampleId, DerivedId;
    CanonicalExample('2');
    assert !Outbox.Queued(FILLED.queue, ExampleId('2'));
  }

  /** x is as it was edited last, nothing of it is queued or was answered, and every backfill passes it by. */
  ghost predicate LostForGood(w: OutboxRuns.World, o: Observation) {
    && w.queue.entries == [] && "x" in w.queue.edits && w.queue.edits["x"] == o
    && !OutboxEdits.EditSafe(w, DERIVATION, "x")
    && forall limit, now | 1 <= limit ::
         Outbox.BackfillAll(w.queue, ["x"], 0, limit, DERIVATION.derive, now) == Outbox.Backfilled(w.queue, 0, false)
  }

  /** Remembered without a profile, backfilled, remembered again, then a profile, a lease and the server's answer: the second edit is lost. */
  lemma AnEditIsLost()
    ensures OutboxRuns.DerivationSound(DERIVATION)
    ensures OutboxRuns.Runs(OutboxRuns.EMPTY_WORLD, DERIVATION, 0, LOSING_RUN)
    ensures LostForGood(OutboxRuns.EndOf(OutboxRuns.EMPTY_WORLD, DERIVATION, 0, LOSING_RUN), EDITED)
  {
    hide ExampleId, DerivedId, Leads, OutboxRuns.Runs, OutboxRuns.EndOf, LostForGood, OutboxRuns.DerivationSound;
    DerivationIsSound();
    StartLeads();
    RewriteLeads();
    TakeLeads(CONFIGURED);
    AcceptLeads(CONFIGURED);
    var worlds := [OutboxRuns.EMPTY_WORLD, WRITTEN, FILLED, REWRITTEN, CONFIGURED, Leased(CONFIGURED), Accepting(CONFIGURED)];
    RunsThrough(worlds, LOSING_RUN, 0);
    LostOnceAnswered(Accepting(CONFIGURED), EDITED);
  }

  lemma LostOnceAnswered(w: OutboxRuns.World, o: Observation)
    requires w.queue.entries == [] && "x" in w.queue.edits && w.queue.edits["x"] == o
    requires "x" in w.queue.versions && w.queue.versions["x"] != 0
    requires "x" in w.answers ==> w.answers["x"].content != o
    ensures LostForGood(w, o)
  {
    hide ExampleId, DerivedId;
    assert ["x"][1..] == [];
  }

  // an edit back to what was answered before

  const REPEATING_RUN := [
    WriteAt(DRAFT, '1', 1), FILL, TAKE, Answering(ACCEPTED), OutboxRuns.Moment(OutboxRuns.Pull("x", 2), 7), WriteAt(DRAFT, '2', 8)]
  const OVERTAKEN := Accepting(FILLED).(
    queue := Accepting(FILLED).queue.(versions := map["x" := 2]), answers := map["x" := OutboxRuns.Answer(DRAFT, false)])
  const REPEATED := OVERTAKEN.(answers := map[])

  lemma RepeatLeads()
    ensures Leads(Accepting(FILLED), REPEATING_RUN[4], OVERTAKEN)
    ensures Leads(OVERTAKEN, WriteAt(DRAFT, '2', 8), REPEATED)
  {
    hide ExampleId, DerivedId;
    CanonicalExample('2');
    assert OVERTAKEN.answers - {"x"} == map[];
  }

  /** Backfilled and accepted, overtaken by another device, and written back without a profile: lost, although the same content was once answered. */
  lemma ARepeatedEditIsLost()
    ensures OutboxRuns.DerivationSound(DERIVATION)
    ensures OutboxRuns.Runs(OutboxRuns.EMPTY_WORLD, DERIVATION, 0, REPEATING_RUN)
    ensures LostForGood(OutboxRuns.EndOf(OutboxRuns.EMPTY_WORLD, DERIVATION, 0, REPEATING_RUN), DRAFT)
  {
    hide ExampleId, DerivedId, Leads, OutboxRuns.Runs, OutboxRuns.EndOf, LostForGood, OutboxRuns.DerivationSound;
    DerivationIsSound();
    StartLeads();
    TakeLeads(FILLED);
    AcceptLeads(FILLED);
    RepeatLeads();
    var worlds := [OutboxRuns.EMPTY_WORLD, WRITTEN, FILLED, Leased(FILLED), Accepting(FILLED), OVERTAKEN, REPEATED];
    RunsThrough(worlds, REPEATING_RUN, 0);
    LostOnceAnswered(REPEATED, DRAFT);
  }

  // a refused backfill in the way of the others

  /** Both written without a profile; the backfill has room for one. */
  const BOTH := WRITTEN.(
    queue := WRITTEN.queue.(versions := map["x" := 0, "y" := 0], edits := map["x" := DRAFT, "y" := OTHER]))
  const HALF_FILLED := BOTH.(queue := BOTH.queue.(entries := FILLED.queue.entries, nextId := 2))
  const HALF_CONFIGURED := HALF_FILLED.(queue := HALF_FILLED.queue.(profile := true))
  const FILL_ONE := OutboxRuns.Moment(OutboxRuns.Fill(["x", "y"], 0, 1), 2)

  const BLOCKING_RUN := [WriteAt(DRAFT, '1', 1), WriteAt(OTHER, '2', 1), FILL_ONE, CONFIGURE, TAKE, Answering(REJECTED)]
  const BLOCKED := Rejecting(HALF_CONFIGURED)

  lemma HalfLeads()
    ensures Leads(WRITTEN, WriteAt(OTHER, '2', 1), BOTH)
    ensures Leads(BOTH, FILL_ONE, HALF_FILLED) && Leads(HALF_FILLED, CONFIGURE, HALF_CONFIGURED)
  {
    hide ExampleId, DerivedId, Outbox.Queueable;
    CanonicalExample('2');
    DraftQueueable();
    assert Outbox.FirstCreate(BOTH.queue.entries, "x", 0) == None;
    assert Outbox.BackfillOne(BOTH.queue, "x", BACKFILL_ID, 0, 2) == Outbox.Backfilled(HALF_FILLED.queue, 1, false);
    assert ["x", "y"][1..] == ["y"];
  }

  /**
   x and y written, x backfilled, a profile configured, and the backfill of x refused by the server:
   from then on no backfill of the project queues y, which nobody ever refused.
   */
  lemma ARefusedBackfillBlocksOthers()
    ensures OutboxRuns.DerivationSound(DERIVATION)
    ensures OutboxRuns.Runs(OutboxRuns.EMPTY_WORLD, DERIVATION, 0, BLOCKING_RUN)
    ensures var w := OutboxRuns.EndOf(OutboxRuns.EMPTY_WORLD, DERIVATION, 0, BLOCKING_RUN);
            && "y" in w.queue.edits && !OutboxRuns.HasQueued(w.queue, "y") && OutboxEdits.Spent(w.queue, DERIVATION, "x")
            && "x" in w.queue.edits
            && forall limit, now | 1 <= limit :: Outbox.BackfillAll(w.queue, ["x", "y"], 0, limit, DERIVATION.derive, now).BackfillRefused?
  {
    hide ExampleId, DerivedId, Leads, OutboxRuns.Runs, OutboxRuns.EndOf, OutboxEdits.Spent, Outbox.BackfillOne, OutboxRuns.DerivationSound;
    DerivationIsSound();
    StartLeads();
    HalfLeads();
    TakeLeads(HALF_CONFIGURED);
    RejectLeads(HALF_CONFIGURED);
    var worlds := [OutboxRuns.EMPTY_WORLD, WRITTEN, BOTH, HALF_FILLED, HALF_CONFIGURED, Leased(HALF_CONFIGURED), BLOCKED];
    RunsThrough(worlds, BLOCKING_RUN, 0);
    XIsSpent();
    OutboxEdits.SpentBlocks(BLOCKED.queue, DERIVATION, "x");
  }

  lemma XIsSpent()
    ensures OutboxEdits.Spent(BLOCKED.queue, DERIVATION, "x")
  {
    hide DerivedId;
  }

  lemma DifferentIds(c: char, d: char)
    requires c != d
    ensures ExampleId(c) != ExampleId(d)
  {
    assert ExampleId(c)[UUID_LENGTH - 1] != ExampleId(d)[UUID_LENGTH - 1];
  }

  // ------------------------------------------------------ deleted reference

  const X := ExampleObservation("x", "A", "", [], Active)
  const Y := ExampleObservation("y", "A", "", ["x"], Active)

  function Plain(sequence: int, canonical: int, m: Mutation): Change {
    Change(sequence, canonical, None, Unstated, "", m, ChangeDigest(1, sequence, canonical, Unstated, "", m))
  }

  /** A project, x, y that refers to x, and the deletion of x by another device. */
  const DELETING_LOG := [
    Plain(1, 1, ExampleProject(1, "A")), Plain(2, 1, ExampleWrite(2, Create, 0, X)), Plain(3, 1, ExampleWrite(3, Create, 0, Y)),
    Change(4, 2, Some(2), AcceptedChange, "", ExampleDeletion(4, "x", 1), ChangeDigest(2, 4, 2, AcceptedChange, "", ExampleDeletion(4, "x", 1)))]

  const ONE := EMPTY_STORE.(projects := map["A" := 1])
  const TWO := ONE.(observations := map["x" := LocalRow(BodyOf(X), 1)])
  const THREE := TWO.(observations := TWO.observations["y" := LocalRow(BodyOf(Y), 1)])
  const REFERRING := THREE.(
    observations := THREE.observations["x" := LocalRow(BodyOf(X).(topicKey := "", references := {}), 2)],
    tombstones := map[4 := LocalTombstone("x", 2, 1)])

  lemma DeletingLogReplays()
    ensures ReplayLog(DELETING_LOG) == Applied(REFERRING)
  {
    hide ExampleId;
    var log := DELETING_LOG;
    assert Apply(EMPTY_STORE, log[0]) == Applied(ONE);
    assert Apply(ONE, log[1]) == Applied(TWO);
    assert References(Y.references) == {"x"} by { assert Y.references[0] == "x"; }
    assert Apply(TWO, log[2]) == Applied(THREE);
    assert Apply(THREE, log[3]) == Applied(REFERRING);
    hide Apply;
    assert log[..3][..2] == log[..2] && log[..2][..1] == log[..1] && log[..1][..0] == [];
    assert ReplayLog(log[..1]) == Applied(ONE);
    assert ReplayLog(log[..2]) == Applied(TWO);
    assert ReplayLog(log[..3]) == Applied(THREE);
  }

  function Untouched(local: Local): ProjectSync {
    ProjectSync(local, None, map[], [], map[], None, map[])
  }

  /** What a device pulled can keep a project from ever being prepared: y still names the deleted x. */
  lemma ReferenceCanOutliveItsTarget() returns (b: Binding)
    ensures ListingExact(b) && TransitionValid(b, Untouched(REFERRING)) && ReplayLog(DELETING_LOG) == Applied(REFERRING)
    ensures forall mode, confirmed, now, ids: nat -> string ::
      Prepare(b, Untouched(REFERRING), mode, confirmed, true, false, now, ids).None?
  {
    hide Prepare, TransitionValid, ReplayLog, ListingExact;
    b := ListingsExist("A", ExampleId('9'));
    DeletingLogReplays();
    UntouchedIsValid(b, REFERRING, [], map[]);
    YIsLive(b);
    forall mode, confirmed, now, ids: nat -> string
      ensures Prepare(b, Untouched(REFERRING), mode, confirmed, true, false, now, ids).None?
    {
      var e := PrepareEvent(mode, confirmed, true, false, now, ids);
      DeletedReferenceBlocks(b, Untouched(REFERRING), "y", "x", e);
    }
  }

  lemma YIsLive(b: Binding)
    requires b.project == "A"
    ensures "y" in ObservationIds(b, REFERRING) && "x" in REFERRING.observations["y"].body.references && HasTombstone(REFERRING, "x")
  {
    assert 4 in REFERRING.tombstones && REFERRING.tombstones[4].recordId == "x";
    assert References(Y.references) == {"x"} by { assert Y.references[0] == "x"; }
  }

  // ----------------------------------------------------- echo before result

  const HISTORY := ExampleId('6')
  const PORTABLE := ExampleId('9')

  /** The project's creation as it is queued, and on the wire. */
  const QUEUED := ExampleProject(1, "A")
  const SENT := QUEUED.(recordId := PORTABLE, project := Some(Project(PORTABLE)))
  const ECHO := Plain(1, 1, SENT)
  const MAPPED := ECHO.(mutation := QUEUED)
  const ECHO_PAGE := PullPage(Cursor(HISTORY, 1, 1), false, [ECHO])
  const RESULT := Result(QUEUED.mutationId, Accepted, false, NoCode, Some(1), 1)

  /** The one id of a project without sessions or observations. */
  const DRAWN := (i: nat) => ExampleId('1')

  const RESEEDING := ProjectSync(
    ONE.(projects := map["A" := 0]), Some(Incarnation(Reseed, Publishing, 1, None)),
    map[Key(ProjectKind, "A") := Snapshot(QUEUED.(mutationId := ""), false)], [QUEUED], map[], None, map[])

  const ECHOED := RESEEDING.(
    local := ONE, records := map[Key(ProjectKind, "A") := Snapshot(QUEUED.(mutationId := ""), true)],
    cursor := Some(Cursor(HISTORY, 1, 1)), inbox := map[Inbox.InboxKey(HISTORY, 1) := ECHO.changeHash])

  lemma UuidIsId(s: string)
    requires IsUuid(s)
    ensures ValidId(s) && !Blank(s) && ByteLength(s) <= 4 * UUID_LENGTH
  {
    hide ByteLength;
    ShortText(s);
    assert IsHex(s[0]) && !IsSpace(s[0]);
  }

  lemma SentIsValid()
    ensures ValidateMutation(SENT) == Valid && ValidPulledChange(ECHO) && ValidateProjectPullChange(ECHO, PORTABLE)
  {
    hide ByteLength, ValidId, IsUuid, ExampleId;
    ExampleIds('1'); ExampleIds('9');
    UuidIsId(PORTABLE);
  }

  lemma {:induction false} OnlyProject(b: Binding, local: Local)
    requires ListingExact(b) && b.project == "A" && local == ONE
    ensures Snapshots(b, local) == Some([ProjectSnapshot(b)])
  {
    hide Snapshots, ListingExact, SnapshotNow;
    NothingElse(b, local);
    SnapshotsExactly(b, local);
    SnapshotsCover(b, local);
    var list := Snapshots(b, local).value;
    forall i | 0 <= i < |list| ensures KeyOf(list[i]) == Key(ProjectKind, "A") {
      assert SnapshotNow(b, local, KeyOf(list[i])).Some?;
      OnlyKey(b, local, KeyOf(list[i]));
    }
    assert |list| > 1 ==> KeyOf(list[0]) != KeyOf(list[1]);
    assert list == [ProjectSnapshot(b)];
  }

  lemma OnlyKey(b: Binding, local: Local, key: Key)
    requires b.project == "A" && local == ONE && SnapshotNow(b, local, key).Some?
    ensures key == Key(ProjectKind, "A")
  {
  }

  /** Without observations there is nothing to refer to, and no cycle. */
  lemma NothingElse(b: Binding, local: Local)
    requires ListingExact(b) && b.project == "A" && local == ONE
    ensures ObservationIds(b, local) == {} && ReferencesLive(b, local) && !exists walk :: Cycle(Items(b, local), walk)
  {
    hide ListingExact;
    assert ObservationIds(b, local) == {};
    ItemsEmpty(b, local);
    forall walk ensures !Cycle(Items(b, local), walk) {
    }
  }

  lemma ItemsEmpty(b: Binding, local: Local)
    requires ListingExact(b) && ObservationIds(b, local) == {}
    ensures Items(b, local) == []
  {
    ItemsAre(b, local);
    EmptyOrInhabited(b.listing(ObservationIds(b, local)));
  }

  lemma EmptyOrInhabited(ids: seq<string>)
    ensures ids == [] || exists id :: id in ids
  {
    if ids != [] {
      assert ids[0] in ids;
    }
  }

  // the preparation

  lemma QueuedIsValid()
    ensures IsCanonicalUuid(QUEUED.mutationId) && ValidateMutation(QUEUED) == Valid
  {
    hide IsUuid, Lower, ValidateMutation, ExampleId;
    ExampleIds('1');
    ExampleProjectValid(1, "A");
  }

  lemma ReseedingIsPrepared(b: Binding)
    requires ListingExact(b) && b.project == "A"
    ensures Prepare(b, Untouched(ONE), Reseed, true, true, false, 1, DRAWN) == Some(RESEEDING)
  {
    hide ListingExact, ExampleId, ValidateMutation, Snapshots, IsCanonicalUuid;
    OnlyProject(b, ONE);
    QueuedIsValid();
    var list := [ProjectSnapshot(b)];
    assert list[..0] == [];
    assert Taken(list) == RESEEDING.records;
    var prepared := Emptied(b, Untouched(ONE), Reseed, 1, list).(local := ResetVersions(b, ONE));
    assert ResetVersions(b, ONE) == RESEEDING.local;
    assert ForeignReceipts(b, Untouched(ONE)) == map[];
    assert prepared == RESEEDING.(queue := []);
    assert WithId(list[0], DRAWN(0)) == QUEUED;
    assert EnqueueAll(prepared, list, DRAWN, 0) == Some(prepared);
    assert prepared.queue + [QUEUED] == [QUEUED] && !IdQueued(prepared.queue, QUEUED.mutationId);
    assert EnqueueAll(prepared, list, DRAWN, 1) == Enqueue(prepared, QUEUED);
  }

  // the echo, which comes in first

  lemma EchoIsApplied(b: Binding)
    requires b.project == "A" && b.portable == PORTABLE
    ensures MappedPage(b, ECHO_PAGE, [Some(MAPPED)])
    ensures ApplyProjectPage(b, RESEEDING, ECHO_PAGE, [Some(MAPPED)], 1) == Some(ECHOED)
  {
    hide ExampleId, ValidateMutation, ValidPulledChange, ValidateProjectPullChange;
    SentIsValid();
    ExampleIds('6'); ExampleIds('9');
    hide IsUuid, Lower;
    assert ProjectPulledPage(PORTABLE, ECHO_PAGE);
    assert HandlePulled(b, RESEEDING, MAPPED) == Echoed(RESEEDING.(local := ECHOED.local, records := ECHOED.records));
    assert ApplyMapped(b, RESEEDING, HISTORY, MAPPED) == Some(ECHOED.(cursor := None));
    assert ApplyFirst(b, RESEEDING, ECHO_PAGE, [Some(MAPPED)], 0, 0) == Some(RESEEDING);
    assert ApplyFirst(b, RESEEDING, ECHO_PAGE, [Some(MAPPED)], 0, 1) == Some(ECHOED.(cursor := None));
  }

  const PREPARING := PrepareEvent(Reseed, true, true, false, 1, DRAWN)
  const ECHOING := PageEvent(ECHO_PAGE, [Some(MAPPED)], 1)

  /** A reseed whose echo is pulled before the push result is recorded: stranded from then on. */
  lemma EchoCanComeFirst() returns (b: Binding)
    ensures ListingExact(b) && TransitionValid(b, Untouched(ONE))
    ensures Run(b, [Untouched(ONE), RESEEDING, ECHOED], [PREPARING, ECHOING])
    ensures Stranded(ECHOED, Key(ProjectKind, "A"))
    ensures RecordResult(ECHOED, 0, RESULT, 1).None?
  {
    hide ListingExact, ExampleId, Prepare, ApplyProjectPage, MappedPage, ValidateMutation;
    b := ListingsExist("A", PORTABLE);
    UntouchedIsValid(b, ONE, [], map[]);
    ReseedingIsPrepared(b);
    EchoIsApplied(b);
    var states := [Untouched(ONE), RESEEDING, ECHOED];
    var events := [PREPARING, ECHOING];
    assert Attempt(b, states[0], events[0]) == Some(RESEEDING);
    assert Attempt(b, states[1], events[1]) == Some(ECHOED);
    assert KeyOf(ECHOED.queue[0]) == Key(ProjectKind, "A");
    assert WithResult(ECHOED.local, QUEUED, RESULT).None?;
  }

  // ------------------------------------------------- a global pull in between

  /** The creation acknowledged first, and echoed then: nothing is queued any more. */
  const ACKNOWLEDGED := RESEEDING.(local := ONE, queue := [], receipts := map[QUEUED.mutationId := Outbox.Receipt(RESULT, QUEUED)])
  const CONFIRMED := ECHOED.(queue := [], receipts := ACKNOWLEDGED.receipts)

  const ACKNOWLEDGING := ResultEvent(0, RESULT, 1)

  lemma ResultIsRecorded()
    ensures RecordResult(RESEEDING, 0, RESULT, 1) == Some(ACKNOWLEDGED)
  {
    hide ExampleId;
    assert Rest(RESEEDING.queue, 0, RESULT, 1) == Rest(RESEEDING.queue, 0, RESULT, 0) + [] == [];
    assert RESEEDING.local.projects["A" := 1] == ONE.projects;
    assert WithResult(RESEEDING.local, QUEUED, RESULT) == Some(ONE);
  }

  lemma EchoIsConfirmed(b: Binding)
    requires b.project == "A" && b.portable == PORTABLE
    ensures ApplyProjectPage(b, ACKNOWLEDGED, ECHO_PAGE, [Some(MAPPED)], 1) == Some(CONFIRMED)
  {
    hide ExampleId, ValidateMutation, ValidPulledChange, ValidateProjectPullChange;
    SentIsValid();
    ExampleIds('6'); ExampleIds('9');
    hide IsUuid, Lower;
    assert ProjectPulledPage(PORTABLE, ECHO_PAGE);
    assert HandlePulled(b, ACKNOWLEDGED, MAPPED) == Echoed(ACKNOWLEDGED.(local := CONFIRMED.local, records := CONFIRMED.records));
    assert ApplyMapped(b, ACKNOWLEDGED, HISTORY, MAPPED) == Some(CONFIRMED.(cursor := None));
    assert ApplyFirst(b, ACKNOWLEDGED, ECHO_PAGE, [Some(MAPPED)], 0, 0) == Some(ACKNOWLEDGED);
    assert ApplyFirst(b, ACKNOWLEDGED, ECHO_PAGE, [Some(MAPPED)], 0, 1) == Some(CONFIRMED.(cursor := None));
  }

  /** The project's next version, as another device pushed it. */
  const RENEWED := ExampleProject(2, "A").(kind := Update, baseVersion := 1)
  const RENEWAL := Plain(2, 2, RENEWED)
  const OVERRUN := CONFIRMED.(local := ONE.(projects := map["A" := 2]))

  lemma RenewalIsValid()
    ensures ValidPulledChange(RENEWAL)
  {
    hide ByteLength, ValidId, IsUuid, ExampleId;
    ExampleIds('2');
    LetterIsId("A");
  }

  /** No receipt and no queued work stand in the way of the update. */
  lemma RenewalIsTaken()
    ensures GlobalChange(CONFIRMED, RENEWAL, false) == Took(OVERRUN)
  {
    hide ExampleId;
    assert ExampleId('1') != ExampleId('2') by { DifferentIds('1', '2'); }
    assert OwnReceipt(CONFIRMED.receipts, RENEWAL) == Some(false);
    assert Apply(CONFIRMED.local, RENEWAL) == Applied(OVERRUN.local);
  }

  /**
   A reseed, its result recorded, its echo, and a global page with a valid update: nothing is queued,
   the update is taken, and the transition's records are no longer as it knows them.
   */
  lemma AGlobalUpdateBreaksTheTransition() returns (b: Binding)
    ensures ListingExact(b) && TransitionValid(b, Untouched(ONE)) && ValidPulledChange(RENEWAL) && AboutRecord(b, RENEWAL)
    ensures Visited(b, Untouched(ONE), Scoped(PREPARING)) == RESEEDING
    ensures Visited(b, RESEEDING, Scoped(ACKNOWLEDGING)) == ACKNOWLEDGED
    ensures Visited(b, ACKNOWLEDGED, Scoped(ECHOING)) == CONFIRMED
    ensures Visited(b, CONFIRMED, Global(RENEWAL, false)) == OVERRUN
    ensures CONFIRMED.queue == [] && TransitionValid(b, CONFIRMED) && !TransitionValid(b, OVERRUN)
  {
    hide ListingExact, ExampleId, Prepare, ApplyProjectPage, RecordResult, MappedPage, ValidateMutation, TransitionValid, ValidPulledChange, GlobalChange;
    b := ListingsExist("A", PORTABLE);
    UntouchedIsValid(b, ONE, [], map[]);
    ReseedingIsPrepared(b);
    ResultIsRecorded();
    EchoIsApplied(b);
    EchoIsConfirmed(b);
    RenewalIsValid();
    RenewalIsTaken();
    assert Attempt(b, Untouched(ONE), PREPARING) == Some(RESEEDING);
    assert Attempt(b, RESEEDING, ACKNOWLEDGING) == Some(ACKNOWLEDGED);
    assert Attempt(b, ACKNOWLEDGED, ECHOING) == Some(CONFIRMED);
    StepKeepsValid(b, Untouched(ONE), PREPARING);
    StepKeepsValid(b, RESEEDING, ACKNOWLEDGING);
    StepKeepsValid(b, ACKNOWLEDGED, ECHOING);
    assert KeyOf(RENEWED) in CONFIRMED.records && CONFIRMED.records[KeyOf(RENEWED)].seen;
    VisitKeepsValidExactly(b, CONFIRMED, Global(RENEWAL, false));
  }

  // ---------------------------------------------- a name without its record

  const WIRE := ExampleId('5')
  const COMPETING := ExampleObservation(WIRE, PORTABLE, "", [], Active)
  const COMPETITOR := ExampleWrite(3, Create, 0, COMPETING)
  const CONFLICTING := Change(3, 1, Some(2), ConflictChange, ExampleId('4'), COMPETITOR,
                              ChangeDigest(2, 3, 1, ConflictChange, ExampleId('4'), COMPETITOR))
  const FOLLOWING := ExampleWrite(4, Update, 1, COMPETING)

  lemma ConflictingIsValid()
    ensures ValidPulledChange(CONFLICTING) && ValidateMutation(FOLLOWING) == Valid
  {
    hide ByteLength, Blank, ValidOptionalText, ValidId, IsUuid, ExampleId, Lower;
    ExampleIds('3'); ExampleIds('4'); ExampleIds('5'); ExampleIds('9');
    UuidIsId(WIRE); UuidIsId(PORTABLE);
    LetterIsId("c"); LetterIsId("p");
    ShortText(""); ShortText("note"); ShortText("project");
    PlainText("note"); PlainText(""); PlainText("p");
    NotBlank("note");
  }

  /** The valid conflict of a record the device has not seen is applied; the update that brings the record is refused from then on. */
  lemma AConflictCanOutrunItsRecord(n: Naming)
    requires n.binding.project == "A" && n.binding.portable == PORTABLE && n.device == Some(ExampleId('8'))
    ensures ValidPulledChange(CONFLICTING) && ValidateMutation(FOLLOWING) == Valid
    ensures var r := MapMutation(n, Identities(map[], map[], {}), ONE, COMPETITOR);
            && r.Renamed?
            && var applied := Apply(ONE, CONFLICTING.(mutation := r.mutation));
               applied.Applied? && MapMutation(n, r.table, applied.local, FOLLOWING).NotRenamed?
  {
    hide IsUuid, ExampleId, NameFits, ValidateMutation, Lower, ValidPulledChange, MapExisting;
    ConflictingIsValid();
    ExampleIds('8'); ExampleIds('5');
    var t := Identities(map[], map[], {});
    IdentityRuns.NoNamesAreValid(n, {});
    assert !Known(t, ObservationKind, WIRE) && !PortableTaken(t, WIRE);
    UuidLength('5');
    var r := MapMutation(n, t, ONE, COMPETITOR);
    assert MapFirst(n, Adopt(n, t, ONE, ObservationKind, WIRE).table, ONE, [], 0) == Some([]);
    assert r.Renamed?;
    assert IdentityRuns.Adopts(n, t, IdentityRuns.Receive(COMPETITOR, ONE));
    var c := CONFLICTING.(mutation := r.mutation);
    assert Apply(ONE, c).Applied?;
    MapCorresponds(n, t, ONE, COMPETITOR);
    ExtendsItself(r.table);
    IdentityRuns.ConflictAdoptionBlocks(n, t, ONE, CONFLICTING, r.table, Apply(ONE, c).local, FOLLOWING);
  }

  lemma UuidLength(c: char)
    ensures |ExampleId(c)| == UUID_LENGTH
  {
  }

  // -------------------------------------------------------- unreadable names

  /** A UUID the service accepts, in capitals. */
  const CAPITALS := "AAAAAAAA-AAAA-4AAA-8AAA-AAAAAAAAAAAA"
  const SHOUTED := Mutation(ExampleId('1'), CAPITALS, SessionKind, Create, 0, None, Some(Session(CAPITALS, PORTABLE)), None, None, None)

  lemma CapitalsAreUuid()
    ensures IsUuid(CAPITALS) && !IsCanonicalUuid(CAPITALS)
  {
    assert |CAPITALS| == UUID_LENGTH;
    assert LowerChar(CAPITALS[0]) == 'a';
    assert Lower(CAPITALS)[0] == 'a' && CAPITALS[0] == 'A';
  }

  lemma ShoutedIsValid()
    ensures ValidateMutation(SHOUTED) == Valid
  {
    hide ByteLength, ValidId, IsUuid, ExampleId;
    ExampleIds('1'); ExampleIds('9');
    CapitalsAreUuid();
    UuidIsId(CAPITALS);
    UuidIsId(PORTABLE);
  }

  /** A valid session created under a UUID in capitals is adopted, and no later change of it is ever mapped. */
  lemma AdoptedNameCanBeUnreadable(n: Naming, local: Local, later: Local, kind: MutationKind)
    requires n.device == Some(ExampleId('8'))
    ensures ValidateMutation(SHOUTED) == Valid
    ensures var r := MapMutation(n, Identities(map[], map[], {}), local, SHOUTED);
            && r.Renamed?
            && MapMutation(n, r.table, later, SHOUTED.(kind := kind)).NotRenamed?
  {
    hide IsUuid, ExampleId, NameFits, AdoptedLocalId, ValidateMutation, Lower;
    ExampleIds('8');
    ShoutedIsValid();
    CapitalsAreUuid();
    var t := Identities(map[], map[], {});
    assert !Known(t, SessionKind, CAPITALS) && !PortableTaken(t, CAPITALS);
    AdoptionReadableExactly(n, t, local, SessionKind, CAPITALS);
    var r := Adopt(n, t, local, SessionKind, CAPITALS);
    UnreadableNameBlocks(n, r.table, Key(SessionKind, r.id), CAPITALS, r.table, later, SHOUTED.(kind := kind));
  }

  // ---------------------------------------------------------- archived save

  const ARCHIVED := ExampleObservation("", "A", "", [], Archived)

  /** Saved archived from the start, an observation is found by a search. */
  lemma ArchivedSaveIsFound()
    ensures var empty := SearchIndex.Searchable(EMPTY_STORE, map[]);
            var s := SearchIndex.Save(empty, ARCHIVED, "x", 1, true);
            && SearchIndex.Agrees(empty) && s.Some? && !SearchIndex.Agrees(s.value)
            && SearchIndex.Findable(s.value, "x", SearchIndex.IndexRow("", "", "note", "c"))
  {
    var empty := SearchIndex.Searchable(EMPTY_STORE, map[]);
    SearchIndex.EmptyAgrees();
    hide SearchIndex.Agrees;
    NotBlank("note"); NotBlank("c");
    assert SearchIndex.ItemValid(ARCHIVED);
    var s := SearchIndex.Save(empty, ARCHIVED, "x", 1, true);
    assert s.Some?;
    SearchIndex.SaveAgreesExactly(empty, ARCHIVED, "x", 1, true);
  }
}