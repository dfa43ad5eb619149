/** Concrete runs of the server: four promises that do not hold without their conditions. */
module Counterexamples {
  import opened Uuids
  import opened SyncService
  import opened Tables
  import opened Repository
  import opened Recovery
  import opened History
  import opened References
  import opened Readable
  import opened Orphans
  import opened Examples
  import opened Paging
  import opened Replica
  import opened ReplicaRefinement
  import opened ReplicaTopics

  // ----------------------------------------------------- stranded referrer

  const X := ExampleObservation("x", "A", "", [], Active)
  const Y_REFERRING := ExampleObservation("y", "A", "", ["x"], Active)
  const X_MOVED := ExampleObservation("x", "B", "", [], Archived)

  /** Two projects, x in the first, y beside it referring to x, and x archived into the second. */
  function Stranding(n: nat): Mutation
    requires 1 <= n <= 5
  {
    if n == 1 then ExampleProject(1, "A")
    else if n == 2 then ExampleProject(2, "B")
    else if n == 3 then ExampleWrite(3, Create, 0, X)
    else if n == 4 then ExampleWrite(4, Create, 0, Y_REFERRING)
    else ExampleWrite(5, Archive, 1, X_MOVED)
  }

  const STRANDING_RUN := [
    IssueDevice(DEVICE), ExamplePush(Stranding(1)), ExamplePush(Stranding(2)), ExamplePush(Stranding(3)),
    ExamplePush(Stranding(4)), ExamplePush(Stranding(5))]

  function StrandingRows(n: nat): map<string, ObservationRow> {
    if n < 3 then map[]
    else if n == 3 then map["x" := ObservationRow(X, 1)]
    else if n == 4 then map["x" := ObservationRow(X, 1), "y" := ObservationRow(Y_REFERRING, 1)]
    else map["x" := ObservationRow(X_MOVED, 2), "y" := ObservationRow(Y_REFERRING, 1)]
  }

  /** The tables after the first n pushes, as far as the next decision looks. */
  ghost predicate AfterStranding(t: Tables, n: nat)
    requires n <= 5
  {
    && t.devices == map[DEVICE := false]
    && t.tombstones == map[]
    && IdsUsed(t, n)
    && ("A" in t.projects <==> n >= 1) && ("B" in t.projects <==> n >= 2)
    && t.observations == StrandingRows(n)
  }

  lemma StrandingValid(n: nat)
    requires 1 <= n <= 5
    ensures ValidateMutation(Stranding(n)) == Valid && AcceptedMutation(Stranding(n))
    ensures Stranding(n).mutationId == ExampleId(DigitOf(n))
  {
    hide ValidateMutation, AcceptedMutation;
    ExampleProjectValid(1, "A"); ExampleProjectValid(2, "B");
    ExampleWriteValid(3, Create, 0, X); ExampleWriteValid(4, Create, 0, Y_REFERRING); ExampleWriteValid(5, Archive, 1, X_MOVED);
  }

  lemma StrandingDecided(t: Tables, n: nat)
    requires n < 5 && AfterStranding(t, n)
    ensures Decide(t, DEVICE, Stranding(n + 1)) == Advance(Stranding(n + 1))
  {
    hide ValidateMutation, AcceptedMutation, ExampleId, Lower, IdsUsed;
    StrandingValid(n + 1);
    NextIdFresh(t, n, Stranding(n + 1));
    assert !TopicTaken(t, Stranding(n + 1));
  }

  lemma StrandingWrites(n: nat)
    requires n < 5
    ensures var m := Stranding(n + 1);
            && WrittenObservations(StrandingRows(n), m, m.baseVersion + 1) == StrandingRows(n + 1)
            && m.kind != Tombstone
            && SnapshotOf(m).Some?
            && (m.recordKind == ProjectKind ==> m.project.Some?)
            && (m.recordKind == ProjectKind <==> n < 2) && (n == 0 ==> m.recordId == "A") && (n == 1 ==> m.recordId == "B")
  {
  }

  lemma StrandingStep(t: Tables, n: nat)
    requires n < 5 && AfterStranding(t, n)
    ensures AfterStranding(Step(t, ExamplePush(Stranding(n + 1))), n + 1)
  {
    hide ValidateMutation, AcceptedMutation, ExampleId, Lower, VersionRowClash, Decide, IdsUsed, ClosedConflicts, Stranding,
      WrittenObservations, StrandingRows;
    var m := Stranding(n + 1);
    StrandingWrites(n);
    StrandingValid(n + 1);
    NextIdFresh(t, n, m);
    StrandingDecided(t, n);
    var u := Step(t, ExamplePush(m));
    assert u == AdvanceTables(t, DEVICE, m, m, SnapshotOf(m).value);
    NextIdUsed(t, u, n, m, m, AcceptedChange, m.baseVersion + 1, SnapshotOf(m).value);
  }

  lemma StrandingStart()
    ensures AfterStranding(Step(EMPTY_OWNER, IssueDevice(DEVICE)), 0)
  {
  }

  /** A run from an empty owner that leaves an observation of one project referring to one of another. */
  lemma ReferencesCanLeaveHome()
    ensures AllPlausible(STRANDING_RUN)
    ensures !ReferencesAtHome(Run(EMPTY_OWNER, STRANDING_RUN))
  {
    hide Push, AfterStranding, IsUuid, Lower, Stranding;
    ExampleIds('9');
    var t0 := Step(EMPTY_OWNER, IssueDevice(DEVICE));
    var t1 := Step(t0, ExamplePush(Stranding(1)));
    var t2 := Step(t1, ExamplePush(Stranding(2)));
    var t3 := Step(t2, ExamplePush(Stranding(3)));
    var t4 := Step(t3, ExamplePush(Stranding(4)));
    var t5 := Step(t4, ExamplePush(Stranding(5)));
    StrandingStart();
    StrandingStep(t0, 0); StrandingStep(t1, 1); StrandingStep(t2, 2); StrandingStep(t3, 3); StrandingStep(t4, 4);
    YIsStranded(t5);
    var r := STRANDING_RUN;
    assert r[1..][1..][1..][1..][1..][1..] == [];
    assert Run(EMPTY_OWNER, r) == Run(t0, r[1..]) == Run(t1, r[1..][1..]) == Run(t2, r[1..][1..][1..])
        == Run(t3, r[1..][1..][1..][1..]) == Run(t4, r[1..][1..][1..][1..][1..]) == t5;
  }

  lemma YIsStranded(t: Tables)
    requires AfterStranding(t, 5)
    ensures !ReferencesAtHome(t)
  {
    assert t.observations["y"].body.references[0] == "x";
    assert !AtHome(t, "y", t.observations["y"].body);
  }

  // ------------------------------------------------------- orphan deletion

  const X_TOPIC := ExampleObservation("x", "A", "k", [], Active)
  const Y_TOPIC := ExampleObservation("y", "A", "k", [], Active)

  /** A project, x on a topic, y colliding with it, and y deleted. */
  function Orphaning(n: nat): Mutation
    requires 1 <= n <= 4
  {
    if n == 1 then ExampleProject(1, "A")
    else if n == 2 then ExampleWrite(2, Create, 0, X_TOPIC)
    else if n == 3 then ExampleWrite(3, Create, 0, Y_TOPIC)
    else ExampleDeletion(4, "y", 1)
  }

  const ORPHANING_RUN := [
    IssueDevice(DEVICE), ExamplePush(Orphaning(1)), ExamplePush(Orphaning(2)), ExamplePush(Orphaning(3)), ExamplePush(Orphaning(4))]

  function OrphaningRows(n: nat): map<string, ObservationRow> {
    if n < 2 then map[]
    else if n == 2 then map["x" := ObservationRow(X_TOPIC, 1)]
    else map["x" := ObservationRow(X_TOPIC, 1), "y" := ObservationRow(Y_TOPIC.(lifecycle := Archived, review := NeedsReview), 1)]
  }

  ghost predicate AfterOrphaning(t: Tables, n: nat)
    requires n <= 3
  {
    && t.devices == map[DEVICE := false]
    && t.tombstones == map[]
    && (n < 3 ==> t.conflicts == map[])
    && t.nextSeq == n + 1
    && IdsUsed(t, n)
    && ("A" in t.projects <==> n >= 1)
    && t.observations == OrphaningRows(n)
    && (forall k | 0 <= k < |t.versions| :: t.versions[k].recordId == "y" ==> t.versions[k].disposition == ConflictChange)
  }

  lemma OrphaningValid(n: nat)
    requires 1 <= n <= 4
    ensures ValidateMutation(Orphaning(n)) == Valid && AcceptedMutation(Orphaning(n))
    ensures Orphaning(n).mutationId == ExampleId(DigitOf(n))
  {
    hide ValidateMutation, AcceptedMutation;
    ExampleProjectValid(1, "A");
    ExampleWriteValid(2, Create, 0, X_TOPIC); ExampleWriteValid(3, Create, 0, Y_TOPIC);
    ExampleDeletionValid(4, "y", 1);
  }

  lemma OrphaningDecided(t: Tables, n: nat)
    requires n < 4 && AfterOrphaning(t, n)
    ensures Decide(t, DEVICE, Orphaning(n + 1)) == if n == 2 then Compete(Orphaning(3)) else Advance(Orphaning(n + 1))
  {
    hide ValidateMutation, AcceptedMutation, ExampleId, Lower, IdsUsed;
    OrphaningValid(n + 1);
    NextIdFresh(t, n, Orphaning(n + 1));
    if n == 2 {
      assert "x" in TopicHolders(t, Y_TOPIC);
    } else {
      assert !TopicTaken(t, Orphaning(n + 1));
    }
  }

  lemma OrphaningAdvances(t: Tables, n: nat)
    requires n < 2 && AfterOrphaning(t, n)
    ensures AfterOrphaning(Step(t, ExamplePush(Orphaning(n + 1))), n + 1)
  {
    hide ValidateMutation, AcceptedMutation, ExampleId, Lower, VersionRowClash, Decide, IdsUsed;
    var m := Orphaning(n + 1);
    OrphaningValid(n + 1);
    NextIdFresh(t, n, m);
    OrphaningDecided(t, n);
    var u := Step(t, ExamplePush(m));
    assert u == AdvanceTables(t, DEVICE, m, m, SnapshotOf(m).value);
    NextIdUsed(t, u, n, m, m, AcceptedChange, m.baseVersion + 1, SnapshotOf(m).value);
    assert ClosedConflicts(t.conflicts, ConflictIds(m), m.recordId, t.nextSeq) == t.conflicts;
  }

  lemma OrphaningCompetes(t: Tables)
    requires AfterOrphaning(t, 2)
    ensures AfterOrphaning(Step(t, ExamplePush(Orphaning(3))), 3)
  {
    hide ValidateMutation, AcceptedMutation, Lower, VersionRowClash, Decide, IdsUsed;
    var m := Orphaning(3);
    OrphaningValid(3);
    NextIdFresh(t, 2, m);
    OrphaningDecided(t, 2);
    assert ExampleId('9')[UUID_LENGTH - 1] != NIL_UUID[UUID_LENGTH - 1];
    var u := Step(t, ExamplePush(m));
    assert u == CompeteTables(t, DEVICE, m, m, SnapshotOf(m).value, ExampleId('9'));
    NextIdUsed(t, u, 2, m, m, ConflictChange, CompetingVersion(t, m), SnapshotOf(m).value);
  }

  lemma OrphaningEnds(t: Tables)
    requires Invariant(t) && AfterOrphaning(t, 3)
    ensures var u := Step(t, ExamplePush(Orphaning(4)));
            4 in u.changes && u.changes[4].source in u.mutations && Orphan(u, 4)
  {
    hide ValidateMutation, AcceptedMutation, Lower, VersionRowClash, Decide, IdsUsed, Invariant, AdvanceTables;
    var m := Orphaning(4);
    OrphaningValid(4);
    NextIdFresh(t, 3, m);
    OrphaningDecided(t, 3);
    ExampleIds('9');
    DeletionIsOrphanExactly(t, DEVICE, m, ExampleId('9'));
    assert BornInConflict(t, "y");
  }

  /** A run from an empty owner whose fourth change nobody can pull. */
  lemma HistoryCanBeUnreadable()
    ensures AllPlausible(ORPHANING_RUN)
    ensures var t := Run(EMPTY_OWNER, ORPHANING_RUN); 4 in t.changes && t.changes[4].source in t.mutations && Orphan(t, 4)
  {
    hide Push, AfterOrphaning, IsUuid, Lower, Orphaning, Invariant, Follows, Orphan;
    ExampleIds('9');
    EmptyOwnerInvariant();
    var t0 := Step(EMPTY_OWNER, IssueDevice(DEVICE));
    var t1 := Step(t0, ExamplePush(Orphaning(1)));
    var t2 := Step(t1, ExamplePush(Orphaning(2)));
    var t3 := Step(t2, ExamplePush(Orphaning(3)));
    var t4 := Step(t3, ExamplePush(Orphaning(4)));
    StepFollows(EMPTY_OWNER, IssueDevice(DEVICE)); StepFollows(t0, ExamplePush(Orphaning(1)));
    StepFollows(t1, ExamplePush(Orphaning(2))); StepFollows(t2, ExamplePush(Orphaning(3)));
    OrphaningStart();
    OrphaningAdvances(t0, 0); OrphaningAdvances(t1, 1); OrphaningCompetes(t2); OrphaningEnds(t3);
    var r := ORPHANING_RUN;
    assert r[1..][1..][1..][1..][1..] == [];
    assert Run(EMPTY_OWNER, r) == Run(t0, r[1..]) == Run(t1, r[1..][1..]) == Run(t2, r[1..][1..][1..])
        == Run(t3, r[1..][1..][1..][1..]) == t4;
  }

  lemma OrphaningStart()
    ensures AfterOrphaning(Step(EMPTY_OWNER, IssueDevice(DEVICE)), 0)
  {
  }

  // ---------------------------------------------------- unreplayable topic

  const X_ARCHIVED := ExampleObservation("x", "A", "k", [], Archived)

  /** A project, x on a topic, x archived, and y taking the topic over. */
  function Succession(n: nat): Mutation
    requires 1 <= n <= 4
  {
    if n == 1 then ExampleProject(1, "A")
    else if n == 2 then ExampleWrite(2, Create, 0, X_TOPIC)
    else if n == 3 then ExampleWrite(3, Archive, 1, X_ARCHIVED)
    else ExampleWrite(4, Create, 0, Y_TOPIC)
  }

  const SUCCESSION_RUN := [
    IssueDevice(DEVICE), ExamplePush(Succession(1)), ExamplePush(Succession(2)), ExamplePush(Succession(3)), ExamplePush(Succession(4))]

  function SuccessionRows(n: nat): map<string, ObservationRow> {
    if n < 2 then map[]
    else if n == 2 then map["x" := ObservationRow(X_TOPIC, 1)]
    else if n == 3 then map["x" := ObservationRow(X_ARCHIVED, 2)]
    else map["x" := ObservationRow(X_ARCHIVED, 2), "y" := ObservationRow(Y_TOPIC, 1)]
  }

  ghost predicate AfterSuccession(t: Tables, n: nat)
    requires n <= 4
  {
    && t.devices == map[DEVICE := false]
    && t.tombstones == map[]
    && IdsUsed(t, n)
    && ("A" in t.projects <==> n >= 1)
    && t.observations == SuccessionRows(n)
    && (forall key | key in t.mutations :: t.mutations[key].kind != Tombstone)
  }

  lemma SuccessionValid(n: nat)
    requires 1 <= n <= 4
    ensures ValidateMutation(Succession(n)) == Valid && AcceptedMutation(Succession(n))
    ensures Succession(n).mutationId == ExampleId(DigitOf(n))
  {
    hide ValidateMutation, AcceptedMutation;
    ExampleProjectValid(1, "A");
    ExampleWriteValid(2, Create, 0, X_TOPIC); ExampleWriteValid(3, Archive, 1, X_ARCHIVED); ExampleWriteValid(4, Create, 0, Y_TOPIC);
  }

  lemma SuccessionDecided(t: Tables, n: nat)
    requires n < 4 && AfterSuccession(t, n)
    ensures Decide(t, DEVICE, Succession(n + 1)) == Advance(Succession(n + 1))
  {
    hide ValidateMutation, AcceptedMutation, ExampleId, Lower, IdsUsed;
    SuccessionValid(n + 1);
    NextIdFresh(t, n, Succession(n + 1));
    assert !TopicTaken(t, Succession(n + 1));
  }

  lemma SuccessionWrites(n: nat)
    requires n < 4
    ensures var m := Succession(n + 1);
            && WrittenObservations(SuccessionRows(n), m, m.baseVersion + 1) == SuccessionRows(n + 1)
            && m.kind != Tombstone
            && SnapshotOf(m).Some?
            && (m.recordKind == ProjectKind ==> m.project.Some?)
            && (m.recordKind == ProjectKind <==> n == 0) && (n == 0 ==> m.recordId == "A")
  {
  }

  lemma SuccessionStep(t: Tables, n: nat)
    requires n < 4 && AfterSuccession(t, n)
    ensures AfterSuccession(Step(t, ExamplePush(Succession(n + 1))), n + 1)
  {
    hide ValidateMutation, AcceptedMutation, ExampleId, Lower, VersionRowClash, Decide, IdsUsed, ClosedConflicts, Succession,
      WrittenObservations, SuccessionRows;
    var m := Succession(n + 1);
    SuccessionWrites(n);
    SuccessionValid(n + 1);
    NextIdFresh(t, n, m);
    SuccessionDecided(t, n);
    var u := Step(t, ExamplePush(m));
    assert u == AdvanceTables(t, DEVICE, m, m, SnapshotOf(m).value);
    NextIdUsed(t, u, n, m, m, AcceptedChange, m.baseVersion + 1, SnapshotOf(m).value);
  }

  lemma SuccessionShares(t: Tables)
    requires Invariant(t) && AfterSuccession(t, 4)
    ensures WhollyReadable(t) && SharedTopic(t, "x", "y")
  {
    hide Invariant, IdsUsed, ValidateMutation, AcceptedMutation, Admitted, SnapshotOf, PayloadMutation;
    forall i | 0 < i <= t.nextSeq - 1 ensures i in t.changes && Traced(t, i) && !Orphan(t, i) {
      Dense(t, i);
      ChangeIsTraced(t, i);
    }
  }

  lemma SuccessionRuns()
    ensures AllPlausible(SUCCESSION_RUN) && AfterSuccession(Run(EMPTY_OWNER, SUCCESSION_RUN), 4)
  {
    hide Push, AfterSuccession, IsUuid, Lower, Succession;
    ExampleIds('9');
    var t0 := Step(EMPTY_OWNER, IssueDevice(DEVICE));
    var t1 := Step(t0, ExamplePush(Succession(1)));
    var t2 := Step(t1, ExamplePush(Succession(2)));
    var t3 := Step(t2, ExamplePush(Succession(3)));
    var t4 := Step(t3, ExamplePush(Succession(4)));
    SuccessionStart();
    SuccessionStep(t0, 0); SuccessionStep(t1, 1); SuccessionStep(t2, 2); SuccessionStep(t3, 3);
    var r := SUCCESSION_RUN;
    assert r[1..][1..][1..][1..][1..] == [];
    assert Run(EMPTY_OWNER, r) == Run(t0, r[1..]) == Run(t1, r[1..][1..]) == Run(t2, r[1..][1..][1..])
        == Run(t3, r[1..][1..][1..][1..]) == t4;
  }

  /** A run from an empty owner, every change of it readable, that no device can replay. */
  lemma HistoryCanBeUnreplayable()
    ensures AllPlausible(SUCCESSION_RUN)
    ensures var t := Run(EMPTY_OWNER, SUCCESSION_RUN); WhollyReadable(t) && ReplayLog(WholeLog(t)).NotApplied?
  {
    hide Push, AfterSuccession, Invariant, Follows, WholeLog, ReplayLog, SharedTopic, Servable, Run, AllPlausible;
    SuccessionRuns();
    EmptyOwnerInvariant();
    var t := Run(EMPTY_OWNER, SUCCESSION_RUN);
    RunKeepsInvariant(EMPTY_OWNER, SUCCESSION_RUN);
    SuccessionShares(t);
    SharedTopicRefused(t, "x", "y");
  }

  lemma SuccessionStart()
    ensures AfterSuccession(Step(EMPTY_OWNER, IssueDevice(DEVICE)), 0)
  {
  }

  // ------------------------------------------------------- second tombstone

  /** A project, x, and x deleted twice, each time on the version it has. */
  function Deleting(n: nat): Mutation
    requires 1 <= n <= 4
  {
    if n == 1 then ExampleProject(1, "A")
    else if n == 2 then ExampleWrite(2, Create, 0, X)
    else ExampleDeletion(n, "x", n - 2)
  }

  const DELETING_RUN := [IssueDevice(DEVICE), ExamplePush(Deleting(1)), ExamplePush(Deleting(2)), ExamplePush(Deleting(3))]

  function DeletingRows(n: nat): map<string, ObservationRow> {
    if n < 2 then map[]
    else if n == 2 then map["x" := ObservationRow(X, 1)]
    else map["x" := ObservationRow(Erased(X), 2)]
  }

  ghost predicate AfterDeleting(t: Tables, n: nat)
    requires n <= 3
  {
    && t.devices == map[DEVICE := false]
    && ("x" in t.tombstones <==> n == 3)
    && IdsUsed(t, n)
    && ("A" in t.projects <==> n >= 1)
    && t.observations == DeletingRows(n)
  }

  lemma DeletingValid(n: nat)
    requires 1 <= n <= 4
    ensures ValidateMutation(Deleting(n)) == Valid && AcceptedMutation(Deleting(n))
    ensures Deleting(n).mutationId == ExampleId(DigitOf(n))
  {
    hide ValidateMutation, AcceptedMutation;
    ExampleProjectValid(1, "A");
    ExampleWriteValid(2, Create, 0, X);
    ExampleDeletionValid(3, "x", 1); ExampleDeletionValid(4, "x", 2);
  }

  lemma DeletingDecided(t: Tables, n: nat)
    requires n < 4 && AfterDeleting(t, n)
    ensures Decide(t, DEVICE, Deleting(n + 1)) == Advance(Deleting(n + 1))
  {
    hide ValidateMutation, AcceptedMutation, ExampleId, Lower, IdsUsed;
    DeletingValid(n + 1);
    NextIdFresh(t, n, Deleting(n + 1));
    assert !TopicTaken(t, Deleting(n + 1));
  }

  lemma DeletingWrites(n: nat)
    requires n < 3
    ensures var m := Deleting(n + 1);
            && WrittenObservations(DeletingRows(n), m, m.baseVersion + 1) == DeletingRows(n + 1)
            && (m.kind == Tombstone <==> n == 2) && (m.kind == Tombstone <==> m.tombstone.Some?)
            && SnapshotOf(m).Some?
            && (m.recordKind == ProjectKind ==> m.project.Some?)
            && (m.recordKind == ProjectKind <==> n == 0) && (if n == 0 then m.recordId == "A" else m.recordId == "x")
  {
  }

  lemma DeletingStep(t: Tables, n: nat)
    requires n < 3 && AfterDeleting(t, n)
    ensures AfterDeleting(Step(t, ExamplePush(Deleting(n + 1))), n + 1)
  {
    hide ValidateMutation, AcceptedMutation, ExampleId, Lower, VersionRowClash, Decide, IdsUsed, ClosedConflicts, Deleting,
      WrittenObservations, DeletingRows;
    var m := Deleting(n + 1);
    DeletingWrites(n);
    DeletingValid(n + 1);
    NextIdFresh(t, n, m);
    DeletingDecided(t, n);
    var u := Step(t, ExamplePush(m));
    assert u == AdvanceTables(t, DEVICE, m, m, SnapshotOf(m).value);
    NextIdUsed(t, u, n, m, m, AcceptedChange, m.baseVersion + 1, SnapshotOf(m).value);
  }

  lemma DeletingStart()
    ensures AfterDeleting(Step(EMPTY_OWNER, IssueDevice(DEVICE)), 0)
  {
  }

  lemma SecondDeletionFails(t: Tables)
    requires AfterDeleting(t, 3)
    ensures Push(t, DEVICE, Deleting(4), ExampleId('9')) == Failed
    ensures t.observations["x"].version == Deleting(4).baseVersion
  {
    hide Decide, VersionRowClash, ExampleId, IdsUsed;
    DeletingDecided(t, 3);
  }

  /** A run from an empty owner behind which a deletion on the record's own version is not answered at all. */
  lemma SecondTombstoneIsUnanswered()
    ensures AllPlausible(DELETING_RUN)
    ensures var t := Run(EMPTY_OWNER, DELETING_RUN);
            "x" in t.observations && t.observations["x"].version == Deleting(4).baseVersion
            && Push(t, DEVICE, Deleting(4), ExampleId('9')) == Failed
  {
    hide Push, AfterDeleting, IsUuid, Lower, Deleting;
    ExampleIds('9');
    var t0 := Step(EMPTY_OWNER, IssueDevice(DEVICE));
    var t1 := Step(t0, ExamplePush(Deleting(1)));
    var t2 := Step(t1, ExamplePush(Deleting(2)));
    var t3 := Step(t2, ExamplePush(Deleting(3)));
    DeletingStart();
    DeletingStep(t0, 0); DeletingStep(t1, 1); DeletingStep(t2, 2);
    SecondDeletionFails(t3);
    var r := DELETING_RUN;
    assert r[1..][1..][1..][1..] == [];
    assert Run(EMPTY_OWNER, r) == Run(t0, r[1..]) == Run(t1, r[1..][1..]) == Run(t2, r[1..][1..][1..]) == t3;
    XIsThere(t3);
  }

  lemma XIsThere(t: Tables)
    requires AfterDeleting(t, 3)
    ensures "x" in t.observations
  {
  }
}
