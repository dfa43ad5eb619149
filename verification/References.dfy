/**
 References between observations stay within one project, except where the push
 transaction does not look: incoming references are checked on update only
 (internal/syncpg/repository.go:871).
 */
module References {
  import opened Options
  import opened Uuids
  import opened SyncService
  import opened Tables
  import opened Repository
  import opened Recovery
  import opened PushInvariant
  import opened History

  predicate AtHome(t: Tables, id: string, o: Observation) {
    forall i | 0 <= i < |o.references| :: o.references[i] != id && InProject(t, o.references[i], o.projectId)
  }

  ghost predicate ReferencesAtHome(t: Tables) {
    forall id | id in t.observations :: AtHome(t, id, t.observations[id].body)
  }

  /** An archive or resolution about to carry a record out of the project of an observation that refers to it. */
  predicate StrandsReferrer(t: Tables, device: string, m: Mutation) {
    && (m.kind == Archive || m.kind == Resolve)
    && Decide(t, device, m) == Advance(PayloadMutation(m))
    && PayloadMutation(m).observation.Some?
    && ForeignReferrer(t, m.recordId, PayloadMutation(m).observation.value.projectId)
  }

  lemma AdvanceKeepsReferences(t: Tables, u: Tables, device: string, m: Mutation, payload: Mutation, snapshot: Snapshot)
    requires Advances(t, u, device, m, payload, snapshot) && ReferencesAtHome(t)
    requires m.kind == Archive || m.kind == Resolve ==>
      payload.observation.Some? && !ForeignReferrer(t, m.recordId, payload.observation.value.projectId)
    ensures ReferencesAtHome(u)
  {
    hide ValidateMutation, AcceptedMutation, VersionRowClash, TopicTaken, Invariant, AdvanceTables, SnapshotOf, PayloadMutation,
      AtHome, ForeignReferrer;
    AdvanceMovesRow(t, u, device, m, payload, snapshot);
    PayloadShape(m);
    forall id | id in u.observations ensures AtHome(u, id, u.observations[id].body) {
      if id == m.recordId {
        if m.recordKind == ObservationKind {
          WrittenRowAtHome(t, u, device, m, payload);
        } else {
          assert AtHome(t, id, t.observations[id].body) && u.observations == t.observations;
          OtherRowAtHome(t, u, device, m, payload, id);
        }
      } else {
        OtherRowAtHome(t, u, device, m, payload, id);
      }
    }
  }

  lemma WrittenRowAtHome(t: Tables, u: Tables, device: string, m: Mutation, payload: Mutation)
    requires m.recordKind == ObservationKind && PrerequisitesHold(t, payload) && payload.recordId == m.recordId
    requires RowAdvanced(t, u, device, m, payload)
    ensures AtHome(u, m.recordId, u.observations[m.recordId].body)
  {
    hide RowAdvanced, ForeignReferrer;
    WrittenRowBody(t, u, device, m, payload);
    var o := u.observations[m.recordId].body;
    forall i | 0 <= i < |o.references| ensures o.references[i] != m.recordId && InProject(u, o.references[i], o.projectId) {
    }
  }

  lemma WrittenRowBody(t: Tables, u: Tables, device: string, m: Mutation, payload: Mutation)
    requires m.recordKind == ObservationKind
    requires RowAdvanced(t, u, device, m, payload)
    ensures m.recordId in u.observations
    ensures u.observations == t.observations[m.recordId := u.observations[m.recordId]]
    ensures u.observations[m.recordId].body.references == [] || payload.observation == Some(u.observations[m.recordId].body)
  {
  }

  lemma OtherRowAtHome(t: Tables, u: Tables, device: string, m: Mutation, payload: Mutation, id: string)
    requires ReferencesAtHome(t) && RowAdvanced(t, u, device, m, payload) && MayAdvance(t, device, m, payload)
    requires m.kind == Archive || m.kind == Resolve ==>
      payload.observation.Some? && !ForeignReferrer(t, m.recordId, payload.observation.value.projectId)
    requires payload.kind == m.kind && payload.recordId == m.recordId
    requires id in t.observations && id in u.observations && u.observations[id] == t.observations[id]
    requires id == m.recordId ==> m.recordKind != ObservationKind
    ensures AtHome(u, id, u.observations[id].body)
  {
    hide ValidateMutation, AcceptedMutation, VersionRowClash, TopicTaken, SnapshotOf, PayloadMutation, Admitted;
    var o := t.observations[id].body;
    assert AtHome(t, id, o);
    forall i | 0 <= i < |o.references| ensures InProject(u, o.references[i], o.projectId) {
      assert InProject(t, o.references[i], o.projectId);
    }
  }

  lemma StrandedReferrer(t: Tables, u: Tables, device: string, m: Mutation, payload: Mutation, snapshot: Snapshot)
    requires Advances(t, u, device, m, payload, snapshot) && ReferencesAtHome(t)
    requires m.kind == Archive || m.kind == Resolve
    requires payload.observation.Some? && ForeignReferrer(t, m.recordId, payload.observation.value.projectId)
    ensures !ReferencesAtHome(u)
  {
    hide ValidateMutation, AcceptedMutation, VersionRowClash, TopicTaken, Invariant, AdvanceTables, SnapshotOf, PayloadMutation;
    AdvanceMovesRow(t, u, device, m, payload, snapshot);
    var id :| id in t.observations && m.recordId in t.observations[id].body.references
      && t.observations[id].body.projectId != payload.observation.value.projectId;
    assert AtHome(t, id, t.observations[id].body);
    var i :| 0 <= i < |t.observations[id].body.references| && t.observations[id].body.references[i] == m.recordId;
    assert id != m.recordId && u.observations[id] == t.observations[id];
    assert !AtHome(u, id, u.observations[id].body);
  }

  lemma CompeteKeepsReferences(t: Tables, u: Tables, device: string, m: Mutation, snapshot: Snapshot, conflictId: string)
    requires Competes(t, u, device, m, snapshot, conflictId) && ReferencesAtHome(t)
    ensures ReferencesAtHome(u)
  {
    hide ValidateMutation, AcceptedMutation, VersionRowClash, TopicTaken, SnapshotOf, PayloadMutation, PrerequisitesHold, Invariant,
      ReferencesAtHome, CompeteTables, Admitted, RowMarked;
    CompeteMarksRow(t, u, device, m, snapshot, conflictId);
    MarkedReferencesAtHome(t, u, device, m, conflictId);
  }

  lemma MarkedReferencesAtHome(t: Tables, u: Tables, device: string, m: Mutation, conflictId: string)
    requires ReferencesAtHome(t) && RowMarked(t, u, device, m, conflictId) && PrerequisitesHold(t, m)
    ensures ReferencesAtHome(u)
  {
    hide ForeignReferrer;
    forall id | id in u.observations ensures AtHome(u, id, u.observations[id].body) {
      if id in t.observations {
        assert AtHome(t, id, t.observations[id].body);
      }
    }
  }

  /** A committed push keeps references at home if and only if it is not such a move. */
  lemma PushKeepsReferencesExactly(t: Tables, device: string, m: Mutation, conflictId: string)
    requires Invariant(t) && ReferencesAtHome(t) && IsCanonicalUuid(conflictId)
    requires Push(t, device, m, conflictId).Committed?
    ensures ReferencesAtHome(Push(t, device, m, conflictId).tables) <==> !StrandsReferrer(t, device, m)
  {
    hide Invariant, Decide, BreaksConstraint, AdvanceTables, CompeteTables, MayCompete, ReferencesAtHome, ForeignReferrer;
    var u := Push(t, device, m, conflictId).tables;
    match Decide(t, device, m)
    case Refuse(_) =>
    case Replay(_) =>
    case Advance(payload) =>
      AdvanceDecided(t, device, m, payload, conflictId);
      PayloadShape(m);
      if StrandsReferrer(t, device, m) {
        StrandedReferrer(t, u, device, m, payload, SnapshotOf(payload).value);
      } else {
        AdvanceKeepsReferences(t, u, device, m, payload, SnapshotOf(payload).value);
      }
    case Compete(payload) =>
      CompeteDecided(t, device, m, payload, conflictId);
      CompeteKeepsReferences(t, u, device, m, SnapshotOf(payload).value, conflictId);
  }

  /** Events none of which strands a referrer. */
  predicate NoneStrands(t: Tables, events: seq<Event>)
    decreases |events|
  {
    events == [] ||
    (&& (events[0].PushMutation? ==> !StrandsReferrer(t, events[0].device, events[0].mutation))
     && NoneStrands(Step(t, events[0]), events[1..]))
  }

  lemma {:induction false} RunKeepsReferences(t: Tables, events: seq<Event>)
    requires Invariant(t) && ReferencesAtHome(t) && AllPlausible(events) && NoneStrands(t, events)
    ensures ReferencesAtHome(Run(t, events))
    decreases |events|
  {
    hide Invariant, ReferencesAtHome, StrandsReferrer, Push, Follows, IsCanonicalUuid;
    if events != [] {
      var u := Step(t, events[0]);
      StepFollows(t, events[0]);
      match events[0] {
        case IssueDevice(_) => SameReferences(t, u);
        case RevokeDevice(_) => SameReferences(t, u);
        case PushMutation(device, m, conflictId) =>
          if Push(t, device, m, conflictId).Committed? {
            PushKeepsReferencesExactly(t, device, m, conflictId);
          }
      }
      RunKeepsReferences(u, events[1..]);
    }
  }

  lemma SameReferences(t: Tables, u: Tables)
    requires ReferencesAtHome(t) && u.observations == t.observations
    ensures ReferencesAtHome(u)
  {
    forall id | id in u.observations ensures AtHome(u, id, u.observations[id].body) {
      assert AtHome(t, id, t.observations[id].body);
    }
  }
}
