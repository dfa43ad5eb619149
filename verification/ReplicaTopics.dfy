/**
 The device's topic index covers archived rows, the server's does not: two records of
 one topic, one of them archived, are a history no device can replay.
 */
module ReplicaTopics {
  import opened SyncService
  import opened Tables
  import opened Recovery
  import opened Replica
  import opened ReplicaMirror
  import opened ReplicaProgress
  import opened ReplicaRefinement
  import opened LocalTopics

  lemma {:induction false} ReplayKeepsTopics(log: seq<Change>)
    requires ReplayLog(log).Applied?
    ensures LocalTopicsUnique(ReplayLog(log).local)
    decreases |log|
  {
    hide Apply, LocalTopicsUnique;
    if log == [] {
      EmptyTopics();
    } else {
      var n := |log| - 1;
      ReplayKeepsTopics(log[..n]);
      ApplyKeepsTopics(ReplayLog(log[..n]).local, log[n]);
    }
  }

  /** Two live records of the server under one topic, in any state but tombstoned. */
  ghost predicate SharedTopic(t: Tables, x: string, y: string) {
    && x in t.observations && y in t.observations && x != y
    && !HasLifecycle(t, x, Tombstoned) && !HasLifecycle(t, y, Tombstoned)
    && !BornInConflict(t, x) && !BornInConflict(t, y)
    && t.observations[x].body.topicKey != ""
    && t.observations[x].body.projectId == t.observations[y].body.projectId
    && t.observations[x].body.scope == t.observations[y].body.scope
    && t.observations[x].body.topicKey == t.observations[y].body.topicKey
  }

  /** No device replays a history whose records share a topic. */
  lemma SharedTopicRefused(t: Tables, x: string, y: string)
    requires WhollyReadable(t) && SharedTopic(t, x, y)
    ensures ReplayLog(WholeLog(t)).NotApplied?
  {
    hide WhollyReadable, WholeLog, BornInConflict, HasTombstone, References;
    if ReplayLog(WholeLog(t)).Applied? {
      ReplayKeepsTopics(WholeLog(t));
      ReplicaAgrees(t);
      var local := ReplayLog(WholeLog(t)).local;
      AgreeingTopic(t, local, x);
      AgreeingTopic(t, local, y);
      assert false;
    }
  }

  lemma AgreeingTopic(t: Tables, local: Local, id: string)
    requires Agrees(t, local) && id in t.observations && !HasLifecycle(t, id, Tombstoned) && !BornInConflict(t, id)
    ensures id in local.observations
    ensures local.observations[id].body.topicKey == t.observations[id].body.topicKey
    ensures local.observations[id].body.projectId == t.observations[id].body.projectId
    ensures local.observations[id].body.scope == t.observations[id].body.scope
  {
    hide BornInConflict, HasTombstone, References, ProjectAgrees, SessionAgrees, ConflictAgrees;
    assert ObservationAgrees(t, local, id);
  }

  /** On a device that mirrors a log no deleted row holds a topic or refers to anything. */
  lemma DeletedHoldsNothing(local: Local, log: seq<Change>, id: string)
    requires Mirrors(local, log) && HasTombstone(local, id)
    ensures id in local.observations && local.observations[id].body.topicKey == "" && local.observations[id].body.references == {}
  {
    hide HasTombstone, ProjectMirrors, SessionMirrors, ConflictMirrors, LastFor, LastWritten, FlaggedSinceWritten, BodyOf, ConflictIdTaken;
    assert ObservationMirrors(local, log, id);
  }

  /** So it is a row that is not deleted, if any, for which a creation or update is refused its topic. */
  lemma OnlyLiveHoldTopics(local: Local, log: seq<Change>, id: string, o: Observation)
    requires Mirrors(local, log)
    ensures TopicHeld(local, id, BodyOf(o)) <==>
      && o.topicKey != ""
      && exists other ::
           && other in local.observations && other != id && !HasTombstone(local, other)
           && local.observations[other].body.projectId == o.projectId
           && local.observations[other].body.scope == o.scope
           && local.observations[other].body.topicKey == o.topicKey
  {
    hide HasTombstone, Mirrors, References;
    if TopicHeld(local, id, BodyOf(o)) {
      var other :| other in local.observations && other != id && SameTopic(local.observations[other].body, BodyOf(o));
      if HasTombstone(local, other) {
        DeletedHoldsNothing(local, log, other);
      }
    }
  }

  /** The next creation of the history is taken over any number of deleted records of its topic. */
  lemma DeletedTopicIsFree(t: Tables, local: Local, i: int)
    requires Next(t, local, i)
    requires var c := WholeLog(t)[i - 1]; c.disposition != ConflictChange && c.mutation.recordKind == ObservationKind && c.mutation.kind == Create
    requires Coherent(WholeLog(t)[i - 1])
    requires var o := Content(WholeLog(t)[i - 1].mutation).value;
             && SurroundingsReady(local, o)
             && forall other | other in local.observations && other != o.id && local.observations[other].body.topicKey == o.topicKey ::
                  HasTombstone(local, other)
    ensures Apply(local, WholeLog(t)[i - 1]).Applied?
  {
    hide HasTombstone, Mirrors, References, SurroundingsReady, Apply, WholeLog, WhollyReadable, TopicHeld;
    var c := WholeLog(t)[i - 1];
    var o := Content(c.mutation).value;
    OnlyLiveHoldTopics(local, WholeLog(t)[..i - 1], o.id, o);
    NextAppliesExactly(t, local, i);
  }
}
