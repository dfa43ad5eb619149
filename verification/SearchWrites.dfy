/**
 What each local write needs, and what it leaves in the observation's row, in its index row and
 everywhere else: said of the tables alone (internal/memory/sqlite.go, provider_session.go, forget.go).
 */
module SearchWrites {
  import opened SyncService
  import opened Replica
  import opened LocalRows
  import opened LocalTopics
  import opened SearchIndex

  // ------------------------------------------------------------- what is left

  /** The index finds the text it should, once, and nothing older. */
  predicate IndexSays(u: Searchable, id: string, title: string, topicKey: string, category: string, content: string) {
    id in u.index && u.index[id] == [IndexRow(title, topicKey, category, content)]
  }

  predicate NotIndexed(u: Searchable, id: string) {
    id !in u.index || u.index[id] == []
  }

  /** No other row, index row, deletion or conflict differs. */
  ghost predicate OnlyThatRow(s: Searchable, u: Searchable, id: string) {
    && (forall other | other != id :: other in u.local.observations <==> other in s.local.observations)
    && (forall other | other != id && other in s.local.observations :: u.local.observations[other] == s.local.observations[other])
    && (forall other | other != id :: other in u.index <==> other in s.index)
    && (forall other | other != id && other in s.index :: u.index[other] == s.index[other])
    && u.local.tombstones == s.local.tombstones && u.local.conflicts == s.local.conflicts
  }

  predicate SameOwners(s: Searchable, u: Searchable) {
    u.local.projects == s.local.projects && u.local.sessions == s.local.sessions
  }

  /** A missing project or session came in on version 0; the others are as before. */
  predicate OwnersAdded(s: Searchable, u: Searchable, o: Observation) {
    && u.local.projects == (if o.projectId in s.local.projects then s.local.projects else s.local.projects[o.projectId := 0])
    && u.local.sessions == (if o.sessionId == "" || o.sessionId in s.local.sessions then s.local.sessions
                            else s.local.sessions[o.sessionId := LocalSession(o.projectId, 0)])
  }

  /** The row at id was overwritten by what was to be written. */
  ghost predicate Overwritten(s: Searchable, u: Searchable, id: string, o: Observation, now: Time) {
    && id in s.local.observations && id in u.local.observations
    && RowSays(u.local.observations[id], o, s.local.observations[id].body.createdAt, now, s.local.observations[id].version)
    && (if o.lifecycle == Archived then NotIndexed(u, id) else IndexSays(u, id, o.title, o.topicKey, o.category, o.content))
    && OnlyThatRow(s, u, id) && OwnersAdded(s, u, o)
  }

  /** A row was added at id, on version 0; index rows that stood there already stay, in front. */
  ghost predicate Added(s: Searchable, u: Searchable, id: string, o: Observation, now: Time) {
    && id !in s.local.observations && id in u.local.observations
    && RowSays(u.local.observations[id], o, now, now, 0)
    && id in u.index
    && u.index[id] == (if id in s.index then s.index[id] else []) + [IndexRow(o.title, o.topicKey, o.category, o.content)]
    && OnlyThatRow(s, u, id) && OwnersAdded(s, u, o)
  }

  // ------------------------------------------------------------ what is needed

  predicate SessionFits(s: Searchable, o: Observation) {
    o.sessionId != "" && o.sessionId in s.local.sessions ==> s.local.sessions[o.sessionId].projectId == o.projectId
  }

  /** A row that may be overwritten by what is to be written. */
  predicate MayOverwrite(s: Searchable, id: string, o: Observation)
    requires id in s.local.observations
  {
    var row := s.local.observations[id].body;
    && !(SUMMARY_TOPIC <= row.topicKey) && !Erased(s.local, id)
    && row.projectId == o.projectId && row.scope == o.scope && row.provenance == o.provenance
    && (o.createdAt == row.createdAt || o.createdAt == ZERO_TIME)
    && row.state != LocalArchived
    && RefersWell(s.local, id, o) && TopicFree(s.local, id, o) && SessionFits(s, o)
  }

  // ------------------------------------------------------------------- updates

  lemma UpdateRowNeeds(s: Searchable, id: string, o: Observation, now: Time, queued: bool)
    requires id in s.local.observations
    ensures UpdateRow(s, id, o, now, queued).Some? <==> queued && MayOverwrite(s, id, o)
  {
    hide HasTombstone, ReferencesValid, TopicHeld, Erased, RefersWell, TopicFree, Rewritten, BodyOf;
    ErasedIs(s.local);
    RefersIs(s.local, id, o);
    TopicIs(s.local, id, o, o.(id := id, createdAt := s.local.observations[id].body.createdAt, updatedAt := now));
  }

  /** An update of a row, by its id or through its topic: when it succeeds and what it leaves. */
  lemma UpdateRowWrites(s: Searchable, id: string, o: Observation, now: Time, queued: bool)
    requires id in s.local.observations
    ensures UpdateRow(s, id, o, now, queued).Some? <==> queued && MayOverwrite(s, id, o)
    ensures UpdateRow(s, id, o, now, queued).Some? ==> Overwritten(s, UpdateRow(s, id, o, now, queued).value, id, o, now)
  {
    hide HasTombstone, ReferencesValid, TopicHeld, MayOverwrite, RowSays, BodyOf, Rewritten, OnlyThatRow, IndexSays, NotIndexed;
    var item := o.(id := id, createdAt := s.local.observations[id].body.createdAt, updatedAt := now);
    UpdateRowNeeds(s, id, o, now, queued);
    BodySays(o, item, s.local.observations[id].version);
    if UpdateRow(s, id, o, now, queued).Some? {
      RewrittenLeaves(s, s.(local := WithOwners(s.local, item).value), id, item, s.local.observations[id].version);
    }
  }

  lemma RewrittenLeaves(s: Searchable, t: Searchable, id: string, item: Observation, version: int)
    requires t == s.(local := s.local.(projects := t.local.projects, sessions := t.local.sessions))
    ensures var u := Rewritten(t, id, LocalRow(BodyOf(item), version));
            && id in u.local.observations && u.local.observations[id] == LocalRow(BodyOf(item), version)
            && u.local.projects == t.local.projects && u.local.sessions == t.local.sessions
            && OnlyThatRow(s, u, id)
            && if item.lifecycle == Archived then NotIndexed(u, id) else IndexSays(u, id, item.title, item.topicKey, item.category, item.content)
  {
    hide References;
  }

  /** Update: a valid item under the id of a row that may be overwritten by it. */
  lemma UpdateWrites(s: Searchable, o: Observation, now: Time, queued: bool)
    ensures UpdateItem(s, o, now, queued).Some? <==>
      ItemValid(o) && o.id != "" && o.id in s.local.observations && queued && MayOverwrite(s, o.id, o)
    ensures UpdateItem(s, o, now, queued).Some? ==> Overwritten(s, UpdateItem(s, o, now, queued).value, o.id, o, now)
  {
    hide ItemValid, UpdateRow, MayOverwrite, Overwritten;
    if o.id in s.local.observations {
      UpdateRowWrites(s, o.id, o, now, queued);
    }
  }

  // -------------------------------------------------------------------- saves

  /** A row may be added at id. */
  predicate MayAdd(s: Searchable, id: string, o: Observation) {
    id !in s.local.observations && !Erased(s.local, id) && TopicFree(s.local, id, o) && SessionFits(s, o)
  }

  lemma InsertWrites(s: Searchable, o: Observation, id: string, now: Time)
    requires !Erased(s.local, id)
    ensures var item := o.(id := id, createdAt := now, updatedAt := now);
            && (Insert(s, item).Some? <==> MayAdd(s, id, o))
            && (Insert(s, item).Some? ==> Added(s, Insert(s, item).value, id, o, now))
  {
    hide TopicHeld, Erased, TopicFree, RowSays, BodyOf, OnlyThatRow, Inserted;
    var item := o.(id := id, createdAt := now, updatedAt := now);
    TopicIs(s.local, id, o, item);
    BodySays(o, item, 0);
    if Insert(s, item).Some? {
      InsertedLeaves(s, WithOwners(s.local, item).value, item);
    }
  }

  lemma InsertedLeaves(s: Searchable, owned: Local, item: Observation)
    requires owned == s.local.(projects := owned.projects, sessions := owned.sessions)
    ensures var u := Searchable(owned.(observations := owned.observations[item.id := LocalRow(BodyOf(item), 0)]),
                                Inserted(s.index, item.id, IndexRowOf(BodyOf(item))));
            && OnlyThatRow(s, u, item.id) && item.id in u.index
            && u.index[item.id] == (if item.id in s.index then s.index[item.id] else []) + [IndexRow(item.title, item.topicKey, item.category, item.content)]
  {
    hide References;
  }

  /** Another row under its topic, which a save overwrites. */
  predicate Stood(s: Searchable, o: Observation) {
    o.topicKey != "" && exists id :: id in s.local.observations && StandsIn(s.local, id, o)
  }

  /**
   Save: what stands in the topic is overwritten, whatever id the item came with; where nothing does, a row is added
   under the item's id or a new one. Either succeeds exactly when the tables allow it.
   */
  lemma SaveWrites(s: Searchable, o: Observation, newId: string, now: Time, queued: bool)
    requires LocalTopicsUnique(s.local)
    ensures var id := if o.id == "" then newId else o.id;
            Save(s, o, newId, now, queued).Some? <==>
              && ItemValid(o) && (o.id == "" || !Erased(s.local, o.id)) && queued
              && if Stood(s, o) then forall held | held in s.local.observations && StandsIn(s.local, held, o) :: MayOverwrite(s, held, o)
                 else RefersWell(s.local, id, o) && MayAdd(s, id, o)
    ensures Save(s, o, newId, now, queued).Some? && Stood(s, o) ==>
      forall held | held in s.local.observations && StandsIn(s.local, held, o) ::
        Overwritten(s, Save(s, o, newId, now, queued).value, held, o, now)
    ensures Save(s, o, newId, now, queued).Some? && !Stood(s, o) ==>
      Added(s, Save(s, o, newId, now, queued).value, if o.id == "" then newId else o.id, o, now)
  {
    hide ItemValid, UpdateRow, Insert, MayOverwrite, Overwritten, Added, ReferencesValid, RefersWell, HasTombstone, Erased, LocalTopicsUnique, MayAdd;
    ErasedIs(s.local);
    HoldersAre(s, o);
    var saving := SaveAs(s, o, newId, now);
    match saving
    case Refused => RefersIs(s.local, if o.id == "" then newId else o.id, o);
    case Updates(id) =>
      UpdateRowWrites(s, id, o, now, queued);
      forall held | held in s.local.observations && StandsIn(s.local, held, o) ensures held == id {
        OneStands(s, o, held, id);
      }
    case Inserts(item) =>
      var id := if o.id == "" then newId else o.id;
      RefersIs(s.local, id, o);
      assert MayAdd(s, id, o) ==> !Erased(s.local, id) by { AddedIsNotErased(s, id, o); }
      if !Erased(s.local, id) {
        InsertWrites(s, o, id, now);
      }
  }

  lemma AddedIsNotErased(s: Searchable, id: string, o: Observation)
    ensures MayAdd(s, id, o) ==> !Erased(s.local, id)
  {
    hide Erased;
  }

  lemma HoldersAre(s: Searchable, o: Observation)
    ensures forall id :: HoldsTopic(s.local, id, o) <==> id in s.local.observations && StandsIn(s.local, id, o)
  {
    hide References;
  }

  lemma OneStands(s: Searchable, o: Observation, a: string, c: string)
    requires LocalTopicsUnique(s.local) && o.topicKey != "" && StandsIn(s.local, a, o) && StandsIn(s.local, c, o)
    ensures a == c
  {
    assert a == c || !TopicsClash(s.local.observations[a].body, s.local.observations[c].body);
  }

  // ----------------------------------------------------- content, archive, summary

  /** The row with other content, written later than before; the index says so if it said anything. */
  ghost predicate ContentReplaced(s: Searchable, u: Searchable, id: string, content: string, now: Time) {
    && id in s.local.observations && id in u.local.observations
    && OnlyThatRow(s, u, id) && SameOwners(s, u)
    && var before, after := s.local.observations[id], u.local.observations[id];
       && after.body.content == content
       && after.body.updatedAt > before.body.updatedAt && after.body.updatedAt >= now
       && (after.body.updatedAt == now || after.body.updatedAt == before.body.updatedAt + 1)
       && after == before.(body := before.body.(content := after.body.content, updatedAt := after.body.updatedAt))
       && (if NotIndexed(s, id) then NotIndexed(u, id) else IndexSays(u, id, before.body.title, before.body.topicKey, before.body.category, content))
  }

  /** UpdateObservation: new content for a row of the project that nobody wrote since it was read. */
  lemma ContentWrites(s: Searchable, id: string, project: string, content: string, expected: Time, now: Time, queued: bool)
    ensures UpdateContent(s, id, project, content, expected, now, queued).Some? <==>
      && id != "" && project != "" && expected != ZERO_TIME && ReplacementText(content)
      && id in s.local.observations && s.local.observations[id].body.projectId == project && s.local.observations[id].body.updatedAt == expected
      && !(SUMMARY_TOPIC <= s.local.observations[id].body.topicKey) && !Erased(s.local, id) && queued
    ensures UpdateContent(s, id, project, content, expected, now, queued).Some? ==>
      ContentReplaced(s, UpdateContent(s, id, project, content, expected, now, queued).value, id, content, now)
  {
    hide HasTombstone, Erased, ReplacementText;
    ErasedIs(s.local);
  }

  /** The row archived and in no index; one that was archived keeps its time. */
  ghost predicate PutAway(s: Searchable, u: Searchable, id: string, now: Time) {
    && id in s.local.observations && id in u.local.observations
    && NotIndexed(u, id) && OnlyThatRow(s, u, id) && SameOwners(s, u)
    && var before, after := s.local.observations[id], u.local.observations[id];
       && after.body.state == LocalArchived
       && after.body.updatedAt == (if before.body.state == LocalArchived then before.body.updatedAt else now)
       && after == before.(body := before.body.(state := after.body.state, updatedAt := after.body.updatedAt))
  }

  /** Forget: any row of the project and scope that is not deleted. */
  lemma ForgetWrites(s: Searchable, id: string, project: string, scope: string, now: Time, queued: bool)
    ensures Forget(s, id, project, scope, now, queued).Some? <==>
      && id != "" && project != "" && (scope == "project" || scope == "personal")
      && id in s.local.observations && s.local.observations[id].body.projectId == project && s.local.observations[id].body.scope == scope
      && !Erased(s.local, id) && queued
    ensures Forget(s, id, project, scope, now, queued).Some? ==> PutAway(s, Forget(s, id, project, scope, now, queued).value, id, now)
  {
    hide HasTombstone, Erased;
    ErasedIs(s.local);
  }

  /** The summary as a project-scoped, active observation of its own topic, by nobody but the session. */
  ghost predicate SummaryAdded(s: Searchable, u: Searchable, id: string, project: string, summary: string, now: Time) {
    && id !in s.local.observations && id in u.local.observations
    && OnlyThatRow(s, u, id)
    && u.local.projects == (if project in s.local.projects then s.local.projects else s.local.projects[project := 0])
    && u.local.sessions == s.local.sessions
    && var row := u.local.observations[id];
       && row.body.content == summary && row.body.category == "summary" && row.body.title == ""
       && row.body.topicKey == "provider-session-summary-" + id
       && row.body.projectId == project && row.body.scope == "project" && row.body.sessionId == "" && row.body.references == {}
       && row.body.provenance == Provenance("provider-session", "", "")
       && row.body.state == LocalActive && row.body.reviewAfter.None?
       && row.body.createdAt == now && row.body.updatedAt == now && row.version == 0
       && id in u.index
       && u.index[id] == (if id in s.index then s.index[id] else []) + [IndexRow("", row.body.topicKey, "summary", summary)]
  }

  /** A completed session: its summary goes in under a new id, unless a row or deletion has that id or another row its topic. */
  lemma SummaryWrites(s: Searchable, id: string, project: string, summary: string, now: Time, queued: bool)
    ensures EndSession(s, id, project, summary, now, queued).Some? <==>
      && queued && !Erased(s.local, id) && id !in s.local.observations
      && forall other | other in s.local.observations ::
           !(s.local.observations[other].body.projectId == project && s.local.observations[other].body.scope == "project"
             && s.local.observations[other].body.topicKey == "provider-session-summary-" + id)
    ensures EndSession(s, id, project, summary, now, queued).Some? ==>
      SummaryAdded(s, EndSession(s, id, project, summary, now, queued).value, id, project, summary, now)
  {
    hide HasTombstone, Erased, Insert, MayAdd, Added;
    var item := SummaryItem(id, project, summary, now);
    ErasedIs(s.local);
    if !Erased(s.local, id) {
      InsertWrites(s, item, id, now);
      SummaryMayBeAdded(s, item);
      if Insert(s, item).Some? {
        SummaryIsAdded(s, Insert(s, item).value, id, project, summary, now);
      }
    }
  }

  lemma SummaryMayBeAdded(s: Searchable, item: Observation)
    requires item.topicKey != "" && item.sessionId == "" && !Erased(s.local, item.id)
    ensures MayAdd(s, item.id, item) <==>
      item.id !in s.local.observations && forall other | other in s.local.observations :: !StandsIn(s.local, other, item)
  {
    hide Erased;
  }

  lemma SummaryIsAdded(s: Searchable, u: Searchable, id: string, project: string, summary: string, now: Time)
    requires Added(s, u, id, SummaryItem(id, project, summary, now), now)
    ensures SummaryAdded(s, u, id, project, summary, now)
  {
  }
}
