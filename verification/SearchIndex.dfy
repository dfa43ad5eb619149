/**
 The full-text index beside the observation rows (internal/memory/sqlite.go,
 provider_session.go, forget.go, sync.go): which operations change it, and that it
 always says what the rows say.
 */
module SearchIndex {
  import opened Options
  import opened SyncService
  import opened Replica

  /** One row of observations_fts. */
  datatype IndexRow = IndexRow(title: string, topicKey: string, category: string, content: string)

  /** The index rows of each id; nothing in the table itself keeps them unique. */
  type Index = map<string, seq<IndexRow>>

  datatype Searchable = Searchable(local: Local, index: Index)

  function RowsFor(index: Index, id: string): seq<IndexRow> {
    if id in index then index[id] else []
  }

  /** INSERT INTO observations_fts */
  function Inserted(index: Index, id: string, row: IndexRow): Index {
    index[id := RowsFor(index, id) + [row]]
  }

  /** DELETE FROM observations_fts WHERE id=? */
  function Deleted(index: Index, id: string): Index {
    index - {id}
  }

  function IndexRowOf(row: LocalObservation): IndexRow {
    IndexRow(row.title, row.topicKey, row.category, row.content)
  }

  /** Neither archived nor deleted. */
  predicate Live(local: Local, id: string) {
    && id in local.observations
    && local.observations[id].body.state != LocalArchived
    && !HasTombstone(local, id)
  }

  function Expected(local: Local, id: string): seq<IndexRow> {
    if Live(local, id) then [IndexRowOf(local.observations[id].body)] else []
  }

  predicate AgreesAt(s: Searchable, id: string) {
    RowsFor(s.index, id) == Expected(s.local, id)
  }

  /** Every live observation has exactly one index row, with its present text, and nothing else has any. */
  ghost predicate Agrees(s: Searchable) {
    forall id :: AgreesAt(s, id)
  }

  // ---------------------------------------------------------- local writes

  const MAX_CONTENT_RUNES := 4096
  const MAX_TITLE_RUNES := 256
  const MAX_LOCAL_REFERENCES := 50
  const SUMMARY_TOPIC := "provider-session-summary-"

  /** validateObservation */
  predicate ItemValid(o: Observation) {
    && o.projectId != "" && (o.scope == "project" || o.scope == "personal")
    && !Blank(o.category) && !Blank(o.content)
    && |o.content| <= MAX_CONTENT_RUNES && |o.title| <= MAX_TITLE_RUNES && |o.references| <= MAX_LOCAL_REFERENCES
    && o.provenance.producer != ""
    && (o.provenance.sourceProvider == "") == (o.provenance.sourceId == "")
    && o.lifecycle != Tombstoned
  }

  predicate IsSummary(row: LocalObservation) {
    SUMMARY_TOPIC <= row.topicKey
  }

  /** The row that holds the topic of an observation. */
  predicate HoldsTopic(local: Local, id: string, o: Observation) {
    && id in local.observations
    && SameTopic(local.observations[id].body, BodyOf(o))
  }

  /** observations_boundary_insert: a missing project or session is created on the way; a session of another project is refused. */
  function WithOwners(local: Local, o: Observation): Option<Local> {
    var owned := if o.projectId in local.projects then local else local.(projects := local.projects[o.projectId := 0]);
    if o.sessionId == "" then Some(owned)
    else if o.sessionId !in local.sessions then Some(owned.(sessions := local.sessions[o.sessionId := LocalSession(o.projectId, 0)]))
    else if local.sessions[o.sessionId].projectId != o.projectId then None
    else Some(owned)
  }

  /** insertObservation */
  function Insert(s: Searchable, o: Observation): Option<Searchable> {
    if o.id in s.local.observations || TopicHeld(s.local, o.id, BodyOf(o)) || WithOwners(s.local, o).None? then None
    else
      var owned := WithOwners(s.local, o).value;
      Some(Searchable(owned.(observations := owned.observations[o.id := LocalRow(BodyOf(o), 0)]),
                      Inserted(s.index, o.id, IndexRowOf(BodyOf(o)))))
  }

  /** A row rewritten, and its index row with it. */
  function Rewritten(s: Searchable, id: string, row: LocalRow): Searchable {
    Searchable(s.local.(observations := s.local.observations[id := row]),
               if row.body.state == LocalArchived then Deleted(s.index, id) else Inserted(Deleted(s.index, id), id, IndexRowOf(row.body)))
  }

  /** updateTx of the row at id. queued: enqueueLocalWrite takes the write. */
  function UpdateRow(s: Searchable, id: string, o: Observation, now: Time, queued: bool): Option<Searchable>
    requires id in s.local.observations
  {
    var row := s.local.observations[id];
    if IsSummary(row.body) || HasTombstone(s.local, id) then None
    else if || row.body.projectId != o.projectId || row.body.scope != o.scope || row.body.provenance != o.provenance
            || (row.body.createdAt != o.createdAt && o.createdAt != ZERO_TIME) then None
    else if row.body.state == LocalArchived || !ReferencesValid(s.local, o.(id := id)) then None
    else
      var item := o.(id := id, createdAt := row.body.createdAt, updatedAt := now);
      if TopicHeld(s.local, id, BodyOf(item)) || WithOwners(s.local, item).None? || !queued then None
      else Some(Rewritten(s.(local := WithOwners(s.local, item).value), id, LocalRow(BodyOf(item), row.version)))
  }

  datatype Saving = Refused | Updates(id: string) | Inserts(item: Observation)

  /** What Save turns into: a new row, or an update of the one that holds the topic. */
  ghost function SaveAs(s: Searchable, o: Observation, newId: string, now: Time): Saving {
    if !ItemValid(o) || (o.id != "" && HasTombstone(s.local, o.id)) then Refused
    else if o.topicKey != "" && exists id :: HoldsTopic(s.local, id, o) then
      var id :| HoldsTopic(s.local, id, o);
      Updates(id)
    else
      var item := o.(id := if o.id == "" then newId else o.id);
      if !ReferencesValid(s.local, item) then Refused else Inserts(item.(createdAt := now, updatedAt := now))
  }

  ghost function Save(s: Searchable, o: Observation, newId: string, now: Time, queued: bool): Option<Searchable> {
    match SaveAs(s, o, newId, now)
    case Refused => None
    case Updates(id) => if id in s.local.observations then UpdateRow(s, id, o, now, queued) else None
    case Inserts(item) => if HasTombstone(s.local, item.id) || !queued then None else Insert(s, item)
  }

  /** unicode.IsControl */
  predicate ControlChar(c: char) {
    c < ' ' || '\U{7F}' <= c <= '\U{9F}'
  }

  /** validText, of a content that must be there */
  predicate ReplacementText(content: string) {
    !Blank(content) && |content| <= MAX_CONTENT_RUNES && forall i | 0 <= i < |content| :: !ControlChar(content[i])
  }

  function UpdateItem(s: Searchable, o: Observation, now: Time, queued: bool): Option<Searchable> {
    if !ItemValid(o) || o.id == "" || o.id !in s.local.observations then None else UpdateRow(s, o.id, o, now, queued)
  }

  /** Store.UpdateObservation: new content for one row, if nothing else wrote it meanwhile. */
  function UpdateContent(s: Searchable, id: string, project: string, content: string, expected: Time, now: Time, queued: bool): Option<Searchable> {
    if id == "" || project == "" || expected == ZERO_TIME || !ReplacementText(content) then None
    else if id !in s.local.observations || s.local.observations[id].body.projectId != project then None
    else
      var row := s.local.observations[id];
      var at := if now > row.body.updatedAt then now else row.body.updatedAt + 1;
      if IsSummary(row.body) || row.body.updatedAt != expected || HasTombstone(s.local, id) || !queued then None
      else
        var body := row.body.(content := content, updatedAt := at);
        var emptied := Deleted(s.index, id);
        Some(Searchable(s.local.(observations := s.local.observations[id := row.(body := body)]),
                        if RowsFor(s.index, id) != [] then Inserted(emptied, id, IndexRowOf(body)) else emptied))
  }

  function Forget(s: Searchable, id: string, project: string, scope: string, now: Time, queued: bool): Option<Searchable> {
    if id == "" || project == "" || (scope != "project" && scope != "personal") then None
    else if id !in s.local.observations || s.local.observations[id].body.projectId != project || s.local.observations[id].body.scope != scope then None
    else if HasTombstone(s.local, id) || !queued then None
    else
      var row := s.local.observations[id];
      var body := if row.body.state == LocalArchived then row.body else row.body.(state := LocalArchived, updatedAt := now);
      Some(Searchable(s.local.(observations := s.local.observations[id := row.(body := body)]), Deleted(s.index, id)))
  }

  /** The summary EndProviderSession writes. */
  function SummaryItem(id: string, project: string, summary: string, now: Time): Observation {
    Observation(id, "", project, "", "project", "summary", summary, SUMMARY_TOPIC + id, [],
                Provenance("provider-session", "", ""), Active, Clear, now, now, None)
  }

  function EndSession(s: Searchable, id: string, project: string, summary: string, now: Time, queued: bool): Option<Searchable> {
    if HasTombstone(s.local, id) || !queued then None else Insert(s, SummaryItem(id, project, summary, now))
  }

  // ---------------------------------------------------------------- pulls

  /** applyPulledObservation, on the index. */
  function PulledRowIndex(index: Index, o: Observation, kind: MutationKind): Index {
    var row := IndexRowOf(BodyOf(o));
    if kind == Create then
      if StateOf(o) == LocalArchived then Deleted(Inserted(index, o.id, row), o.id) else Inserted(index, o.id, row)
    else if StateOf(o) == LocalArchived then Deleted(index, o.id)
    else Inserted(Deleted(index, o.id), o.id, row)
  }

  /** applyPulledMutation, on the index. */
  function PulledIndex(index: Index, c: Change): Index {
    var m := c.mutation;
    if c.disposition == ConflictChange then index
    else if m.kind == Tombstone then Deleted(index, m.recordId)
    else if m.kind == Resolve then
      if m.resolution.Some? && m.resolution.value.observation.Some? then
        PulledRowIndex(index, m.resolution.value.observation.value, Update)
      else index
    else if m.recordKind == ObservationKind && m.observation.Some? then PulledRowIndex(index, m.observation.value, m.kind)
    else index
  }

  function Pull(s: Searchable, c: Change): Option<Searchable> {
    match Apply(s.local, c)
    case NotApplied => None
    case Applied(local) => Some(Searchable(local, PulledIndex(s.index, c)))
  }

  // ------------------------------------------------------------- agreement

  /** Rows and deletions of other ids are as before. */
  predicate SameElsewhere(s: Searchable, u: Searchable, id: string, other: string) {
    && (other in u.local.observations <==> other in s.local.observations)
    && (other in s.local.observations ==> IndexedAlike(s.local.observations[other].body, u.local.observations[other].body))
    && HasTombstone(u.local, other) == HasTombstone(s.local, other)
    && RowsFor(u.index, other) == RowsFor(s.index, other)
  }

  /** Nothing the index shows differs. */
  predicate IndexedAlike(a: LocalObservation, c: LocalObservation) {
    IndexRowOf(a) == IndexRowOf(c) && (a.state == LocalArchived <==> c.state == LocalArchived)
  }

  /** An operation on one id leaves the others in agreement, so only that id decides. */
  lemma AgreesFromOne(s: Searchable, u: Searchable, id: string)
    requires Agrees(s)
    requires forall other | other != id :: SameElsewhere(s, u, id, other)
    ensures Agrees(u) <==> AgreesAt(u, id)
  {
    hide HasTombstone, RowsFor, IndexRowOf;
    forall other | other != id ensures AgreesAt(u, other) {
      assert AgreesAt(s, other) && SameElsewhere(s, u, id, other);
    }
  }

  lemma SameDeletions(local: Local, after: Local)
    requires after.tombstones == local.tombstones
    ensures forall id :: HasTombstone(after, id) == HasTombstone(local, id)
  {
  }

  lemma OwnersOnly(local: Local, o: Observation)
    requires WithOwners(local, o).Some?
    ensures var u := WithOwners(local, o).value; u.observations == local.observations && u.tombstones == local.tombstones && u.conflicts == local.conflicts
  {
  }

  /** A new row is indexed whatever its state: the index agrees if and only if it is not archived. */
  lemma InsertAgreesExactly(s: Searchable, o: Observation)
    requires Agrees(s) && Insert(s, o).Some? && !HasTombstone(s.local, o.id)
    ensures Agrees(Insert(s, o).value) <==> StateOf(o) != LocalArchived
  {
    hide TopicHeld, WithOwners, HasTombstone;
    var u := Insert(s, o).value;
    OwnersOnly(s.local, o);
    SameDeletions(s.local, u.local);
    assert AgreesAt(s, o.id);
    AgreesFromOne(s, u, o.id);
  }

  lemma RewrittenAgrees(s: Searchable, t: Searchable, id: string, row: LocalRow)
    requires Agrees(s) && !HasTombstone(s.local, id) && t.index == s.index
    requires t.local.observations == s.local.observations && t.local.tombstones == s.local.tombstones
    ensures Agrees(Rewritten(t, id, row))
  {
    hide HasTombstone;
    var u := Rewritten(t, id, row);
    SameDeletions(s.local, u.local);
    AgreesFromOne(s, u, id);
  }

  lemma UpdateRowAgrees(s: Searchable, id: string, o: Observation, now: Time, queued: bool)
    requires Agrees(s) && id in s.local.observations && UpdateRow(s, id, o, now, queued).Some?
    ensures Agrees(UpdateRow(s, id, o, now, queued).value)
  {
    hide HasTombstone, TopicHeld, ReferencesValid, WithOwners, Rewritten, Agrees, BodyOf;
    var row := s.local.observations[id];
    var item := o.(id := id, createdAt := row.body.createdAt, updatedAt := now);
    OwnersOnly(s.local, item);
    RewrittenAgrees(s, s.(local := WithOwners(s.local, item).value), id, LocalRow(BodyOf(item), row.version));
  }

  /** Save keeps the index right except when it inserts an observation that is archived from the start. */
  lemma SaveAgreesExactly(s: Searchable, o: Observation, newId: string, now: Time, queued: bool)
    requires Agrees(s) && Save(s, o, newId, now, queued).Some?
    ensures Agrees(Save(s, o, newId, now, queued).value) <==> !(SaveAs(s, o, newId, now).Inserts? && o.lifecycle == Archived)
  {
    hide HasTombstone, Agrees, Insert, UpdateRow, ReferencesValid, ItemValid, HoldsTopic;
    match SaveAs(s, o, newId, now)
    case Refused =>
    case Updates(id) => UpdateRowAgrees(s, id, o, now, queued);
    case Inserts(item) => InsertAgreesExactly(s, item);
  }

  lemma UpdateContentAgrees(s: Searchable, id: string, project: string, content: string, expected: Time, now: Time, queued: bool)
    requires Agrees(s) && UpdateContent(s, id, project, content, expected, now, queued).Some?
    ensures Agrees(UpdateContent(s, id, project, content, expected, now, queued).value)
  {
    hide HasTombstone;
    var u := UpdateContent(s, id, project, content, expected, now, queued).value;
    SameDeletions(s.local, u.local);
    assert AgreesAt(s, id);
    AgreesFromOne(s, u, id);
  }

  lemma ForgetAgrees(s: Searchable, id: string, project: string, scope: string, now: Time, queued: bool)
    requires Agrees(s) && Forget(s, id, project, scope, now, queued).Some?
    ensures Agrees(Forget(s, id, project, scope, now, queued).value)
  {
    hide HasTombstone;
    var u := Forget(s, id, project, scope, now, queued).value;
    SameDeletions(s.local, u.local);
    AgreesFromOne(s, u, id);
  }

  lemma EndSessionAgrees(s: Searchable, id: string, project: string, summary: string, now: Time, queued: bool)
    requires Agrees(s) && EndSession(s, id, project, summary, now, queued).Some?
    ensures Agrees(EndSession(s, id, project, summary, now, queued).value)
  {
    hide Insert, Agrees, HasTombstone;
    InsertAgreesExactly(s, SummaryItem(id, project, summary, now));
  }

  // ------------------------------------------------------------------ pulls

  lemma PulledRowAgrees(s: Searchable, o: Observation, kind: MutationKind, base: int, canonical: int)
    requires Agrees(s) && ApplyObservation(s.local, o, kind, base, canonical).Applied?
    ensures Agrees(Searchable(ApplyObservation(s.local, o, kind, base, canonical).local, PulledRowIndex(s.index, o, kind)))
  {
    hide HasTombstone, TopicHeld, ReferencesValid, TimesStorable, SameIdentity;
    var u := Searchable(ApplyObservation(s.local, o, kind, base, canonical).local, PulledRowIndex(s.index, o, kind));
    SameDeletions(s.local, u.local);
    assert AgreesAt(s, o.id);
    AgreesFromOne(s, u, o.id);
  }

  /** Marking a row for review changes nothing the index shows. */
  lemma PulledConflictAgrees(s: Searchable, c: Change)
    requires Agrees(s) && c.mutation.observation.Some? && ApplyConflict(s.local, c).Applied?
    ensures Agrees(Searchable(ApplyConflict(s.local, c).local, s.index))
  {
    hide HasTombstone, ConflictIdTaken;
    var u := Searchable(ApplyConflict(s.local, c).local, s.index);
    SameDeletions(s.local, u.local);
    assert AgreesAt(s, c.mutation.recordId);
    AgreesFromOne(s, u, c.mutation.recordId);
  }

  lemma DeletedElsewhere(local: Local, after: Local, sequence: int, id: string)
    requires sequence !in local.tombstones && after.tombstones.Keys == local.tombstones.Keys + {sequence}
    requires after.tombstones[sequence].recordId == id
    requires forall i | i in local.tombstones :: after.tombstones[i] == local.tombstones[i]
    ensures HasTombstone(after, id)
    ensures forall other | other != id :: HasTombstone(after, other) == HasTombstone(local, other)
  {
    assert sequence in after.tombstones;
    forall other | other != id ensures HasTombstone(after, other) == HasTombstone(local, other) {
      if i :| i in local.tombstones && local.tombstones[i].recordId == other {
        assert i in after.tombstones && after.tombstones[i].recordId == other;
      }
      if i :| i in after.tombstones && after.tombstones[i].recordId == other {
        assert i in local.tombstones && local.tombstones[i].recordId == other;
      }
    }
  }

  lemma PulledTombstoneAgrees(s: Searchable, c: Change)
    requires Agrees(s) && c.mutation.tombstone.Some? && ApplyTombstone(s.local, c).Applied?
    ensures Agrees(Searchable(ApplyTombstone(s.local, c).local, Deleted(s.index, c.mutation.recordId)))
  {
    hide HasTombstone;
    var u := Searchable(ApplyTombstone(s.local, c).local, Deleted(s.index, c.mutation.recordId));
    DeletedElsewhere(s.local, u.local, c.sequence, c.mutation.recordId);
    AgreesFromOne(s, u, c.mutation.recordId);
  }

  lemma SameRowsAgree(s: Searchable, local: Local)
    requires Agrees(s) && local.observations == s.local.observations && local.tombstones == s.local.tombstones
    ensures Agrees(Searchable(local, s.index))
  {
    hide HasTombstone;
    SameDeletions(s.local, local);
    forall id ensures AgreesAt(Searchable(local, s.index), id) {
      assert AgreesAt(s, id);
    }
  }

  lemma PulledResolveAgrees(s: Searchable, c: Change)
    requires Agrees(s) && c.mutation.resolution.Some? && c.mutation.resolution.value.observation.Some? && ApplyResolve(s.local, c).Applied?
    ensures Agrees(Searchable(ApplyResolve(s.local, c).local, PulledRowIndex(s.index, c.mutation.resolution.value.observation.value, Update)))
  {
    hide ApplyObservation, HasOpenConflict, Closed, Agrees, PulledRowIndex;
    var o := c.mutation.resolution.value.observation.value;
    PulledRowAgrees(s, o, Update, c.mutation.baseVersion, c.canonicalVersion);
    var winner := ApplyObservation(s.local, o, Update, c.mutation.baseVersion, c.canonicalVersion).local;
    SameRowsAgree(Searchable(winner, PulledRowIndex(s.index, o, Update)), ApplyResolve(s.local, c).local);
  }

  /** Every pulled change that applies keeps the index right. */
  lemma PullAgrees(s: Searchable, c: Change)
    requires Agrees(s) && Pull(s, c).Some?
    ensures Agrees(Pull(s, c).value)
  {
    hide Agrees, ApplyObservation, ApplyConflict, ApplyTombstone, ApplyResolve, PulledRowIndex, Deleted;
    var m := c.mutation;
    if c.disposition == ConflictChange {
      PulledConflictAgrees(s, c);
    } else if m.kind == Tombstone {
      PulledTombstoneAgrees(s, c);
    } else if m.kind == Resolve {
      PulledResolveAgrees(s, c);
    } else if m.recordKind == ObservationKind {
      PulledRowAgrees(s, m.observation.value, m.kind, m.baseVersion, c.canonicalVersion);
    } else {
      SameRowsAgree(s, Apply(s.local, c).local);
    }
  }

  // ------------------------------------------------------------------- runs

  datatype Write =
    | SaveWrite(o: Observation, newId: string, now: Time, queued: bool)
    | UpdateWrite(o: Observation, now: Time, queued: bool)
    | ContentWrite(id: string, project: string, content: string, expected: Time, now: Time, queued: bool)
    | ForgetWrite(id: string, project: string, scope: string, now: Time, queued: bool)
    | SessionEndWrite(id: string, project: string, summary: string, now: Time, queued: bool)
    | PullWrite(c: Change)

  ghost function Attempt(s: Searchable, w: Write): Option<Searchable> {
    match w
    case SaveWrite(o, newId, now, queued) => Save(s, o, newId, now, queued)
    case UpdateWrite(o, now, queued) => UpdateItem(s, o, now, queued)
    case ContentWrite(id, project, content, expected, now, queued) => UpdateContent(s, id, project, content, expected, now, queued)
    case ForgetWrite(id, project, scope, now, queued) => Forget(s, id, project, scope, now, queued)
    case SessionEndWrite(id, project, summary, now, queued) => EndSession(s, id, project, summary, now, queued)
    case PullWrite(c) => Pull(s, c)
  }

  ghost function After(s: Searchable, writes: seq<Write>): Searchable {
    if writes == [] then s
    else
      var before := After(s, writes[..|writes| - 1]);
      var r := Attempt(before, writes[|writes| - 1]);
      if r.Some? then r.value else before
  }

  /** Remember, the only caller that saves, never asks for an archived observation. */
  predicate NeverSavesArchived(writes: seq<Write>) {
    forall i | 0 <= i < |writes| && writes[i].SaveWrite? :: writes[i].o.lifecycle != Archived
  }

  lemma AttemptAgrees(s: Searchable, w: Write)
    requires Agrees(s) && Attempt(s, w).Some? && (w.SaveWrite? ==> w.o.lifecycle != Archived)
    ensures Agrees(Attempt(s, w).value)
  {
    hide Agrees, Save, UpdateRow, UpdateContent, Forget, EndSession, Pull, SaveAs, ItemValid;
    match w
    case SaveWrite(o, newId, now, queued) => SaveAgreesExactly(s, o, newId, now, queued);
    case UpdateWrite(o, now, queued) => UpdateRowAgrees(s, o.id, o, now, queued);
    case ContentWrite(id, project, content, expected, now, queued) => UpdateContentAgrees(s, id, project, content, expected, now, queued);
    case ForgetWrite(id, project, scope, now, queued) => ForgetAgrees(s, id, project, scope, now, queued);
    case SessionEndWrite(id, project, summary, now, queued) => EndSessionAgrees(s, id, project, summary, now, queued);
    case PullWrite(c) => PullAgrees(s, c);
  }

  /** After any mix of local writes and pulls the index says what the rows say. */
  lemma {:induction false} IndexAlwaysAgrees(s: Searchable, writes: seq<Write>)
    requires Agrees(s) && NeverSavesArchived(writes)
    ensures Agrees(After(s, writes))
    decreases |writes|
  {
    hide Agrees, Attempt;
    if writes != [] {
      var front := writes[..|writes| - 1];
      IndexAlwaysAgrees(s, front);
      var before := After(s, front);
      if Attempt(before, writes[|writes| - 1]).Some? {
        AttemptAgrees(before, writes[|writes| - 1]);
      }
    }
  }

  lemma EmptyAgrees()
    ensures Agrees(Searchable(EMPTY_STORE, map[]))
  {
  }

  // ----------------------------------------------------------------- search

  /** The rows a search can reach: joined with the index and not deleted. */
  predicate Findable(s: Searchable, id: string, row: IndexRow) {
    id in s.local.observations && row in RowsFor(s.index, id) && !HasTombstone(s.local, id)
  }

  /** A search reaches an observation if and only if it is live, and by exactly its present text. */
  lemma FindsExactlyTheLive(s: Searchable, id: string, row: IndexRow)
    requires Agrees(s)
    ensures Findable(s, id, row) <==> Live(s.local, id) && row == IndexRowOf(s.local.observations[id].body)
  {
    hide HasTombstone;
    assert AgreesAt(s, id);
  }

  /** What was forgotten can no longer be found. */
  lemma ForgottenIsNotFound(s: Searchable, id: string, project: string, scope: string, now: Time, queued: bool, row: IndexRow)
    requires Agrees(s) && Forget(s, id, project, scope, now, queued).Some?
    ensures !Findable(Forget(s, id, project, scope, now, queued).value, id, row)
    ensures IsArchived(Forget(s, id, project, scope, now, queued).value.local, id)
  {
    hide HasTombstone;
  }

  predicate IsArchived(local: Local, id: string) {
    id in local.observations && local.observations[id].body.state == LocalArchived
  }

  lemma UpdateRowKeepsArchived(s: Searchable, id: string, o: Observation, now: Time, queued: bool, archived: string)
    requires id in s.local.observations && UpdateRow(s, id, o, now, queued).Some? && IsArchived(s.local, archived)
    ensures IsArchived(UpdateRow(s, id, o, now, queued).value.local, archived)
  {
    hide HasTombstone, TopicHeld, ReferencesValid, WithOwners, BodyOf;
    var item := o.(id := id, createdAt := s.local.observations[id].body.createdAt, updatedAt := now);
    OwnersOnly(s.local, item);
  }

  lemma InsertKeepsArchived(s: Searchable, o: Observation, archived: string)
    requires Insert(s, o).Some? && IsArchived(s.local, archived)
    ensures IsArchived(Insert(s, o).value.local, archived)
  {
    hide TopicHeld, WithOwners, BodyOf;
    OwnersOnly(s.local, o);
  }

  /** No local write takes an observation out of the archive. */
  lemma LocalWriteKeepsArchived(s: Searchable, w: Write, id: string)
    requires !w.PullWrite? && Attempt(s, w).Some? && IsArchived(s.local, id)
    ensures IsArchived(Attempt(s, w).value.local, id)
  {
    hide HasTombstone, UpdateRow, Insert, SaveAs, ItemValid;
    match w
    case SaveWrite(o, newId, now, queued) =>
      var saving := SaveAs(s, o, newId, now);
      if saving.Updates? {
        UpdateRowKeepsArchived(s, saving.id, o, now, queued, id);
      } else {
        InsertKeepsArchived(s, saving.item, id);
      }
    case UpdateWrite(o, now, queued) => UpdateRowKeepsArchived(s, o.id, o, now, queued, id);
    case ContentWrite(_, _, _, _, _, _) =>
    case ForgetWrite(_, _, _, _, _) =>
    case SessionEndWrite(summaryId, project, summary, now, queued) => InsertKeepsArchived(s, SummaryItem(summaryId, project, summary, now), id);
  }

  /** Forgotten content stays out of every search until a pull brings the observation back. */
  lemma {:induction false} ForgottenStays(s: Searchable, writes: seq<Write>, id: string, row: IndexRow)
    requires Agrees(s) && NeverSavesArchived(writes) && IsArchived(s.local, id)
    requires forall i | 0 <= i < |writes| :: !writes[i].PullWrite?
    ensures IsArchived(After(s, writes).local, id) && !Findable(After(s, writes), id, row)
    decreases |writes|
  {
    hide Agrees, Attempt, Findable;
    if writes != [] {
      var front := writes[..|writes| - 1];
      ForgottenStays(s, front, id, row);
      var before := After(s, front);
      if Attempt(before, writes[|writes| - 1]).Some? {
        LocalWriteKeepsArchived(before, writes[|writes| - 1], id);
      }
    }
    IndexAlwaysAgrees(s, writes);
    FindsExactlyTheLive(After(s, writes), id, row);
  }

  /** Forgetting is for good: by no later mix of local writes does a search reach the observation again. */
  lemma ForgettingLasts(s: Searchable, id: string, project: string, scope: string, now: Time, queued: bool, writes: seq<Write>, row: IndexRow)
    requires Agrees(s) && Forget(s, id, project, scope, now, queued).Some?
    requires NeverSavesArchived(writes) && forall i | 0 <= i < |writes| :: !writes[i].PullWrite?
    ensures !Findable(After(Forget(s, id, project, scope, now, queued).value, writes), id, row)
  {
    hide Agrees, Forget, After, Findable;
    ForgetAgrees(s, id, project, scope, now, queued);
    ForgottenIsNotFound(s, id, project, scope, now, queued, row);
    ForgottenStays(Forget(s, id, project, scope, now, queued).value, writes, id, row);
  }
}
