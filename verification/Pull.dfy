/** Reading the history back in pages (pull, internal/syncpg/repository.go). */
module Pull {
  import opened Options
  import opened Uuids
  import opened SyncService
  import opened Tables
  import opened Recovery

  const MAX_PULL_LIMIT := 25
  const PAGE_BUDGET := MAX_PULL_RESPONSE_BYTES - 4096

  // ------------------------------------------------------ JSON snapshots

  /** snapshot->>'id' */
  function JsonId(s: Snapshot): Option<string> {
    match s
    case ProjectSnapshot(p) => Some(p.id)
    case SessionSnapshot(x) => Some(x.id)
    case ObservationSnapshot(o) => Some(o.id)
    case TombstoneSnapshot(_) => None
  }

  /** snapshot->>'project_id'; a tombstone leaves the field out when it is empty. */
  function JsonProjectId(s: Snapshot): Option<string> {
    match s
    case ProjectSnapshot(_) => None
    case SessionSnapshot(x) => Some(x.projectId)
    case ObservationSnapshot(o) => Some(o.projectId)
    case TombstoneSnapshot(d) => if d.projectId == "" then None else Some(d.projectId)
  }

  function OrEmpty(s: Option<string>): string {
    if s.Some? then s.value else ""
  }

  // Decoding one kind's JSON as another keeps the shared fields and zeroes the rest.

  function AsProject(s: Snapshot): Project {
    Project(OrEmpty(JsonId(s)))
  }

  function AsSession(s: Snapshot): Session {
    Session(OrEmpty(JsonId(s)), OrEmpty(JsonProjectId(s)))
  }

  function AsObservation(s: Snapshot): Observation {
    if s.ObservationSnapshot? then s.observation
    else Observation(OrEmpty(JsonId(s)), "", OrEmpty(JsonProjectId(s)), "", "", "", "", "", [], Provenance("", "", ""),
                     Active, Clear, ZERO_TIME, ZERO_TIME, None)
  }

  function AsTombstone(s: Snapshot): Deletion {
    if s.TombstoneSnapshot? then s.tombstone else Deletion(ZERO_TIME, OrEmpty(JsonProjectId(s)))
  }

  // ---------------------------------------------------------------- rows

  /** One row of the pull query. */
  datatype PullRow = PullRow(
    sequence: int,
    recordKind: RecordKind,
    recordId: string,
    canonicalVersion: int,
    changeKind: ChangeDisposition,
    mutationId: string,
    kind: MutationKind,
    base: int,
    conflictIds: seq<string>,
    snapshot: Snapshot,
    previous: Option<Snapshot>,
    deletedAt: Option<Time>,
    createdConflicts: set<string>)

  /** The latest accepted snapshot of a record at a version. */
  function LastAccepted(versions: seq<VersionRow>, kind: RecordKind, id: string, version: int): Option<Snapshot> {
    if versions == [] then None
    else
      var v := versions[|versions| - 1];
      if IsVersionOf(v, kind, id, version) && v.disposition == AcceptedChange then Some(v.snapshot)
      else LastAccepted(versions[..|versions| - 1], kind, id, version)
  }

  function CreatedConflicts(t: Tables, i: int): set<string>
    requires i in t.changes
  {
    set f | f in t.conflicts
        && t.conflicts[f].createdSeq == i
        && t.conflicts[f].observationId == t.changes[i].recordId
        && t.conflicts[f].competingVersionId == t.changes[i].versionId
        && t.conflicts[f].canonicalVersion == t.changes[i].canonicalVersion
  }

  function DeletedAt(t: Tables, i: int): Option<Time>
    requires i in t.changes
  {
    var c := t.changes[i];
    if c.recordKind == ObservationKind && c.recordId in t.tombstones && t.tombstones[c.recordId].versionId == c.versionId then
      Some(t.tombstones[c.recordId].deletedAt)
    else None
  }

  /** The join of a change with its mutation and version: no row when they do not match. */
  function RowAt(t: Tables, i: int): Option<PullRow> {
    if i !in t.changes || !ChangeMatches(t, i) then None
    else
      var c := t.changes[i];
      var m := t.mutations[c.source];
      Some(PullRow(
        i, c.recordKind, c.recordId, c.canonicalVersion, c.changeKind, c.source.mutationId, m.kind, m.baseVersion,
        if m.resolutionConflictIds.Some? then m.resolutionConflictIds.value else [],
        t.versions[c.versionId].snapshot,
        if m.kind == Tombstone then LastAccepted(t.versions, c.recordKind, c.recordId, m.baseVersion) else None,
        DeletedAt(t, i),
        CreatedConflicts(t, i)))
  }

  /** The project a row belongs to: that of the erased version, for a tombstone. */
  function Membership(row: PullRow): Option<string> {
    match row.recordKind
    case ProjectKind => JsonId(row.snapshot)
    case SessionKind => JsonProjectId(row.snapshot)
    case ObservationKind =>
      if row.kind != Tombstone then JsonProjectId(row.snapshot)
      else if row.previous.Some? then JsonProjectId(row.previous.value)
      else None
  }

  predicate Selected(t: Tables, project: string, i: int) {
    RowAt(t, i).Some? && (project == "" || Membership(RowAt(t, i).value) == Some(project))
  }

  /** The rows with position < sequence <= watermark, in sequence order. */
  function SelectRows(t: Tables, project: string, position: int, watermark: int): seq<PullRow>
    decreases watermark - position
  {
    if watermark <= position then []
    else SelectRows(t, project, position, watermark - 1)
         + if Selected(t, project, watermark) then [RowAt(t, watermark).value] else []
  }

  predicate MissingMembership(t: Tables, position: int, watermark: int) {
    exists i | position < i <= watermark :: RowAt(t, i).Some? && Membership(RowAt(t, i).value).None?
  }

  // ------------------------------------------------------------- changes

  const MICROSECOND := 1000

  predicate TimestampsWithinMicrosecond(left: Time, right: Time) {
    if left == right then true
    else if left < right then right - left < MICROSECOND
    else left - right < MICROSECOND
  }

  function PullMutation(row: PullRow): Option<Mutation> {
    var m := Mutation(row.mutationId, row.recordId, row.recordKind, row.kind, row.base, None, None, None, None, None);
    match row.kind
    case Tombstone =>
      if row.deletedAt.None? || !TimestampsWithinMicrosecond(AsTombstone(row.snapshot).deletedAt, row.deletedAt.value) then None
      else if row.previous.None? || AsObservation(row.previous.value).projectId == "" then None
      else Some(m.(tombstone := Some(AsTombstone(row.snapshot).(projectId := AsObservation(row.previous.value).projectId))))
    case Resolve =>
      if row.conflictIds == [] then None
      else Some(m.(resolution := Some(Resolution(row.conflictIds, Some(AsObservation(row.snapshot))))))
    case Create | Update =>
      (match row.recordKind
       case ProjectKind => Some(m.(project := Some(AsProject(row.snapshot))))
       case SessionKind => Some(m.(session := Some(AsSession(row.snapshot))))
       case ObservationKind => Some(m.(observation := Some(AsObservation(row.snapshot)))))
    case Archive => Some(m.(observation := Some(AsObservation(row.snapshot))))
  }

  lemma SingletonElement(s: set<string>, x: string, y: string)
    requires |s| == 1 && x in s && y in s
    ensures x == y
  {
    assert |s - {x}| == 0;
  }

  function Single(s: set<string>): string
    requires |s| == 1
  {
    assert exists x :: x in s by {
      assert s != {};
    }
    assert forall x, y | x in s && y in s :: x == y by {
      forall x, y | x in s && y in s ensures x == y { SingletonElement(s, x, y); }
    }
    var x :| x in s; x
  }

  /** The change as served, before its hash. */
  function Envelope(row: PullRow, m: Mutation): Option<Change> {
    var change := Change(row.sequence, row.canonicalVersion, None, Unstated, "", m, Unhashed);
    match row.changeKind
    case ConflictChange =>
      if |row.createdConflicts| != 1 then None
      else Some(change.(hashVersion := Some(2), disposition := ConflictChange, conflictId := Single(row.createdConflicts)))
    case AcceptedChange =>
      if row.createdConflicts != {} then None
      else if m.kind == Tombstone || m.kind == Resolve then Some(change.(hashVersion := Some(2), disposition := AcceptedChange))
      else Some(change)
    case Unstated => None
  }

  function BuildChange(row: PullRow): Option<Change> {
    var m := PullMutation(row);
    if m.None? || row.canonicalVersion < 1 || ValidateMutation(m.value) != Valid then None
    else
      var change := Envelope(row, m.value);
      if change.None? || CanonicalChangeHash(change.value).None? then None
      else Some(change.value.(changeHash := CanonicalChangeHash(change.value).value))
  }

  // --------------------------------------------------------------- pages

  datatype Collected = Refused | Collected(changes: seq<Change>, hasMore: bool)

  /** Taking rows until the limit or the byte budget is reached. */
  function Collect(rows: seq<PullRow>, project: string, position: int, limit: int, remaining: int, size: Change -> nat,
                   taken: seq<Change>): Collected
    decreases |rows|
  {
    if rows == [] then Collected(taken, false)
    else
      var row := rows[0];
      if project == "" && row.sequence != position + |taken| + 1 then Refused
      else if |taken| == limit then Collected(taken, true)
      else if BuildChange(row).None? then Refused
      else
        var change := BuildChange(row).value;
        if size(change) > remaining && taken == [] then Refused
        else if size(change) > remaining then Collected(taken, true)
        else Collect(rows[1..], project, position, limit, remaining - size(change), size, taken + [change])
  }

  datatype PullOutcome = Unauthenticated | PullRefused | Page(page: PullPage)

  /** ownerState: least, greatest and number of sequences. */
  predicate OwnerStateValid(t: Tables) {
    (forall i | i in t.changes :: 1 <= i < t.nextSeq) && |t.changes| == t.nextSeq - 1
  }

  /** uuid.Nil is a valid project for no one; validProjectID also wants lower case. */
  predicate ValidProjectId(id: string) {
    IsCanonicalUuid(id)
  }

  function EffectiveWatermark(t: Tables, cursor: Cursor): int {
    if cursor.watermark == 0 then t.nextSeq - 1 else cursor.watermark
  }

  /** Everything pull checks before it reads rows. */
  function Admission(t: Tables, history: string, device: string, cursor: Cursor, project: string, limit: int): Option<PullOutcome> {
    var watermark := EffectiveWatermark(t, cursor);
    if device == NIL_UUID || limit < 1 || limit > MAX_PULL_LIMIT || !ValidateCursor(cursor) then Some(PullRefused)
    else if device !in t.devices || t.devices[device] then Some(Unauthenticated)
    else if !OwnerStateValid(t) || !ResolvesMatch(t) then Some(PullRefused)
    else if Lower(cursor.historyId) != history then Some(PullRefused)
    else if watermark < cursor.position || watermark > t.nextSeq - 1 then Some(PullRefused)
    else if project != "" && MissingMembership(t, cursor.position, watermark) then Some(PullRefused)
    else None
  }

  function Min(a: int, b: int): int {
    if a < b then a else b
  }

  function Limited(rows: seq<PullRow>, limit: int): seq<PullRow>
    requires 0 <= limit
  {
    rows[..Min(limit + 1, |rows|)]
  }

  function FinishPage(collected: Collected, history: string, cursor: Cursor, watermark: int, project: string): PullOutcome {
    if collected.Refused? then PullRefused
    else
      var changes := collected.changes;
      if project == "" && !collected.hasMore && cursor.position + |changes| != watermark then PullRefused
      else
        var last := if changes != [] then changes[|changes| - 1].sequence else cursor.position;
        var position := if project != "" && !collected.hasMore then watermark else last;
        Page(PullPage(Cursor(history, position, watermark), collected.hasMore, changes))
  }

  /** project "" is Pull; any other project is PullProject. */
  function PullPageOf(t: Tables, history: string, device: string, cursor: Cursor, project: string, limit: int, size: Change -> nat): PullOutcome {
    if project != "" && !ValidProjectId(project) then PullRefused
    else if Admission(t, history, device, cursor, project, limit).Some? then Admission(t, history, device, cursor, project, limit).value
    else
      var watermark := EffectiveWatermark(t, cursor);
      var rows := Limited(SelectRows(t, project, cursor.position, watermark), limit);
      FinishPage(Collect(rows, project, cursor.position, limit, PAGE_BUDGET, size, []), history, cursor, watermark, project)
  }

  /** The loop of pull. */
  method PullHistory(t: Tables, history: string, device: string, cursor: Cursor, project: string, limit: int, size: Change -> nat)
    returns (outcome: PullOutcome)
    ensures outcome == PullPageOf(t, history, device, cursor, project, limit, size)
  {
    hide BuildChange, SelectRows, ValidateCursor, OwnerStateValid, ResolvesMatch, MissingMembership, IsCanonicalUuid;
    if project != "" && !ValidProjectId(project) {
      return PullRefused;
    }
    var refusal := Admission(t, history, device, cursor, project, limit);
    if refusal.Some? {
      return refusal.value;
    }
    var watermark := EffectiveWatermark(t, cursor);
    var rows := Limited(SelectRows(t, project, cursor.position, watermark), limit);
    var changes: seq<Change> := [];
    var hasMore := false;
    var remaining := PAGE_BUDGET;
    var k := 0;
    ghost var result := Collect(rows, project, cursor.position, limit, PAGE_BUDGET, size, []);
    while k < |rows|
      invariant 0 <= k <= |rows|
      invariant !hasMore
      invariant Collect(rows[k..], project, cursor.position, limit, remaining, size, changes) == result
    {
      var row := rows[k];
      assert rows[k..][0] == row && rows[k..][1..] == rows[k + 1..];
      if project == "" && row.sequence != cursor.position + |changes| + 1 {
        return PullRefused;
      }
      if |changes| == limit {
        hasMore := true;
        break;
      }
      var built := BuildChange(row);
      if built.None? {
        return PullRefused;
      }
      var encoded := size(built.value);
      if encoded > remaining && changes == [] {
        return PullRefused;
      }
      if encoded > remaining {
        hasMore := true;
        break;
      }
      remaining := remaining - encoded;
      changes := changes + [built.value];
      k := k + 1;
    }
    assert result == Collected(changes, hasMore);
    if project == "" && !hasMore && cursor.position + |changes| != watermark {
      return PullRefused;
    }
    var position := cursor.position;
    if changes != [] {
      position := changes[|changes| - 1].sequence;
    }
    if project != "" && !hasMore {
      position := watermark;
    }
    outcome := Page(PullPage(Cursor(history, position, watermark), hasMore, changes));
  }
}
