/**
 The records, mutations and pages exchanged by devices and server, and the
 validation both sides apply to them (internal/syncservice).
 */
module SyncService {
  import opened Options
  import opened Uuids

  /** Nanoseconds since the Unix epoch. */
  type Time = int

  /** Go's zero time, 1 January of year 1. */
  const ZERO_TIME: Time := -62135596800 * 1_000_000_000
  const MAX_INT64 := 0x7fff_ffff_ffff_ffff

  const MAX_PULL_RESPONSE_BYTES := 0x20_0000
  const MAX_RECORD_ID_BYTES := 1024
  const MAX_FIELD_BYTES := 512
  const MAX_CONTENT_BYTES := 0x1_0000
  const MAX_REFERENCES := 128

  datatype RecordKind = ProjectKind | SessionKind | ObservationKind
  datatype MutationKind = Create | Update | Archive | Tombstone | Resolve
  datatype Lifecycle = Active | Archived | Tombstoned
  datatype Review = Clear | NeedsReview

  datatype Project = Project(id: string)
  datatype Session = Session(id: string, projectId: string)
  datatype Provenance = Provenance(producer: string, sourceProvider: string, sourceId: string)

  datatype Observation = Observation(
    id: string,
    title: string,
    projectId: string,
    sessionId: string,
    scope: string,
    category: string,
    content: string,
    topicKey: string,
    references: seq<string>,
    provenance: Provenance,
    lifecycle: Lifecycle,
    review: Review,
    createdAt: Time,
    updatedAt: Time,
    reviewAfter: Option<Time>)

  datatype Resolution = Resolution(conflictIds: seq<string>, observation: Option<Observation>)
  datatype Deletion = Deletion(deletedAt: Time, projectId: string)

  datatype Mutation = Mutation(
    mutationId: string,
    recordId: string,
    recordKind: RecordKind,
    kind: MutationKind,
    baseVersion: int,
    project: Option<Project>,
    session: Option<Session>,
    observation: Option<Observation>,
    tombstone: Option<Deletion>,
    resolution: Option<Resolution>)

  datatype ChangeDisposition = Unstated | AcceptedChange | ConflictChange

  /** SHA-256 taken as collision-free: a digest stands for exactly the value it was taken of. */
  datatype ChangeHash = Unhashed | ChangeDigest(
    hashVersion: int,
    sequence: int,
    canonicalVersion: int,
    disposition: ChangeDisposition,
    conflictId: string,
    mutation: Mutation)

  datatype Change = Change(
    sequence: int,
    canonicalVersion: int,
    hashVersion: Option<int>,
    disposition: ChangeDisposition,
    conflictId: string,
    mutation: Mutation,
    changeHash: ChangeHash)

  datatype Cursor = Cursor(historyId: string, position: int, watermark: int)
  datatype PullPage = PullPage(cursor: Cursor, hasMore: bool, changes: seq<Change>)

  datatype Disposition = Accepted | PreviouslyAccepted | Conflict | Rejected

  datatype ResultCode =
    | NoCode
    | InvalidDevice
    | Revoked
    | InvalidInput
    | UnsupportedSemantic
    | MutationIdHashMismatch
    | InvalidReplay
    | InvalidBase
    | StaleBase
    | InvalidPrerequisite
    | TopicCollision
    | OtherCode(text: string)

  datatype Result = Result(
    mutationId: string,
    disposition: Disposition,
    retryable: bool,
    code: ResultCode,
    sequence: Option<int>,
    version: int)

  datatype Validation = Valid | ErrUnsupportedSemantic | ErrLimitExceeded | ErrInvalidMutation

  // ---------------------------------------------------------------- text

  /** Bytes of one character in UTF-8. */
  function Utf8Width(c: char): nat {
    var n := c as int;
    if n < 0x80 then 1 else if n < 0x800 then 2 else if n < 0x1_0000 then 3 else 4
  }

  function ByteLength(s: string): nat {
    if s == "" then 0 else Utf8Width(s[0]) + ByteLength(s[1..])
  }

  lemma {:induction false} ShortText(s: string)
    ensures ByteLength(s) <= 4 * |s|
  {
    if s != "" {
      ShortText(s[1..]);
    }
  }

  /** Go's unicode.IsSpace. */
  predicate IsSpace(c: char) {
    var n := c as int;
    || 9 <= n <= 13 || n == 0x20 || n == 0x85 || n == 0xa0 || n == 0x1680
    || 0x2000 <= n <= 0x200a || n == 0x2028 || n == 0x2029 || n == 0x202f || n == 0x205f || n == 0x3000
  }

  predicate Blank(s: string) {
    forall i | 0 <= i < |s| :: IsSpace(s[i])
  }

  predicate ValidOptionalText(s: string, max: int) {
    && ByteLength(s) <= max
    && forall i | 0 <= i < |s| :: s[i] as int >= 0x20 && s[i] as int != 0x7f
  }

  predicate ValidRequiredText(s: string, max: int) {
    !Blank(s) && ValidOptionalText(s, max)
  }

  predicate ValidContent(s: string, max: int) {
    && ByteLength(s) <= max
    && forall i | 0 <= i < |s| :: (s[i] as int >= 0x20 || s[i] == '\n' || s[i] == '\t') && s[i] as int != 0x7f
  }

  predicate ValidId(s: string) {
    ValidRequiredText(s, MAX_RECORD_ID_BYTES)
  }

  // ------------------------------------------------------------ payloads

  predicate Distinct(ids: seq<string>) {
    forall i, j | 0 <= i < j < |ids| :: ids[i] != ids[j]
  }

  predicate ValidProvenance(p: Provenance) {
    && ValidRequiredText(p.producer, MAX_FIELD_BYTES)
    && (|| (p.sourceProvider == "" && p.sourceId == "")
        || (ValidRequiredText(p.sourceProvider, MAX_FIELD_BYTES) && ValidRequiredText(p.sourceId, MAX_FIELD_BYTES)))
  }

  predicate ValidObservation(o: Observation) {
    && ValidId(o.id)
    && ValidId(o.projectId)
    && (o.sessionId == "" || ValidId(o.sessionId))
    && ValidOptionalText(o.title, MAX_FIELD_BYTES)
    && (o.scope == "project" || o.scope == "personal")
    && ValidRequiredText(o.category, MAX_FIELD_BYTES)
    && !Blank(o.content) && ValidContent(o.content, MAX_CONTENT_BYTES)
    && ValidOptionalText(o.topicKey, MAX_FIELD_BYTES)
    && ValidProvenance(o.provenance)
    && (o.lifecycle == Active || o.lifecycle == Archived)
    && o.createdAt != ZERO_TIME
    && o.createdAt <= o.updatedAt
    && (o.reviewAfter.None? || o.reviewAfter.value != ZERO_TIME)
    && |o.references| <= MAX_REFERENCES
    && (forall i | 0 <= i < |o.references| :: ValidId(o.references[i]))
    && Distinct(o.references)
  }

  predicate ValidActiveObservation(o: Observation) {
    ValidObservation(o) && o.lifecycle == Active
  }

  predicate ValidCreateObservation(o: Observation) {
    ValidActiveObservation(o) || (ValidObservation(o) && o.lifecycle == Archived && o.review == Clear)
  }

  predicate ValidConflictIds(ids: seq<string>) {
    && 0 < |ids| <= MAX_REFERENCES
    && (forall i | 0 <= i < |ids| :: IsUuid(ids[i]))
    && Distinct(ids)
  }

  predicate ValidBaseVersion(kind: MutationKind, version: int) {
    if kind == Create then version == 0 else version > 0
  }

  predicate ValidMutationKind(record: RecordKind, kind: MutationKind) {
    kind == Create || kind == Update || record == ObservationKind
  }

  function Count(present: bool): nat {
    if present then 1 else 0
  }

  function PayloadCount(m: Mutation): nat {
    Count(m.project.Some?) + Count(m.session.Some?) + Count(m.observation.Some?)
    + Count(m.tombstone.Some?) + Count(m.resolution.Some?)
  }

  predicate ObservationExceedsLimits(o: Observation) {
    || ByteLength(o.title) > MAX_FIELD_BYTES
    || ByteLength(o.scope) > MAX_FIELD_BYTES
    || ByteLength(o.category) > MAX_FIELD_BYTES
    || ByteLength(o.topicKey) > MAX_FIELD_BYTES
    || ByteLength(o.content) > MAX_CONTENT_BYTES
    || ByteLength(o.provenance.producer) > MAX_FIELD_BYTES
    || ByteLength(o.provenance.sourceProvider) > MAX_FIELD_BYTES
    || ByteLength(o.provenance.sourceId) > MAX_FIELD_BYTES
    || |o.references| > MAX_REFERENCES
    || exists i | 0 <= i < |o.references| :: ByteLength(o.references[i]) > MAX_RECORD_ID_BYTES
  }

  predicate MutationExceedsLimits(m: Mutation) {
    || ByteLength(m.recordId) > MAX_RECORD_ID_BYTES
    || (m.observation.Some? && ObservationExceedsLimits(m.observation.value))
    || (m.project.Some? && ByteLength(m.project.value.id) > MAX_RECORD_ID_BYTES)
    || (m.session.Some?
        && (ByteLength(m.session.value.id) > MAX_RECORD_ID_BYTES || ByteLength(m.session.value.projectId) > MAX_RECORD_ID_BYTES))
    || (m.resolution.Some?
        && (|| |m.resolution.value.conflictIds| > MAX_REFERENCES
            || (m.resolution.value.observation.Some? && ObservationExceedsLimits(m.resolution.value.observation.value))))
  }

  predicate ValidPayload(m: Mutation) {
    match m.kind
    case Create | Update =>
      (match m.recordKind
       case ProjectKind => m.project.Some? && m.project.value.id == m.recordId && ValidId(m.project.value.id)
       case SessionKind =>
         m.session.Some? && m.session.value.id == m.recordId && ValidId(m.session.value.id) && ValidId(m.session.value.projectId)
       case ObservationKind =>
         && m.observation.Some?
         && m.observation.value.id == m.recordId
         && (if m.kind == Create then ValidCreateObservation(m.observation.value) else ValidActiveObservation(m.observation.value)))
    case Archive =>
      && m.observation.Some?
      && m.observation.value.id == m.recordId
      && ValidObservation(m.observation.value)
      && m.observation.value.lifecycle == Archived
      && m.observation.value.review == Clear
    case Tombstone =>
      m.tombstone.Some? && m.tombstone.value.deletedAt != ZERO_TIME
    case Resolve =>
      && m.resolution.Some?
      && ValidConflictIds(m.resolution.value.conflictIds)
      && m.resolution.value.observation.Some?
      && m.resolution.value.observation.value.id == m.recordId
      && ValidActiveObservation(m.resolution.value.observation.value)
      && m.resolution.value.observation.value.review == Clear
  }

  function ValidateMutation(m: Mutation): Validation {
    if !ValidMutationKind(m.recordKind, m.kind) then ErrUnsupportedSemantic
    else if MutationExceedsLimits(m) then ErrLimitExceeded
    else if !IsUuid(m.mutationId) || !ValidId(m.recordId) || !ValidBaseVersion(m.kind, m.baseVersion) || PayloadCount(m) != 1 then
      ErrInvalidMutation
    else if !ValidPayload(m) then ErrInvalidMutation
    else Valid
  }

  predicate ValidateCursor(c: Cursor) {
    IsUuid(c.historyId) && 0 <= c.position
  }

  // ----------------------------------------------------- change envelope

  predicate ValidateChangeEnvelope(c: Change) {
    && 1 <= c.sequence
    && 1 <= c.canonicalVersion
    && if c.hashVersion.None? || c.hashVersion.value == 1 then
         && c.disposition == Unstated
         && c.conflictId == ""
         && c.mutation.kind != Tombstone
         && c.mutation.kind != Resolve
       else
         && c.hashVersion.value == 2
         && match c.mutation.kind
            case Create | Update =>
              c.mutation.recordKind == ObservationKind && c.disposition == ConflictChange && IsUuid(c.conflictId)
            case Tombstone | Resolve =>
              c.disposition == AcceptedChange && c.conflictId == ""
            case Archive => false
  }

  /** The replay-consistency hash; version 1 covers neither disposition nor conflict. */
  function CanonicalChangeHash(c: Change): Option<ChangeHash> {
    if !ValidateChangeEnvelope(c) then None
    else if c.hashVersion == Some(2) then
      Some(ChangeDigest(2, c.sequence, c.canonicalVersion, c.disposition, c.conflictId, c.mutation))
    else
      Some(ChangeDigest(1, c.sequence, c.canonicalVersion, Unstated, "", c.mutation))
  }

  predicate VerifyChangeHash(c: Change) {
    CanonicalChangeHash(c).Some? && c.changeHash == CanonicalChangeHash(c).value
  }
}
