/** How large a change can be on the wire: every change fits an otherwise empty page. */
module PageBytes {
  import opened Uuids
  import opened SyncService
  import opened Tables
  import opened Repository
  import opened Recovery
  import opened Pull
  import opened Readable
  import opened Paging

  /** A JSON string: quotes, and at most six bytes for each byte of the text (an escape of the form \u003c). */
  function TextBound(s: string): nat {
    2 + 6 * ByteLength(s)
  }

  function ListBound(texts: seq<string>): nat {
    if texts == [] then 2 else TextBound(texts[0]) + 1 + ListBound(texts[1..])
  }

  // The constants below exceed the field names, punctuation, numbers and timestamps of each object.

  function ObservationBound(o: Observation): nat {
    TextBound(o.id) + TextBound(o.title) + TextBound(o.projectId) + TextBound(o.sessionId) + TextBound(o.scope)
    + TextBound(o.category) + TextBound(o.content) + TextBound(o.topicKey) + ListBound(o.references)
    + TextBound(o.provenance.producer) + TextBound(o.provenance.sourceProvider) + TextBound(o.provenance.sourceId) + 600
  }

  function PayloadBound(m: Mutation): nat {
    (if m.project.Some? then TextBound(m.project.value.id) + 50 else 0)
    + (if m.session.Some? then TextBound(m.session.value.id) + TextBound(m.session.value.projectId) + 50 else 0)
    + (if m.observation.Some? then ObservationBound(m.observation.value) else 0)
    + (if m.tombstone.Some? then TextBound(m.tombstone.value.projectId) + 100 else 0)
    + (if m.resolution.Some? then
         ListBound(m.resolution.value.conflictIds)
         + (if m.resolution.value.observation.Some? then ObservationBound(m.resolution.value.observation.value) else 0) + 50
       else 0)
  }

  function ChangeBound(c: Change): nat {
    TextBound(c.mutation.mutationId) + TextBound(c.mutation.recordId) + PayloadBound(c.mutation) + TextBound(c.conflictId) + 800
  }

  /** What is assumed of the encoder. */
  ghost predicate SizedLikeJson(size: Change -> nat) {
    forall c :: size(c) <= ChangeBound(c)
  }

  lemma {:induction false} ListFits(texts: seq<string>, each: nat)
    requires forall i | 0 <= i < |texts| :: TextBound(texts[i]) + 1 <= each
    ensures ListBound(texts) <= 2 + |texts| * each
  {
    hide TextBound;
    if texts != [] {
      ListFits(texts[1..], each);
      assert |texts| * each == (|texts| - 1) * each + each;
    }
  }

  lemma ObservationFits(o: Observation)
    requires ValidObservation(o)
    ensures ObservationBound(o) <= 1_300_000
  {
    hide ByteLength, Blank, ListBound, IsSpace;
    ListFits(o.references, 6147);
    ScopeBytes(o.scope);
    ShortText("");
  }

  lemma ScopeBytes(s: string)
    requires s == "" || s == "project" || s == "personal"
    ensures ByteLength(s) <= 32
  {
    ShortText(s);
  }

  lemma UuidBytes(s: string)
    requires s == "" || IsUuid(s)
    ensures ByteLength(s) <= 4 * UUID_LENGTH
  {
    ShortText(s);
  }

  lemma PayloadFits(m: Mutation)
    requires ValidateMutation(m) == Valid
    requires m.tombstone.Some? ==> ByteLength(m.tombstone.value.projectId) <= MAX_RECORD_ID_BYTES
    ensures PayloadBound(m) <= 1_500_000
  {
    hide ByteLength, ObservationBound, ValidObservation, ObservationExceedsLimits, IsUuid, ListBound, Blank, IsSpace, Distinct;
    if m.observation.Some? && ValidObservation(m.observation.value) {
      ObservationFits(m.observation.value);
    }
    if m.resolution.Some? {
      var ids := m.resolution.value.conflictIds;
      if m.resolution.value.observation.Some? && ValidObservation(m.resolution.value.observation.value) {
        ObservationFits(m.resolution.value.observation.value);
      }
      if ValidConflictIds(ids) {
        forall i | 0 <= i < |ids| ensures ByteLength(ids[i]) <= 144 {
          UuidBytes(ids[i]);
        }
        ListFits(ids, 867);
      }
    }
  }

  lemma ChangeFits(c: Change)
    requires ValidateMutation(c.mutation) == Valid && (c.conflictId == "" || IsUuid(c.conflictId))
    requires c.mutation.tombstone.Some? ==> ByteLength(c.mutation.tombstone.value.projectId) <= MAX_RECORD_ID_BYTES
    ensures ChangeBound(c) <= PAGE_BUDGET
  {
    hide ByteLength, PayloadBound, ObservationExceedsLimits, IsUuid, ValidPayload;
    PayloadFits(c.mutation);
    UuidBytes(c.conflictId);
    UuidBytes(c.mutation.mutationId);
  }

  lemma ErasedProjectIsShort(t: Tables, i: int)
    requires Invariant(t) && i in t.changes && Traced(t, i) && !Orphan(t, i)
    ensures ByteLength(ErasedProject(t, i)) <= MAX_RECORD_ID_BYTES
  {
    hide Invariant, ByteLength, ValidateMutation, AcceptedMutation, SnapshotOf, PayloadMutation, LastAccepted;
    var m := t.mutations[t.changes[i].source];
    if m.kind == Tombstone {
      OrphanHasNoPredecessor(t, i);
      LastAcceptedExactly(t.versions, ObservationKind, t.changes[i].recordId, m.baseVersion);
      var k :| 0 <= k < |t.versions| && IsVersionOf(t.versions[k], ObservationKind, t.changes[i].recordId, m.baseVersion)
        && t.versions[k].disposition == AcceptedChange
        && t.versions[k].snapshot == LastAccepted(t.versions, ObservationKind, t.changes[i].recordId, m.baseVersion).value;
      PredecessorIsLive(t, i, k);
      VersionIsValid(t, k);
    } else {
      ShortText("");
    }
  }

  lemma VersionIsValid(t: Tables, k: int)
    requires Invariant(t) && 0 <= k < |t.versions| && t.versions[k].snapshot.ObservationSnapshot?
    ensures ByteLength(t.versions[k].snapshot.observation.projectId) <= MAX_RECORD_ID_BYTES
  {
    assert SequencesDense(t) && k + 1 in t.changes;
    ChangeIsTraced(t, k + 1);
    hide Invariant, ByteLength, ValidateMutation, AcceptedMutation, Admitted, SnapshotOf, PayloadMutation;
    var request := t.mutations[t.changes[k + 1].source].requestHash;
    SnapshotKinds(request);
    PayloadProjectIsShort(request);
  }

  lemma PayloadProjectIsShort(m: Mutation)
    requires ValidateMutation(m) == Valid && Admitted(m) && PayloadMutation(m).observation.Some? && m.recordKind == ObservationKind
    ensures ByteLength(PayloadMutation(m).observation.value.projectId) <= MAX_RECORD_ID_BYTES
  {
    hide ByteLength, Blank, ObservationExceedsLimits, IsUuid, Distinct, ValidContent, ValidProvenance;
  }

  /** Every change that can be served fits the budget of an empty page, so a page never fails for want of room. */
  lemma ServedChangesFit(t: Tables, a: int, b: int, size: Change -> nat)
    requires Invariant(t) && Servable(t, a, b) && SizedLikeJson(size)
    ensures Fits(t, a, b, size)
  {
    hide Invariant, RowAt, BuildChange, Orphan, ChangeBound, ValidateMutation, AcceptedMutation, Admitted, SnapshotOf, PayloadMutation,
      ByteLength, ErasedProject, VerifyChangeHash;
    forall i | a < i <= b && ChangeAt(t, i).Some? ensures size(ChangeAt(t, i).value) <= PAGE_BUDGET {
      ReadableExactly(t, i);
      ErasedProjectIsShort(t, i);
      ConflictIdIsUuid(t, i, ChangeAt(t, i).value);
      ChangeFits(ChangeAt(t, i).value);
    }
  }

  lemma ConflictIdIsUuid(t: Tables, i: int, c: Change)
    requires Invariant(t) && ServedAs(t, i, c)
    ensures c.conflictId == "" || IsUuid(c.conflictId)
  {
    hide VerifyRecovery, RequestsRecorded, VersionsGrow, RowsShowLatest, RowsHaveOrigin, RecordsPlaced, DeletionsRecorded, IsUuid,
      ValidateMutation, AcceptedMutation, Admitted, SnapshotOf, PayloadMutation, ErasedProject, VerifyChangeHash, VersionsLinked;
  }

  /** Room for the page's own fields and separators. */
  lemma PageFitsResponse(t: Tables, history: string, device: string, cursor: Cursor, project: string, limit: int, size: Change -> nat)
    requires Invariant(t) && Admissible(t, history, device, cursor, project, limit) && SizedLikeJson(size)
    requires Servable(t, cursor.position, EffectiveWatermark(t, cursor))
    ensures var outcome := PullPageOf(t, history, device, cursor, project, limit, size);
            outcome.Page? && Total(size, outcome.page.changes) + |outcome.page.changes| + 4000 <= MAX_PULL_RESPONSE_BYTES
  {
    hide Invariant, Servable, Fits, PullPageOf, Log, IsUuid, Total;
    ServedChangesFit(t, cursor.position, EffectiveWatermark(t, cursor), size);
    PageIsExact(t, history, device, cursor, project, limit, size);
  }
}
