/** Small valid mutations for concrete runs. */
module Examples {
  import opened Options
  import opened Uuids
  import opened SyncService
  import opened Tables
  import opened Repository
  import opened PushInvariant
  import opened History

  const DEVICE := "d"

  function ExampleId(n: char): string {
    "00000000-0000-4000-8000-00000000000" + [n]
  }

  function DigitOf(i: nat): char
    requires i <= 9
  {
    '0' + i as char
  }

  /** The n-th mutation of a run. */
  function ExampleMutation(n: nat, recordId: string, recordKind: RecordKind, kind: MutationKind, baseVersion: int): Mutation
    requires n <= 9
  {
    Mutation(ExampleId(DigitOf(n)), recordId, recordKind, kind, baseVersion, None, None, None, None, None)
  }

  function ExampleObservation(id: string, projectId: string, topicKey: string, references: seq<string>, lifecycle: Lifecycle): Observation {
    Observation(id, "", projectId, "", "project", "note", "c", topicKey, references, Provenance("p", "", ""), lifecycle, Clear, 1, 1, None)
  }

  function ExampleProject(n: nat, id: string): Mutation
    requires n <= 9
  {
    ExampleMutation(n, id, ProjectKind, Create, 0).(project := Some(Project(id)))
  }

  function ExampleWrite(n: nat, kind: MutationKind, baseVersion: int, o: Observation): Mutation
    requires n <= 9
  {
    ExampleMutation(n, o.id, ObservationKind, kind, baseVersion).(observation := Some(o))
  }

  function ExampleDeletion(n: nat, id: string, baseVersion: int): Mutation
    requires n <= 9
  {
    ExampleMutation(n, id, ObservationKind, Tombstone, baseVersion).(tombstone := Some(Deletion(1, "")))
  }

  function ExamplePush(m: Mutation): Event {
    PushMutation(DEVICE, m, ExampleId('9'))
  }

  lemma ExampleIds(n: char)
    requires '0' <= n <= '9'
    ensures IsUuid(ExampleId(n)) && Lower(ExampleId(n)) == ExampleId(n)
  {
    var s := ExampleId(n);
    assert |s| == UUID_LENGTH;
    forall i | 0 <= i < UUID_LENGTH ensures LowerChar(s[i]) == s[i] && if IsDash(i) then s[i] == '-' else IsHex(s[i]) {
    }
    assert s[14] == '4' && s[19] == '8';
  }

  predicate Letter(s: string) {
    |s| == 1 && 'A' <= s[0] <= 'z'
  }

  lemma LetterIsId(s: string)
    requires Letter(s)
    ensures ValidId(s) && !Blank(s) && ByteLength(s) <= 4
  {
    hide ByteLength;
    ShortText(s);
    assert !IsSpace(s[0]);
  }

  lemma PlainText(s: string)
    requires |s| <= 10 && forall i | 0 <= i < |s| :: 'A' <= s[i] <= 'z'
    ensures ValidOptionalText(s, MAX_FIELD_BYTES)
  {
    ShortText(s);
  }

  lemma NotBlank(s: string)
    requires s != "" && !IsSpace(s[0])
    ensures !Blank(s)
  {
  }

  lemma ExampleObservationValid(o: Observation)
    requires Letter(o.id) && Letter(o.projectId) && o.lifecycle != Tombstoned && (o.topicKey == "" || Letter(o.topicKey))
    requires |o.references| <= 1 && forall i | 0 <= i < |o.references| :: Letter(o.references[i])
    requires o == ExampleObservation(o.id, o.projectId, o.topicKey, o.references, o.lifecycle)
    ensures ValidObservation(o) && !ObservationExceedsLimits(o)
  {
    hide ByteLength, Blank, ValidOptionalText, ValidId;
    LetterIsId(o.id); LetterIsId(o.projectId); LetterIsId("c"); LetterIsId("p");
    forall i | 0 <= i < |o.references| ensures ValidId(o.references[i]) && ByteLength(o.references[i]) <= 4 {
      LetterIsId(o.references[i]);
    }
    ShortText(""); ShortText("note"); ShortText("project"); ShortText(o.topicKey);
    PlainText("note"); PlainText(""); PlainText("p"); PlainText(o.topicKey);
    NotBlank("note");
  }

  lemma ExampleProjectValid(n: nat, id: string)
    requires n <= 9 && Letter(id)
    ensures ValidateMutation(ExampleProject(n, id)) == Valid && AcceptedMutation(ExampleProject(n, id))
  {
    hide ByteLength, ValidId, IsUuid;
    ExampleIds(DigitOf(n));
    LetterIsId(id);
  }

  lemma ExampleWriteValid(n: nat, kind: MutationKind, baseVersion: int, o: Observation)
    requires n <= 9 && Letter(o.id) && Letter(o.projectId) && (o.topicKey == "" || Letter(o.topicKey))
    requires |o.references| <= 1 && forall i | 0 <= i < |o.references| :: Letter(o.references[i])
    requires o == ExampleObservation(o.id, o.projectId, o.topicKey, o.references, o.lifecycle)
    requires (kind == Create && baseVersion == 0 && o.lifecycle == Active) || (kind == Archive && 0 < baseVersion && o.lifecycle == Archived)
    ensures ValidateMutation(ExampleWrite(n, kind, baseVersion, o)) == Valid && AcceptedMutation(ExampleWrite(n, kind, baseVersion, o))
  {
    hide ByteLength, ValidId, IsUuid, ValidObservation, ObservationExceedsLimits;
    ExampleIds(DigitOf(n));
    LetterIsId(o.id);
    ExampleObservationValid(o);
  }

  lemma ExampleDeletionValid(n: nat, id: string, baseVersion: int)
    requires n <= 9 && Letter(id) && 0 < baseVersion
    ensures ValidateMutation(ExampleDeletion(n, id, baseVersion)) == Valid && AcceptedMutation(ExampleDeletion(n, id, baseVersion))
  {
    hide ByteLength, ValidId, IsUuid;
    ExampleIds(DigitOf(n));
    LetterIsId(id);
  }

  /** Only the first n example ids have been used. */
  ghost predicate IdsUsed(t: Tables, n: nat)
    requires n <= 9
  {
    && (forall key | key in t.mutations :: exists i :: 0 < i <= n && key.mutationId == ExampleId(DigitOf(i)))
    && (forall k | 0 <= k < |t.versions| :: exists i :: 0 < i <= n && t.versions[k].source.mutationId == ExampleId(DigitOf(i)))
  }

  lemma NextIdFresh(t: Tables, n: nat, m: Mutation)
    requires n < 9 && IdsUsed(t, n) && m.mutationId == ExampleId(DigitOf(n + 1))
    ensures Lower(m.mutationId) == m.mutationId
    ensures KeyOf(DEVICE, m) !in t.mutations
    ensures forall kind, id, version :: !VersionRowClash(t.versions, kind, id, version, m.mutationId)
  {
    hide Lower, IsUuid;
    ExampleIds(DigitOf(n + 1));
    forall i | 0 < i <= n ensures ExampleId(DigitOf(i)) != ExampleId(DigitOf(n + 1)) {
      assert ExampleId(DigitOf(i))[UUID_LENGTH - 1] != ExampleId(DigitOf(n + 1))[UUID_LENGTH - 1];
    }
  }

  lemma NextIdUsed(t: Tables, u: Tables, n: nat, m: Mutation, payload: Mutation, kind: ChangeDisposition, version: int, snapshot: Snapshot)
    requires n < 9 && IdsUsed(t, n) && m.mutationId == ExampleId(DigitOf(n + 1)) == Lower(m.mutationId)
    requires Appended(t, u, DEVICE, m, payload, kind, version, snapshot)
    ensures IdsUsed(u, n + 1)
  {
    hide ExampleId, Lower;
    assert forall key | key in u.mutations :: key in t.mutations || key.mutationId == ExampleId(DigitOf(n + 1));
  }
}
