/** Which mutations can be sent and which changes can be read under the names a device has: both directions, of the tables alone (internal/memory/sync.go). */
module IdentityAnswers {
  import opened Options
  import opened Uuids
  import opened SyncService
  import opened Replica
  import opened Transition
  import opened Identity

  // ---------------------------------------------------------------- sending

  /** The records a mutation mentions. */
  predicate Mentions(m: Mutation, key: Key) {
    || (key.kind == m.recordKind && key.id == m.recordId)
    || (m.observation.Some? && key.kind == SessionKind && key.id == m.observation.value.sessionId)
    || (m.observation.Some? && key.kind == ObservationKind && key.id in m.observation.value.references)
  }

  /** The records it mentions derive different canonical UUIDs. */
  ghost predicate DerivesApart(n: Naming, m: Mutation) {
    && (forall key: Key | Mentions(m, key) :: IsCanonicalUuid(n.derive(key.kind, key.id)))
    && forall key: Key, other: Key | Mentions(m, key) && Mentions(m, other) && key != other ::
         n.derive(key.kind, key.id) != n.derive(other.kind, other.id)
  }

  /** Nobody holds the portable id, in this project or another. */
  predicate PortableFree(t: Identities, portable: string) {
    portable !in t.elsewhere && forall key | key in t.rows :: t.rows[key].portable != portable
  }

  /** The record has a name, or can get the one derived from its id. */
  predicate Namable(n: Naming, t: Identities, key: Key) {
    NameFits(key.id) && (key in t.rows || PortableFree(t, n.derive(key.kind, key.id)))
  }

  predicate SessionOfProject(n: Naming, local: Local, id: string) {
    id in local.sessions && local.sessions[id].projectId == n.binding.project
  }

  predicate ObservationOfProject(n: Naming, local: Local, id: string) {
    id in local.observations && local.observations[id].body.projectId == n.binding.project
  }

  /** An observation of the project, with a session and references that are too, and can all be named. */
  predicate ObservationSendable(n: Naming, t: Identities, local: Local, id: string, o: Observation) {
    && o.id == id && o.projectId == n.binding.project && ObservationOfProject(n, local, id)
    && (o.sessionId != "" ==> SessionOfProject(n, local, o.sessionId) && Namable(n, t, Key(SessionKind, o.sessionId)))
    && forall i | 0 <= i < |o.references| ::
         ObservationOfProject(n, local, o.references[i]) && Namable(n, t, Key(ObservationKind, o.references[i]))
  }

  predicate CanBeSent(n: Naming, t: Identities, local: Local, m: Mutation) {
    && m.kind != Resolve
    && match m.recordKind
       case ProjectKind => m.recordId == n.binding.project && m.project == Some(Project(n.binding.project))
       case SessionKind =>
         && m.session == Some(Session(m.recordId, n.binding.project))
         && SessionOfProject(n, local, m.recordId) && Namable(n, t, Key(SessionKind, m.recordId))
       case ObservationKind =>
         && (if m.kind == Tombstone then Key(ObservationKind, m.recordId) in t.rows else Namable(n, t, Key(ObservationKind, m.recordId)))
         && (m.observation.Some? ==> ObservationSendable(n, t, local, m.recordId, m.observation.value))
  }

  predicate FreeIs(t: Identities, portable: string) {
    PortableTaken(t, portable) != PortableFree(t, portable)
  }

  lemma TakenOrFree(t: Identities, portable: string)
    ensures FreeIs(t, portable)
  {
  }

  /** A name is given exactly when there is one or the derived one is free; then it and no other is new. */
  lemma EnsureExactly(n: Naming, t: Identities, key: Key, device: string, m: Mutation)
    requires IdentitiesValid(n, t) && Mentions(m, key) && DerivesApart(n, m) && IsCanonicalUuid(device)
    ensures Ensure(n, t, key, device).Named? <==> key.kind != ProjectKind && Namable(n, t, key)
    ensures Ensure(n, t, key, device).Named? ==>
      && var u := Ensure(n, t, key, device).table;
      && u.adoptions == t.adoptions && u.elsewhere == t.elsewhere
      && u.rows == if key in t.rows then t.rows else t.rows[key := IdentityRow(n.derive(key.kind, key.id), device)]
    ensures Ensure(n, t, key, device).Named? ==> SameNamable(n, t, Ensure(n, t, key, device).table, m)
  {
    hide IsCanonicalUuid, NameFits, AdoptedLocalId, PortablesUnique, PortableTaken, PortableFree, Mentions;
    TakenOrFree(t, n.derive(key.kind, key.id));
    if Ensure(n, t, key, device).Named? {
      var u := Ensure(n, t, key, device).table;
      forall other: Key | Mentions(m, other) ensures Namable(n, u, other) <==> Namable(n, t, other) {
        NamableStays(n, t, u, key, other, m);
      }
    }
  }

  lemma NamableStays(n: Naming, t: Identities, u: Identities, key: Key, other: Key, m: Mutation)
    requires DerivesApart(n, m) && Mentions(m, key) && Mentions(m, other) && u.elsewhere == t.elsewhere
    requires key in u.rows && (u == t || (key !in t.rows && u.rows == t.rows[key := u.rows[key]] && u.rows[key].portable == n.derive(key.kind, key.id)))
    ensures Namable(n, u, other) <==> Namable(n, t, other) || (other == key && NameFits(key.id))
  {
    hide IsCanonicalUuid, NameFits, Mentions;
    if other != key && u != t {
      assert forall k | k in t.rows :: u.rows[k] == t.rows[k];
      assert n.derive(key.kind, key.id) != n.derive(other.kind, other.id);
    }
  }

  ghost predicate SameNamable(n: Naming, t: Identities, u: Identities, m: Mutation) {
    forall other: Key | Mentions(m, other) :: Namable(n, u, other) <==> Namable(n, t, other)
  }

  lemma {:induction false} EnsureFirstExactly(n: Naming, t: Identities, local: Local, m: Mutation, device: string, k: nat)
    requires IdentitiesValid(n, t) && DerivesApart(n, m) && IsCanonicalUuid(device)
    requires m.observation.Some? && k <= |m.observation.value.references|
    ensures EnsureFirst(n, t, local, m.observation.value.references, device, k).NamedAll? <==>
      forall i | 0 <= i < k :: ObservationOfProject(n, local, m.observation.value.references[i]) && Namable(n, t, Key(ObservationKind, m.observation.value.references[i]))
    ensures EnsureFirst(n, t, local, m.observation.value.references, device, k).NamedAll? ==>
      && var u := EnsureFirst(n, t, local, m.observation.value.references, device, k).table;
      && SameNamable(n, t, u, m) && u.adoptions == t.adoptions && u.elsewhere == t.elsewhere
      && forall key | key in u.rows && key !in t.rows :: key.kind == ObservationKind && key.id in m.observation.value.references
  {
    hide IdentitiesValid, DerivesApart, Ensure, Namable, IsCanonicalUuid;
    var references := m.observation.value.references;
    if k > 0 {
      EnsureFirstExactly(n, t, local, m, device, k - 1);
      var before := EnsureFirst(n, t, local, references, device, k - 1);
      if before.NamedAll? {
        EnsuredFirst(n, t, local, references, device, k - 1);
        EnsureExactly(n, before.table, Key(ObservationKind, references[k - 1]), device, m);
      }
    }
  }

  lemma ObservationSentExactly(n: Naming, t: Identities, local: Local, m: Mutation, device: string, wire: string)
    requires IdentitiesValid(n, t) && DerivesApart(n, m) && IsCanonicalUuid(device) && m.observation.Some? && m.recordKind == ObservationKind
    ensures TranslateObservation(n, t, local, m, device, wire).Renamed? <==> ObservationSendable(n, t, local, m.recordId, m.observation.value)
    ensures TranslateObservation(n, t, local, m, device, wire).Renamed? ==>
      && var u := TranslateObservation(n, t, local, m, device, wire).table;
      && u.adoptions == t.adoptions && u.elsewhere == t.elsewhere
      && forall key | key in u.rows && key !in t.rows :: Mentions(m, key)
  {
    hide IdentitiesValid, DerivesApart, Ensure, Namable, IsCanonicalUuid, EnsureFirst;
    var o := m.observation.value;
    var session := if o.sessionId == "" then Named(t, "") else Ensure(n, t, Key(SessionKind, o.sessionId), device);
    if o.sessionId != "" {
      EnsureExactly(n, t, Key(SessionKind, o.sessionId), device, m);
      if session.Named? {
        EnsureKeepsValid(n, t, Key(SessionKind, o.sessionId), device);
      }
    }
    if session.Named? {
      EnsureFirstExactly(n, session.table, local, m, device, |o.references|);
    }
  }

  /** A mutation is sent if and only if its records are the project's and all of them have a name or can get one; only they are named. */
  lemma SentExactly(n: Naming, t: Identities, local: Local, m: Mutation, device: string)
    requires IdentitiesValid(n, t) && DerivesApart(n, m) && IsCanonicalUuid(device)
    ensures Translate(n, t, local, m, device).Renamed? <==> CanBeSent(n, t, local, m)
    ensures Translate(n, t, local, m, device).Renamed? ==>
      && var u := Translate(n, t, local, m, device).table;
      && u.adoptions == t.adoptions && u.elsewhere == t.elsewhere
      && forall key | key in u.rows && key !in t.rows :: Mentions(m, key)
  {
    hide IdentitiesValid, DerivesApart, Ensure, Namable, IsCanonicalUuid, TranslateObservation, Find;
    var key := Key(m.recordKind, m.recordId);
    if m.recordKind == ObservationKind && m.kind != Resolve {
      if m.kind == Tombstone {
        FoundWhenNamed(n, t, key);
      } else {
        EnsureExactly(n, t, key, device, m);
        if Ensure(n, t, key, device).Named? {
          EnsureKeepsValid(n, t, key, device);
        }
      }
      var named := if m.kind == Tombstone then if Find(n, t, key).Some? then Named(t, Find(n, t, key).value) else Unnamed else Ensure(n, t, key, device);
      if named.Named? && m.observation.Some? {
        SendableStays(n, t, named.table, local, m);
        ObservationSentExactly(n, named.table, local, m, device, named.id);
      }
    } else if m.recordKind == SessionKind {
      EnsureExactly(n, t, key, device, m);
    }
  }

  lemma SendableStays(n: Naming, t: Identities, u: Identities, local: Local, m: Mutation)
    requires m.observation.Some? && SameNamable(n, t, u, m)
    ensures ObservationSendable(n, u, local, m.recordId, m.observation.value) <==> ObservationSendable(n, t, local, m.recordId, m.observation.value)
  {
    hide Namable;
  }

  lemma FoundWhenNamed(n: Naming, t: Identities, key: Key)
    requires IdentitiesValid(n, t)
    ensures Find(n, t, key).Some? <==> key in t.rows
  {
    hide NameFits, RowValid;
  }

  // ---------------------------------------------------------------- receiving

  /** A record of the project goes by that wire id. */
  ghost predicate NamedHere(n: Naming, t: Identities, local: Local, kind: RecordKind, wire: string) {
    exists key :: key in t.rows && key.kind == kind && t.rows[key].portable == wire && OfProject(n.binding, local, key)
  }

  predicate Unheard(t: Identities, kind: RecordKind, wire: string) {
    forall key | key in t.rows && key.kind == kind :: t.rows[key].portable != wire
  }

  /** An unheard wire id can be adopted: a device is named, and neither the id nor the name made of it is in use. */
  predicate Adoptable(n: Naming, t: Identities, kind: RecordKind, wire: string) {
    && Unheard(t, kind, wire) && n.device.Some? && |wire| == UUID_LENGTH && PortableFree(t, wire)
    && Key(kind, "sync-adopted:" + KindName(kind) + ":" + wire) !in t.rows
    && Key(kind, "sync-adopted:" + KindName(kind) + ":" + wire) !in t.adoptions
  }

  /** A name by which a payload may refer to a record, when wire may just have been adopted. */
  ghost predicate Referable(n: Naming, t: Identities, local: Local, kind: RecordKind, id: string, adopted: Option<Key>, wire: string) {
    || NamedHere(n, t, local, kind, id)
    || (adopted.Some? && adopted.value.kind == kind && id == wire && OfProject(n.binding, local, adopted.value))
  }

  /** Session and references go by names the device has. */
  ghost predicate Readable(n: Naming, t: Identities, local: Local, p: Observation, adopted: Option<Key>, wire: string) {
    && (p.sessionId != "" ==> Referable(n, t, local, SessionKind, p.sessionId, adopted, wire))
    && forall i | 0 <= i < |p.references| :: Referable(n, t, local, ObservationKind, p.references[i], adopted, wire)
  }

  /** The key under which a change of an unheard record would keep it. */
  function AdoptedAs(t: Identities, w: Mutation): Option<Key> {
    if w.kind != Tombstone && w.kind != Resolve && Unheard(t, w.recordKind, w.recordId) then
      Some(Key(w.recordKind, "sync-adopted:" + KindName(w.recordKind) + ":" + w.recordId))
    else None
  }

  ghost predicate CanBeRead(n: Naming, t: Identities, local: Local, w: Mutation) {
    match w.recordKind
    case ProjectKind => true
    case SessionKind => NamedHere(n, t, local, SessionKind, w.recordId) || Adoptable(n, t, SessionKind, w.recordId)
    case ObservationKind =>
      && (NamedHere(n, t, local, ObservationKind, w.recordId)
          || (w.kind != Tombstone && w.kind != Resolve && Adoptable(n, t, ObservationKind, w.recordId)))
      && (w.observation.Some? ==> Readable(n, t, local, w.observation.value, AdoptedAs(t, w), w.recordId))
      && (w.resolution.Some? && w.resolution.value.observation.Some? ==>
            Readable(n, t, local, w.resolution.value.observation.value, AdoptedAs(t, w), w.recordId))
  }

  lemma ExistingExactly(n: Naming, t: Identities, local: Local, kind: RecordKind, wire: string)
    requires IdentitiesValid(n, t)
    ensures MapExisting(n, t, local, kind, wire).Some? <==> NamedHere(n, t, local, kind, wire)
  {
    hide NameFits, RowValid, OfProject;
    if NamedHere(n, t, local, kind, wire) {
      var key :| key in t.rows && key.kind == kind && t.rows[key].portable == wire && OfProject(n.binding, local, key);
      assert IsNamed(t, key, wire) && Known(t, kind, wire);
    }
  }

  lemma KnownIs(t: Identities, kind: RecordKind, wire: string)
    ensures Known(t, kind, wire) <==> !Unheard(t, kind, wire)
  {
    if !Unheard(t, kind, wire) {
      var key :| key in t.rows && key.kind == kind && t.rows[key].portable == wire;
      assert IsNamed(t, key, wire);
    }
  }

  /** A wire id gets a local one exactly when the project has its record or it can be adopted; at most that one name is new. */
  lemma AdoptExactly(n: Naming, t: Identities, local: Local, kind: RecordKind, wire: string)
    requires IdentitiesValid(n, t)
    ensures Adopt(n, t, local, kind, wire).Named? <==> NamedHere(n, t, local, kind, wire) || Adoptable(n, t, kind, wire)
    ensures Adopt(n, t, local, kind, wire).Named? ==>
      && var u := Adopt(n, t, local, kind, wire).table;
      && var key := Key(kind, "sync-adopted:" + KindName(kind) + ":" + wire);
      && if Unheard(t, kind, wire) then
           n.device.Some? && u == t.(rows := t.rows[key := IdentityRow(wire, n.device.value)],
                                     adoptions := t.adoptions[key := AdoptionRow(wire, n.device.value)])
         else u == t
  {
    hide MapExisting, PortableTaken, PortableFree, OfProject, Known, Unheard;
    ExistingExactly(n, t, local, kind, wire);
    KnownIs(t, kind, wire);
    TakenOrFree(t, wire);
    if Unheard(t, kind, wire) {
      NotNamedHere(n, t, local, kind, wire);
    }
  }

  lemma NotNamedHere(n: Naming, t: Identities, local: Local, kind: RecordKind, wire: string)
    requires Unheard(t, kind, wire)
    ensures !NamedHere(n, t, local, kind, wire)
  {
    hide OfProject;
  }

  lemma {:induction false} MapFirstExactly(n: Naming, t: Identities, local: Local, references: seq<string>, k: nat)
    requires IdentitiesValid(n, t) && k <= |references|
    ensures MapFirst(n, t, local, references, k).Some? <==> forall i | 0 <= i < k :: NamedHere(n, t, local, ObservationKind, references[i])
  {
    hide IdentitiesValid, NamedHere, MapExisting;
    if k > 0 {
      MapFirstExactly(n, t, local, references, k - 1);
      ExistingExactly(n, t, local, ObservationKind, references[k - 1]);
    }
  }

  /** What can be referred to behind an adoption. */
  lemma ReferableIs(n: Naming, t: Identities, u: Identities, local: Local, w: Mutation, kind: RecordKind, id: string)
    requires AdoptedAs(t, w).None? ==> u == t
    requires AdoptedAs(t, w).Some? ==>
      && AdoptedAs(t, w).value !in t.rows && AdoptedAs(t, w).value in u.rows
      && u.rows == t.rows[AdoptedAs(t, w).value := u.rows[AdoptedAs(t, w).value]] && u.rows[AdoptedAs(t, w).value].portable == w.recordId
    ensures NamedHere(n, u, local, kind, id) <==> Referable(n, t, local, kind, id, AdoptedAs(t, w), w.recordId)
  {
    hide OfProject, Unheard, KindName;
    if NamedHere(n, u, local, kind, id) {
      var key :| key in u.rows && key.kind == kind && u.rows[key].portable == id && OfProject(n.binding, local, key);
      assert key in t.rows || AdoptedAs(t, w) == Some(key);
    }
    if NamedHere(n, t, local, kind, id) {
      var key :| key in t.rows && key.kind == kind && t.rows[key].portable == id && OfProject(n.binding, local, key);
      assert key in u.rows && u.rows[key] == t.rows[key];
    }
  }

  lemma ObservationReadExactly(n: Naming, t: Identities, u: Identities, local: Local, w: Mutation, p: Observation, id: string)
    requires IdentitiesValid(n, u)
    requires AdoptedAs(t, w).None? ==> u == t
    requires AdoptedAs(t, w).Some? ==>
      && AdoptedAs(t, w).value !in t.rows && AdoptedAs(t, w).value in u.rows
      && u.rows == t.rows[AdoptedAs(t, w).value := u.rows[AdoptedAs(t, w).value]] && u.rows[AdoptedAs(t, w).value].portable == w.recordId
    ensures MapObservation(n, u, local, p, id).Some? <==> Readable(n, t, local, p, AdoptedAs(t, w), w.recordId)
  {
    hide IdentitiesValid, MapExisting, MapFirst, NamedHere, Referable, AdoptedAs;
    ExistingExactly(n, u, local, SessionKind, p.sessionId);
    MapFirstExactly(n, u, local, p.references, |p.references|);
    ReferableIs(n, t, u, local, w, SessionKind, p.sessionId);
    forall i | 0 <= i < |p.references|
      ensures NamedHere(n, u, local, ObservationKind, p.references[i]) <==> Referable(n, t, local, ObservationKind, p.references[i], AdoptedAs(t, w), w.recordId)
    {
      ReferableIs(n, t, u, local, w, ObservationKind, p.references[i]);
    }
  }

  /** A change on the wire is read if and only if its record is the project's or can be adopted, and session and references go by known names. */
  lemma ReadExactly(n: Naming, t: Identities, local: Local, w: Mutation)
    requires IdentitiesValid(n, t) && DeviceCanonical(n) && OnTheWire(n, w)
    ensures MapMutation(n, t, local, w).Renamed? <==> CanBeRead(n, t, local, w)
  {
    hide IdentitiesValid, Adopt, MapExisting, MapObservation, NamedHere, Adoptable, Readable, IsCanonicalUuid, Unheard;
    AdoptExactly(n, t, local, w.recordKind, w.recordId);
    ExistingExactly(n, t, local, w.recordKind, w.recordId);
    if w.recordKind == ObservationKind {
      var snapshot := w.kind != Tombstone && w.kind != Resolve;
      if snapshot {
        if Adopt(n, t, local, ObservationKind, w.recordId).Named? {
          var named := Adopt(n, t, local, ObservationKind, w.recordId);
          AdoptKeepsValid(n, t, local, ObservationKind, w.recordId);
          AdoptedIsNew(n, t, local, w);
          PayloadsReadExactly(n, t, named.table, local, w, named.id);
        }
      } else if MapExisting(n, t, local, ObservationKind, w.recordId).Some? {
        PayloadsReadExactly(n, t, t, local, w, MapExisting(n, t, local, ObservationKind, w.recordId).value);
      }
    }
  }

  lemma AdoptedIsNew(n: Naming, t: Identities, local: Local, w: Mutation)
    requires IdentitiesValid(n, t) && Adopt(n, t, local, w.recordKind, w.recordId).Named? && w.kind != Tombstone && w.kind != Resolve
    ensures var u := Adopt(n, t, local, w.recordKind, w.recordId).table;
            && (AdoptedAs(t, w).None? ==> u == t)
            && (AdoptedAs(t, w).Some? ==>
                  && AdoptedAs(t, w).value !in t.rows && AdoptedAs(t, w).value in u.rows
                  && u.rows == t.rows[AdoptedAs(t, w).value := u.rows[AdoptedAs(t, w).value]]
                  && u.rows[AdoptedAs(t, w).value].portable == w.recordId)
  {
    hide NamedHere, Unheard, IdentitiesValid, Adopt;
    AdoptExactly(n, t, local, w.recordKind, w.recordId);
    if Unheard(t, w.recordKind, w.recordId) {
      NotNamedHere(n, t, local, w.recordKind, w.recordId);
    }
  }

  lemma PayloadsReadExactly(n: Naming, t: Identities, u: Identities, local: Local, w: Mutation, id: string)
    requires IdentitiesValid(n, u)
    requires AdoptedAs(t, w).None? ==> u == t
    requires AdoptedAs(t, w).Some? ==>
      && AdoptedAs(t, w).value !in t.rows && AdoptedAs(t, w).value in u.rows
      && u.rows == t.rows[AdoptedAs(t, w).value := u.rows[AdoptedAs(t, w).value]] && u.rows[AdoptedAs(t, w).value].portable == w.recordId
    ensures w.observation.Some? ==>
      (MapObservation(n, u, local, w.observation.value, id).Some? <==> Readable(n, t, local, w.observation.value, AdoptedAs(t, w), w.recordId))
    ensures w.resolution.Some? && w.resolution.value.observation.Some? ==>
      (MapObservation(n, u, local, w.resolution.value.observation.value, id).Some? <==>
       Readable(n, t, local, w.resolution.value.observation.value, AdoptedAs(t, w), w.recordId))
  {
    hide IdentitiesValid, MapObservation, Readable, AdoptedAs;
    if w.observation.Some? {
      ObservationReadExactly(n, t, u, local, w, w.observation.value, id);
    }
    if w.resolution.Some? && w.resolution.value.observation.Some? {
      ObservationReadExactly(n, t, u, local, w, w.resolution.value.observation.value, id);
    }
  }
}
