/** Whole runs of names: mutations sent and changes received in any order. */
module IdentityRuns {
  import opened Options
  import opened Uuids
  import opened SyncService
  import opened Replica
  import opened Transition
  import opened Identity
  import Protocol

  /** local is what the tables of the device hold at that moment. */
  datatype Event =
    | Send(m: Mutation, local: Local, device: string)
    | Receive(w: Mutation, local: Local)

  ghost function Attempt(n: Naming, t: Identities, e: Event): Renamed {
    match e
    case Send(m, local, device) => Translate(n, t, local, m, device)
    case Receive(w, local) => MapMutation(n, t, local, w)
  }

  ghost function Step(n: Naming, t: Identities, e: Event): Identities {
    if Attempt(n, t, e).Renamed? then Attempt(n, t, e).table else t
  }

  ghost function After(n: Naming, t: Identities, events: seq<Event>): Identities {
    if events == [] then t else Step(n, After(n, t, events[..|events| - 1]), events[|events| - 1])
  }

  /** The changes that give a name to a record the device has not seen. */
  ghost predicate Adopts(n: Naming, t: Identities, e: Event) {
    && e.Receive? && Attempt(n, t, e).Renamed?
    && (e.w.recordKind == SessionKind || (e.w.recordKind == ObservationKind && e.w.kind != Tombstone && e.w.kind != Resolve))
    && !Known(t, e.w.recordKind, e.w.recordId)
  }

  /** It adopts a wire id that is not in the form the store reads. */
  ghost predicate AdoptsUnreadable(n: Naming, t: Identities, e: Event) {
    Adopts(n, t, e) && !IsCanonicalUuid(e.w.recordId)
  }

  // ------------------------------------------------------------- names stay

  lemma EnsureExtends(n: Naming, t: Identities, key: Key, device: string)
    requires Ensure(n, t, key, device).Named?
    ensures Extends(t, Ensure(n, t, key, device).table)
  {
    hide RowValid, NameFits, PortableTaken;
  }

  lemma {:induction false} EnsureFirstExtends(n: Naming, t: Identities, local: Local, references: seq<string>, device: string, k: nat)
    requires k <= |references| && EnsureFirst(n, t, local, references, device, k).NamedAll?
    ensures Extends(t, EnsureFirst(n, t, local, references, device, k).table)
  {
    hide Ensure, Extends, OfProject;
    if k == 0 {
      ExtendsItself(t);
    } else {
      EnsureFirstExtends(n, t, local, references, device, k - 1);
      var before := EnsureFirst(n, t, local, references, device, k - 1).table;
      var key := Key(ObservationKind, references[k - 1]);
      EnsureExtends(n, before, key, device);
      ExtendsTransitive(t, before, Ensure(n, before, key, device).table);
    }
  }

  lemma TranslateExtends(n: Naming, t: Identities, local: Local, m: Mutation, device: string)
    requires Translate(n, t, local, m, device).Renamed?
    ensures Extends(t, Translate(n, t, local, m, device).table)
  {
    hide Ensure, Extends, OfProject, EnsureFirst, Find;
    ExtendsItself(t);
    if m.recordKind == SessionKind {
      EnsureExtends(n, t, Key(SessionKind, m.recordId), device);
    } else if m.recordKind == ObservationKind {
      var key := Key(ObservationKind, m.recordId);
      var named := if m.kind == Tombstone then t else Ensure(n, t, key, device).table;
      if m.kind != Tombstone {
        EnsureExtends(n, t, key, device);
      }
      if m.observation.Some? {
        var o := m.observation.value;
        ExtendsItself(named);
        if o.sessionId != "" {
          EnsureExtends(n, named, Key(SessionKind, o.sessionId), device);
        }
        var session := if o.sessionId == "" then named else Ensure(n, named, Key(SessionKind, o.sessionId), device).table;
        EnsureFirstExtends(n, session, local, o.references, device, |o.references|);
        var references := EnsureFirst(n, session, local, o.references, device, |o.references|).table;
        ExtendsTransitive(t, named, session);
        ExtendsTransitive(t, session, references);
      }
    }
  }

  lemma AdoptExtends(n: Naming, t: Identities, local: Local, kind: RecordKind, wire: string)
    requires Adopt(n, t, local, kind, wire).Named?
    ensures Extends(t, Adopt(n, t, local, kind, wire).table)
  {
    hide MapExisting, AdoptedLocalId, PortableTaken, Known;
  }

  lemma MapExtends(n: Naming, t: Identities, local: Local, w: Mutation)
    requires MapMutation(n, t, local, w).Renamed?
    ensures Extends(t, MapMutation(n, t, local, w).table)
  {
    hide Adopt, MapExisting, MapObservation, Extends;
    ExtendsItself(t);
    if w.recordKind == SessionKind || (w.recordKind == ObservationKind && w.kind != Tombstone && w.kind != Resolve) {
      AdoptExtends(n, t, local, w.recordKind, w.recordId);
    }
  }

  lemma StepExtends(n: Naming, t: Identities, e: Event)
    ensures Extends(t, Step(n, t, e))
  {
    hide Translate, MapMutation, Extends;
    ExtendsItself(t);
    if Attempt(n, t, e).Renamed? {
      match e
      case Send(m, local, device) => TranslateExtends(n, t, local, m, device);
      case Receive(w, local) => MapExtends(n, t, local, w);
    }
  }

  // --------------------------------------------------------- names stay valid

  lemma SendKeepsNames(n: Naming, t: Identities, local: Local, m: Mutation, device: string)
    requires IdentitiesValid(n, t) && Translate(n, t, local, m, device).Renamed?
    ensures IdentitiesValid(n, Translate(n, t, local, m, device).table)
  {
    hide Ensure, IdentitiesValid, OfProject, TranslateObservation, Find, ObservationsCorrespond, RecordsAtHome, Extends, IsNamed;
    if m.recordKind == SessionKind {
      EnsureKeepsValid(n, t, Key(SessionKind, m.recordId), device);
    } else if m.recordKind == ObservationKind {
      var key := Key(ObservationKind, m.recordId);
      if m.kind != Tombstone {
        EnsureKeepsValid(n, t, key, device);
      }
      if m.observation.Some? {
        var named := if m.kind == Tombstone then Named(t, Find(n, t, key).value) else Ensure(n, t, key, device);
        TranslatedObservation(n, named.table, local, m, device, named.id);
      }
    }
  }

  lemma ReceiveKeepsNamesExactly(n: Naming, t: Identities, local: Local, w: Mutation)
    requires IdentitiesValid(n, t) && DeviceCanonical(n) && MapMutation(n, t, local, w).Renamed?
    ensures IdentitiesValid(n, MapMutation(n, t, local, w).table) <==> !AdoptsUnreadable(n, t, Receive(w, local))
  {
    hide Adopt, MapExisting, MapObservation, IdentitiesValid, IsCanonicalUuid, Extends;
    if w.recordKind == SessionKind || (w.recordKind == ObservationKind && w.kind != Tombstone && w.kind != Resolve) {
      if Known(t, w.recordKind, w.recordId) {
        KnownChangesNothing(n, t, local, w.recordKind, w.recordId);
      } else if IsCanonicalUuid(w.recordId) {
        AdoptKeepsValid(n, t, local, w.recordKind, w.recordId);
      } else {
        AdoptionReadableExactly(n, t, local, w.recordKind, w.recordId);
        UnreadableIsInvalid(n, Adopt(n, t, local, w.recordKind, w.recordId).table,
                            Key(w.recordKind, Adopt(n, t, local, w.recordKind, w.recordId).id));
      }
    }
  }

  lemma KnownChangesNothing(n: Naming, t: Identities, local: Local, kind: RecordKind, wire: string)
    requires Known(t, kind, wire) && Adopt(n, t, local, kind, wire).Named?
    ensures Adopt(n, t, local, kind, wire).table == t
  {
    hide MapExisting;
  }

  lemma UnreadableIsInvalid(n: Naming, t: Identities, key: Key)
    requires key in t.rows && !RowValid(n, t, key)
    ensures !IdentitiesValid(n, t)
  {
    hide RowValid;
  }

  /** A name that cannot be read stays that way. */
  lemma UnreadableStays(n: Naming, t: Identities, u: Identities, key: Key)
    requires Extends(t, u) && key in t.rows && !RowValid(n, t, key)
    ensures key in u.rows && !RowValid(n, u, key)
  {
    hide IsCanonicalUuid, AdoptedLocalId;
  }

  ghost predicate HasUnreadable(n: Naming, t: Identities) {
    exists key :: key in t.rows && !RowValid(n, t, key)
  }

  /** One event keeps the names a readable bijection exactly unless it adopts an unreadable one. */
  lemma StepKeepsNamesExactly(n: Naming, t: Identities, e: Event)
    requires IdentitiesValid(n, t) && DeviceCanonical(n)
    ensures IdentitiesValid(n, Step(n, t, e)) <==> !AdoptsUnreadable(n, t, e)
  {
    hide Translate, MapMutation, IdentitiesValid, IsCanonicalUuid, DeviceCanonical, Known;
    if Attempt(n, t, e).Renamed? {
      match e
      case Send(m, local, device) => SendKeepsNames(n, t, local, m, device);
      case Receive(w, local) => ReceiveKeepsNamesExactly(n, t, local, w);
    }
  }

  lemma SomeRowUnreadable(n: Naming, t: Identities, e: Event)
    requires IdentitiesValid(n, t) && DeviceCanonical(n) && AdoptsUnreadable(n, t, e)
    ensures HasUnreadable(n, Step(n, t, e))
  {
    hide Adopt, MapExisting, MapObservation, IdentitiesValid, IsCanonicalUuid, Extends, RowValid;
    AdoptionReadableExactly(n, t, e.local, e.w.recordKind, e.w.recordId);
    var key := Key(e.w.recordKind, Adopt(n, t, e.local, e.w.recordKind, e.w.recordId).id);
    assert key in Step(n, t, e).rows && !RowValid(n, Step(n, t, e), key);
  }

  ghost predicate NeverUnreadable(n: Naming, t: Identities, events: seq<Event>) {
    events == []
    || (NeverUnreadable(n, t, events[..|events| - 1]) && !AdoptsUnreadable(n, After(n, t, events[..|events| - 1]), events[|events| - 1]))
  }

  lemma UnreadableRemains(n: Naming, t: Identities, u: Identities)
    requires HasUnreadable(n, t) && Extends(t, u)
    ensures HasUnreadable(n, u) && !IdentitiesValid(n, u)
  {
    hide Extends, IdentitiesValid, RowValid;
    var key :| key in t.rows && !RowValid(n, t, key);
    UnreadableStays(n, t, u, key);
    UnreadableIsInvalid(n, u, key);
  }

  /**
   Over any run names only come in, and they are a readable bijection at the end if and only if
   no event ever adopted an id that is not in the store's form: one such event is for good.
   */
  lemma {:induction false} RunKeepsNamesExactly(n: Naming, t: Identities, events: seq<Event>)
    requires IdentitiesValid(n, t) && DeviceCanonical(n)
    ensures Extends(t, After(n, t, events))
    ensures IdentitiesValid(n, After(n, t, events)) <==> NeverUnreadable(n, t, events)
    ensures HasUnreadable(n, After(n, t, events)) <==> !NeverUnreadable(n, t, events)
    decreases |events|
  {
    hide IdentitiesValid, DeviceCanonical, AdoptsUnreadable, Step, Extends, HasUnreadable;
    if events == [] {
      ExtendsItself(t);
      ValidHasNone(n, t);
    } else {
      var last := |events| - 1;
      var before := After(n, t, events[..last]);
      var after := Step(n, before, events[last]);
      RunKeepsNamesExactly(n, t, events[..last]);
      StepExtends(n, before, events[last]);
      ExtendsTransitive(t, before, after);
      if !NeverUnreadable(n, t, events[..last]) {
        UnreadableRemains(n, before, after);
      } else {
        StepKeepsNamesExactly(n, before, events[last]);
        if AdoptsUnreadable(n, before, events[last]) {
          SomeRowUnreadable(n, before, events[last]);
        } else {
          ValidHasNone(n, after);
        }
      }
    }
  }

  lemma ValidHasNone(n: Naming, t: Identities)
    requires IdentitiesValid(n, t)
    ensures !HasUnreadable(n, t)
  {
    hide RowValid;
  }

  /** A device without names has none to misread. */
  lemma NoNamesAreValid(n: Naming, elsewhere: set<string>)
    ensures IdentitiesValid(n, Identities(map[], map[], elsewhere))
  {
  }

  /** From a device without names: they stay readable over a run if and only if it adopts no unreadable one. */
  lemma DeviceKeepsNamesExactly(n: Naming, elsewhere: set<string>, events: seq<Event>)
    requires DeviceCanonical(n)
    ensures var none := Identities(map[], map[], elsewhere);
            IdentitiesValid(n, After(n, none, events)) <==> NeverUnreadable(n, none, events)
  {
    hide IdentitiesValid, After, NeverUnreadable, DeviceCanonical;
    NoNamesAreValid(n, elsewhere);
    RunKeepsNamesExactly(n, Identities(map[], map[], elsewhere), events);
  }

  // --------------------------------------------------- names without records

  /** A name maps, in a readable table, if and only if its record is there. */
  lemma KnownMapsExactly(n: Naming, t: Identities, local: Local, key: Key, wire: string)
    requires IdentitiesValid(n, t) && IsNamed(t, key, wire)
    ensures MapExisting(n, t, local, key.kind, wire).Some? <==> OfProject(n.binding, local, key)
  {
    hide IsCanonicalUuid, ByteLength, AdoptedLocalId, RowValid;
    assert Known(t, key.kind, wire);
  }

  /** A name without a record refuses every change of it. */
  lemma NameWithoutRecordBlocks(n: Naming, t: Identities, local: Local, key: Key, w: Mutation)
    requires IdentitiesValid(n, t) && IsNamed(t, key, w.recordId) && !OfProject(n.binding, local, key)
    requires w.recordKind == key.kind && key.kind != ProjectKind
    ensures MapMutation(n, t, local, w).NotRenamed?
  {
    hide IdentitiesValid, MapExisting, MapObservation, OfProject;
    KnownMapsExactly(n, t, local, key, w.recordId);
    assert Known(t, key.kind, w.recordId);
  }

  /** The device makes no row of a conflict. */
  lemma ConflictAddsNoRow(local: Local, c: Change)
    requires c.disposition == ConflictChange && Apply(local, c).Applied?
    ensures Apply(local, c).local.observations.Keys == local.observations.Keys
  {
    hide ConflictIdTaken;
  }

  /**
   The conflict of a record the device has not seen gives the record a name but no row. From then
   on, as long as none appears under that name, no change of the record can be mapped, the
   acceptance that would bring the row included.
   */
  lemma ConflictAdoptionBlocks(n: Naming, t: Identities, local: Local, c: Change, later: Identities, rows: Local, w: Mutation)
    requires IdentitiesValid(n, t) && DeviceCanonical(n) && Adopts(n, t, Receive(c.mutation, local)) && IsCanonicalUuid(c.mutation.recordId)
    requires c.mutation.recordKind == ObservationKind && c.disposition == ConflictChange
    requires w.recordKind == ObservationKind && w.recordId == c.mutation.recordId
    ensures var m := MapMutation(n, t, local, c.mutation);
            var applied := Apply(local, c.(mutation := m.mutation));
            && (applied.Applied? && m.mutation.recordId !in local.observations ==> m.mutation.recordId !in applied.local.observations)
            && (IdentitiesValid(n, later) && Extends(m.table, later) && m.mutation.recordId !in rows.observations ==>
                  MapMutation(n, later, rows, w).NotRenamed?)
  {
    hide IdentitiesValid, Apply, Extends, Adopt, MapExisting, MapObservation, IsCanonicalUuid;
    var m := MapMutation(n, t, local, c.mutation);
    AdoptKeepsValid(n, t, local, ObservationKind, c.mutation.recordId);
    var key := Key(ObservationKind, m.mutation.recordId);
    if Apply(local, c.(mutation := m.mutation)).Applied? {
      ConflictAddsNoRow(local, c.(mutation := m.mutation));
    }
    if IdentitiesValid(n, later) && Extends(m.table, later) && m.mutation.recordId !in rows.observations {
      StaysNamed(m.table, later, key, w.recordId);
      NameWithoutRecordBlocks(n, later, rows, key, w);
    }
  }

  /** What mapping makes of a valid change that adopts a name. */
  lemma AdoptedShape(n: Naming, t: Identities, local: Local, c: Change)
    requires Protocol.ValidPulledChange(c) && Adopts(n, t, Receive(c.mutation, local))
    ensures var m := MapMutation(n, t, local, c.mutation).mutation;
            && m.recordKind == c.mutation.recordKind != ProjectKind
            && m.kind == c.mutation.kind && m.kind != Tombstone && m.kind != Resolve
            && (c.disposition == ConflictChange ==> m.recordKind == ObservationKind)
            && (m.recordKind == SessionKind ==> m.session == Some(Session(m.recordId, n.binding.project)))
            && (m.recordKind == ObservationKind && m.observation.Some? ==>
                  m.observation.value.id == m.recordId && m.observation.value.projectId == n.binding.project)
  {
    hide Adopt, MapExisting, MapFirst, VerifyChangeHash, MutationExceedsLimits, IsCanonicalUuid, ValidPayload, Known;
  }

  /** A valid adopting change that applies leaves a row under the adopted name if and only if it is not a conflict. */
  lemma AdoptedHasRowExactly(n: Naming, t: Identities, local: Local, c: Change)
    requires Protocol.ValidPulledChange(c) && Adopts(n, t, Receive(c.mutation, local))
    requires var m := MapMutation(n, t, local, c.mutation).mutation;
             && Apply(local, c.(mutation := m)).Applied?
             && m.recordId !in local.observations && m.recordId !in local.sessions
    ensures var m := MapMutation(n, t, local, c.mutation).mutation;
            OfProject(n.binding, Apply(local, c.(mutation := m)).local, KeyOf(m)) <==> c.disposition != ConflictChange
  {
    hide MapMutation, Adopts, TopicHeld, HasTombstone, ReferencesValid, TimesStorable, ConflictIdTaken, Protocol.ValidPulledChange, SameIdentity;
    AdoptedShape(n, t, local, c);
  }

  /**
   The name a valid change adopts can be used afterwards, for any later change of the record, if and only
   if the change was not a conflict.
   */
  lemma AdoptionUsableExactly(n: Naming, t: Identities, local: Local, c: Change)
    requires IdentitiesValid(n, t) && DeviceCanonical(n) && Protocol.ValidPulledChange(c)
    requires Adopts(n, t, Receive(c.mutation, local)) && IsCanonicalUuid(c.mutation.recordId)
    requires var m := MapMutation(n, t, local, c.mutation).mutation;
             && Apply(local, c.(mutation := m)).Applied?
             && m.recordId !in local.observations && m.recordId !in local.sessions
    ensures var r := MapMutation(n, t, local, c.mutation);
            MapExisting(n, r.table, Apply(local, c.(mutation := r.mutation)).local, c.mutation.recordKind, c.mutation.recordId).Some?
            <==> c.disposition != ConflictChange
  {
    hide IdentitiesValid, Apply, Adopt, MapExisting, MapObservation, IsCanonicalUuid, OfProject, Extends, Known, Protocol.ValidPulledChange;
    var r := MapMutation(n, t, local, c.mutation);
    AdoptedHasRowExactly(n, t, local, c);
    AdoptKeepsValid(n, t, local, c.mutation.recordKind, c.mutation.recordId);
    KnownMapsExactly(n, r.table, Apply(local, c.(mutation := r.mutation)).local, KeyOf(r.mutation), c.mutation.recordId);
  }
}
