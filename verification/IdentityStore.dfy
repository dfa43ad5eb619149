/** The identity tables of one project, as translation and mapping read and extend them (internal/memory/sync.go). */
module IdentityStore {
  import opened Options
  import opened Uuids
  import opened SyncService
  import opened Replica
  import opened Transition
  import opened Identity

  class IdentityTables {
    const naming: Naming
    var rows: map<Key, IdentityRow>
    var adoptions: map<Key, AdoptionRow>
    var elsewhere: set<string>

    function State(): Identities
      reads this
    {
      Identities(rows, adoptions, elsewhere)
    }

    /** portable_id TEXT NOT NULL UNIQUE */
    ghost predicate Valid()
      reads this
    {
      PortablesUnique(State())
    }

    constructor (naming: Naming, elsewhere: set<string>)
      ensures Valid() && this.naming == naming && State() == Identities(map[], map[], elsewhere)
    {
      this.naming := naming;
      rows, adoptions, this.elsewhere := map[], map[], elsewhere;
    }

    method Rollback(saved: Identities)
      modifies this
      ensures State() == saved
    {
      rows, adoptions, elsewhere := saved.rows, saved.adoptions, saved.elsewhere;
    }

    /** ensureSyncPortableIdentity */
    method EnsureIdentity(key: Key, device: string) returns (named: Named)
      requires Valid()
      modifies this
      ensures Valid()
      ensures named == Ensure(naming, old(State()), key, device)
      ensures State() == if named.Named? then named.table else old(State())
    {
      hide RowValid, NameFits, PortablesUnique, PortableTaken;
      var saved := State();
      if !NameFits(key.id) || key.kind == ProjectKind {
        return Unnamed;
      }
      var want := naming.derive(key.kind, key.id);
      if key in rows {
        return if RowValid(naming, State(), key) then Named(State(), rows[key].portable) else Unnamed;
      }
      if !PortableTaken(State(), want) {
        UniqueGrows(saved, key, IdentityRow(want, device));
        rows := rows[key := IdentityRow(want, device)];
      }
      if key !in rows {
        return Unnamed;
      }
      if !RowValid(naming, State(), key) {
        Rollback(saved);
        return Unnamed;
      }
      named := Named(State(), rows[key].portable);
    }

    /** mapExisting */
    method LocalOf(local: Local, kind: RecordKind, wire: string) returns (id: Option<string>)
      requires Valid()
      ensures id == MapExisting(naming, State(), local, kind, wire)
    {
      hide RowValid, NameFits, OfProject;
      if !Known(State(), kind, wire) {
        return None;
      }
      var key :| key in rows && key.kind == kind && IsNamed(State(), key, wire);
      if !NameFits(key.id) || !RowValid(naming, State(), key) {
        return None;
      }
      if !OfProject(naming.binding, local, key) {
        return None;
      }
      id := Some(key.id);
    }

    /** adopt */
    method AdoptIdentity(local: Local, kind: RecordKind, wire: string) returns (named: Named)
      requires Valid()
      modifies this
      ensures Valid()
      ensures named == Adopt(naming, old(State()), local, kind, wire)
      ensures State() == if named.Named? then named.table else old(State())
    {
      hide MapExisting, AdoptedLocalId, PortablesUnique, PortableTaken, Known;
      var existing := LocalOf(local, kind, wire);
      if existing.Some? {
        FoundIsKnown(naming, State(), local, kind, wire);
        return Named(State(), existing.value);
      }
      if Known(State(), kind, wire) {
        return Unnamed;
      }
      if naming.device.None? {
        return Unnamed;
      }
      var key := Key(kind, AdoptedLocalId(kind, wire));
      if |wire| != UUID_LENGTH || key in rows || key in adoptions || PortableTaken(State(), wire) {
        return Unnamed;
      }
      UniqueGrows(State(), key, IdentityRow(wire, naming.device.value));
      rows := rows[key := IdentityRow(wire, naming.device.value)];
      SameUnique(State(), State().(adoptions := adoptions[key := AdoptionRow(wire, naming.device.value)]));
      adoptions := adoptions[key := AdoptionRow(wire, naming.device.value)];
      named := Named(State(), key.id);
    }

    /** The references of an observation, each replaced in turn by its portable name. */
    method TranslateReferences(local: Local, references: seq<string>, device: string) returns (result: NamedAll)
      requires Valid()
      modifies this
      ensures Valid()
      ensures result == EnsureFirst(naming, old(State()), local, references, device, |references|)
      ensures result.NamedAll? ==> State() == result.table
    {
      hide Ensure, OfProject, PortablesUnique;
      ghost var start := State();
      var ids: seq<string> := [];
      var i := 0;
      while i < |references|
        invariant 0 <= i <= |references| && Valid()
        invariant EnsureFirst(naming, start, local, references, device, i) == NamedAll(State(), ids)
      {
        if !OfProject(naming.binding, local, Key(ObservationKind, references[i])) {
          UnnamedLater(naming, start, local, references, device, i + 1, |references|);
          return UnnamedAll;
        }
        var named := EnsureIdentity(Key(ObservationKind, references[i]), device);
        if named.Unnamed? {
          UnnamedLater(naming, start, local, references, device, i + 1, |references|);
          return UnnamedAll;
        }
        ids := ids + [named.id];
        i := i + 1;
      }
      result := NamedAll(State(), ids);
    }

    method TranslateSnapshot(local: Local, m: Mutation, device: string, wire: string) returns (result: Renamed)
      requires Valid() && m.observation.Some?
      modifies this
      ensures Valid()
      ensures result == TranslateObservation(naming, old(State()), local, m, device, wire)
      ensures result.Renamed? ==> State() == result.table
    {
      hide Ensure, OfProject, EnsureFirst, PortablesUnique;
      var o := m.observation.value;
      if o.id != m.recordId || o.projectId != naming.binding.project
         || !OfProject(naming.binding, local, Key(ObservationKind, m.recordId)) {
        return NotRenamed;
      }
      o := o.(id := wire, projectId := naming.binding.portable);
      if o.sessionId != "" {
        if !OfProject(naming.binding, local, Key(SessionKind, o.sessionId)) {
          return NotRenamed;
        }
        var session := EnsureIdentity(Key(SessionKind, o.sessionId), device);
        if session.Unnamed? {
          return NotRenamed;
        }
        o := o.(sessionId := session.id);
      }
      var references := TranslateReferences(local, o.references, device);
      if references.UnnamedAll? {
        return NotRenamed;
      }
      o := o.(references := references.ids);
      result := Renamed(State(), m.(recordId := wire, observation := Some(o)));
    }

    /** translateSyncMutation; a failure rolls its new names back. */
    method TranslateMutation(local: Local, m: Mutation, device: string) returns (result: Renamed)
      requires Valid()
      modifies this
      ensures Valid()
      ensures result == Translate(naming, old(State()), local, m, device)
      ensures State() == if result.Renamed? then result.table else old(State())
    {
      hide Ensure, OfProject, TranslateObservation, Find, PortablesUnique;
      var saved := State();
      var project, portable := naming.binding.project, naming.binding.portable;
      if m.kind == Resolve {
        return NotRenamed;
      }
      match m.recordKind {
        case ProjectKind =>
          if m.recordId != project || m.project != Some(Project(project)) {
            return NotRenamed;
          }
          return Renamed(State(), m.(recordId := portable, project := Some(Project(portable))));
        case SessionKind =>
          if m.session != Some(Session(m.recordId, project)) || !OfProject(naming.binding, local, Key(SessionKind, m.recordId)) {
            return NotRenamed;
          }
          var named := EnsureIdentity(Key(SessionKind, m.recordId), device);
          if named.Unnamed? {
            return NotRenamed;
          }
          return Renamed(State(), m.(recordId := named.id, session := Some(Session(named.id, portable))));
        case ObservationKind =>
          var key := Key(ObservationKind, m.recordId);
          var named: Named;
          if m.kind == Tombstone {
            var found := Find(naming, State(), key);
            named := if found.Some? then Named(State(), found.value) else Unnamed;
          } else {
            named := EnsureIdentity(key, device);
          }
          if named.Unnamed? {
            return NotRenamed;
          }
          if m.observation.None? {
            return Renamed(State(), m.(recordId := named.id));
          }
          result := TranslateSnapshot(local, m, device, named.id);
          if result.NotRenamed? {
            Rollback(saved);
          }
      }
    }

    /** The references of a received observation, each replaced by its local id. */
    method MapReferences(local: Local, references: seq<string>) returns (ids: Option<seq<string>>)
      requires Valid()
      ensures ids == MapFirst(naming, State(), local, references, |references|)
    {
      hide MapExisting, PortablesUnique;
      var mapped: seq<string> := [];
      var i := 0;
      while i < |references|
        invariant 0 <= i <= |references| && Valid()
        invariant MapFirst(naming, State(), local, references, i) == Some(mapped)
      {
        var id := LocalOf(local, ObservationKind, references[i]);
        if id.None? {
          UnmappedLater(naming, State(), local, references, i + 1, |references|);
          return None;
        }
        mapped := mapped + [id.value];
        i := i + 1;
      }
      ids := Some(mapped);
    }

    method MapSnapshot(local: Local, o: Observation, id: string) returns (result: Option<Observation>)
      requires Valid()
      ensures result == MapObservation(naming, State(), local, o, id)
    {
      hide MapExisting, MapFirst, PortablesUnique;
      var mapped := o.(id := id, projectId := naming.binding.project);
      if o.sessionId != "" {
        var session := LocalOf(local, SessionKind, o.sessionId);
        if session.None? {
          return None;
        }
        mapped := mapped.(sessionId := session.value);
      }
      var references := MapReferences(local, o.references);
      if references.None? {
        return None;
      }
      result := Some(mapped.(references := references.value));
    }

    /** mapProjectPulledChange; a failure rolls its adoption back. */
    method MapChange(local: Local, m: Mutation) returns (result: Renamed)
      requires Valid()
      modifies this
      ensures Valid()
      ensures result == MapMutation(naming, old(State()), local, m)
      ensures State() == if result.Renamed? then result.table else old(State())
    {
      hide MapExisting, MapObservation, Adopt, PortablesUnique;
      var saved := State();
      var project := naming.binding.project;
      match m.recordKind {
        case ProjectKind =>
          if m.project.None? {
            return NotRenamed;
          }
          return Renamed(State(), m.(recordId := project, project := Some(Project(project))));
        case SessionKind =>
          var named := AdoptIdentity(local, SessionKind, m.recordId);
          if named.Unnamed? || m.session.None? {
            Rollback(saved);
            return NotRenamed;
          }
          return Renamed(State(), m.(recordId := named.id, session := Some(Session(named.id, project))));
        case ObservationKind =>
          var id: string;
          if m.kind == Tombstone || m.kind == Resolve {
            var existing := LocalOf(local, ObservationKind, m.recordId);
            if existing.None? {
              return NotRenamed;
            }
            id := existing.value;
          } else {
            var named := AdoptIdentity(local, ObservationKind, m.recordId);
            if named.Unnamed? {
              return NotRenamed;
            }
            id := named.id;
          }
          var mapped := m.(recordId := id);
          if m.observation.Some? {
            var o := MapSnapshot(local, m.observation.value, id);
            if o.None? {
              Rollback(saved);
              return NotRenamed;
            }
            mapped := mapped.(observation := o);
          }
          if m.tombstone.Some? {
            mapped := mapped.(tombstone := Some(m.tombstone.value.(projectId := project)));
          }
          if m.resolution.Some? && m.resolution.value.observation.Some? {
            var winner := MapSnapshot(local, m.resolution.value.observation.value, id);
            if winner.None? {
              Rollback(saved);
              return NotRenamed;
            }
            mapped := mapped.(resolution := Some(m.resolution.value.(observation := winner)));
          }
          result := Renamed(State(), mapped);
      }
    }
  }

  lemma FoundIsKnown(n: Naming, t: Identities, local: Local, kind: RecordKind, wire: string)
    requires MapExisting(n, t, local, kind, wire).Some?
    ensures Known(t, kind, wire)
  {
    hide RowValid, NameFits, OfProject;
  }

  lemma {:induction false} UnnamedLater(n: Naming, t: Identities, local: Local, references: seq<string>, device: string, k: nat, m: nat)
    requires k <= m <= |references| && EnsureFirst(n, t, local, references, device, k).UnnamedAll?
    ensures EnsureFirst(n, t, local, references, device, m).UnnamedAll?
    decreases m - k
  {
    hide Ensure, OfProject;
    if k < m {
      UnnamedLater(n, t, local, references, device, k + 1, m);
    }
  }

  lemma {:induction false} UnmappedLater(n: Naming, t: Identities, local: Local, references: seq<string>, k: nat, m: nat)
    requires k <= m <= |references| && MapFirst(n, t, local, references, k).None?
    ensures MapFirst(n, t, local, references, m).None?
    decreases m - k
  {
    hide MapExisting;
    if k < m {
      UnmappedLater(n, t, local, references, k + 1, m);
    }
  }
}
