/**
 Local and portable names of a project's records (internal/memory/sync.go): a device
 sends a record under a derived id and keeps one it received under an adopted one.
 */
module Identity {
  import opened Options
  import opened Uuids
  import opened SyncService
  import opened Replica
  import opened Transition
  import Protocol

  datatype IdentityRow = IdentityRow(portable: string, origin: string)
  datatype AdoptionRow = AdoptionRow(wire: string, device: string)

  /** The identity rows of one project; elsewhere are the portable ids other projects hold. */
  datatype Identities = Identities(rows: map<Key, IdentityRow>, adoptions: map<Key, AdoptionRow>, elsewhere: set<string>)

  /** derive is portableSyncUUID for the project; device is that of the enabled profile. */
  datatype Naming = Naming(binding: Binding, derive: (RecordKind, string) -> string, device: Option<string>)

  datatype Named = Unnamed | Named(table: Identities, id: string)
  datatype NamedAll = UnnamedAll | NamedAll(table: Identities, ids: seq<string>)
  datatype Renamed = NotRenamed | Renamed(table: Identities, mutation: Mutation)

  function KindName(kind: RecordKind): string {
    match kind
    case ProjectKind => "project"
    case SessionKind => "session"
    case ObservationKind => "observation"
  }

  /** adoptedSyncLocalID */
  function AdoptedLocalId(kind: RecordKind, wire: string): string {
    "sync-adopted:" + KindName(kind) + ":" + wire
  }

  predicate NameFits(local: string) {
    0 < ByteLength(local) <= MAX_RECORD_ID_BYTES
  }

  predicate PortableTaken(t: Identities, portable: string) {
    portable in t.elsewhere || exists key :: key in t.rows && t.rows[key].portable == portable
  }

  // --------------------------------------------------------------- naming

  /** validSyncPortableIdentity: derived from the local id, or adopted with it. */
  predicate RowValid(n: Naming, t: Identities, key: Key)
    requires key in t.rows
  {
    var row := t.rows[key];
    && IsCanonicalUuid(row.portable) && IsCanonicalUuid(row.origin)
    && if key !in t.adoptions then row.portable == n.derive(key.kind, key.id)
       else
         && t.adoptions[key] == AdoptionRow(row.portable, row.origin)
         && key.id == AdoptedLocalId(key.kind, row.portable)
  }

  /** findSyncPortableIdentity */
  function Find(n: Naming, t: Identities, key: Key): Option<string> {
    if !NameFits(key.id) || key !in t.rows || !RowValid(n, t, key) then None else Some(t.rows[key].portable)
  }

  /** ensureSyncPortableIdentity */
  function Ensure(n: Naming, t: Identities, key: Key, device: string): Named {
    if !NameFits(key.id) || key.kind == ProjectKind then Unnamed
    else if key in t.rows then if RowValid(n, t, key) then Named(t, t.rows[key].portable) else Unnamed
    else if PortableTaken(t, n.derive(key.kind, key.id)) then Unnamed
    else
      var named := t.(rows := t.rows[key := IdentityRow(n.derive(key.kind, key.id), device)]);
      if RowValid(n, named, key) then Named(named, n.derive(key.kind, key.id)) else Unnamed
  }

  predicate IsNamed(t: Identities, key: Key, wire: string) {
    key in t.rows && t.rows[key].portable == wire
  }

  predicate Known(t: Identities, kind: RecordKind, wire: string) {
    exists key :: key in t.rows && key.kind == kind && IsNamed(t, key, wire)
  }

  /** The local id under which a portable one is known, of a record of the project. */
  ghost function MapExisting(n: Naming, t: Identities, local: Local, kind: RecordKind, wire: string): Option<string> {
    if !Known(t, kind, wire) then None
    else
      var key :| key in t.rows && key.kind == kind && IsNamed(t, key, wire);
      if NameFits(key.id) && RowValid(n, t, key) && OfProject(n.binding, local, key) then Some(key.id) else None
  }

  /** A wire id not known yet is adopted. */
  ghost function Adopt(n: Naming, t: Identities, local: Local, kind: RecordKind, wire: string): Named {
    if Known(t, kind, wire) then
      (match MapExisting(n, t, local, kind, wire)
       case None => Unnamed
       case Some(id) => Named(t, id))
    else
      var key := Key(kind, AdoptedLocalId(kind, wire));
      if n.device.None? || |wire| != UUID_LENGTH || key in t.rows || key in t.adoptions || PortableTaken(t, wire) then Unnamed
      else
        Named(t.(rows := t.rows[key := IdentityRow(wire, n.device.value)],
                 adoptions := t.adoptions[key := AdoptionRow(wire, n.device.value)]),
              key.id)
  }

  // ---------------------------------------------------------- translation

  /** The first k references under their portable names. */
  function EnsureFirst(n: Naming, t: Identities, local: Local, references: seq<string>, device: string, k: nat): (r: NamedAll)
    requires k <= |references|
    ensures r.NamedAll? ==> |r.ids| == k
  {
    if k == 0 then NamedAll(t, [])
    else
      var before := EnsureFirst(n, t, local, references, device, k - 1);
      var key := Key(ObservationKind, references[k - 1]);
      if before.UnnamedAll? || !OfProject(n.binding, local, key) then UnnamedAll
      else
        var named := Ensure(n, before.table, key, device);
        if named.Unnamed? then UnnamedAll else NamedAll(named.table, before.ids + [named.id])
  }

  /** The observation of a mutation, as it is sent. */
  function TranslateObservation(n: Naming, t: Identities, local: Local, m: Mutation, device: string, wire: string): Renamed
    requires m.observation.Some?
  {
    var o := m.observation.value;
    if o.id != m.recordId || o.projectId != n.binding.project || !OfProject(n.binding, local, Key(ObservationKind, m.recordId)) then NotRenamed
    else if o.sessionId != "" && !OfProject(n.binding, local, Key(SessionKind, o.sessionId)) then NotRenamed
    else
      var session := if o.sessionId == "" then Named(t, "") else Ensure(n, t, Key(SessionKind, o.sessionId), device);
      if session.Unnamed? then NotRenamed
      else
        var references := EnsureFirst(n, session.table, local, o.references, device, |o.references|);
        if references.UnnamedAll? then NotRenamed
        else
          Renamed(references.table,
                  m.(recordId := wire,
                     observation := Some(o.(id := wire, projectId := n.binding.portable, sessionId := session.id, references := references.ids))))
  }

  /** translateSyncMutation */
  function Translate(n: Naming, t: Identities, local: Local, m: Mutation, device: string): Renamed {
    var b := n.binding;
    if m.kind == Resolve then NotRenamed
    else
      match m.recordKind
      case ProjectKind =>
        if m.recordId != b.project || m.project != Some(Project(b.project)) then NotRenamed
        else Renamed(t, m.(recordId := b.portable, project := Some(Project(b.portable))))
      case SessionKind =>
        if m.session != Some(Session(m.recordId, b.project)) || !OfProject(b, local, Key(SessionKind, m.recordId)) then NotRenamed
        else
          var named := Ensure(n, t, Key(SessionKind, m.recordId), device);
          if named.Unnamed? then NotRenamed
          else Renamed(named.table, m.(recordId := named.id, session := Some(Session(named.id, b.portable))))
      case ObservationKind =>
        var key := Key(ObservationKind, m.recordId);
        var named :=
          if m.kind == Tombstone then if Find(n, t, key).Some? then Named(t, Find(n, t, key).value) else Unnamed
          else Ensure(n, t, key, device);
        if named.Unnamed? then NotRenamed
        else if m.observation.None? then Renamed(named.table, m.(recordId := named.id))
        else TranslateObservation(n, named.table, local, m, device, named.id)
  }

  // -------------------------------------------------------------- mapping

  ghost function MapFirst(n: Naming, t: Identities, local: Local, references: seq<string>, k: nat): (r: Option<seq<string>>)
    requires k <= |references|
    ensures r.Some? ==> |r.value| == k
  {
    if k == 0 then Some([])
    else
      var before := MapFirst(n, t, local, references, k - 1);
      var id := MapExisting(n, t, local, ObservationKind, references[k - 1]);
      if before.None? || id.None? then None else Some(before.value + [id.value])
  }

  /** A received observation, under local names. */
  ghost function MapObservation(n: Naming, t: Identities, local: Local, o: Observation, id: string): Option<Observation> {
    var session := if o.sessionId == "" then Some("") else MapExisting(n, t, local, SessionKind, o.sessionId);
    var references := MapFirst(n, t, local, o.references, |o.references|);
    if session.None? || references.None? then None
    else Some(o.(id := id, projectId := n.binding.project, sessionId := session.value, references := references.value))
  }

  /** mapProjectPulledChange, of the change's mutation. */
  ghost function MapMutation(n: Naming, t: Identities, local: Local, m: Mutation): Renamed {
    var project := n.binding.project;
    match m.recordKind
    case ProjectKind => if m.project.None? then NotRenamed else Renamed(t, m.(recordId := project, project := Some(Project(project))))
    case SessionKind =>
      var named := Adopt(n, t, local, SessionKind, m.recordId);
      if named.Unnamed? || m.session.None? then NotRenamed
      else Renamed(named.table, m.(recordId := named.id, session := Some(Session(named.id, project))))
    case ObservationKind =>
      var named :=
        if m.kind != Tombstone && m.kind != Resolve then Adopt(n, t, local, ObservationKind, m.recordId)
        else if MapExisting(n, t, local, ObservationKind, m.recordId).Some? then
          Named(t, MapExisting(n, t, local, ObservationKind, m.recordId).value)
        else Unnamed;
      if named.Unnamed? then NotRenamed
      else
        var observation := if m.observation.None? then Some(None) else
          match MapObservation(n, named.table, local, m.observation.value, named.id)
          case None => None
          case Some(o) => Some(Some(o));
        var winner := if m.resolution.None? || m.resolution.value.observation.None? then Some(m.resolution) else
          match MapObservation(n, named.table, local, m.resolution.value.observation.value, named.id)
          case None => None
          case Some(o) => Some(Some(m.resolution.value.(observation := Some(o))));
        if observation.None? || winner.None? then NotRenamed
        else
          Renamed(named.table,
                  m.(recordId := named.id,
                     observation := observation.value,
                     tombstone := if m.tombstone.Some? then Some(m.tombstone.value.(projectId := project)) else None,
                     resolution := winner.value))
  }

  // ------------------------------------------------------------ invariant

  ghost predicate RowsReadable(n: Naming, t: Identities) {
    forall key | key in t.rows :: NameFits(key.id) && key.kind != ProjectKind && RowValid(n, t, key)
  }

  ghost predicate PortablesUnique(t: Identities) {
    && (forall key | key in t.rows :: t.rows[key].portable !in t.elsewhere)
    && (forall key, other | key in t.rows && other in t.rows && key != other :: t.rows[key].portable != t.rows[other].portable)
  }

  /** A partial bijection: every row is derived or adopted, and no portable id is used twice. */
  ghost predicate IdentitiesValid(n: Naming, t: Identities) {
    RowsReadable(n, t) && PortablesUnique(t) && forall key | key in t.adoptions :: key in t.rows
  }

  /** Names once given stay. */
  predicate Extends(t: Identities, u: Identities) {
    && (forall key | key in t.rows :: key in u.rows && u.rows[key] == t.rows[key])
    && (forall key | key in t.rows :: key in u.adoptions <==> key in t.adoptions)
    && (forall key | key in t.rows && key in t.adoptions :: u.adoptions[key] == t.adoptions[key])
  }

  lemma ExtendsTransitive(t: Identities, u: Identities, v: Identities)
    requires Extends(t, u) && Extends(u, v)
    ensures Extends(t, v)
  {
  }

  lemma UniqueGrows(t: Identities, key: Key, row: IdentityRow)
    requires PortablesUnique(t) && key !in t.rows && !PortableTaken(t, row.portable)
    ensures PortablesUnique(t.(rows := t.rows[key := row]))
  {
  }

  /** Rows beside a new one read as before. */
  lemma ReadableGrows(n: Naming, t: Identities, u: Identities, key: Key)
    requires RowsReadable(n, t) && key !in t.rows && NameFits(key.id) && key.kind != ProjectKind
    requires key in u.rows && u.rows == t.rows[key := u.rows[key]] && u.adoptions - {key} == t.adoptions - {key} && RowValid(n, u, key)
    ensures RowsReadable(n, u) && Extends(t, u)
  {
    hide IsCanonicalUuid, NameFits, AdoptedLocalId;
    forall other | other in t.rows ensures other != key && (other in u.adoptions <==> other in t.adoptions) && (other in t.adoptions ==> u.adoptions[other] == t.adoptions[other]) {
      assert other in (u.adoptions - {key}) <==> other in (t.adoptions - {key});
    }
    forall other | other in u.rows ensures NameFits(other.id) && other.kind != ProjectKind && RowValid(n, u, other) {
      if other != key {
        assert RowValid(n, t, other);
      }
    }
  }

  lemma EnsureKeepsValid(n: Naming, t: Identities, key: Key, device: string)
    requires IdentitiesValid(n, t) && Ensure(n, t, key, device).Named?
    ensures var r := Ensure(n, t, key, device);
            IdentitiesValid(n, r.table) && Extends(t, r.table) && IsNamed(r.table, key, r.id) && key.kind != ProjectKind
  {
    hide RowsReadable, PortablesUnique, NameFits, RowValid, PortableTaken, Extends;
    if key in t.rows {
      ExtendsItself(t);
    } else {
      UniqueGrows(t, key, IdentityRow(n.derive(key.kind, key.id), device));
      ReadableGrows(n, t, Ensure(n, t, key, device).table, key);
    }
  }

  lemma AdoptedName(kind: RecordKind, wire: string)
    requires IsCanonicalUuid(wire)
    ensures NameFits(AdoptedLocalId(kind, wire))
  {
    hide IsCanonicalUuid;
    assert |wire| == UUID_LENGTH by { CanonicalLength(wire); }
    ShortText(AdoptedLocalId(kind, wire));
    Inhabited(AdoptedLocalId(kind, wire));
  }

  lemma CanonicalLength(s: string)
    requires IsCanonicalUuid(s)
    ensures |s| == UUID_LENGTH
  {
  }

  lemma Inhabited(s: string)
    requires s != ""
    ensures 0 < ByteLength(s)
  {
  }

  lemma AdoptKeepsValid(n: Naming, t: Identities, local: Local, kind: RecordKind, wire: string)
    requires IdentitiesValid(n, t) && kind != ProjectKind && IsCanonicalUuid(wire)
    requires n.device.Some? ==> IsCanonicalUuid(n.device.value)
    requires Adopt(n, t, local, kind, wire).Named?
    ensures var r := Adopt(n, t, local, kind, wire);
            IdentitiesValid(n, r.table) && Extends(t, r.table) && IsNamed(r.table, Key(kind, r.id), wire)
  {
    hide IsCanonicalUuid, NameFits, AdoptedLocalId, IdentitiesValid;
    if Known(t, kind, wire) {
      KnownIsNamed(n, t, local, kind, wire);
      hide Adopt, MapExisting;
    } else {
      AdoptedName(kind, wire);
      AddedKeepsValid(n, t, Key(kind, AdoptedLocalId(kind, wire)), wire, n.device.value);
    }
  }

  lemma KnownIsNamed(n: Naming, t: Identities, local: Local, kind: RecordKind, wire: string)
    requires MapExisting(n, t, local, kind, wire).Some?
    ensures IsNamed(t, Key(kind, MapExisting(n, t, local, kind, wire).value), wire)
    ensures OfProject(n.binding, local, Key(kind, MapExisting(n, t, local, kind, wire).value))
    ensures NameFits(MapExisting(n, t, local, kind, wire).value)
  {
    hide RowValid, NameFits;
    var key :| key in t.rows && key.kind == kind && IsNamed(t, key, wire) && MapExisting(n, t, local, kind, wire) == Some(key.id)
               && OfProject(n.binding, local, key) && NameFits(key.id);
    assert key == Key(kind, key.id);
  }

  /** The rows of an adoption. */
  lemma AddedKeepsValid(n: Naming, t: Identities, key: Key, wire: string, device: string)
    requires IdentitiesValid(n, t) && key !in t.rows && !PortableTaken(t, wire)
    requires NameFits(key.id) && key.kind != ProjectKind && key.id == AdoptedLocalId(key.kind, wire)
    requires IsCanonicalUuid(wire) && IsCanonicalUuid(device)
    ensures var u := t.(rows := t.rows[key := IdentityRow(wire, device)], adoptions := t.adoptions[key := AdoptionRow(wire, device)]);
            IdentitiesValid(n, u) && Extends(t, u) && IsNamed(u, key, wire)
  {
    hide IsCanonicalUuid, NameFits, RowsReadable, PortablesUnique, PortableTaken, Extends, RowValid;
    var u := t.(rows := t.rows[key := IdentityRow(wire, device)], adoptions := t.adoptions[key := AdoptionRow(wire, device)]);
    UniqueGrows(t, key, IdentityRow(wire, device));
    SameUnique(t.(rows := u.rows), u);
    AddedRow(n, t, key, wire, device);
    ReadableGrows(n, t, u, key);
  }

  lemma SameUnique(t: Identities, u: Identities)
    requires PortablesUnique(t) && u.rows == t.rows && u.elsewhere == t.elsewhere
    ensures PortablesUnique(u)
  {
  }

  lemma AddedRow(n: Naming, t: Identities, key: Key, wire: string, device: string)
    requires key.id == AdoptedLocalId(key.kind, wire) && IsCanonicalUuid(wire) && IsCanonicalUuid(device)
    ensures RowValid(n, t.(rows := t.rows[key := IdentityRow(wire, device)], adoptions := t.adoptions[key := AdoptionRow(wire, device)]), key)
  {
    hide IsCanonicalUuid, AdoptedLocalId;
  }

  /** A named record of the project is found under its name. */
  lemma NamedIsFound(n: Naming, t: Identities, local: Local, key: Key, wire: string)
    requires IdentitiesValid(n, t) && IsNamed(t, key, wire) && OfProject(n.binding, local, key)
    ensures MapExisting(n, t, local, key.kind, wire) == Some(key.id)
  {
    hide IsCanonicalUuid, ByteLength, AdoptedLocalId, RowValid;
  }

  lemma StaysNamed(t: Identities, u: Identities, key: Key, wire: string)
    requires Extends(t, u) && IsNamed(t, key, wire)
    ensures IsNamed(u, key, wire)
  {
  }

  lemma ExtendsItself(t: Identities)
    ensures Extends(t, t)
  {
  }

  // ------------------------------------------------------------ round trip

  /** Each portable id is the name of the local one beside it. */
  ghost predicate NamesOf(t: Identities, ids: seq<string>, wires: seq<string>) {
    |ids| == |wires| && forall i | 0 <= i < |ids| :: IsNamed(t, Key(ObservationKind, ids[i]), wires[i])
  }

  lemma StayNames(t: Identities, u: Identities, ids: seq<string>, wires: seq<string>)
    requires Extends(t, u) && NamesOf(t, ids, wires)
    ensures NamesOf(u, ids, wires)
  {
  }

  lemma {:induction false} EnsuredFirst(n: Naming, t: Identities, local: Local, references: seq<string>, device: string, k: nat)
    requires IdentitiesValid(n, t) && k <= |references| && EnsureFirst(n, t, local, references, device, k).NamedAll?
    ensures var r := EnsureFirst(n, t, local, references, device, k);
            IdentitiesValid(n, r.table) && Extends(t, r.table) && NamesOf(r.table, references[..k], r.ids)
    ensures forall i | 0 <= i < k :: OfProject(n.binding, local, Key(ObservationKind, references[i]))
  {
    hide IdentitiesValid, Ensure, Extends, OfProject, IsNamed;
    if k == 0 {
      ExtendsItself(t);
    } else {
      EnsuredFirst(n, t, local, references, device, k - 1);
      var before := EnsureFirst(n, t, local, references, device, k - 1);
      var key := Key(ObservationKind, references[k - 1]);
      EnsureKeepsValid(n, before.table, key, device);
      var named := Ensure(n, before.table, key, device);
      ExtendsTransitive(t, before.table, named.table);
      StayNames(before.table, named.table, references[..k - 1], before.ids);
    }
  }

  /** Named references map back to what they were. */
  lemma {:induction false} MappedBackFirst(n: Naming, t: Identities, local: Local, ids: seq<string>, wires: seq<string>, k: nat)
    requires IdentitiesValid(n, t) && NamesOf(t, ids, wires) && k <= |ids|
    requires forall i | 0 <= i < |ids| :: OfProject(n.binding, local, Key(ObservationKind, ids[i]))
    ensures MapFirst(n, t, local, wires, k) == Some(ids[..k])
  {
    hide IdentitiesValid, OfProject, MapExisting;
    if k > 0 {
      MappedBackFirst(n, t, local, ids, wires, k - 1);
      assert ids[..k] == ids[..k - 1] + [ids[k - 1]];
      NamedIsFound(n, t, local, Key(ObservationKind, ids[k - 1]), wires[k - 1]);
    }
  }

  /** A mutation and its wire form name the same records. */
  ghost predicate Corresponds(n: Naming, t: Identities, m: Mutation, w: Mutation) {
    var b := n.binding;
    && w == m.(recordId := w.recordId, project := w.project, session := w.session, observation := w.observation)
    && match m.recordKind
       case ProjectKind =>
         && m.recordId == b.project && m.project == Some(Project(b.project))
         && w.recordId == b.portable && w.project == Some(Project(b.portable)) && w.session == m.session && w.observation == m.observation
       case SessionKind =>
         && IsNamed(t, Key(SessionKind, m.recordId), w.recordId)
         && m.session == Some(Session(m.recordId, b.project)) && w.session == Some(Session(w.recordId, b.portable))
         && w.project == m.project && w.observation == m.observation
       case ObservationKind =>
         && IsNamed(t, Key(ObservationKind, m.recordId), w.recordId)
         && w.project == m.project && w.session == m.session
         && m.observation.Some? && w.observation.Some?
         && ObservationsCorrespond(n, t, m.recordId, w.recordId, m.observation.value, w.observation.value)
  }

  ghost predicate ObservationsCorrespond(n: Naming, t: Identities, id: string, wire: string, o: Observation, p: Observation) {
    && o.id == id && o.projectId == n.binding.project
    && p == o.(id := wire, projectId := n.binding.portable, sessionId := p.sessionId, references := p.references)
    && (if o.sessionId == "" then p.sessionId == "" else p.sessionId != "" && IsNamed(t, Key(SessionKind, o.sessionId), p.sessionId))
    && NamesOf(t, o.references, p.references)
  }

  /** The records a mutation names are the project's own. */
  predicate RecordsAtHome(n: Naming, local: Local, m: Mutation) {
    match m.recordKind
    case ProjectKind => true
    case SessionKind => OfProject(n.binding, local, Key(SessionKind, m.recordId))
    case ObservationKind =>
      && OfProject(n.binding, local, Key(ObservationKind, m.recordId))
      && (m.observation.Some? ==>
            && (m.observation.value.sessionId != "" ==> OfProject(n.binding, local, Key(SessionKind, m.observation.value.sessionId)))
            && forall i | 0 <= i < |m.observation.value.references| ::
                 OfProject(n.binding, local, Key(ObservationKind, m.observation.value.references[i])))
  }

  /** A created, updated or archived record, rather than a deletion or a resolution. */
  predicate SnapshotMutation(m: Mutation) {
    m.kind != Tombstone && m.kind != Resolve && m.tombstone.None? && m.resolution.None? && (m.recordKind == ObservationKind ==> m.observation.Some?)
  }

  lemma PortableNotEmpty(n: Naming, t: Identities, key: Key, wire: string)
    requires IdentitiesValid(n, t) && IsNamed(t, key, wire)
    ensures wire != ""
  {
    hide NameFits, AdoptedLocalId;
    CanonicalLength(wire);
  }

  lemma TranslatedObservation(n: Naming, t: Identities, local: Local, m: Mutation, device: string, wire: string)
    requires IdentitiesValid(n, t) && m.observation.Some? && TranslateObservation(n, t, local, m, device, wire).Renamed?
    ensures var r := TranslateObservation(n, t, local, m, device, wire);
            && IdentitiesValid(n, r.table) && Extends(t, r.table)
            && r.mutation.observation.Some?
            && r.mutation == m.(recordId := wire, observation := r.mutation.observation)
            && ObservationsCorrespond(n, r.table, m.recordId, wire, m.observation.value, r.mutation.observation.value)
    ensures m.recordKind == ObservationKind ==> RecordsAtHome(n, local, m)
  {
    hide IdentitiesValid, Ensure, Extends, OfProject, IsNamed, NamesOf, EnsureFirst;
    var o := m.observation.value;
    var session := if o.sessionId == "" then Named(t, "") else Ensure(n, t, Key(SessionKind, o.sessionId), device);
    if o.sessionId == "" {
      ExtendsItself(t);
    } else {
      EnsureKeepsValid(n, t, Key(SessionKind, o.sessionId), device);
      PortableNotEmpty(n, session.table, Key(SessionKind, o.sessionId), session.id);
    }
    EnsuredFirst(n, session.table, local, o.references, device, |o.references|);
    assert o.references[..|o.references|] == o.references;
    var references := EnsureFirst(n, session.table, local, o.references, device, |o.references|);
    ExtendsTransitive(t, session.table, references.table);
    if o.sessionId != "" {
      StaysNamed(session.table, references.table, Key(SessionKind, o.sessionId), session.id);
    }
  }

  /** Translation keeps the names a bijection, and its result names what the mutation named. */
  lemma TranslateCorresponds(n: Naming, t: Identities, local: Local, m: Mutation, device: string)
    requires IdentitiesValid(n, t) && SnapshotMutation(m) && Translate(n, t, local, m, device).Renamed?
    ensures var r := Translate(n, t, local, m, device);
            IdentitiesValid(n, r.table) && Extends(t, r.table) && Corresponds(n, r.table, m, r.mutation) && RecordsAtHome(n, local, m)
  {
    hide IdentitiesValid, Ensure, Extends, OfProject, IsNamed, TranslateObservation, ObservationsCorrespond;
    match m.recordKind
    case ProjectKind => ExtendsItself(t);
    case SessionKind => EnsureKeepsValid(n, t, Key(SessionKind, m.recordId), device);
    case ObservationKind =>
      var key := Key(ObservationKind, m.recordId);
      EnsureKeepsValid(n, t, key, device);
      var named := Ensure(n, t, key, device);
      TranslatedObservation(n, named.table, local, m, device, named.id);
      var r := TranslateObservation(n, named.table, local, m, device, named.id);
      ExtendsTransitive(t, named.table, r.table);
      StaysNamed(named.table, r.table, key, named.id);
  }

  lemma CorrespondenceStays(n: Naming, t: Identities, u: Identities, m: Mutation, w: Mutation)
    requires Extends(t, u) && Corresponds(n, t, m, w)
    ensures Corresponds(n, u, m, w)
  {
    hide Extends, NamesOf, IsNamed;
    match m.recordKind
    case ProjectKind =>
    case SessionKind => StaysNamed(t, u, Key(SessionKind, m.recordId), w.recordId);
    case ObservationKind =>
      StaysNamed(t, u, Key(ObservationKind, m.recordId), w.recordId);
      StayNames(t, u, m.observation.value.references, w.observation.value.references);
      if m.observation.value.sessionId != "" {
        StaysNamed(t, u, Key(SessionKind, m.observation.value.sessionId), w.observation.value.sessionId);
      }
  }

  lemma MapsBackObservation(n: Naming, t: Identities, local: Local, id: string, wire: string, o: Observation, p: Observation)
    requires IdentitiesValid(n, t) && ObservationsCorrespond(n, t, id, wire, o, p)
    requires o.sessionId != "" ==> OfProject(n.binding, local, Key(SessionKind, o.sessionId))
    requires forall i | 0 <= i < |o.references| :: OfProject(n.binding, local, Key(ObservationKind, o.references[i]))
    ensures MapObservation(n, t, local, p, id) == Some(o)
  {
    hide IdentitiesValid, OfProject, MapExisting, IsNamed, NamesOf, MapFirst;
    if o.sessionId != "" {
      NamedIsFound(n, t, local, Key(SessionKind, o.sessionId), p.sessionId);
    }
    SameCount(t, o.references, p.references);
    MappedBackFirst(n, t, local, o.references, p.references, |o.references|);
    assert o.references[..|o.references|] == o.references;
  }

  lemma SameCount(t: Identities, ids: seq<string>, wires: seq<string>)
    requires NamesOf(t, ids, wires)
    ensures |ids| == |wires|
  {
    hide IsNamed;
  }

  /** What corresponds maps back, and names nothing new. */
  lemma CorrespondingMapsBack(n: Naming, t: Identities, local: Local, m: Mutation, w: Mutation)
    requires IdentitiesValid(n, t) && SnapshotMutation(m) && Corresponds(n, t, m, w) && RecordsAtHome(n, local, m)
    ensures MapMutation(n, t, local, w) == Renamed(t, m)
  {
    hide IdentitiesValid, OfProject, MapExisting, ObservationsCorrespond, MapObservation;
    match m.recordKind
    case ProjectKind =>
    case SessionKind =>
      NamedIsFound(n, t, local, Key(SessionKind, m.recordId), w.recordId);
      assert Known(t, SessionKind, w.recordId);
    case ObservationKind =>
      NamedIsFound(n, t, local, Key(ObservationKind, m.recordId), w.recordId);
      assert Known(t, ObservationKind, w.recordId);
      MapsBackObservation(n, t, local, m.recordId, w.recordId, m.observation.value, w.observation.value);
  }

  /**
   An echo is recognised: a mutation sent under portable names maps back to itself
   whenever it comes in, on any later table and as long as its records are there.
   */
  lemma EchoMapsBack(n: Naming, t: Identities, local: Local, m: Mutation, device: string, later: Identities, rows: Local)
    requires IdentitiesValid(n, t) && SnapshotMutation(m) && Translate(n, t, local, m, device).Renamed?
    requires IdentitiesValid(n, later) && Extends(Translate(n, t, local, m, device).table, later) && RecordsAtHome(n, rows, m)
    ensures MapMutation(n, later, rows, Translate(n, t, local, m, device).mutation) == Renamed(later, m)
  {
    hide IdentitiesValid, Extends, Corresponds, RecordsAtHome, SnapshotMutation, Translate, MapMutation;
    TranslateCorresponds(n, t, local, m, device);
    var r := Translate(n, t, local, m, device);
    CorrespondenceStays(n, r.table, later, m, r.mutation);
    CorrespondingMapsBack(n, later, rows, m, r.mutation);
  }

  /** A deletion's echo differs from what was sent in the project id alone: it is the same exactly when that was set. */
  lemma DeletionMapsBackExactly(n: Naming, t: Identities, local: Local, m: Mutation, device: string)
    requires IdentitiesValid(n, t) && m.kind == Tombstone && m.recordKind == ObservationKind
    requires m.tombstone.Some? && m.observation.None? && m.resolution.None?
    requires Translate(n, t, local, m, device).Renamed? && OfProject(n.binding, local, Key(ObservationKind, m.recordId))
    ensures var w := Translate(n, t, local, m, device).mutation;
            && MapMutation(n, t, local, w) == Renamed(t, m.(tombstone := Some(m.tombstone.value.(projectId := n.binding.project))))
            && (MapMutation(n, t, local, w) == Renamed(t, m) <==> m.tombstone.value.projectId == n.binding.project)
  {
    hide IdentitiesValid, OfProject, MapExisting, RowValid, NameFits;
    var key := Key(ObservationKind, m.recordId);
    NamedIsFound(n, t, local, key, t.rows[key].portable);
  }

  // ------------------------------------------------------------ other devices

  /** A mutation under the portable project's own id. */
  predicate OnTheWire(n: Naming, w: Mutation) {
    var portable := n.binding.portable;
    match w.recordKind
    case ProjectKind => w.recordId == portable && w.project == Some(Project(portable))
    case SessionKind => IsCanonicalUuid(w.recordId) && w.session == Some(Session(w.recordId, portable))
    case ObservationKind =>
      && IsCanonicalUuid(w.recordId)
      && (w.observation.Some? ==> w.observation.value.id == w.recordId && w.observation.value.projectId == portable)
  }

  predicate DeviceCanonical(n: Naming) {
    n.device.Some? ==> IsCanonicalUuid(n.device.value)
  }

  lemma {:induction false} MappedFirst(n: Naming, t: Identities, local: Local, references: seq<string>, k: nat)
    requires k <= |references| && MapFirst(n, t, local, references, k).Some?
    ensures NamesOf(t, MapFirst(n, t, local, references, k).value, references[..k])
  {
    hide MapExisting, IsNamed;
    if k > 0 {
      MappedFirst(n, t, local, references, k - 1);
      KnownIsNamed(n, t, local, ObservationKind, references[k - 1]);
    }
  }

  lemma NameNotEmpty(s: string)
    requires NameFits(s)
    ensures s != ""
  {
  }

  lemma MappedObservation(n: Naming, t: Identities, local: Local, p: Observation, id: string)
    requires p.projectId == n.binding.portable && MapObservation(n, t, local, p, id).Some?
    ensures ObservationsCorrespond(n, t, id, p.id, MapObservation(n, t, local, p, id).value, p)
  {
    hide MapExisting, IsNamed, NamesOf, MapFirst, NameFits;
    if p.sessionId != "" {
      KnownIsNamed(n, t, local, SessionKind, p.sessionId);
      NameNotEmpty(MapExisting(n, t, local, SessionKind, p.sessionId).value);
    }
    MappedFirst(n, t, local, p.references, |p.references|);
    assert p.references[..|p.references|] == p.references;
  }

  /** Mapping keeps the names a bijection, and its result is what the change named. */
  lemma MapCorresponds(n: Naming, t: Identities, local: Local, w: Mutation)
    requires IdentitiesValid(n, t) && DeviceCanonical(n) && SnapshotMutation(w) && OnTheWire(n, w) && MapMutation(n, t, local, w).Renamed?
    ensures var r := MapMutation(n, t, local, w);
            IdentitiesValid(n, r.table) && Extends(t, r.table) && Corresponds(n, r.table, r.mutation, w)
  {
    hide IdentitiesValid, MapExisting, Extends, Adopt, IsCanonicalUuid, MapObservation, ObservationsCorrespond, IsNamed;
    match w.recordKind
    case ProjectKind => ExtendsItself(t);
    case SessionKind => AdoptKeepsValid(n, t, local, SessionKind, w.recordId);
    case ObservationKind =>
      AdoptKeepsValid(n, t, local, ObservationKind, w.recordId);
      var named := Adopt(n, t, local, ObservationKind, w.recordId);
      MappedObservation(n, named.table, local, w.observation.value, named.id);
      MappedIds(n, named.table, local, w.observation.value, named.id);
  }

  lemma MappedIds(n: Naming, t: Identities, local: Local, p: Observation, id: string)
    requires MapObservation(n, t, local, p, id).Some?
    ensures MapObservation(n, t, local, p, id).value.id == id
  {
    hide MapExisting, MapFirst;
  }

  lemma {:induction false} NamedFirst(n: Naming, t: Identities, local: Local, ids: seq<string>, wires: seq<string>, device: string, k: nat)
    requires IdentitiesValid(n, t) && NamesOf(t, ids, wires) && k <= |ids|
    requires forall i | 0 <= i < |ids| :: OfProject(n.binding, local, Key(ObservationKind, ids[i]))
    ensures EnsureFirst(n, t, local, ids, device, k) == NamedAll(t, wires[..k])
  {
    hide IdentitiesValid, OfProject, Ensure;
    if k > 0 {
      NamedFirst(n, t, local, ids, wires, device, k - 1);
      assert wires[..k] == wires[..k - 1] + [wires[k - 1]];
      NamedStays(n, t, Key(ObservationKind, ids[k - 1]), wires[k - 1], device);
    }
  }

  /** A named record needs no new name. */
  lemma NamedStays(n: Naming, t: Identities, key: Key, wire: string, device: string)
    requires IdentitiesValid(n, t) && IsNamed(t, key, wire)
    ensures Ensure(n, t, key, device) == Named(t, wire)
  {
    hide RowValid, NameFits;
  }

  lemma CorrespondingTranslates(n: Naming, t: Identities, local: Local, m: Mutation, w: Mutation, device: string)
    requires IdentitiesValid(n, t) && SnapshotMutation(m) && Corresponds(n, t, m, w) && RecordsAtHome(n, local, m)
    ensures Translate(n, t, local, m, device) == Renamed(t, w)
  {
    hide IdentitiesValid, OfProject, Ensure, NamesOf, EnsureFirst, IsNamed;
    match m.recordKind
    case ProjectKind =>
    case SessionKind => NamedStays(n, t, Key(SessionKind, m.recordId), w.recordId, device);
    case ObservationKind =>
      var o, p := m.observation.value, w.observation.value;
      NamedStays(n, t, Key(ObservationKind, m.recordId), w.recordId, device);
      if o.sessionId != "" {
        NamedStays(n, t, Key(SessionKind, o.sessionId), p.sessionId, device);
      }
      SameCount(t, o.references, p.references);
      NamedFirst(n, t, local, o.references, p.references, device, |o.references|);
      assert p.references[..|o.references|] == p.references;
  }

  /** What came in under a wire id goes out under it again, from any later table. */
  lemma ReceivedIsSentBack(n: Naming, t: Identities, local: Local, w: Mutation, device: string, later: Identities, rows: Local)
    requires IdentitiesValid(n, t) && DeviceCanonical(n) && SnapshotMutation(w) && OnTheWire(n, w) && MapMutation(n, t, local, w).Renamed?
    requires var r := MapMutation(n, t, local, w);
             IdentitiesValid(n, later) && Extends(r.table, later) && RecordsAtHome(n, rows, r.mutation)
    ensures Translate(n, later, rows, MapMutation(n, t, local, w).mutation, device) == Renamed(later, w)
  {
    hide IdentitiesValid, Extends, Corresponds, RecordsAtHome, Translate, OnTheWire, DeviceCanonical, Adopt, MapExisting, MapObservation;
    MapCorresponds(n, t, local, w);
    var r := MapMutation(n, t, local, w);
    CorrespondenceStays(n, r.table, later, r.mutation, w);
    CorrespondingTranslates(n, later, rows, r.mutation, w, device);
  }

  /** An adopted name can be read back if and only if the wire id is a canonical UUID. */
  lemma AdoptionReadableExactly(n: Naming, t: Identities, local: Local, kind: RecordKind, wire: string)
    requires IdentitiesValid(n, t) && DeviceCanonical(n) && kind != ProjectKind
    requires !Known(t, kind, wire) && Adopt(n, t, local, kind, wire).Named?
    ensures var r := Adopt(n, t, local, kind, wire);
            && Key(kind, r.id) in r.table.rows
            && (RowValid(n, r.table, Key(kind, r.id)) <==> IsCanonicalUuid(wire))
  {
    hide IsCanonicalUuid, AdoptedLocalId;
  }

  /** A name that cannot be read blocks its record for good: no later change of it can be mapped. */
  lemma UnreadableNameBlocks(n: Naming, t: Identities, key: Key, wire: string, later: Identities, local: Local, w: Mutation)
    requires IsNamed(t, key, wire) && !RowValid(n, t, key) && Extends(t, later)
    requires forall other | other in later.rows && other != key :: later.rows[other].portable != wire
    requires w.recordId == wire && w.recordKind == key.kind && key.kind != ProjectKind
    ensures MapMutation(n, later, local, w).NotRenamed?
  {
    hide IsCanonicalUuid, AdoptedLocalId, NameFits, MapObservation;
    assert key in later.rows && later.rows[key] == t.rows[key];
    assert !RowValid(n, later, key);
    assert Known(later, key.kind, wire);
  }

  /** A mapped change is about the record it names, whatever was on the wire. */
  lemma MappedIsAboutRecord(n: Naming, t: Identities, local: Local, c: Change)
    requires Protocol.ValidPulledChange(c) && MapMutation(n, t, local, c.mutation).Renamed?
    ensures AboutRecord(n.binding, c.(mutation := MapMutation(n, t, local, c.mutation).mutation))
  {
    hide Adopt, MapExisting, MapFirst, Protocol.OrdinaryPulledMutation, VerifyChangeHash, IsCanonicalUuid, MutationExceedsLimits;
  }
}
