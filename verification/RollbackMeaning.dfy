/** Edits, constraints and rollbacks on the columns of the tables. */
module RollbackMeaning {
  import opened Wrappers
  import opened Snapshots
  import opened RollbackProofs

  // ----- who refers to whom -----

  /** A policy has the row at one of its ends. */
  predicate PolicyEndIs(r: Row, k: Key) { r.PolicyRow? && (r.policy.source == ToRow(k) || r.policy.target == ToRow(k)) }

  predicate PolicyUses(r: Row, service: int) { r.PolicyRow? && r.policy.service == service }

  predicate GroupLists(r: Row, peer: int) { r.GroupRow? && peer in r.group.members }

  /** The rows that keep a created entity from being removed. */
  predicate Holds(r: Row, k: Key) {
    match k.kind
    case GroupK => PolicyEndIs(r, k)
    case ServiceK => PolicyUses(r, k.id)
    case PeerK => PolicyEndIs(r, k) || GroupLists(r, k.id)
    case PolicyK => false
  }

  lemma ReferencesOnColumns(r: Row, k: Key)
    ensures References(r, k) <==> Holds(r, k)
  {
  }

  /** Undoing a creation is refused exactly when some row holds on to the entity: for a group a policy with it
      at an end, for a service a policy that uses it, for a peer a policy with it at an end or a group that
      lists it. */
  lemma UndoCreationRefusedIff(rows: Rows, k: Key, data: Option<Row>)
    ensures Undo(rows, Snapshot(k, Created, data)) == None <==> exists p :: p in rows && Holds(rows[p], k)
    ensures Undo(rows, Snapshot(k, Created, data)) != None ==>
        Undo(rows, Snapshot(k, Created, data)) == Some(rows - {k})
  {
    forall p | p in rows ensures References(rows[p], k) <==> Holds(rows[p], k) { ReferencesOnColumns(rows[p], k); }
  }

  // ----- constraints -----

  predicate GroupNamed(r: Row, name: string) { r.GroupRow? && r.group.name == name }

  predicate ServiceNamed(r: Row, name: string) { r.ServiceRow? && r.service.name == name }

  predicate PeerTaken(r: Row, p: StoredPeer) {
    r.PeerRow? && (r.peer.hostname == p.hostname || r.peer.agentKey == p.agentKey)
  }

  /** What the schema demands of a row under its key, column by column. */
  ghost predicate Accepted(rows: Rows, k: Key, r: Row) {
    match r
    case PeerRow(p) => p.hostname != "" && forall h :: h in rows && h != k ==> !PeerTaken(rows[h], p)
    case GroupRow(g) =>
      && (forall h :: h in rows && h != k ==> !GroupNamed(rows[h], g.name))
      && (forall q :: q in g.members ==> Key(PeerK, q) in rows)
    case ServiceRow(v) => forall h :: h in rows && h != k ==> !ServiceNamed(rows[h], v.name)
    case PolicyRow(p) =>
      && Key(ServiceK, p.service) in rows
      && (p.action == "ACCEPT" || p.action == "DROP" || p.action == "LOG_DROP")
      && (p.scope == "both" || p.scope == "host" || p.scope == "docker")
      && (p.direction == "both" || p.direction == "forward" || p.direction == "backward")
  }

  lemma StorableOnColumns(rows: Rows, k: Key, r: Row)
    ensures Storable(rows, k, r) <==> Accepted(rows, k, r)
  {
    match r
    case PeerRow(p) => assert forall h :: h in rows ==> (Clash(rows[h], r) <==> PeerTaken(rows[h], p));
    case GroupRow(g) => assert forall h :: h in rows ==> (Clash(rows[h], r) <==> GroupNamed(rows[h], g.name));
    case ServiceRow(v) => assert forall h :: h in rows ==> (Clash(rows[h], r) <==> ServiceNamed(rows[h], v.name));
    case PolicyRow(p) => assert forall h :: h in rows ==> !Clash(rows[h], r);
  }

  // ----- rollback -----

  /** An entity snapshotted earlier stands in the way of undoing a later snapshot: it holds on to what was
      created, or it has taken the name that is to come back. */
  predicate InTheWay(rows: Rows, older: Snapshot, newer: Snapshot) {
    older.key in rows &&
    if newer.change == Created then Holds(rows[older.key], newer.key)
    else
      newer.data.Some? &&
      match newer.data.value
      case GroupRow(g) => GroupNamed(rows[older.key], g.name)
      case ServiceRow(v) => ServiceNamed(rows[older.key], v.name)
      case PeerRow(p) => PeerTaken(rows[older.key], p)
      case PolicyRow(_) => false
  }

  lemma ConflictOnColumns(rows: Rows, older: Snapshot, newer: Snapshot)
    ensures Conflict(rows, older, newer) <==> InTheWay(rows, older, newer)
  {
    if older.key in rows { ReferencesOnColumns(rows[older.key], newer.key); }
  }

  /** Over every run of edits and undos: a rollback succeeds exactly when no entity stands in the way of a
      later one, and then returns the tables to the baseline; otherwise it changes nothing. */
  lemma RollbackOnColumns(base: Rows, steps: seq<Step>)
    requires Baseline(base)
    ensures var s := Run(State(base, []), steps);
      RollbackAll(s) ==
        if forall i, j :: 0 <= i < j < |s.snaps| ==>
            !InTheWay(s.rows, s.snaps[i], s.snaps[j]) then (true, State(base, []))
        else (false, s)
  {
    var s := Run(State(base, []), steps);
    RollbackRestoresBaseline(base, steps);
    forall i, j | 0 <= i < j < |s.snaps|
      ensures Conflict(s.rows, s.snaps[i], s.snaps[j]) <==> InTheWay(s.rows, s.snaps[i], s.snaps[j])
    {
      ConflictOnColumns(s.rows, s.snaps[i], s.snaps[j]);
    }
    if forall i, j :: 0 <= i < j < |s.snaps| ==> !InTheWay(s.rows, s.snaps[i], s.snaps[j]) {
      forall j | 0 <= j < |s.snaps| ensures NoConflictAt(s, j) {}
    } else {
      var i, j :| 0 <= i < j < |s.snaps| && InTheWay(s.rows, s.snaps[i], s.snaps[j]);
      assert !NoConflictAt(s, j);
    }
  }

  // ----- edits -----

  /** A live policy has the row at an end. */
  predicate LiveEnd(r: Row, k: Key) { PolicyEndIs(r, k) && !r.policy.deleted }

  predicate LiveUse(r: Row, service: int) { PolicyUses(r, service) && !r.policy.deleted }

  /** The snapshot table after a change: the previous row of the entity is kept if it is the first change. */
  function Recorded(s: State, k: Key, change: Change, previous: Row): seq<Snapshot> {
    if exists i :: 0 <= i < |s.snaps| && s.snaps[i].key == k then s.snaps
    else s.snaps + [Snapshot(k, change, Some(previous))]
  }

  function Changed(s: State, k: Key, change: Change, r: Row): State
    requires k in s.rows
  {
    // a service snapshot does not read the column no_conntrack
    var previous := if s.rows[k].ServiceRow? then ServiceRow(s.rows[k].service.(noConntrack := false)) else s.rows[k];
    State(s.rows[k := r], Recorded(s, k, change, previous))
  }

  ghost predicate NameFree(rows: Rows, k: Key, name: string) {
    forall h :: h in rows && h != k ==> !GroupNamed(rows[h], name)
  }

  /** Name and description change, an empty name keeps the old one; members, flags and id stay. */
  lemma UpdateGroupEffect(s: State, id: int, name: string, description: string)
    ensures var k := Key(GroupK, id);
      Perform(s, UpdateGroup(id, name, description)) ==
        if k in s.rows && s.rows[k].GroupRow? && !s.rows[k].group.deleted
           && NameFree(s.rows, k, if name == "" then s.rows[k].group.name else name)
        then
          var g := s.rows[k].group;
          Changed(s, k, Updated,
              GroupRow(StoredGroup(if name == "" then g.name else name, description, g.isSystem, g.members, false)))
        else s
  {
    var k := Key(GroupK, id);
    if k in s.rows && s.rows[k].GroupRow? {
      var g := s.rows[k].group;
      FreeOnColumns(s.rows, k, g.(name := if name == "" then g.name else name, description := description));
    }
  }

  lemma FreeOnColumns(rows: Rows, k: Key, g: StoredGroup)
    ensures Taken(rows, k, GroupRow(g)) <==> !NameFree(rows, k, g.name)
  {
    assert forall h :: h in rows ==> (Clash(rows[h], GroupRow(g)) <==> GroupNamed(rows[h], g.name));
  }

  /** The six columns of the form change; the system and conntrack flags stay. */
  lemma UpdateServiceEffect(s: State, id: int, v: StoredService)
    ensures var k := Key(ServiceK, id);
      Perform(s, UpdateService(id, v)) ==
        if k in s.rows && s.rows[k].ServiceRow? && !s.rows[k].service.deleted
           && (forall h :: h in s.rows && h != k ==> !ServiceNamed(s.rows[h], v.name))
        then
          var o := s.rows[k].service;
          Changed(s, k, Updated,
                  ServiceRow(StoredService(v.name, v.ports, v.sourcePorts, v.protocol, v.description, v.hint,
                      o.isSystem, o.noConntrack, false)))
        else s
  {
    var k := Key(ServiceK, id);
    if k in s.rows && s.rows[k].ServiceRow? {
      var n := v.(isSystem := s.rows[k].service.isSystem, noConntrack := s.rows[k].service.noConntrack,
          deleted := s.rows[k].service.deleted);
      assert forall h :: h in s.rows ==> (Clash(s.rows[h], ServiceRow(n)) <==> ServiceNamed(s.rows[h], v.name));
    }
  }

  /** Every column of the form is stored, if the schema accepts it. */
  lemma UpdatePolicyEffect(s: State, id: int, p: StoredPolicy)
    ensures var k := Key(PolicyK, id);
      Perform(s, UpdatePolicy(id, p)) ==
        if k in s.rows && s.rows[k].PolicyRow? && !s.rows[k].policy.deleted && Accepted(s.rows, k, PolicyRow(p))
        then
          Changed(s, k, Updated,
                  PolicyRow(StoredPolicy(p.name, p.description, p.source, p.target, p.service, p.sourceIp,
                      p.targetIp, p.action,
                                         p.priority, p.enabled, p.scope, p.direction, false)))
        else s
  {
    var k := Key(PolicyK, id);
    if k in s.rows && s.rows[k].PolicyRow? {
      StorableOnColumns(s.rows, k, PolicyRow(p.(deleted := s.rows[k].policy.deleted)));
    }
  }

  /** Only the enabled flag changes. */
  lemma PatchEnabledEffect(s: State, id: int, enabled: bool)
    ensures var k := Key(PolicyK, id);
      Perform(s, PatchEnabled(id, enabled)) ==
        if k in s.rows && s.rows[k].PolicyRow? && !s.rows[k].policy.deleted && Accepted(s.rows, k, s.rows[k])
        then Changed(s, k, Updated, PolicyRow(s.rows[k].policy.(enabled := enabled)))
        else s
  {
    var k := Key(PolicyK, id);
    if k in s.rows && s.rows[k].PolicyRow? {
      StorableOnColumns(s.rows, k, PolicyRow(s.rows[k].policy.(enabled := enabled)));
    }
  }

  /** A group or service goes unless a live policy uses it, a policy always; only the deletion flag changes.
      Peers are not soft-deleted. */
  lemma SoftDeleteEffect(s: State, k: Key)
    requires k in s.rows && Fits(k, s.rows[k]) && Accepted(s.rows, k, s.rows[k])
    ensures k.kind == GroupK ==>
      Perform(s, SoftDelete(k)) ==
        if s.rows[k].group.deleted || exists p :: p in s.rows && LiveEnd(s.rows[p], k) then s
        else Changed(s, k, Deleted, GroupRow(s.rows[k].group.(deleted := true)))
    ensures k.kind == ServiceK ==>
      Perform(s, SoftDelete(k)) ==
        if s.rows[k].service.deleted || exists p :: p in s.rows && LiveUse(s.rows[p], k.id) then s
        else Changed(s, k, Deleted, ServiceRow(s.rows[k].service.(deleted := true)))
    ensures k.kind == PolicyK ==>
      Perform(s, SoftDelete(k)) ==
        if s.rows[k].policy.deleted then s else Changed(s, k, Deleted, PolicyRow(s.rows[k].policy.(deleted := true)))
    ensures k.kind == PeerK ==> Perform(s, SoftDelete(k)) == s
  {
    forall p | p in s.rows ensures References(s.rows[p], k) <==> Holds(s.rows[p], k) {
      ReferencesOnColumns(s.rows[p], k);
    }
    match s.rows[k]
    case GroupRow(g) => FreeOnColumns(s.rows, k, g.(deleted := true));
    case ServiceRow(v) =>
      assert forall h :: h in s.rows ==>
          (Clash(s.rows[h], ServiceRow(v.(deleted := true))) <==> ServiceNamed(s.rows[h], v.name));
    case PolicyRow(p) => StorableOnColumns(s.rows, k, PolicyRow(p.(deleted := true)));
    case PeerRow(_) =>
  }

  /** A known peer that is not a member yet becomes one; nothing else changes. */
  lemma AddMemberEffect(s: State, id: int, peer: int, m: Membership)
    ensures var k := Key(GroupK, id);
      Perform(s, AddMember(id, peer, m)) ==
        if k in s.rows && s.rows[k].GroupRow? && !s.rows[k].group.deleted && NameFree(s.rows, k, s.rows[k].group.name)
           && Key(PeerK, peer) in s.rows && peer !in s.rows[k].group.members
        then Changed(s, k, Updated, GroupRow(s.rows[k].group.(members := s.rows[k].group.members[peer := m])))
        else s
  {
    var k := Key(GroupK, id);
    if k in s.rows && s.rows[k].GroupRow? {
      FreeOnColumns(s.rows, k, s.rows[k].group.(members := s.rows[k].group.members[peer := m]));
    }
  }

  /** The peer is no member afterwards; nothing else changes. */
  lemma RemoveMemberEffect(s: State, id: int, peer: int)
    ensures var k := Key(GroupK, id);
      Perform(s, RemoveMember(id, peer)) ==
        if k in s.rows && s.rows[k].GroupRow? && !s.rows[k].group.deleted && NameFree(s.rows, k, s.rows[k].group.name)
        then Changed(s, k, Updated, GroupRow(s.rows[k].group.(members := s.rows[k].group.members - {peer})))
        else s
  {
    var k := Key(GroupK, id);
    if k in s.rows && s.rows[k].GroupRow? {
      FreeOnColumns(s.rows, k, s.rows[k].group.(members := s.rows[k].group.members - {peer}));
    }
  }

  /** A creation stores the row under its new key, if the schema accepts it. */
  lemma CreateEffect(s: State, k: Key, r: Row)
    requires Fits(k, r) && !IsDeleted(r)
    ensures Perform(s, Create(k, r)) ==
      if k !in s.rows && Accepted(s.rows, k, r) then
        State(s.rows[k := r],
              if exists i :: 0 <= i < |s.snaps| && s.snaps[i].key == k then s.snaps
              else s.snaps + [Snapshot(k, Created, None)])
      else s
  {
    StorableOnColumns(s.rows, k, r);
  }
}
