/** Pending edits, their snapshots and their rollback. The first change to an entity stores its
    previous row, later ones store nothing, and rollback undoes the snapshots newest first. */
module Snapshots {
  import opened Wrappers

  datatype Table = GroupK | ServiceK | PolicyK | PeerK

  datatype Key = Key(kind: Table, id: int)

  /** One end of a policy: a row of another table, or a special entity. */
  datatype Ref = ToRow(key: Key) | ToSpecial(id: int)

  datatype Membership = Membership(rowId: int, addedAt: int)

  /** A group carries its member rows, keyed by peer; text columns hold their coalesced values. */
  datatype StoredGroup = StoredGroup(
    name: string, description: string, isSystem: bool, members: map<int, Membership>, deleted: bool)

  datatype StoredService = StoredService(
    name: string, ports: string, sourcePorts: string, protocol: string, description: string, hint: string,
    isSystem: bool, noConntrack: bool, deleted: bool)

  datatype StoredPolicy = StoredPolicy(
    name: string, description: string, source: Ref, target: Ref, service: int, sourceIp: string, targetIp: string,
    action: string, priority: int, enabled: bool, scope: string, direction: string, deleted: bool)

  datatype StoredPeer = StoredPeer(hostname: string, ip: string, agentKey: string)

  datatype Row =
    | GroupRow(group: StoredGroup) | ServiceRow(service: StoredService)
    | PolicyRow(policy: StoredPolicy) | PeerRow(peer: StoredPeer)

  type Rows = map<Key, Row>

  datatype Change = Created | Updated | Deleted

  datatype Snapshot = Snapshot(key: Key, change: Change, data: Option<Row>)

  datatype State = State(rows: Rows, snaps: seq<Snapshot>)

  predicate Fits(k: Key, r: Row) {
    match k.kind
    case GroupK => r.GroupRow?
    case ServiceK => r.ServiceRow?
    case PolicyK => r.PolicyRow?
    case PeerK => r.PeerRow?
  }

  predicate IsDeleted(r: Row) {
    match r
    case GroupRow(g) => g.deleted
    case ServiceRow(v) => v.deleted
    case PolicyRow(p) => p.deleted
    case PeerRow(_) => false
  }

  // ----- constraints -----

  /** The row mentions the entity: policies mention groups, peers and services, groups their peers. */
  predicate References(r: Row, k: Key) {
    match r
    case PolicyRow(p) =>
      (k.kind in {GroupK, PeerK} && (p.source == ToRow(k) || p.target == ToRow(k)))
          || (k.kind == ServiceK && p.service == k.id)
    case GroupRow(g) => k.kind == PeerK && k.id in g.members
    case _ => false
  }

  predicate IsReferenced(rows: Rows, k: Key) { exists p :: p in rows && References(rows[p], k) }

  predicate IsReferencedLive(rows: Rows, k: Key) {
    exists p :: p in rows && rows[p].PolicyRow? && !rows[p].policy.deleted && References(rows[p], k)
  }

  /** The rows agree in a column that is UNIQUE: the name of a group or service, the hostname or agent
      key of a peer. */
  predicate Clash(a: Row, b: Row) {
    || (a.GroupRow? && b.GroupRow? && a.group.name == b.group.name)
    || (a.ServiceRow? && b.ServiceRow? && a.service.name == b.service.name)
    || (&& a.PeerRow? && b.PeerRow?
        && (a.peer.hostname == b.peer.hostname || a.peer.agentKey == b.peer.agentKey))
  }

  /** A UNIQUE constraint would reject this row under this key. */
  predicate Taken(rows: Rows, k: Key, r: Row) { exists h :: h in rows && h != k && Clash(rows[h], r) }

  predicate IsAction(s: string) { s == "ACCEPT" || s == "DROP" || s == "LOG_DROP" }

  predicate IsScope(s: string) { s == "both" || s == "host" || s == "docker" }

  predicate IsDirection(s: string) { s == "both" || s == "forward" || s == "backward" }

  /** CHECK constraints of the row. */
  predicate ChecksHold(r: Row) {
    match r
    case PeerRow(p) => p.hostname != ""
    case PolicyRow(p) => IsAction(p.action) && IsScope(p.scope) && IsDirection(p.direction)
    case _ => true
  }

  /** Foreign keys of the row: a policy's service, a group's peers. */
  predicate ForeignKeysHold(rows: Rows, r: Row) {
    && (r.PolicyRow? ==> Key(ServiceK, r.policy.service) in rows)
    && (r.GroupRow? ==> forall p :: p in r.group.members ==> Key(PeerK, p) in rows)
  }

  predicate Storable(rows: Rows, k: Key, r: Row) {
    !Taken(rows, k, r) && ForeignKeysHold(rows, r) && ChecksHold(r)
  }

  // ----- snapshots -----

  /** What a snapshot keeps of a live row: the service snapshot does not read `no_conntrack`. */
  function Saved(r: Row): Row { if r.ServiceRow? then ServiceRow(r.service.(noConntrack := false)) else r }

  predicate HasSnapshot(snaps: seq<Snapshot>, k: Key) { exists i :: 0 <= i < |snaps| && snaps[i].key == k }

  /** INSERT OR IGNORE: the first snapshot of an entity wins. */
  function CreateSnapshot(snaps: seq<Snapshot>, s: Snapshot): seq<Snapshot> {
    if HasSnapshot(snaps, s.key) then snaps else snaps + [s]
  }

  /** What an UPDATE from a snapshot leaves in the row: columns outside its SET list stay. */
  function Restored(current: Row, saved: Row): Row {
    match (current, saved)
    case (GroupRow(c), GroupRow(g)) =>
      GroupRow(c.(name := g.name, description := g.description, members := g.members, deleted := false))
    case (ServiceRow(c), ServiceRow(v)) => ServiceRow(v.(noConntrack := c.noConntrack, deleted := false))
    case (PolicyRow(_), PolicyRow(p)) => PolicyRow(p.(deleted := false))
    case _ => current
  }

  // ----- edits -----

  datatype Edit =
    | Create(key: Key, row: Row)
    | UpdateGroup(id: int, name: string, description: string)
    | UpdateService(id: int, svc: StoredService)
    | UpdatePolicy(id: int, pol: StoredPolicy)
    | PatchEnabled(id: int, enabled: bool)
    | SoftDelete(key: Key)
    | AddMember(id: int, peer: int, membership: Membership)
    | RemoveMember(id: int, peer: int)

  function EditedKey(e: Edit): Key {
    match e
    case Create(k, _) => k
    case UpdateGroup(id, _, _) => Key(GroupK, id)
    case UpdateService(id, _) => Key(ServiceK, id)
    case UpdatePolicy(id, _) => Key(PolicyK, id)
    case PatchEnabled(id, _) => Key(PolicyK, id)
    case SoftDelete(k) => k
    case AddMember(id, _, _) => Key(GroupK, id)
    case RemoveMember(id, _) => Key(GroupK, id)
  }

  /** The row an edit of a live row stores, or None when the edit is refused. */
  function NewRow(rows: Rows, e: Edit, r: Row): Option<Row> {
    match (e, r)
    case (UpdateGroup(_, name, description), GroupRow(g)) =>
      Some(GroupRow(g.(name := if name == "" then g.name else name, description := description)))
    case (UpdateService(_, svc), ServiceRow(v)) =>
      Some(ServiceRow(svc.(isSystem := v.isSystem, noConntrack := v.noConntrack, deleted := v.deleted)))
    case (UpdatePolicy(_, pol), PolicyRow(p)) => Some(PolicyRow(pol.(deleted := p.deleted)))
    case (PatchEnabled(_, enabled), PolicyRow(p)) => Some(PolicyRow(p.(enabled := enabled)))
    case (SoftDelete(k), GroupRow(g)) => if IsReferencedLive(rows, k) then None else Some(GroupRow(g.(deleted := true)))
    case (SoftDelete(k), ServiceRow(v)) =>
      if IsReferencedLive(rows, k) then None else Some(ServiceRow(v.(deleted := true)))
    case (SoftDelete(_), PolicyRow(p)) => Some(PolicyRow(p.(deleted := true)))
    case (AddMember(_, peer, m), GroupRow(g)) =>
      if peer in g.members || Key(PeerK, peer) !in rows then None
      else Some(GroupRow(g.(members := g.members[peer := m])))
    case (RemoveMember(_, peer), GroupRow(g)) => Some(GroupRow(g.(members := g.members - {peer})))
    case _ => None
  }

  /** One edit transaction: snapshot first, then the change; a refused change leaves nothing. */
  function Perform(s: State, e: Edit): State {
    var k := EditedKey(e);
    if e.Create? then
      if k in s.rows || !Fits(k, e.row) || IsDeleted(e.row) || !Storable(s.rows, k, e.row) then s
      else State(s.rows[k := e.row], CreateSnapshot(s.snaps, Snapshot(k, Created, None)))
    else if k !in s.rows || IsDeleted(s.rows[k]) then s
    else
      var r := NewRow(s.rows, e, s.rows[k]);
      if r.None? || Taken(s.rows, k, r.value) || !ChecksHold(r.value) then s
      else if r.value.PolicyRow? && !ForeignKeysHold(s.rows, r.value) then s
      else
        var change := if e.SoftDelete? then Deleted else Updated;
        State(s.rows[k := r.value], CreateSnapshot(s.snaps, Snapshot(k, change, Some(Saved(s.rows[k])))))
  }

  // ----- undoing -----

  /** One iteration of the rollback loop. */
  function Undo(rows: Rows, s: Snapshot): Option<Rows> {
    if s.change == Created then
      if IsReferenced(rows, s.key) then None else Some(rows - {s.key})
    else if s.data.None? || s.key.kind == PeerK then None
    else if s.key !in rows then Some(rows)
    else
      var r := Restored(rows[s.key], s.data.value);
      if Storable(rows, s.key, r) then Some(rows[s.key := r]) else None
  }

  function UndoAll(rows: Rows, snaps: seq<Snapshot>): Option<Rows> {
    if snaps == [] then Some(rows)
    else
      var n := |snaps| - 1;
      var r := Undo(rows, snaps[n]);
      if r.None? then None else UndoAll(r.value, snaps[..n])
  }

  /** `RollbackSnapshots`: all or nothing. */
  function RollbackAll(s: State): (bool, State) {
    var r := UndoAll(s.rows, s.snaps);
    if r.Some? then (true, State(r.value, [])) else (false, s)
  }

  function IndexOf(snaps: seq<Snapshot>, k: Key): (i: nat)
    requires HasSnapshot(snaps, k)
    ensures i < |snaps| && snaps[i].key == k
  {
    if snaps[0].key == k then 0 else
      assert HasSnapshot(snaps[1..], k)
          by { var j :| 0 <= j < |snaps| && snaps[j].key == k; assert snaps[1..][j - 1] == snaps[j]; }
      1 + IndexOf(snaps[1..], k)
  }

  /** `RollbackEntitySnapshot` */
  function RollbackEntity(s: State, k: Key): (bool, State) {
    if !HasSnapshot(s.snaps, k) then (false, s)
    else
      var i := IndexOf(s.snaps, k);
      var r := Undo(s.rows, s.snaps[i]);
      if r.Some? then (true, State(r.value, s.snaps[..i] + s.snaps[i + 1..])) else (false, s)
  }

  // ----- the database object -----

  class Database {
    var rows: Rows
    var snaps: seq<Snapshot>

    function Value(): State
      reads this
    {
      State(rows, snaps)
    }

    /** Reads the snapshots newest first, undoes each inside the transaction, commits at the end. */
    method RollbackSnapshots() returns (ok: bool)
      modifies this
      ensures (ok, Value()) == RollbackAll(old(Value()))
    {
      var work := rows;
      var i := |snaps|;
      assert snaps[..i] == snaps;
      while i > 0
        invariant 0 <= i <= |snaps| && rows == old(rows) && snaps == old(snaps)
        invariant UndoAll(rows, snaps) == UndoAll(work, snaps[..i])
      {
        i := i - 1;
        assert snaps[..i + 1][..i] == snaps[..i];
        var r := Undo(work, snaps[i]);
        if r.None? { return false; }
        work := r.value;
      }
      rows, snaps := work, [];
      return true;
    }

    method RollbackEntitySnapshot(k: Key) returns (ok: bool)
      modifies this
      ensures (ok, Value()) == RollbackEntity(old(Value()), k)
    {
      if !HasSnapshot(snaps, k) { return false; }
      var i := IndexOf(snaps, k);
      var r := Undo(rows, snaps[i]);
      if r.None? { return false; }
      rows, snaps := r.value, snaps[..i] + snaps[i + 1..];
      return true;
    }
  }
}
