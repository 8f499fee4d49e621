/** Applying an import session, and undoing it. Peers, groups, services and policies are created in
    that order, so nothing created later is referenced by something created earlier. */
module Importer {
  import opened Wrappers
  import opened PortText
  import opened Snapshots
  import opened RollbackProofs

  /** Staging rows that approved rules refer to. Those without a counterpart are created, the others
      are `Known` under a real id. */
  datatype NewPeer = NewPeer(sid: int, hostname: string, ip: string)
  datatype NewGroup = NewGroup(sid: int, name: string, memberPeers: seq<int>, memberStaged: seq<int>)
  datatype NewService = NewService(sid: int, name: string, ports: string, sourcePorts: string, protocol: string,
        hint: string)
  datatype Known = Known(sid: int, id: int)

  datatype EndKind = PeerEnd | GroupEnd | SpecialEnd

  /** An approved rule; a real id of 0 stands for NULL, as does a staging id of 0. */
  datatype ImportRule = ImportRule(
    sourceKind: EndKind, sourceId: int, sourceStaging: int,
    targetKind: EndKind, targetId: int, targetStaging: int,
    serviceId: int, serviceStaging: int, template: StoredPolicy)

  datatype Session = Session(
    peers: seq<NewPeer>, knownPeers: seq<Known>, groups: seq<NewGroup>, knownGroups: seq<Known>,
    services: seq<NewService>, knownServices: seq<Known>, rules: seq<ImportRule>)

  function ResolveId(realId: int, stagingId: int, lookup: map<int, int>): int {
    if realId != 0 then realId else if stagingId != 0 && stagingId in lookup then lookup[stagingId] else 0
  }

  function ResolveEnd(kind: EndKind, realId: int, stagingId: int, peers: map<int, int>, groups: map<int, int>): int {
    match kind
    case PeerEnd => ResolveId(realId, stagingId, peers)
    case GroupEnd => ResolveId(realId, stagingId, groups)
    case SpecialEnd => realId
  }

  function EndRef(kind: EndKind, id: int): Ref {
    match kind
    case PeerEnd => ToRow(Key(PeerK, id))
    case GroupEnd => ToRow(Key(GroupK, id))
    case SpecialEnd => ToSpecial(id)
  }

  /** INSERT OR IGNORE of the group's listed and staged members. */
  function Members(listed: seq<int>, staged: seq<int>, peers: map<int, int>): map<int, Membership> {
    (map p | p in listed :: Membership(0, 0))
        + (map p | p in peers.Values && exists i :: i in staged && i in peers && peers[i] == p :: Membership(0, 0))
  }

  // ----- creation order -----

  function Rank(k: Table): nat {
    match k
    case PeerK => 0
    case GroupK => 1
    case ServiceK => 2
    case PolicyK => 3
  }

  /** Every snapshot is a creation, and they are grouped by kind in the import's order. */
  ghost predicate InOrder(s: State, rank: nat) {
    && (forall i :: 0 <= i < |s.snaps| ==> s.snaps[i].change == Created && Rank(s.snaps[i].key.kind) <= rank)
    && (forall i, j :: 0 <= i < j < |s.snaps| ==> Rank(s.snaps[i].key.kind) <= Rank(s.snaps[j].key.kind))
  }

  lemma ReferencesGoDown(r: Row, k: Key, t: Key)
    requires Fits(k, r) && References(r, t)
    ensures Rank(t.kind) < Rank(k.kind)
  {
  }

  /** Creations in this order never stand in each other's way. */
  lemma InOrderHasNoConflict(base: Rows, s: State)
    requires Inv(base, s) && InOrder(s, 3)
    ensures NoConflict(s)
  {
    forall i, j | 0 <= i < j < |s.snaps| ensures !Conflict(s.rows, s.snaps[i], s.snaps[j]) {
      if Conflict(s.rows, s.snaps[i], s.snaps[j]) {
        ReferencesGoDown(s.rows[s.snaps[i].key], s.snaps[i].key, s.snaps[j].key);
      }
    }
  }

  lemma InOrderSnoc(s: State, k: Key, rows: Rows)
    requires InOrder(s, Rank(k.kind))
    ensures InOrder(State(rows, s.snaps + [Snapshot(k, Created, None)]), Rank(k.kind))
  {
  }

  /** One INSERT with its snapshot, under a fresh id. */
  lemma CreateInOrder(base: Rows, s: State, k: Key, r: Row)
    requires Inv(base, s) && InOrder(s, Rank(k.kind)) && Perform(s, Create(k, r)) != s
    ensures Inv(base, Perform(s, Create(k, r))) && InOrder(Perform(s, Create(k, r)), Rank(k.kind))
  {
    PerformInv(base, s, Create(k, r));
    InOrderSnoc(s, k, s.rows[k := r]);
    UnknownHasNoSnapshot(base, s, k);
  }

  lemma UnknownHasNoSnapshot(base: Rows, s: State, k: Key)
    requires Inv(base, s) && k !in s.rows
    ensures !HasSnapshot(s.snaps, k)
  {
  }

  lemma InOrderRelax(s: State, a: nat, b: nat)
    requires InOrder(s, a) && a <= b
    ensures InOrder(s, b)
  {
  }

  /** Insert one row and its snapshot. It succeeds exactly when the database accepts the row. */
  method CreateRow(ghost base: Rows, s: State, k: Key, r: Row) returns (ok: bool, t: State)
    requires Inv(base, s) && InOrder(s, Rank(k.kind))
    ensures ok <==> k !in s.rows && Fits(k, r) && !IsDeleted(r) && Storable(s.rows, k, r)
    ensures ok ==> Inv(base, t) && InOrder(t, Rank(k.kind))
    ensures ok ==> t == State(s.rows[k := r], s.snaps + [Snapshot(k, Created, None)])
    ensures !ok ==> t == s
  {
    t := Perform(s, Create(k, r));
    ok := t != s;
    if ok {
      CreateInOrder(base, s, k, r);
      UnknownHasNoSnapshot(base, s, k);
    } else {
      assert k !in s.rows ==> s.rows[k := r] != s.rows;
    }
  }

  // ----- what staging rows become -----

  /** Staging id to real id: new rows are numbered from `id`, known ones keep theirs. */
  function NewIds(sids: seq<int>, id: int): map<int, int> {
    if sids == [] then map[] else NewIds(sids[..|sids| - 1], id)[sids[|sids| - 1] := id + |sids| - 1]
  }

  function KnownIds(known: seq<Known>): map<int, int> {
    if known == [] then map[] else KnownIds(known[..|known| - 1])[known[|known| - 1].sid := known[|known| - 1].id]
  }

  function PeerFor(p: NewPeer): Row { PeerRow(StoredPeer(p.hostname, p.ip, "imported-" + p.ip)) }

  function GroupFor(g: NewGroup, peerOf: map<int, int>): Row {
    GroupRow(StoredGroup(g.name, "Imported from iptables ipset", false,
        Members(g.memberPeers, g.memberStaged, peerOf), false))
  }

  function ServiceFor(v: NewService): Row {
    var hint := if v.hint == "" then "inbound" else v.hint;
    ServiceRow(StoredService(v.name, v.ports, v.sourcePorts, v.protocol, "", hint, false, false, false))
  }

  /** The policy an approved rule becomes, once its staging ids are resolved. */
  function PolicyFor(r: ImportRule, peerOf: map<int, int>, groupOf: map<int, int>,
                     serviceOf: map<int, int>): Option<Row> {
    var source := ResolveEnd(r.sourceKind, r.sourceId, r.sourceStaging, peerOf, groupOf);
    var target := ResolveEnd(r.targetKind, r.targetId, r.targetStaging, peerOf, groupOf);
    if source == 0 || target == 0 then None
    else Some(PolicyRow(r.template.(description := "", deleted := false,
                                    source := EndRef(r.sourceKind, source), target := EndRef(r.targetKind, target),
                                    service := ResolveId(r.serviceId, r.serviceStaging, serviceOf))))
  }

  // ----- one table at a time -----

  /** A key the database hands out in a run of `n` inserts from `id` on. */
  predicate InRun(k: Key, kind: Table, id: int, n: nat) { k.kind == kind && id <= k.id < id + n }

  /** `t` is `s` with the first `n` of these rows, numbered from `id`, and their snapshots. */
  ghost predicate GrownBy(s: State, t: State, kind: Table, id: int, news: seq<Row>, n: nat)
    requires n <= |news|
  {
    && (forall k :: k in t.rows <==> k in s.rows || InRun(k, kind, id, n))
    && (forall k :: k in s.rows ==> t.rows[k] == s.rows[k])
    && (forall k :: InRun(k, kind, id, n) ==> t.rows[k] == news[k.id - id])
    && (forall k :: HasSnapshot(t.snaps, k) <==> HasSnapshot(s.snaps, k) || InRun(k, kind, id, n))
    && |t.snaps| == |s.snaps| + n
  }

  ghost predicate Grown(s: State, t: State, kind: Table, id: int, news: seq<Row>) {
    GrownBy(s, t, kind, id, news, |news|)
  }

  /** The database accepts the j-th row: its unique columns are free, also among the new rows before it,
      what it refers to is there, and its CHECK constraints hold. */
  ghost predicate Accepts(rows: Rows, news: seq<Row>, j: nat)
    requires j < |news|
  {
    && (forall h :: h in rows ==> !Clash(rows[h], news[j]))
    && (forall i :: 0 <= i < j ==> !Clash(news[i], news[j]))
    && ForeignKeysHold(rows, news[j])
    && ChecksHold(news[j])
  }

  predicate AllCheck(news: seq<Row>) { forall j :: 0 <= j < |news| ==> ChecksHold(news[j]) }

  ghost predicate AcceptsAll(rows: Rows, news: seq<Row>) { forall j :: 0 <= j < |news| ==> Accepts(rows, news, j) }

  /** No key of this kind is at or above `id`: what AUTOINCREMENT guarantees. */
  ghost predicate FreeFrom(rows: Rows, kind: Table, id: int) { forall k :: k in rows && k.kind == kind ==> k.id < id }

  predicate OfKind(kind: Table, news: seq<Row>) {
    forall j :: 0 <= j < |news| ==> Fits(Key(kind, 0), news[j]) && !IsDeleted(news[j])
  }

  lemma GrownAdd(s: State, t: State, kind: Table, id: int, news: seq<Row>, n: nat)
    requires n < |news| && GrownBy(s, t, kind, id, news, n) && FreeFrom(s.rows, kind, id)
    ensures var k := Key(kind, id + n);
      k !in t.rows && GrownBy(s, State(t.rows[k := news[n]], t.snaps + [Snapshot(k, Created, None)]), kind, id, news,
          n + 1)
  {
    var key := Key(kind, id + n);
    forall k ensures InRun(k, kind, id, n + 1) <==> InRun(k, kind, id, n) || k == key {}
    forall k ensures HasSnapshot(t.snaps + [Snapshot(key, Created, None)], k) <==> HasSnapshot(t.snaps, k) || k == key {
      HasSnapshotSnoc(t.snaps, Snapshot(key, Created, None), k);
    }
  }

  lemma SameForeignKeys(s: State, t: State, kind: Table, id: int, news: seq<Row>, n: nat, r: Row)
    requires n <= |news| && GrownBy(s, t, kind, id, news, n) && Fits(Key(kind, 0), r)
    ensures ForeignKeysHold(t.rows, r) <==> ForeignKeysHold(s.rows, r)
  {
  }

  lemma SameTaken(s: State, t: State, kind: Table, id: int, news: seq<Row>, n: nat)
    requires n < |news| && GrownBy(s, t, kind, id, news, n)
    ensures Taken(t.rows, Key(kind, id + n), news[n]) <==>
      !((forall h :: h in s.rows && h != Key(kind, id + n) ==> !Clash(s.rows[h], news[n]))
        && (forall j :: 0 <= j < n ==> !Clash(news[j], news[n])))
  {
    var k := Key(kind, id + n);
    forall j | 0 <= j < n ensures Key(kind, id + j) in t.rows && t.rows[Key(kind, id + j)] == news[j] {
      assert InRun(Key(kind, id + j), kind, id, n);
    }
    if Taken(t.rows, k, news[n]) {
      var h :| h in t.rows && h != k && Clash(t.rows[h], news[n]);
      if h !in s.rows { assert t.rows[h] == news[h.id - id]; }
    }
  }

  /** The database's answer to the next insert, in terms of the tables at the start. */
  lemma NextInsert(s: State, t: State, kind: Table, id: int, news: seq<Row>, n: nat)
    requires n < |news| && GrownBy(s, t, kind, id, news, n) && FreeFrom(s.rows, kind, id) && OfKind(kind, news)
    ensures Storable(t.rows, Key(kind, id + n), news[n]) <==> Accepts(s.rows, news, n)
  {
    SameForeignKeys(s, t, kind, id, news, n, news[n]);
    SameTaken(s, t, kind, id, news, n);
    assert Key(kind, id + n) !in s.rows;
  }

  /** The loop has inserted the first `n` rows, all of which the database accepted. */
  ghost predicate Inserted(base: Rows, s0: State, s: State, kind: Table, id: int, news: seq<Row>, n: nat)
    requires n <= |news|
  {
    && Inv(base, s) && InOrder(s, Rank(kind)) && GrownBy(s0, s, kind, id, news, n)
    && forall j :: 0 <= j < n ==> Accepts(s0.rows, news, j)
  }

  lemma NothingInserted(base: Rows, s: State, kind: Table, id: int, news: seq<Row>)
    requires Inv(base, s) && InOrder(s, Rank(kind))
    ensures Inserted(base, s, s, kind, id, news, 0)
  {
  }

  method InsertNext(ghost base: Rows, ghost s0: State, s: State, kind: Table, id: int, news: seq<Row>, n: nat)
        returns (ok: bool, t: State)
    requires n < |news| && Inserted(base, s0, s, kind, id, news, n)
    requires FreeFrom(s0.rows, kind, id) && OfKind(kind, news)
    ensures ok ==> Inserted(base, s0, t, kind, id, news, n + 1)
    ensures !ok ==> !AcceptsAll(s0.rows, news)
  {
    NextInsert(s0, s, kind, id, news, n);
    GrownAdd(s0, s, kind, id, news, n);
    ok, t := CreateRow(base, s, Key(kind, id + n), news[n]);
  }

  /** One of the importer's loops: an insert and a snapshot for each new row. It succeeds exactly when
      the database accepts every row, and then the tables are fully described. */
  method InsertAll(ghost base: Rows, s0: State, kind: Table, id: int, news: seq<Row>) returns (ok: bool, s: State)
    requires Inv(base, s0) && InOrder(s0, Rank(kind)) && FreeFrom(s0.rows, kind, id) && OfKind(kind, news)
    ensures ok <==> AcceptsAll(s0.rows, news)
    ensures ok ==> Inv(base, s) && InOrder(s, Rank(kind)) && Grown(s0, s, kind, id, news)
  {
    NothingInserted(base, s0, kind, id, news);
    ok, s := true, s0;
    for n := 0 to |news|
      invariant ok && Inserted(base, s0, s, kind, id, news, n)
    {
      ok, s := InsertNext(base, s0, s, kind, id, news, n);
      if !ok { return; }
    }
  }

  // ----- the whole session -----

  function PeerRows(peers: seq<NewPeer>): seq<Row> { seq(|peers|, i requires 0 <= i < |peers| => PeerFor(peers[i])) }

  function GroupRows(groups: seq<NewGroup>, peerOf: map<int, int>): seq<Row> {
    seq(|groups|, i requires 0 <= i < |groups| => GroupFor(groups[i], peerOf))
  }

  function ServiceRows(services: seq<NewService>): seq<Row> {
    seq(|services|, i requires 0 <= i < |services| => ServiceFor(services[i]))
  }

  /** The policies of the resolvable rules, in order; the others are skipped. */
  function PolicyRows(rules: seq<ImportRule>, peerOf: map<int, int>, groupOf: map<int, int>,
                      serviceOf: map<int, int>): (rows: seq<Row>)
    ensures OfKind(PolicyK, rows)
  {
    if rules == [] then []
    else
      var n := |rules| - 1;
      var row := PolicyFor(rules[n], peerOf, groupOf, serviceOf);
      PolicyRows(rules[..n], peerOf, groupOf, serviceOf) + if row.Some? then [row.value] else []
  }

  /** Every id and row of an import is determined by the session and the first free id. */
  datatype Plan = Plan(peerId: int, peers: seq<Row>, groupId: int, groups: seq<Row>,
                       serviceId: int, services: seq<Row>, policyId: int, policies: seq<Row>)

  function PeerSids(peers: seq<NewPeer>): seq<int> { seq(|peers|, i requires 0 <= i < |peers| => peers[i].sid) }

  function GroupSids(groups: seq<NewGroup>): seq<int> { seq(|groups|, i requires 0 <= i < |groups| => groups[i].sid) }

  function ServiceSids(services: seq<NewService>): seq<int> {
    seq(|services|, i requires 0 <= i < |services| => services[i].sid)
  }

  function PeerIds(session: Session, id: int): map<int, int> {
    NewIds(PeerSids(session.peers), id) + KnownIds(session.knownPeers)
  }

  function GroupIds(session: Session, id: int): map<int, int> {
    NewIds(GroupSids(session.groups), id + |session.peers|) + KnownIds(session.knownGroups)
  }

  function ServiceIds(session: Session, id: int): map<int, int> {
    NewIds(ServiceSids(session.services), id + |session.peers| + |session.groups|) + KnownIds(session.knownServices)
  }

  function PlanOf(session: Session, id: int): Plan {
    var groupId := id + |session.peers|;
    var serviceId := groupId + |session.groups|;
    Plan(id, PeerRows(session.peers), groupId, GroupRows(session.groups, PeerIds(session, id)),
         serviceId, ServiceRows(session.services), serviceId + |session.services|,
         PolicyRows(session.rules, PeerIds(session, id), GroupIds(session, id), ServiceIds(session, id)))
  }

  predicate WellFormed(p: Plan) {
    && OfKind(PeerK, p.peers) && OfKind(GroupK, p.groups) && OfKind(ServiceK, p.services) && OfKind(PolicyK, p.policies)
    && p.groupId == p.peerId + |p.peers| && p.serviceId == p.groupId + |p.groups|
       && p.policyId == p.serviceId + |p.services|
  }

  lemma PlanIsWellFormed(session: Session, id: int)
    ensures WellFormed(PlanOf(session, id))
  {
  }

  ghost predicate UniqueFree(rows: Rows, news: seq<Row>) {
    && (forall j, h :: 0 <= j < |news| && h in rows ==> !Clash(rows[h], news[j]))
    && (forall i, j :: 0 <= i < j < |news| ==> !Clash(news[i], news[j]))
  }

  /** Each member of a planned group is a peer that is there or planned. */
  ghost predicate MembersThere(rows: Rows, p: Plan)
    requires WellFormed(p)
  {
    forall j, m :: 0 <= j < |p.groups| && m in p.groups[j].group.members ==>
      Key(PeerK, m) in rows || InRun(Key(PeerK, m), PeerK, p.peerId, |p.peers|)
  }

  /** Each planned policy's service is there or planned. */
  ghost predicate ServicesThere(rows: Rows, p: Plan)
    requires WellFormed(p)
  {
    forall j :: 0 <= j < |p.policies| ==>
      var v := Key(ServiceK, p.policies[j].policy.service); v in rows || InRun(v, ServiceK, p.serviceId, |p.services|)
  }

  /** What the database demands of a session, checkable on the tables before the import: hostnames and
      agent keys, group names and service names free and distinct, hostnames not empty, members and
      services there or created by the session itself, and actions, scopes and directions known. */
  ghost predicate Importable(rows: Rows, p: Plan)
    requires WellFormed(p)
  {
    && UniqueFree(rows, p.peers) && AllCheck(p.peers)
    && UniqueFree(rows, p.groups) && MembersThere(rows, p)
    && UniqueFree(rows, p.services)
    && ServicesThere(rows, p) && AllCheck(p.policies)
  }

  predicate IsCreated(p: Plan, k: Key) {
    || InRun(k, PeerK, p.peerId, |p.peers|) || InRun(k, GroupK, p.groupId, |p.groups|)
    || InRun(k, ServiceK, p.serviceId, |p.services|) || InRun(k, PolicyK, p.policyId, |p.policies|)
  }

  function RowOf(p: Plan, k: Key): Row
    requires IsCreated(p, k)
  {
    match k.kind
    case PeerK => p.peers[k.id - p.peerId]
    case GroupK => p.groups[k.id - p.groupId]
    case ServiceK => p.services[k.id - p.serviceId]
    case PolicyK => p.policies[k.id - p.policyId]
  }

  /** The tables after the import: the old rows as they were, and the planned ones with snapshots. */
  ghost predicate Carried(s: State, t: State, p: Plan) {
    && (forall k :: k in t.rows <==> k in s.rows || IsCreated(p, k))
    && (forall k :: k in s.rows ==> t.rows[k] == s.rows[k])
    && (forall k :: IsCreated(p, k) ==> t.rows[k] == RowOf(p, k))
    && (forall k :: HasSnapshot(t.snaps, k) <==> IsCreated(p, k))
    && |t.snaps| == |p.peers| + |p.groups| + |p.services| + |p.policies|
  }

  lemma AcceptedMeans(rows: Rows, news: seq<Row>)
    ensures AcceptsAll(rows, news) <==>
      UniqueFree(rows, news) && AllCheck(news) && forall j :: 0 <= j < |news| ==> ForeignKeysHold(rows, news[j])
  {
    if AcceptsAll(rows, news) {
      forall j | 0 <= j < |news| ensures ForeignKeysHold(rows, news[j]) && ChecksHold(news[j]) {
        assert Accepts(rows, news, j);
      }
      forall j, h | 0 <= j < |news| && h in rows ensures !Clash(rows[h], news[j]) { assert Accepts(rows, news, j); }
      forall i, j | 0 <= i < j < |news| ensures !Clash(news[i], news[j]) { assert Accepts(rows, news, j); }
    }
  }

  lemma PeersAccepted(rows: Rows, news: seq<Row>)
    requires OfKind(PeerK, news)
    ensures AcceptsAll(rows, news) <==> UniqueFree(rows, news) && AllCheck(news)
  {
    AcceptedMeans(rows, news);
  }

  lemma GroupsAccepted(s0: State, s1: State, p: Plan)
    requires WellFormed(p) && Grown(s0, s1, PeerK, p.peerId, p.peers)
    ensures AcceptsAll(s1.rows, p.groups) <==>
      UniqueFree(s0.rows, p.groups) && MembersThere(s0.rows, p)
  {
    AcceptedMeans(s1.rows, p.groups);
    FreeInGrown(s0, s1, PeerK, p.peerId, p.peers, GroupK, p.groups);
  }

  /** Rows of another kind do not touch the unique columns of this kind. */
  lemma FreeInGrown(s: State, t: State, kind: Table, id: int, added: seq<Row>, other: Table, news: seq<Row>)
    requires Grown(s, t, kind, id, added) && OfKind(kind, added) && OfKind(other, news) && kind != other
    ensures UniqueFree(t.rows, news) <==> UniqueFree(s.rows, news)
  {
    forall j, k | 0 <= j < |news| && InRun(k, kind, id, |added|) ensures !Clash(t.rows[k], news[j]) {
      assert t.rows[k] == added[k.id - id];
    }
  }

  lemma ServicesAccepted(s0: State, s1: State, s2: State, p: Plan)
    requires WellFormed(p) && Grown(s0, s1, PeerK, p.peerId, p.peers) && Grown(s1, s2, GroupK, p.groupId, p.groups)
    ensures AcceptsAll(s2.rows, p.services) <==> UniqueFree(s0.rows, p.services)
  {
    AcceptedMeans(s2.rows, p.services);
    FreeInGrown(s0, s1, PeerK, p.peerId, p.peers, ServiceK, p.services);
    FreeInGrown(s1, s2, GroupK, p.groupId, p.groups, ServiceK, p.services);
  }

  lemma PoliciesAccepted(s0: State, s1: State, s2: State, s3: State, p: Plan)
    requires WellFormed(p) && Grown(s0, s1, PeerK, p.peerId, p.peers) && Grown(s1, s2, GroupK, p.groupId, p.groups)
    requires Grown(s2, s3, ServiceK, p.serviceId, p.services)
    ensures AcceptsAll(s3.rows, p.policies) <==> ServicesThere(s0.rows, p) && AllCheck(p.policies)
  {
    AcceptedMeans(s3.rows, p.policies);
    forall v: int
      ensures Key(ServiceK, v) in s3.rows <==>
        Key(ServiceK, v) in s0.rows || InRun(Key(ServiceK, v), ServiceK, p.serviceId, |p.services|)
    {
      assert Key(ServiceK, v) in s2.rows <==> Key(ServiceK, v) in s1.rows;
      assert Key(ServiceK, v) in s1.rows <==> Key(ServiceK, v) in s0.rows;
    }
  }

  /** What one stage does to one key. */
  predicate GrownAt(s: State, t: State, kind: Table, id: int, news: seq<Row>, k: Key) {
    && (k in t.rows <==> k in s.rows || InRun(k, kind, id, |news|))
    && (k in s.rows ==> t.rows[k] == s.rows[k])
    && (InRun(k, kind, id, |news|) ==> t.rows[k] == news[k.id - id])
    && (HasSnapshot(t.snaps, k) <==> HasSnapshot(s.snaps, k) || InRun(k, kind, id, |news|))
  }

  predicate CarriedAt(s: State, t: State, p: Plan, k: Key) {
    && (k in t.rows <==> k in s.rows || IsCreated(p, k))
    && (k in s.rows ==> t.rows[k] == s.rows[k])
    && (IsCreated(p, k) ==> t.rows[k] == RowOf(p, k))
    && (HasSnapshot(t.snaps, k) <==> HasSnapshot(s.snaps, k) || IsCreated(p, k))
  }

  lemma StagesAt(s0: State, s1: State, s2: State, s3: State, s4: State, p: Plan, k: Key)
    requires GrownAt(s0, s1, PeerK, p.peerId, p.peers, k) && GrownAt(s1, s2, GroupK, p.groupId, p.groups, k)
    requires GrownAt(s2, s3, ServiceK, p.serviceId, p.services, k)
        && GrownAt(s3, s4, PolicyK, p.policyId, p.policies, k)
    requires k in s0.rows ==> k.id < p.peerId
    requires p.peerId <= p.groupId <= p.serviceId <= p.policyId
    ensures CarriedAt(s0, s4, p, k)
  {
  }

  lemma StagesMakeImport(s0: State, s1: State, s2: State, s3: State, s4: State, p: Plan)
    requires WellFormed(p) && s0.snaps == [] && IdsBelow(s0.rows, p.peerId)
    requires Grown(s0, s1, PeerK, p.peerId, p.peers) && Grown(s1, s2, GroupK, p.groupId, p.groups)
    requires Grown(s2, s3, ServiceK, p.serviceId, p.services) && Grown(s3, s4, PolicyK, p.policyId, p.policies)
    ensures Carried(s0, s4, p)
  {
    forall k ensures CarriedAt(s0, s4, p, k) && !HasSnapshot(s0.snaps, k) { StagesAt(s0, s1, s2, s3, s4, p, k); }
  }

  // ----- staging ids find their rows -----

  /** Primary keys of a staging table: no id twice, also across new and known rows. */
  ghost predicate DistinctSids(sids: seq<int>, known: seq<Known>) {
    && (forall i, j :: 0 <= i < j < |sids| ==> sids[i] != sids[j])
    && (forall i, j :: 0 <= i < |sids| && 0 <= j < |known| ==> sids[i] != known[j].sid)
    && (forall i, j :: 0 <= i < j < |known| ==> known[i].sid != known[j].sid)
  }

  lemma {:induction false} NewIdsFind(sids: seq<int>, id: int, j: nat)
    requires j < |sids| && forall i, k :: 0 <= i < k < |sids| ==> sids[i] != sids[k]
    ensures sids[j] in NewIds(sids, id) && NewIds(sids, id)[sids[j]] == id + j
  {
    if j < |sids| - 1 { NewIdsFind(sids[..|sids| - 1], id, j); }
  }

  lemma {:induction false} KnownIdsFind(known: seq<Known>)
    requires forall i, k :: 0 <= i < k < |known| ==> known[i].sid != known[k].sid
    ensures forall x :: x in KnownIds(known) <==> exists j :: 0 <= j < |known| && known[j].sid == x
    ensures forall j :: 0 <= j < |known| ==> KnownIds(known)[known[j].sid] == known[j].id
  {
    if known != [] {
      var n := |known| - 1;
      KnownIdsFind(known[..n]);
      forall x ensures x in KnownIds(known) <==> exists j :: 0 <= j < |known| && known[j].sid == x {
        if x in KnownIds(known[..n]) { var j :| 0 <= j < n && known[..n][j].sid == x; assert known[j].sid == x; }
        if j :| 0 <= j < n && known[j].sid == x { assert known[..n][j].sid == x; }
      }
    }
  }

  lemma IdsFind(sids: seq<int>, known: seq<Known>, id: int)
    requires DistinctSids(sids, known)
    ensures var ids := NewIds(sids, id) + KnownIds(known);
      && (forall j :: 0 <= j < |sids| ==> sids[j] in ids && ids[sids[j]] == id + j)
      && (forall j :: 0 <= j < |known| ==> known[j].sid in ids && ids[known[j].sid] == known[j].id)
  {
    KnownIdsFind(known);
    forall j | 0 <= j < |sids| ensures sids[j] in NewIds(sids, id) && NewIds(sids, id)[sids[j]] == id + j {
      NewIdsFind(sids, id, j);
    }
  }

  lemma CreatedRow(s: State, t: State, p: Plan, k: Key)
    requires Carried(s, t, p) && IsCreated(p, k)
    ensures k in t.rows && t.rows[k] == RowOf(p, k)
  {
  }

  predicate Leads(ids: map<int, int>, sid: int, kind: Table, rows: Rows, r: Row) {
    sid in ids && Key(kind, ids[sid]) in rows && rows[Key(kind, ids[sid])] == r
  }

  lemma PeerIdIs(session: Session, id: int, j: nat)
    requires j < |session.peers| && DistinctSids(PeerSids(session.peers), session.knownPeers)
    ensures session.peers[j].sid in PeerIds(session, id) && PeerIds(session, id)[session.peers[j].sid] == id + j
  {
    IdsFind(PeerSids(session.peers), session.knownPeers, id);
    assert PeerSids(session.peers)[j] == session.peers[j].sid;
  }

  lemma GroupIdIs(session: Session, id: int, j: nat)
    requires j < |session.groups| && DistinctSids(GroupSids(session.groups), session.knownGroups)
    ensures session.groups[j].sid in GroupIds(session, id)
    ensures GroupIds(session, id)[session.groups[j].sid] == id + |session.peers| + j
  {
    IdsFind(GroupSids(session.groups), session.knownGroups, id + |session.peers|);
    assert GroupSids(session.groups)[j] == session.groups[j].sid;
  }

  lemma ServiceIdIs(session: Session, id: int, j: nat)
    requires j < |session.services| && DistinctSids(ServiceSids(session.services), session.knownServices)
    ensures session.services[j].sid in ServiceIds(session, id)
    ensures ServiceIds(session, id)[session.services[j].sid] == id + |session.peers| + |session.groups| + j
  {
    IdsFind(ServiceSids(session.services), session.knownServices, id + |session.peers| + |session.groups|);
    assert ServiceSids(session.services)[j] == session.services[j].sid;
  }

  lemma PlannedPeer(session: Session, id: int, j: nat)
    requires j < |session.peers|
    ensures var p, k := PlanOf(session, id), Key(PeerK, id + j);
        IsCreated(p, k) && RowOf(p, k) == PeerFor(session.peers[j])
  {
  }

  lemma PlannedGroup(session: Session, id: int, j: nat)
    requires j < |session.groups|
    ensures var p, k := PlanOf(session, id), Key(GroupK, id + |session.peers| + j);
      IsCreated(p, k) && RowOf(p, k) == GroupFor(session.groups[j], PeerIds(session, id))
  {
  }

  lemma PlannedService(session: Session, id: int, j: nat)
    requires j < |session.services|
    ensures var p, k := PlanOf(session, id), Key(ServiceK, id + |session.peers| + |session.groups| + j);
      IsCreated(p, k) && RowOf(p, k) == ServiceFor(session.services[j])
  {
  }

  /** After an import every new staging id leads to the row created for it. */
  lemma StagedPeerFindsItsRow(s: State, t: State, session: Session, id: int, j: nat)
    requires Carried(s, t, PlanOf(session, id)) && j < |session.peers|
    requires DistinctSids(PeerSids(session.peers), session.knownPeers)
    ensures Leads(PeerIds(session, id), session.peers[j].sid, PeerK, t.rows, PeerFor(session.peers[j]))
  {
    PeerIdIs(session, id, j);
    PlannedPeer(session, id, j);
    CreatedRow(s, t, PlanOf(session, id), Key(PeerK, id + j));
  }

  lemma StagedGroupFindsItsRow(s: State, t: State, session: Session, id: int, j: nat)
    requires Carried(s, t, PlanOf(session, id)) && j < |session.groups|
    requires DistinctSids(GroupSids(session.groups), session.knownGroups)
    ensures Leads(GroupIds(session, id), session.groups[j].sid, GroupK, t.rows,
        GroupFor(session.groups[j], PeerIds(session, id)))
  {
    GroupIdIs(session, id, j);
    PlannedGroup(session, id, j);
    CreatedRow(s, t, PlanOf(session, id), Key(GroupK, id + |session.peers| + j));
  }

  lemma StagedServiceFindsItsRow(s: State, t: State, session: Session, id: int, j: nat)
    requires Carried(s, t, PlanOf(session, id)) && j < |session.services|
    requires DistinctSids(ServiceSids(session.services), session.knownServices)
    ensures Leads(ServiceIds(session, id), session.services[j].sid, ServiceK, t.rows, ServiceFor(session.services[j]))
  {
    ServiceIdIs(session, id, j);
    PlannedService(session, id, j);
    CreatedRow(s, t, PlanOf(session, id), Key(ServiceK, id + |session.peers| + |session.groups| + j));
  }

  /** Every resolvable rule has its policy after the import, and every created policy comes from one. */
  lemma {:induction false} PolicyRowsAreTheRules(rules: seq<ImportRule>, peerOf: map<int, int>,
                                                 groupOf: map<int, int>, serviceOf: map<int, int>)
    ensures forall r :: r in PolicyRows(rules, peerOf, groupOf, serviceOf) <==>
      exists i :: 0 <= i < |rules| && PolicyFor(rules[i], peerOf, groupOf, serviceOf) == Some(r)
  {
    if rules != [] {
      var n := |rules| - 1;
      PolicyRowsAreTheRules(rules[..n], peerOf, groupOf, serviceOf);
      assert forall i :: 0 <= i < n ==> rules[..n][i] == rules[i];
      forall r | exists i :: 0 <= i < |rules| && PolicyFor(rules[i], peerOf, groupOf, serviceOf) == Some(r)
        ensures r in PolicyRows(rules, peerOf, groupOf, serviceOf)
      {
        var i :| 0 <= i < |rules| && PolicyFor(rules[i], peerOf, groupOf, serviceOf) == Some(r);
        if i < n { assert PolicyFor(rules[..n][i], peerOf, groupOf, serviceOf) == Some(r); }
      }
    }
  }

  /** How a session ends: after the commit it can still report an error, because the changes could not
      be queued for the peers they touch. */
  datatype Outcome = Applied | NotApplied | AppliedNotQueued

  ghost predicate QueueFails(p: Plan, hasWorker: bool, refused: set<Key>) {
    !hasWorker || exists k :: k in refused && IsCreated(p, k)
  }

  ghost function OutcomeOf(rows: Rows, p: Plan, commits: bool, hasWorker: bool, refused: set<Key>): Outcome
    requires WellFormed(p)
  {
    if !Importable(rows, p) || !commits then NotApplied
    else if QueueFails(p, hasWorker, refused) then AppliedNotQueued
    else Applied
  }

  /** The queueing loop after the commit: every created entity is tried, one refusal makes the call fail. */
  method QueueAll(snaps: seq<Snapshot>, refused: set<Key>) returns (failed: bool)
    ensures failed <==> exists k :: k in refused && HasSnapshot(snaps, k)
  {
    failed := false;
    for i := 0 to |snaps|
      invariant failed <==> exists j :: 0 <= j < i && snaps[j].key in refused
    {
      if snaps[i].key in refused { failed := true; }
    }
  }

  ghost predicate IdsBelow(rows: Rows, id: int) { forall k :: k in rows ==> k.id < id }

  lemma StageKeys(s: State, t: State, kind: Table, id: int, news: seq<Row>, bound: int)
    requires Grown(s, t, kind, id, news) && IdsBelow(s.rows, bound) && id + |news| <= bound
    ensures IdsBelow(t.rows, bound)
  {
  }

  /** Peers, then groups. */
  method InsertEntities(ghost base: Rows, s0: State, p: Plan) returns (ok: bool, ghost s1: State, s2: State)
    requires Inv(base, s0) && InOrder(s0, 0) && WellFormed(p) && IdsBelow(s0.rows, p.peerId)
    ensures ok <==>
      && UniqueFree(s0.rows, p.peers) && AllCheck(p.peers)
      && UniqueFree(s0.rows, p.groups) && MembersThere(s0.rows, p)
    ensures ok ==> Inv(base, s2) && InOrder(s2, 1) && IdsBelow(s2.rows, p.serviceId)
    ensures ok ==> Grown(s0, s1, PeerK, p.peerId, p.peers) && Grown(s1, s2, GroupK, p.groupId, p.groups)
  {
    PeersAccepted(s0.rows, p.peers);
    var first;
    ok, first := InsertAll(base, s0, PeerK, p.peerId, p.peers);
    s1, s2 := first, s0;
    if !ok { return; }
    StageKeys(s0, first, PeerK, p.peerId, p.peers, p.groupId);
    InOrderRelax(first, 0, 1);
    GroupsAccepted(s0, first, p);
    ok, s2 := InsertAll(base, first, GroupK, p.groupId, p.groups);
    if ok { StageKeys(first, s2, GroupK, p.groupId, p.groups, p.serviceId); }
  }

  /** The transaction: four loops in creation order. */
  method Transact(s0: State, p: Plan) returns (ok: bool, s: State)
    requires Baseline(s0.rows) && s0.snaps == [] && WellFormed(p) && IdsBelow(s0.rows, p.peerId)
    ensures ok <==> Importable(s0.rows, p)
    ensures ok ==> Inv(s0.rows, s) && InOrder(s, 3) && Carried(s0, s, p)
  {
    ghost var base := s0.rows;
    StartInv(base);
    assert s0 == State(base, []);
    var s2, s3 := s0, s0;
    ghost var s1;
    ok, s1, s2 := InsertEntities(base, s0, p);
    s := s2;
    if !ok { return; }
    InOrderRelax(s2, 1, 2);
    ServicesAccepted(s0, s1, s2, p);
    ok, s3 := InsertAll(base, s2, ServiceK, p.serviceId, p.services);
    if !ok { return; }
    StageKeys(s2, s3, ServiceK, p.serviceId, p.services, p.policyId);
    InOrderRelax(s3, 2, 3);
    PoliciesAccepted(s0, s1, s2, s3, p);
    ok, s := InsertAll(base, s3, PolicyK, p.policyId, p.policies);
    if ok { StagesMakeImport(s0, s1, s2, s3, s, p); }
  }

  /** The whole call. `firstId` is what the database hands out next; `commits`, `hasWorker` and
      `refused` are the answers of the commit and of the queue. The tables are untouched exactly when
      the session is not applied or creates nothing; otherwise every planned row is there, and undoing
      the import is certain to succeed and to return the previous state, also when queueing failed. */
  method ApplySession(s0: State, firstId: int, session: Session, commits: bool, hasWorker: bool, refused: set<Key>)
    returns (outcome: Outcome, s: State)
    requires Baseline(s0.rows) && s0.snaps == [] && IdsBelow(s0.rows, firstId)
    ensures WellFormed(PlanOf(session, firstId))
    ensures outcome == OutcomeOf(s0.rows, PlanOf(session, firstId), commits, hasWorker, refused)
    ensures outcome == NotApplied ==> s == s0
    ensures outcome != NotApplied ==> Carried(s0, s, PlanOf(session, firstId)) && RollbackAll(s) == (true, s0)
    ensures s == s0 <==> outcome == NotApplied || forall k :: !IsCreated(PlanOf(session, firstId), k)
  {
    var p := PlanOf(session, firstId);
    PlanIsWellFormed(session, firstId);
    var ok, t := Transact(s0, p);
    if !ok || !commits { return NotApplied, s0; }
    s := t;
    InOrderHasNoConflict(s0.rows, s);
    RollbackExact(s0.rows, s);
    assert s0 == State(s0.rows, []);
    UnchangedIffNothing(s0, s, p);
    if !hasWorker { return AppliedNotQueued, s; }
    var failed := QueueAll(s.snaps, refused);
    assert failed <==> QueueFails(p, true, refused);
    outcome := if failed then AppliedNotQueued else Applied;
  }

  lemma UnchangedIffNothing(s: State, t: State, p: Plan)
    requires Carried(s, t, p) && s.snaps == []
    ensures t == s <==> forall k :: !IsCreated(p, k)
  {
    if forall k :: !IsCreated(p, k) {
      assert !IsCreated(p, Key(PeerK, p.peerId)) && !IsCreated(p, Key(GroupK, p.groupId));
      assert !IsCreated(p, Key(ServiceK, p.serviceId)) && !IsCreated(p, Key(PolicyK, p.policyId));
      assert t.rows == s.rows;
    } else {
      var k :| IsCreated(p, k);
      assert HasSnapshot(t.snaps, k) && !HasSnapshot(s.snaps, k);
    }
  }

  // ----- sessions the importer stages and cannot apply -----

  /** The staging peer of an address: the hostname is its text before the prefix length. */
  function StagedPeer(sid: int, ip: string): NewPeer { NewPeer(sid, Split(ip, '/')[0], ip) }

  /** Two new peers with one hostname make every import fail, whatever the tables hold. */
  lemma SharedHostnameBlocks(rows: Rows, session: Session, id: int, i: nat, j: nat, commits: bool, hasWorker: bool,
                             refused: set<Key>)
    requires i < j < |session.peers| && session.peers[i].hostname == session.peers[j].hostname
    ensures WellFormed(PlanOf(session, id))
    ensures OutcomeOf(rows, PlanOf(session, id), commits, hasWorker, refused) == NotApplied
  {
    PlanIsWellFormed(session, id);
    var news := PlanOf(session, id).peers;
    assert Clash(news[i], news[j]);
  }

  lemma {:induction false} HostnameBeforeSlash(a: string, len: string)
    requires '/' !in a
    ensures Split(a + "/" + len, '/')[0] == a
  {
    var s := a + "/" + len;
    if a == "" {
      assert s[0] == '/' && s[1..] == len;
    } else {
      assert s[0] == a[0] && s[1..] == a[1..] + "/" + len;
      HostnameBeforeSlash(a[1..], len);
      assert [a[0]] + a[1..] == a;
    }
  }

  /** The importer stages such sessions itself: two prefixes of one network address are two addresses
      but one hostname, as with 10.0.0.0/8 and 10.0.0.0/16. */
  lemma TwoPrefixesBlock(rows: Rows, a: string, n: string, m: string, id: int)
    requires '/' !in a && n != m
    ensures var session := Session([StagedPeer(1, a + "/" + n), StagedPeer(2, a + "/" + m)], [], [], [], [], [], []);
      && session.peers[0].ip != session.peers[1].ip
      && WellFormed(PlanOf(session, id)) && OutcomeOf(rows, PlanOf(session, id), true, true, {}) == NotApplied
  {
    var session := Session([StagedPeer(1, a + "/" + n), StagedPeer(2, a + "/" + m)], [], [], [], [], [], []);
    HostnameBeforeSlash(a, n);
    HostnameBeforeSlash(a, m);
    assert (a + "/" + n)[|a| + 1..] == n && (a + "/" + m)[|a| + 1..] == m;
    SharedHostnameBlocks(rows, session, id, 0, 1, true, true, {});
  }

  /** The error after the commit occurs: one new peer, and no change worker. */
  lemma AppliedThoughReportedFailed()
    ensures var p := PlanOf(Session([NewPeer(1, "h", "10.0.0.1")], [], [], [], [], [], []), 1);
      WellFormed(p) && IsCreated(p, Key(PeerK, 1)) && OutcomeOf(map[], p, true, false, {}) == AppliedNotQueued
  {
    PlanIsWellFormed(Session([NewPeer(1, "h", "10.0.0.1")], [], [], [], [], [], []), 1);
  }
}
