/** What an import leaves in the tables and when the database lets it through, read off the columns of the
    session: nothing is said through the importer's own row builders and lookups. */
module ImportMeaning {
  import opened Wrappers
  import opened Snapshots
  import opened Importer

  // ----- ids -----

  /** The row with staging id `sid` ends up under the real id `x`: it is created there, or known under it. */
  ghost predicate StandsFor(sids: seq<int>, known: seq<Known>, first: int, sid: int, x: int) {
    || (exists j :: 0 <= j < |sids| && sids[j] == sid && x == first + j)
    || (exists j :: 0 <= j < |known| && known[j].sid == sid && x == known[j].id)
  }

  ghost predicate PeerStandsFor(session: Session, id: int, sid: int, x: int) {
    || (exists j :: 0 <= j < |session.peers| && session.peers[j].sid == sid && x == id + j)
    || (exists j :: 0 <= j < |session.knownPeers| && session.knownPeers[j].sid == sid && x == session.knownPeers[j].id)
  }

  ghost predicate GroupStandsFor(session: Session, id: int, sid: int, x: int) {
    || (exists j :: 0 <= j < |session.groups| && session.groups[j].sid == sid && x == id + |session.peers| + j)
    || (exists j :: 0 <= j < |session.knownGroups| && session.knownGroups[j].sid == sid
          && x == session.knownGroups[j].id)
  }

  ghost predicate ServiceStandsFor(session: Session, id: int, sid: int, x: int) {
    || (exists j :: 0 <= j < |session.services| && session.services[j].sid == sid
          && x == id + |session.peers| + |session.groups| + j)
    || (exists j :: 0 <= j < |session.knownServices| && session.knownServices[j].sid == sid
          && x == session.knownServices[j].id)
  }

  /** Staging ids are primary keys. */
  ghost predicate Keyed(session: Session) {
    && DistinctSids(PeerSids(session.peers), session.knownPeers)
    && DistinctSids(GroupSids(session.groups), session.knownGroups)
    && DistinctSids(ServiceSids(session.services), session.knownServices)
  }

  lemma {:induction false} NewIdsOnly(sids: seq<int>, id: int, x: int)
    requires x in NewIds(sids, id)
    ensures exists j :: 0 <= j < |sids| && sids[j] == x
  {
    var n := |sids| - 1;
    if x != sids[n] {
      NewIdsOnly(sids[..n], id, x);
      var j :| 0 <= j < n && sids[..n][j] == x;
      assert sids[j] == x;
    }
  }

  lemma LookupMeans(sids: seq<int>, known: seq<Known>, first: int, sid: int)
    requires DistinctSids(sids, known)
    ensures var ids := NewIds(sids, first) + KnownIds(known);
      forall x :: StandsFor(sids, known, first, sid, x) <==> sid in ids && x == ids[sid]
  {
    IdsFind(sids, known, first);
    KnownIdsFind(known);
    var ids := NewIds(sids, first) + KnownIds(known);
    if sid in ids {
      if sid in KnownIds(known) {
        var j :| 0 <= j < |known| && known[j].sid == sid;
        assert StandsFor(sids, known, first, sid, ids[sid]);
      } else {
        NewIdsOnly(sids, first, sid);
        var j :| 0 <= j < |sids| && sids[j] == sid;
        assert StandsFor(sids, known, first, sid, ids[sid]);
      }
    }
  }

  lemma PeerLookup(session: Session, id: int, sid: int)
    requires Keyed(session)
    ensures forall x :: PeerStandsFor(session, id, sid, x) <==>
        sid in PeerIds(session, id) && x == PeerIds(session, id)[sid]
  {
    var sids := PeerSids(session.peers);
    LookupMeans(sids, session.knownPeers, id, sid);
    forall x ensures PeerStandsFor(session, id, sid, x) <==> StandsFor(sids, session.knownPeers, id, sid, x) {
      if j :| 0 <= j < |session.peers| && session.peers[j].sid == sid && x == id + j { assert sids[j] == sid; }
      if j :| 0 <= j < |sids| && sids[j] == sid && x == id + j { assert session.peers[j].sid == sid; }
    }
  }

  lemma GroupLookup(session: Session, id: int, sid: int)
    requires Keyed(session)
    ensures forall x :: GroupStandsFor(session, id, sid, x) <==>
        sid in GroupIds(session, id) && x == GroupIds(session, id)[sid]
  {
    var sids, first := GroupSids(session.groups), id + |session.peers|;
    LookupMeans(sids, session.knownGroups, first, sid);
    forall x ensures GroupStandsFor(session, id, sid, x) <==> StandsFor(sids, session.knownGroups, first, sid, x) {
      if j :| 0 <= j < |session.groups| && session.groups[j].sid == sid && x == first + j { assert sids[j] == sid; }
      if j :| 0 <= j < |sids| && sids[j] == sid && x == first + j { assert session.groups[j].sid == sid; }
    }
  }

  lemma ServiceLookup(session: Session, id: int, sid: int)
    requires Keyed(session)
    ensures forall x :: ServiceStandsFor(session, id, sid, x) <==>
      sid in ServiceIds(session, id) && x == ServiceIds(session, id)[sid]
  {
    var sids, first := ServiceSids(session.services), id + |session.peers| + |session.groups|;
    LookupMeans(sids, session.knownServices, first, sid);
    forall x ensures ServiceStandsFor(session, id, sid, x) <==> StandsFor(sids, session.knownServices, first, sid, x) {
      if j :| 0 <= j < |session.services| && session.services[j].sid == sid && x == first + j { assert sids[j] == sid; }
      if j :| 0 <= j < |sids| && sids[j] == sid && x == first + j { assert session.services[j].sid == sid; }
    }
  }

  // ----- ends and services of a rule -----

  /** The end of the rule is `ref`: the real id where there is one, otherwise what the staging id stands for. */
  ghost predicate EndIs(session: Session, id: int, kind: EndKind, realId: int, stagingId: int, ref: Ref) {
    match kind
    case PeerEnd =>
      && ref.ToRow? && ref.key.kind == PeerK && ref.key.id != 0
      && if realId != 0 then ref.key.id == realId
         else stagingId != 0 && PeerStandsFor(session, id, stagingId, ref.key.id)
    case GroupEnd =>
      && ref.ToRow? && ref.key.kind == GroupK && ref.key.id != 0
      && if realId != 0 then ref.key.id == realId
         else stagingId != 0 && GroupStandsFor(session, id, stagingId, ref.key.id)
    case SpecialEnd => ref.ToSpecial? && realId != 0 && ref.id == realId
  }

  ghost predicate EndFound(session: Session, id: int, kind: EndKind, realId: int, stagingId: int) {
    exists ref :: EndIs(session, id, kind, realId, stagingId, ref)
  }

  ghost predicate Resolvable(session: Session, id: int, r: ImportRule) {
    && EndFound(session, id, r.sourceKind, r.sourceId, r.sourceStaging)
    && EndFound(session, id, r.targetKind, r.targetId, r.targetStaging)
  }

  /** Likewise for the service; one that cannot be found is stored as 0. */
  ghost predicate ServiceIs(session: Session, id: int, r: ImportRule, v: int) {
    if r.serviceId != 0 then v == r.serviceId
    else if r.serviceStaging != 0 && exists x :: ServiceStandsFor(session, id, r.serviceStaging, x) then
      ServiceStandsFor(session, id, r.serviceStaging, v)
    else v == 0
  }

  /** `row` is the policy that rule `r` asks for. */
  ghost predicate IsPolicyOf(session: Session, id: int, r: ImportRule, row: Row) {
    && row.PolicyRow?
    && EndIs(session, id, r.sourceKind, r.sourceId, r.sourceStaging, row.policy.source)
    && EndIs(session, id, r.targetKind, r.targetId, r.targetStaging, row.policy.target)
    && ServiceIs(session, id, r, row.policy.service)
    && row.policy.name == r.template.name && row.policy.description == ""
    && row.policy.sourceIp == r.template.sourceIp && row.policy.targetIp == r.template.targetIp
    && row.policy.action == r.template.action && row.policy.priority == r.template.priority
    && row.policy.enabled == r.template.enabled && row.policy.scope == r.template.scope
    && row.policy.direction == r.template.direction && !row.policy.deleted
  }

  lemma EndResolved(session: Session, id: int, kind: EndKind, realId: int, stagingId: int)
    requires Keyed(session)
    ensures var x := ResolveEnd(kind, realId, stagingId, PeerIds(session, id), GroupIds(session, id));
      && (EndFound(session, id, kind, realId, stagingId) <==> x != 0)
      && forall ref :: EndIs(session, id, kind, realId, stagingId, ref) <==> x != 0 && ref == EndRef(kind, x)
  {
    PeerLookup(session, id, stagingId);
    GroupLookup(session, id, stagingId);
    var x := ResolveEnd(kind, realId, stagingId, PeerIds(session, id), GroupIds(session, id));
    assert x != 0 ==> EndIs(session, id, kind, realId, stagingId, EndRef(kind, x));
  }

  lemma ServiceResolved(session: Session, id: int, r: ImportRule)
    requires Keyed(session)
    ensures forall v :: ServiceIs(session, id, r, v) <==>
        v == ResolveId(r.serviceId, r.serviceStaging, ServiceIds(session, id))
  {
    ServiceLookup(session, id, r.serviceStaging);
    var ids := ServiceIds(session, id);
    if r.serviceStaging in ids { assert ServiceStandsFor(session, id, r.serviceStaging, ids[r.serviceStaging]); }
  }

  /** One rule: a policy is planned exactly when both ends can be found, and it is the one asked for. */
  lemma RuleBecomes(session: Session, id: int, r: ImportRule)
    requires Keyed(session)
    ensures var p := PolicyFor(r, PeerIds(session, id), GroupIds(session, id), ServiceIds(session, id));
      && (p.Some? <==> Resolvable(session, id, r))
      && (p.Some? ==> forall row :: IsPolicyOf(session, id, r, row) <==> row == p.value)
  {
    EndResolved(session, id, r.sourceKind, r.sourceId, r.sourceStaging);
    EndResolved(session, id, r.targetKind, r.targetId, r.targetStaging);
    ServiceResolved(session, id, r);
  }

  // ----- all rules -----

  predicate Increasing(from: seq<nat>) { forall i, j :: 0 <= i < j < |from| ==> from[i] < from[j] }

  /** `from` picks the resolvable ones among the first `n` rules, in order; `rows` are their policies. */
  ghost predicate Picks(session: Session, id: int, n: nat, from: seq<nat>, rows: seq<Row>)
    requires n <= |session.rules|
  {
    && |from| == |rows| && Increasing(from)
    && (forall i :: 0 <= i < |from| ==> from[i] < n && IsPolicyOf(session, id, session.rules[from[i]], rows[i]))
    && (forall k: nat {:trigger k in from} :: k in from <==> k < n && Resolvable(session, id, session.rules[k]))
  }

  lemma {:induction false} RulesBecome(session: Session, id: int, n: nat) returns (from: seq<nat>)
    requires Keyed(session) && n <= |session.rules|
    ensures Picks(session, id, n, from,
        PolicyRows(session.rules[..n], PeerIds(session, id), GroupIds(session, id), ServiceIds(session, id)))
  {
    if n == 0 {
      from := [];
    } else {
      var before := RulesBecome(session, id, n - 1);
      assert session.rules[..n][..n - 1] == session.rules[..n - 1];
      from := NextRule(session, id, n - 1, before, PolicyRows(session.rules[..n - 1], PeerIds(session, id),
          GroupIds(session, id), ServiceIds(session, id)));
    }
  }

  lemma NextRule(session: Session, id: int, n: nat, from: seq<nat>, rows: seq<Row>) returns (more: seq<nat>)
    requires Keyed(session) && n < |session.rules| && Picks(session, id, n, from, rows)
    ensures var p := PolicyFor(session.rules[n], PeerIds(session, id), GroupIds(session, id), ServiceIds(session, id));
      Picks(session, id, n + 1, more, rows + if p.Some? then [p.value] else [])
  {
    var p := PolicyFor(session.rules[n], PeerIds(session, id), GroupIds(session, id), ServiceIds(session, id));
    RuleBecomes(session, id, session.rules[n]);
    assert p.Some? ==> IsPolicyOf(session, id, session.rules[n], p.value);
    more := if p.Some? then from + [n] else from;
    PicksMore(session, id, n, from, rows, p);
  }

  lemma PicksMore(session: Session, id: int, n: nat, from: seq<nat>, rows: seq<Row>, p: Option<Row>)
    requires n < |session.rules| && Picks(session, id, n, from, rows)
    requires p.Some? <==> Resolvable(session, id, session.rules[n])
    requires p.Some? ==> IsPolicyOf(session, id, session.rules[n], p.value)
    ensures Picks(session, id, n + 1, if p.Some? then from + [n] else from, rows + if p.Some? then [p.value] else [])
  {
    if p.Some? {
      var more, longer := from + [n], rows + [p.value];
      forall i | 0 <= i < |more|
        ensures more[i] < n + 1 && IsPolicyOf(session, id, session.rules[more[i]], longer[i])
      {
        assert i < |from| ==> more[i] == from[i] && longer[i] == rows[i];
      }
      assert forall k: nat :: k in more <==> k in from || k == n;
    } else {
      assert rows + [] == rows;
    }
  }

  /** The policies after an import. There is one new row for each approved rule whose two ends can be found, in
      the order of the rules, and no other; each has the source, target and service of its rule, in the places
      of the rule, and the rule's other columns. */
  lemma ImportedPolicies(s: State, t: State, session: Session, id: int)
    requires Keyed(session) && Carried(s, t, PlanOf(session, id))
    ensures var first := id + |session.peers| + |session.groups| + |session.services|;
      exists from: seq<nat> ::
        AreTheResolvable(session, id, from) && NewPoliciesAre(s.rows, t.rows, first, session, id, from)
  {
    var from := PlanPicks(session, id);
    var first := id + |session.peers| + |session.groups| + |session.services|;
    Landed(s, t, PlanOf(session, id), first, session, id, from);
  }

  lemma PlanPicks(session: Session, id: int) returns (from: seq<nat>)
    requires Keyed(session)
    ensures Picks(session, id, |session.rules|, from, PlanOf(session, id).policies)
  {
    assert session.rules[..|session.rules|] == session.rules;
    from := RulesBecome(session, id, |session.rules|);
  }

  /** The indices of the rules whose two ends can be found, in order. */
  ghost predicate AreTheResolvable(session: Session, id: int, from: seq<nat>) {
    && Increasing(from)
    && forall k: nat {:trigger k in from} ::
      k in from <==> k < |session.rules| && Resolvable(session, id, session.rules[k])
  }

  /** The new policies are numbered from `first`, and the n-th is the one its rule asks for. */
  ghost predicate NewPoliciesAre(before: Rows, after: Rows, first: int, session: Session, id: int, from: seq<nat>) {
    && (forall n :: 0 <= n < |from| ==>
        && from[n] < |session.rules|
        && Key(PolicyK, first + n) in after
        && IsPolicyOf(session, id, session.rules[from[n]], after[Key(PolicyK, first + n)]))
    && (forall x :: Key(PolicyK, x) in after && Key(PolicyK, x) !in before ==> first <= x < first + |from|)
  }

  lemma Landed(s: State, t: State, p: Plan, first: int, session: Session, id: int, from: seq<nat>)
    requires Carried(s, t, p) && first == p.policyId && Picks(session, id, |session.rules|, from, p.policies)
    ensures AreTheResolvable(session, id, from) && NewPoliciesAre(s.rows, t.rows, first, session, id, from)
  {
    PolicyKeys(s, t, p);
  }

  /** The planned policies are in the tables under consecutive ids. */
  lemma PolicyKeys(s: State, t: State, p: Plan)
    requires Carried(s, t, p)
    ensures forall i :: 0 <= i < |p.policies| ==>
      Key(PolicyK, p.policyId + i) in t.rows && t.rows[Key(PolicyK, p.policyId + i)] == p.policies[i]
    ensures forall x :: Key(PolicyK, x) in t.rows && Key(PolicyK, x) !in s.rows ==>
        p.policyId <= x < p.policyId + |p.policies|
  {
    forall i | 0 <= i < |p.policies|
      ensures Key(PolicyK, p.policyId + i) in t.rows && t.rows[Key(PolicyK, p.policyId + i)] == p.policies[i]
    {
      CreatedRow(s, t, p, Key(PolicyK, p.policyId + i));
    }
  }

  // ----- peers, groups and services -----

  /** A new staging peer becomes a manual peer with its hostname and address. */
  lemma ImportedPeer(s: State, t: State, session: Session, id: int, j: nat)
    requires Keyed(session) && Carried(s, t, PlanOf(session, id)) && j < |session.peers|
    ensures var k, n := Key(PeerK, id + j), session.peers[j];
      && PeerStandsFor(session, id, n.sid, id + j) && k in t.rows && t.rows[k].PeerRow?
      && t.rows[k].peer.hostname == n.hostname && t.rows[k].peer.ip == n.ip
      && t.rows[k].peer.agentKey == "imported-" + n.ip
  {
    PlannedPeer(session, id, j);
    CreatedRow(s, t, PlanOf(session, id), Key(PeerK, id + j));
  }

  /** A new staging group's members are the peers it lists and the peers its staging members stand for. */
  ghost predicate IsMemberOf(session: Session, id: int, g: NewGroup, q: int) {
    q in g.memberPeers || exists sid :: sid in g.memberStaged && PeerStandsFor(session, id, sid, q)
  }

  lemma MembersMean(session: Session, id: int, g: NewGroup)
    requires Keyed(session)
    ensures forall q :: q in Members(g.memberPeers, g.memberStaged, PeerIds(session, id)) <==>
        IsMemberOf(session, id, g, q)
  {
    var ids := PeerIds(session, id);
    forall sid ensures forall x :: PeerStandsFor(session, id, sid, x) <==> sid in ids && x == ids[sid] {
      PeerLookup(session, id, sid);
    }
    forall q ensures q in Members(g.memberPeers, g.memberStaged, ids) <==> IsMemberOf(session, id, g, q) {
      if sid :| sid in g.memberStaged && sid in ids && ids[sid] == q { assert PeerStandsFor(session, id, sid, q); }
    }
  }

  lemma ImportedGroup(s: State, t: State, session: Session, id: int, j: nat)
    requires Keyed(session) && Carried(s, t, PlanOf(session, id)) && j < |session.groups|
    ensures var k, n := Key(GroupK, id + |session.peers| + j), session.groups[j];
      && GroupStandsFor(session, id, n.sid, k.id) && k in t.rows && t.rows[k].GroupRow?
      && t.rows[k].group.name == n.name && t.rows[k].group.description == "Imported from iptables ipset"
      && !t.rows[k].group.isSystem && !t.rows[k].group.deleted
      && forall q :: q in t.rows[k].group.members <==> IsMemberOf(session, id, n, q)
  {
    PlannedGroup(session, id, j);
    CreatedRow(s, t, PlanOf(session, id), Key(GroupK, id + |session.peers| + j));
    MembersMean(session, id, session.groups[j]);
  }

  /** A new staging service keeps its columns; an empty direction hint is stored as inbound. */
  lemma ImportedService(s: State, t: State, session: Session, id: int, j: nat)
    requires Keyed(session) && Carried(s, t, PlanOf(session, id)) && j < |session.services|
    ensures var k, n := Key(ServiceK, id + |session.peers| + |session.groups| + j), session.services[j];
      && ServiceStandsFor(session, id, n.sid, k.id) && k in t.rows && t.rows[k].ServiceRow?
      && var v := t.rows[k].service;
         && v.name == n.name && v.ports == n.ports && v.sourcePorts == n.sourcePorts && v.protocol == n.protocol
         && v.hint == (if n.hint == "" then "inbound" else n.hint)
         && v.description == "" && !v.isSystem && !v.noConntrack && !v.deleted
  {
    PlannedService(session, id, j);
    CreatedRow(s, t, PlanOf(session, id), Key(ServiceK, id + |session.peers| + |session.groups| + j));
  }

  // ----- when the database lets the session through -----

  /** Hostnames are given, and neither they nor the addresses collide. */
  ghost predicate PeersFree(rows: Rows, peers: seq<NewPeer>) {
    && (forall j :: 0 <= j < |peers| ==> peers[j].hostname != "")
    && (forall i, j :: 0 <= i < j < |peers| ==> peers[i].hostname != peers[j].hostname && peers[i].ip != peers[j].ip)
    && (forall j, h :: 0 <= j < |peers| && h in rows && rows[h].PeerRow? ==>
         rows[h].peer.hostname != peers[j].hostname && rows[h].peer.agentKey != "imported-" + peers[j].ip)
  }

  ghost predicate GroupsFree(rows: Rows, groups: seq<NewGroup>) {
    && (forall i, j :: 0 <= i < j < |groups| ==> groups[i].name != groups[j].name)
    && (forall j, h :: 0 <= j < |groups| && h in rows && rows[h].GroupRow? ==> rows[h].group.name != groups[j].name)
  }

  ghost predicate ServicesFree(rows: Rows, services: seq<NewService>) {
    && (forall i, j :: 0 <= i < j < |services| ==> services[i].name != services[j].name)
    && (forall j, h :: 0 <= j < |services| && h in rows && rows[h].ServiceRow? ==>
         rows[h].service.name != services[j].name)
  }

  ghost predicate MembersKnown(rows: Rows, session: Session, id: int) {
    forall j, q :: 0 <= j < |session.groups| && IsMemberOf(session, id, session.groups[j], q) ==>
      Key(PeerK, q) in rows || id <= q < id + |session.peers|
  }

  /** The rule has a known action, scope and direction, and the service is there. */
  predicate RuleSound(rows: Rows, session: Session, id: int, i: nat, v: int)
    requires i < |session.rules|
  {
    var first, p := id + |session.peers| + |session.groups|, session.rules[i].template;
    && (p.action == "ACCEPT" || p.action == "DROP" || p.action == "LOG_DROP")
    && (p.scope == "both" || p.scope == "host" || p.scope == "docker")
    && (p.direction == "both" || p.direction == "forward" || p.direction == "backward")
    && (Key(ServiceK, v) in rows || first <= v < first + |session.services|)
  }

  /** Every rule that becomes a policy is acceptable. */
  ghost predicate RulesSound(rows: Rows, session: Session, id: int) {
    forall i: nat, v :: (i < |session.rules| && Resolvable(session, id, session.rules[i])
                         && ServiceIs(session, id, session.rules[i], v)) ==> RuleSound(rows, session, id, i, v)
  }

  lemma ImportedKeysDiffer(a: string, b: string)
    ensures "imported-" + a == "imported-" + b <==> a == b
  {
    assert ("imported-" + a)[9..] == a && ("imported-" + b)[9..] == b;
  }

  lemma PeersFreeIff(rows: Rows, peers: seq<NewPeer>)
    ensures UniqueFree(rows, PeerRows(peers)) && AllCheck(PeerRows(peers)) <==> PeersFree(rows, peers)
  {
    var news := PeerRows(peers);
    forall i, j | 0 <= i < j < |peers|
      ensures Clash(news[i], news[j]) <==> peers[i].hostname == peers[j].hostname || peers[i].ip == peers[j].ip
    {
      ImportedKeysDiffer(peers[i].ip, peers[j].ip);
    }
    forall j | 0 <= j < |peers| ensures ChecksHold(news[j]) <==> peers[j].hostname != "" {}
    forall j, h | 0 <= j < |peers| && h in rows
      ensures Clash(rows[h], news[j]) <==>
        (&& rows[h].PeerRow?
         && (rows[h].peer.hostname == peers[j].hostname || rows[h].peer.agentKey == "imported-" + peers[j].ip)) {}
  }

  lemma GroupsFreeIff(rows: Rows, groups: seq<NewGroup>, peerOf: map<int, int>)
    ensures UniqueFree(rows, GroupRows(groups, peerOf)) <==> GroupsFree(rows, groups)
  {
    var news := GroupRows(groups, peerOf);
    forall i, j | 0 <= i < j < |groups| ensures Clash(news[i], news[j]) <==> groups[i].name == groups[j].name {}
    forall j, h | 0 <= j < |groups| && h in rows
      ensures Clash(rows[h], news[j]) <==> rows[h].GroupRow? && rows[h].group.name == groups[j].name {}
  }

  lemma ServicesFreeIff(rows: Rows, services: seq<NewService>)
    ensures UniqueFree(rows, ServiceRows(services)) <==> ServicesFree(rows, services)
  {
    var news := ServiceRows(services);
    forall i, j | 0 <= i < j < |services| ensures Clash(news[i], news[j]) <==> services[i].name == services[j].name {}
    forall j, h | 0 <= j < |services| && h in rows
      ensures Clash(rows[h], news[j]) <==> rows[h].ServiceRow? && rows[h].service.name == services[j].name {}
  }

  lemma MembersKnownIff(rows: Rows, session: Session, id: int)
    requires Keyed(session) && WellFormed(PlanOf(session, id))
    ensures MembersThere(rows, PlanOf(session, id)) <==> MembersKnown(rows, session, id)
  {
    var p := PlanOf(session, id);
    forall j | 0 <= j < |session.groups|
      ensures forall q :: q in p.groups[j].group.members <==> IsMemberOf(session, id, session.groups[j], q)
    {
      MembersMean(session, id, session.groups[j]);
    }
  }

  lemma RulesSoundIff(rows: Rows, session: Session, id: int)
    requires Keyed(session) && WellFormed(PlanOf(session, id))
    ensures ServicesThere(rows, PlanOf(session, id)) && AllCheck(PlanOf(session, id).policies) <==>
        RulesSound(rows, session, id)
  {
    var p := PlanOf(session, id);
    assert session.rules[..|session.rules|] == session.rules;
    var from := RulesBecome(session, id, |session.rules|);
    if ServicesThere(rows, p) && AllCheck(p.policies) {
      forall i: nat, v | i < |session.rules| && Resolvable(session, id, session.rules[i])
          && ServiceIs(session, id, session.rules[i], v)
        ensures RuleSound(rows, session, id, i, v)
      {
        assert i in from;
        var n :| 0 <= n < |from| && from[n] == i;
        ServiceResolved(session, id, session.rules[i]);
        assert ChecksHold(p.policies[n]);
      }
    }
  }

  /** The database accepts a session exactly under these conditions on its columns. */
  lemma ImportableOnColumns(rows: Rows, session: Session, id: int)
    requires Keyed(session)
    ensures WellFormed(PlanOf(session, id))
    ensures Importable(rows, PlanOf(session, id)) <==>
      && PeersFree(rows, session.peers) && GroupsFree(rows, session.groups) && ServicesFree(rows, session.services)
      && MembersKnown(rows, session, id) && RulesSound(rows, session, id)
  {
    PlanIsWellFormed(session, id);
    PeersFreeIff(rows, session.peers);
    GroupsFreeIff(rows, session.groups, PeerIds(session, id));
    ServicesFreeIff(rows, session.services);
    MembersKnownIff(rows, session, id);
    RulesSoundIff(rows, session, id);
  }
}
