/** Which peers a group edit touches. The fan-out must cover every peer whose bundle changes. */
module FanOut {
  import opened Wrappers
  import opened PortText
  import opened Netfilter
  import opened Catalog
  import opened RuleBuilder
  import opened Bundle

  // ----- merging peer ids -----

  predicate Ascending(s: seq<int>) { forall i, j :: 0 <= i < j < |s| ==> s[i] < s[j] }

  function Insert(x: int, s: seq<int>): (r: seq<int>)
    requires Ascending(s) && x !in s
    ensures Ascending(r) && forall y :: y in r <==> y == x || y in s
  {
    if s == [] then [x]
    else if x < s[0] then
      TailAscends(s);
      ConsAscends(x, s);
      [x] + s
    else
      TailAscends(s);
      var rest := Insert(x, s[1..]);
      ConsAscends(s[0], rest);
      [s[0]] + rest
  }

  lemma TailAscends(s: seq<int>)
    requires Ascending(s) && s != []
    ensures Ascending(s[1..]) && s == [s[0]] + s[1..]
    ensures forall y :: y in s[1..] ==> y in s && s[0] < y
  {
  }

  lemma ConsAscends(x: int, s: seq<int>)
    requires Ascending(s) && forall y :: y in s ==> x < y
    ensures Ascending([x] + s)
  {
    var r := [x] + s;
    forall i, j | 0 <= i < j < |r| ensures r[i] < r[j] {
      assert r[j] == s[j - 1] && s[j - 1] in s;
      if i > 0 { assert r[i] == s[i - 1]; }
    }
  }

  /** The library sort, on the duplicate-free slices it is given here. */
  function Sort(s: seq<int>): (r: seq<int>)
    requires forall i, j :: 0 <= i < j < |s| ==> s[i] != s[j]
    ensures Ascending(r) && forall y :: y in r <==> y in s
  {
    if s == [] then []
    else
      assert s == [s[0]] + s[1..];
      Insert(s[0], Sort(s[1..]))
  }

  predicate InSlices(id: int, slices: seq<seq<int>>) { exists k :: 0 <= k < |slices| && id in slices[k] }

  /** Sorted, each id once, exactly the ids of the inputs. */
  method MergePeerIds(slices: seq<seq<int>>) returns (merged: seq<int>)
    ensures Ascending(merged)
    ensures forall id :: id in merged <==> InSlices(id, slices)
  {
    var seen: set<int>, result := {}, [];
    for k := 0 to |slices|
      invariant forall id :: id in seen <==> id in result
      invariant forall i, j :: 0 <= i < j < |result| ==> result[i] != result[j]
      invariant forall id :: id in result <==> InSlices(id, slices[..k])
    {
      var slice := slices[k];
      ghost var before := result;
      for i := 0 to |slice|
        invariant forall id :: id in seen <==> id in result
        invariant forall i, j :: 0 <= i < j < |result| ==> result[i] != result[j]
        invariant forall id :: id in result <==> id in before || id in slice[..i]
      {
        if slice[i] !in seen {
          seen := seen + {slice[i]};
          result := result + [slice[i]];
        }
      }
      assert slice[..|slice|] == slice && slices[..k + 1] == slices[..k] + [slice];
      forall id ensures InSlices(id, slices[..k + 1]) <==> InSlices(id, slices[..k]) || id in slice {
        OneMoreSlice(id, slices[..k], slice);
      }
    }
    assert slices[..|slices|] == slices;
    merged := Sort(result);
  }

  lemma OneMoreSlice(id: int, slices: seq<seq<int>>, slice: seq<int>)
    ensures InSlices(id, slices + [slice]) <==> InSlices(id, slices) || id in slice
  {
    var all := slices + [slice];
    assert all[|slices|] == slice;
    if k :| 0 <= k < |slices| && id in slices[k] { assert id in all[k]; }
  }

  /** Ascending sequences with the same elements are equal, so the merge depends only on the ids. */
  lemma {:induction false} AscendingIsCanonical(s: seq<int>, t: seq<int>)
    requires Ascending(s) && Ascending(t) && forall y :: y in s <==> y in t
    ensures s == t
  {
    assert s != [] ==> s[0] in s;
    assert t != [] ==> t[0] in t;
    if s != [] {
      assert s[0] == t[0];
      forall y ensures y in s[1..] <==> y in t[1..] {
        assert y in s[1..] <==> y in s && y != s[0];
        assert y in t[1..] <==> y in t && y != t[0];
      }
      AscendingIsCanonical(s[1..], t[1..]);
      assert s == [s[0]] + s[1..] && t == [t[0]] + t[1..];
    }
  }

  // ----- affected peers of one policy -----

  /** `SELECT DISTINCT gm.peer_id` joined with existing peers, for an active group. */
  function MemberPeers(members: seq<Member>, peers: seq<Peer>, gid: int): (r: seq<int>)
    ensures forall q :: q in r <==> Member(gid, q) in members && FindPeer(peers, q).Some?
  {
    if members == [] then []
    else
      var n := |members| - 1;
      var before := MemberPeers(members[..n], peers, gid);
      var m := members[n];
      assert members == members[..n] + [m];
      if m.group == gid && FindPeer(peers, m.peer).Some? && m.peer !in before then before + [m.peer] else before
  }

  function EndPeers(db: Db, e: End): Result<seq<int>> {
    match e.kind
    case PeerKind => if FindPeer(db.peers, e.id).Some? then Ok([e.id]) else Err(UnknownPeer)
    case GroupKind => if Active(db, e.id) then Ok(MemberPeers(db.members, db.peers, e.id)) else Err(UnknownGroup)
    case SpecialKind => Ok([])
  }

  function AllIds(peers: seq<Peer>): seq<int> { seq(|peers|, i requires 0 <= i < |peers| => peers[i].id) }

  predicate FansOutToAll(p: Policy) {
    (p.source.kind == SpecialKind && p.source.id == ALL_PEERS)
        || (p.target.kind == SpecialKind && p.target.id == ALL_PEERS)
  }

  /** The id lists that `GetAffectedPeersByPolicy` merges; a missing end is an error. */
  function AffectedSlices(db: Db, p: Policy): Result<seq<seq<int>>> {
    if p.deleted then Err(UnknownPolicy)
    else
      var src :- EndPeers(db, p.source);
      var tgt :- EndPeers(db, p.target);
      Ok([src, tgt] + if FansOutToAll(p) then [AllIds(db.peers)] else [])
  }

  predicate Resolves(db: Db, p: Policy) { AffectedSlices(db, p).Ok? }

  predicate Affects(db: Db, p: Policy, q: int) {
    var s := AffectedSlices(db, p);
    s.Ok? && InSlices(q, s.value)
  }

  method GetAffectedPeersByPolicy(db: Db, p: Policy) returns (r: Result<seq<int>>)
    ensures r.Ok? <==> Resolves(db, p)
    ensures r.Ok? ==> Ascending(r.value) && forall q :: q in r.value <==> Affects(db, p, q)
  {
    var slices := AffectedSlices(db, p);
    if slices.Err? { return Err(slices.why); }
    var merged := MergePeerIds(slices.value);
    return Ok(merged);
  }

  /** The fan-out over-approximates the applicability query. */
  lemma SelectedIsAffected(db: Db, p: Policy, q: int)
    requires Selected(db, p, q) && FindPeer(db.peers, q).Some? && Resolves(db, p)
    ensures Affects(db, p, q)
  {
    var s := AffectedSlices(db, p).value;
    assert EndHas(db, p.source, q) ==> q in s[0];
    assert EndHas(db, p.target, q) ==> q in s[1];
  }

  // ----- affected peers of a group -----

  predicate RefersTo(p: Policy, g: int) {
    !p.deleted && ((p.source.kind == GroupKind && p.source.id == g) || (p.target.kind == GroupKind && p.target.id == g))
  }

  predicate Marked(db: Db, pols: seq<Policy>, g: int, q: int) {
    exists p :: p in pols && RefersTo(p, g) && Affects(db, p, q)
  }

  predicate InFanOut(db: Db, g: int, q: int) { Marked(db, db.policies, g, q) }

  predicate FanOutComplete(db: Db, g: int) {
    forall p :: p in db.policies && RefersTo(p, g) ==> Resolves(db, p)
  }

  /** A missing group drops the change; pending deletion does not matter here. Then `FindPoliciesByGroup`
      and `GetAffectedPeersByPolicies`: a policy that fails to resolve is reported but does not drop the
      peers of the others. */
  method ResolveGroupChange(db: Db, g: int) returns (peerIds: seq<int>, failed: bool)
    ensures Ascending(peerIds)
    ensures forall q :: q in peerIds <==> g in db.groups && InFanOut(db, g, q)
    ensures failed <==> g !in db.groups || !FanOutComplete(db, g)
  {
    if g !in db.groups { return [], true; }
    var slices: seq<seq<int>> := [];
    failed := false;
    for i := 0 to |db.policies|
      invariant forall q :: InSlices(q, slices) <==> Marked(db, db.policies[..i], g, q)
      invariant failed <==> exists p :: p in db.policies[..i] && RefersTo(p, g) && !Resolves(db, p)
    {
      var p := db.policies[i];
      assert db.policies[..i + 1] == db.policies[..i] + [p];
      if RefersTo(p, g) {
        var r := GetAffectedPeersByPolicy(db, p);
        if r.Err? {
          failed := true;
        } else {
          forall q ensures InSlices(q, slices + [r.value]) <==> InSlices(q, slices) || q in r.value {
            OneMoreSlice(q, slices, r.value);
          }
          slices := slices + [r.value];
        }
      }
    }
    assert db.policies[..|db.policies|] == db.policies;
    peerIds := MergePeerIds(slices);
  }

  // ----- soundness -----

  function Elsewhere(members: seq<Member>, g: int): seq<Member> {
    if members == [] then []
    else
      var n := |members| - 1;
      Elsewhere(members[..n], g) + if members[n].group != g then [members[n]] else []
  }

  /** The two databases differ at most in the membership of group `g`. */
  predicate SameButMembersOf(db1: Db, db2: Db, g: int) {
    && db2 == db1.(members := db2.members)
    && Elsewhere(db1.members, g) == Elsewhere(db2.members, g)
  }

  lemma {:induction false} ElsewhereKeeps(members: seq<Member>, peers: seq<Peer>, g: int, h: int)
    requires h != g
    ensures forall q :: Member(h, q) in Elsewhere(members, g) <==> Member(h, q) in members
    ensures MemberAddresses(Elsewhere(members, g), peers, h) == MemberAddresses(members, peers, h)
  {
    if members != [] {
      var n := |members| - 1;
      var before, m := Elsewhere(members[..n], g), members[n];
      ElsewhereKeeps(members[..n], peers, g, h);
      assert members == members[..n] + [m];
      if m.group != g {
        assert (before + [m])[..|before|] == before;
      } else {
        assert before + [] == before;
      }
    }
  }

  lemma OtherGroupsSame(db1: Db, db2: Db, g: int, h: int)
    requires SameButMembersOf(db1, db2, g) && h != g
    ensures GroupNets(db1, h) == GroupNets(db2, h)
    ensures forall q :: IsMember(db1, h, q) <==> IsMember(db2, h, q)
  {
    ElsewhereKeeps(db1.members, db1.peers, g, h);
    ElsewhereKeeps(db2.members, db2.peers, g, h);
  }

  predicate Untouched(p: Policy, g: int) {
    !(p.source.kind == GroupKind && p.source.id == g) && !(p.target.kind == GroupKind && p.target.id == g)
  }

  lemma EndSame(db1: Db, db2: Db, g: int, e: End, q: int, ip: Address)
    requires SameButMembersOf(db1, db2, g) && !(e.kind == GroupKind && e.id == g)
    ensures EndHas(db1, e, q) == EndHas(db2, e, q)
    ensures ResolveEnd(db1, e, ip) == ResolveEnd(db2, e, ip)
  {
    if e.kind == GroupKind { OtherGroupsSame(db1, db2, g, e.id); }
  }

  /** A policy that does not mention the group compiles to the same rules. */
  lemma PolicySame(db1: Db, db2: Db, g: int, p: Policy, peer: Peer, order: seq<int>)
    requires SameButMembersOf(db1, db2, g) && Untouched(p, g)
    ensures Selected(db1, p, peer.id) == Selected(db2, p, peer.id)
    ensures CompilePolicy(db1, peer, order, p) == CompilePolicy(db2, peer, order, p)
  {
    EndSame(db1, db2, g, p.source, peer.id, peer.ip);
    EndSame(db1, db2, g, p.target, peer.id, peer.ip);
    var svc := LiveService(db1, p.service);
    if svc.Ok? && ClausesOf(svc.value).Ok? {
      TargetSame(db1, db2, g, p, peer, order, svc.value, ClausesOf(svc.value).value);
      SourceSame(db1, db2, g, p, peer, order, svc.value, ClausesOf(svc.value).value);
    }
  }

  lemma TargetSame(db1: Db, db2: Db, g: int, p: Policy, peer: Peer, order: seq<int>, svc: Service, pcs: seq<PortClause>)
    requires SameButMembersOf(db1, db2, g) && Untouched(p, g)
    ensures TargetSection(db1, peer, order, p, svc, pcs) == TargetSection(db2, peer, order, p, svc, pcs)
  {
    EndSame(db1, db2, g, p.source, peer.id, peer.ip);
    EndSame(db1, db2, g, p.target, peer.id, peer.ip);
  }

  lemma SourceSame(db1: Db, db2: Db, g: int, p: Policy, peer: Peer, order: seq<int>, svc: Service, pcs: seq<PortClause>)
    requires SameButMembersOf(db1, db2, g) && Untouched(p, g)
    ensures SourceSection(db1, peer, order, p, svc, pcs) == SourceSection(db2, peer, order, p, svc, pcs)
  {
    EndSame(db1, db2, g, p.source, peer.id, peer.ip);
    EndSame(db1, db2, g, p.target, peer.id, peer.ip);
  }

  lemma {:induction false} ApplicableSame(db1: Db, db2: Db, pols: seq<Policy>, q: int)
    requires forall p :: p in pols ==> Selected(db1, p, q) == Selected(db2, p, q)
    ensures Applicable(db1, pols, q) == Applicable(db2, pols, q)
  {
    if pols != [] {
      assert pols[0] in pols;
      ApplicableSame(db1, db2, pols[1..], q);
    }
  }

  lemma {:induction false} RulesSame(db1: Db, db2: Db, g: int, pols: seq<Policy>, peer: Peer, order: seq<int>)
    requires SameButMembersOf(db1, db2, g)
    requires forall p :: p in pols ==> Untouched(p, g)
    ensures CompilePolicies(db1, peer, order, pols) == CompilePolicies(db2, peer, order, pols)
  {
    if pols != [] {
      assert pols[0] in pols;
      PolicySame(db1, db2, g, pols[0], peer, order);
      RulesSame(db1, db2, g, pols[1..], peer, order);
    }
  }

  lemma {:induction false} OrderSame(db1: Db, db2: Db, g: int, pols: seq<Policy>)
    requires SameButMembersOf(db1, db2, g)
    requires forall p :: p in pols ==> Untouched(p, g)
    ensures GroupOrder(db1, pols) == GroupOrder(db2, pols) && g !in GroupOrder(db1, pols)
  {
    if pols != [] {
      assert pols[|pols| - 1] in pols;
      OrderSame(db1, db2, g, pols[..|pols| - 1]);
    }
  }

  lemma {:induction false} SetsSame(db1: Db, db2: Db, g: int, gids: seq<int>)
    requires SameButMembersOf(db1, db2, g) && g !in gids
    ensures GroupSets(db1, gids) == GroupSets(db2, gids)
  {
    if gids != [] {
      OtherGroupsSame(db1, db2, g, gids[0]);
      SetsSame(db1, db2, g, gids[1..]);
    }
  }

  lemma UnmarkedIsUnselected(db: Db, g: int, p: Policy, q: int)
    requires p in db.policies && !Untouched(p, g) && FindPeer(db.peers, q).Some?
    requires FanOutComplete(db, g) && !InFanOut(db, g, q)
    ensures !Selected(db, p, q)
  {
    if Selected(db, p, q) { SelectedIsAffected(db, p, q); }
  }

  /** Fan-out is sound: when only one group's membership differs and all lookups succeed, a peer
      outside the fan-outs taken before and after has the same bundle. */
  lemma FanOutIsSound(db1: Db, db2: Db, g: int, q: int)
    requires SameButMembersOf(db1, db2, g)
    requires FanOutComplete(db1, g) && FanOutComplete(db2, g)
    requires !InFanOut(db1, g, q) && !InFanOut(db2, g, q)
    ensures Compile(db1, q) == Compile(db2, q)
  {
    var found := FindPeer(db1.peers, q);
    if found.Some? {
      var peer := found.value;
      forall p | p in db1.policies
        ensures Selected(db1, p, q) == Selected(db2, p, q) && (Selected(db1, p, q) ==> Untouched(p, g))
      {
        if Untouched(p, g) {
          PolicySame(db1, db2, g, p, peer, []);
        } else {
          UnmarkedIsUnselected(db1, g, p, q);
          UnmarkedIsUnselected(db2, g, p, q);
        }
      }
      ApplicableSame(db1, db2, db1.policies, q);
      var pols := Applicable(db1, db1.policies, q);
      OrderSame(db1, db2, g, pols);
      SetsSame(db1, db2, g, GroupOrder(db1, pols));
      RulesSame(db1, db2, g, pols, peer, GroupOrder(db1, pols));
    }
  }

  lemma AffectsSame(db1: Db, db2: Db, g: int, p: Policy, q: int)
    requires SameButMembersOf(db1, db2, g) && Affects(db1, p, q)
    requires IsMember(db1, g, q) ==> IsMember(db2, g, q)
    ensures Affects(db2, p, q)
  {
    var s1, s2 := AffectedSlices(db1, p).value, AffectedSlices(db2, p).value;
    var k: nat :| k < |s1| && q in s1[k];
    if p.source.kind == GroupKind && p.source.id != g {
      OtherGroupsSame(db1, db2, g, p.source.id);
      assert q in s1[0] ==> IsMember(db1, p.source.id, q);
    }
    if p.target.kind == GroupKind && p.target.id != g {
      OtherGroupsSame(db1, db2, g, p.target.id);
      assert q in s1[1] ==> IsMember(db1, p.target.id, q);
    }
    assert q in s2[k];
  }

  /** Whom a resolvable policy affects: the peers of either end, and everyone for all-peers. */
  lemma AffectsMeans(db: Db, p: Policy, q: int)
    requires Resolves(db, p) && FindPeer(db.peers, q).Some?
    ensures Affects(db, p, q) <==> EndHas(db, p.source, q) || EndHas(db, p.target, q) || FansOutToAll(p)
  {
    var s := AffectedSlices(db, p).value;
    assert EndHas(db, p.source, q) <==> q in s[0];
    assert EndHas(db, p.target, q) <==> q in s[1];
    if FansOutToAll(p) { EveryoneListed(db.peers, q); assert q in s[2]; }
  }

  lemma {:induction false} EveryoneListed(peers: seq<Peer>, q: int)
    requires FindPeer(peers, q).Some?
    ensures q in AllIds(peers)
  {
    var peer := FindPeer(peers, q).value;
    var i :| 0 <= i < |peers| && peers[i] == peer;
    assert AllIds(peers)[i] == q;
  }

  /** No policy on the group names the peer in another way. */
  predicate NamedNowhere(db: Db, g: int, q: int) {
    forall p :: p in db.policies && RefersTo(p, g) ==>
      !EndHas(db, p.source, q) && !EndHas(db, p.target, q) && !FansOutToAll(p)
  }

  /** The worker resolves peers after the edit. A peer whose bundle changed is missed exactly when the
      edit removed it from the group and no policy on the group names it in another way. */
  lemma FanOutAfterEdit(db1: Db, db2: Db, g: int, q: int)
    requires SameButMembersOf(db1, db2, g) && FanOutComplete(db2, g)
    requires Compile(db1, q) != Compile(db2, q)
    ensures !InFanOut(db2, g, q) <==> IsMember(db1, g, q) && !IsMember(db2, g, q) && NamedNowhere(db2, g, q)
  {
    CompleteSame(db1, db2, g);
    if InFanOut(db1, g, q) && (IsMember(db1, g, q) ==> IsMember(db2, g, q)) { KeptMemberInFanOut(db1, db2, g, q); }
    if !InFanOut(db2, g, q) && !InFanOut(db1, g, q) { FanOutIsSound(db1, db2, g, q); }
    assert FindPeer(db2.peers, q).Some?;
    OutsideMeansNamedNowhere(db2, g, q);
  }

  lemma OutsideMeansNamedNowhere(db: Db, g: int, q: int)
    requires FanOutComplete(db, g) && FindPeer(db.peers, q).Some?
    ensures !InFanOut(db, g, q) <==> NamedNowhere(db, g, q)
  {
    forall p | p in db.policies && RefersTo(p, g)
      ensures Affects(db, p, q) <==> EndHas(db, p.source, q) || EndHas(db, p.target, q) || FansOutToAll(p)
    {
      AffectsMeans(db, p, q);
    }
  }

  lemma CompleteSame(db1: Db, db2: Db, g: int)
    requires SameButMembersOf(db1, db2, g) && FanOutComplete(db2, g)
    ensures FanOutComplete(db1, g)
  {
    forall p | p in db1.policies && RefersTo(p, g) ensures Resolves(db1, p) { assert Resolves(db2, p); }
  }

  lemma KeptMemberInFanOut(db1: Db, db2: Db, g: int, q: int)
    requires SameButMembersOf(db1, db2, g) && InFanOut(db1, g, q)
    requires IsMember(db1, g, q) ==> IsMember(db2, g, q)
    ensures InFanOut(db2, g, q)
  {
    var p :| p in db1.policies && RefersTo(p, g) && Affects(db1, p, q);
    AffectsSame(db1, db2, g, p, q);
  }

  // ----- fan-out of a service -----

  /** `FindPolicyIDsByService`: disabled policies count, soft-deleted ones do not. */
  predicate UsesService(p: Policy, v: int) { !p.deleted && p.service == v }

  predicate InServiceFanOut(db: Db, v: int, q: int) {
    exists p :: p in db.policies && UsesService(p, v) && Affects(db, p, q)
  }

  ghost predicate SameButService(db1: Db, db2: Db, v: int) {
    && db2 == db1.(services := db2.services)
    && forall u :: u != v ==>
       (u in db1.services <==> u in db2.services) && (u in db1.services ==> db1.services[u] == db2.services[u])
  }

  lemma SectionsIgnoreServices(db1: Db, db2: Db, v: int, p: Policy, peer: Peer, order: seq<int>, svc: Service,
        pcs: seq<PortClause>)
    requires SameButService(db1, db2, v)
    ensures TargetSection(db1, peer, order, p, svc, pcs) == TargetSection(db2, peer, order, p, svc, pcs)
    ensures SourceSection(db1, peer, order, p, svc, pcs) == SourceSection(db2, peer, order, p, svc, pcs)
  {
  }

  /** A policy on another service compiles to the same rules. */
  lemma OtherServiceSame(db1: Db, db2: Db, v: int, p: Policy, peer: Peer, order: seq<int>)
    requires SameButService(db1, db2, v) && p.service != v
    ensures CompilePolicy(db1, peer, order, p) == CompilePolicy(db2, peer, order, p)
  {
    var svc := LiveService(db1, p.service);
    if svc.Ok? && ClausesOf(svc.value).Ok? {
      SectionsIgnoreServices(db1, db2, v, p, peer, order, svc.value, ClausesOf(svc.value).value);
    }
  }

  lemma {:induction false} OtherServicesSame(db1: Db, db2: Db, v: int, pols: seq<Policy>, peer: Peer, order: seq<int>)
    requires SameButService(db1, db2, v) && forall p :: p in pols ==> p.service != v
    ensures CompilePolicies(db1, peer, order, pols) == CompilePolicies(db2, peer, order, pols)
  {
    if pols != [] {
      assert pols[0] in pols;
      OtherServiceSame(db1, db2, v, pols[0], peer, order);
      OtherServicesSame(db1, db2, v, pols[1..], peer, order);
    }
  }

  lemma {:induction false} OrderIgnoresServices(db1: Db, db2: Db, v: int, pols: seq<Policy>)
    requires SameButService(db1, db2, v)
    ensures GroupOrder(db1, pols) == GroupOrder(db2, pols)
  {
    if pols != [] { OrderIgnoresServices(db1, db2, v, pols[..|pols| - 1]); }
  }

  lemma {:induction false} SetsIgnoreServices(db1: Db, db2: Db, v: int, gids: seq<int>)
    requires SameButService(db1, db2, v)
    ensures GroupSets(db1, gids) == GroupSets(db2, gids)
  {
    if gids != [] { SetsIgnoreServices(db1, db2, v, gids[1..]); }
  }

  lemma SelectionIgnoresServices(db1: Db, db2: Db, v: int, q: int)
    requires SameButService(db1, db2, v)
    ensures Applicable(db1, db1.policies, q) == Applicable(db2, db2.policies, q)
  {
    forall p | p in db1.policies ensures Selected(db1, p, q) == Selected(db2, p, q) {}
    ApplicableSame(db1, db2, db1.policies, q);
  }

  /** A host none of whose policies use the service keeps its bundle. */
  lemma ServiceUnused(db1: Db, db2: Db, v: int, q: int)
    requires SameButService(db1, db2, v)
    requires forall p :: p in Applicable(db1, db1.policies, q) ==> p.service != v
    ensures Compile(db1, q) == Compile(db2, q)
  {
    SelectionIgnoresServices(db1, db2, v, q);
    var found := FindPeer(db1.peers, q);
    if found.Some? {
      var pols := Applicable(db1, db1.policies, q);
      OrderIgnoresServices(db1, db2, v, pols);
      SetsIgnoreServices(db1, db2, v, GroupOrder(db1, pols));
      OtherServicesSame(db1, db2, v, pols, found.value, GroupOrder(db1, pols));
    }
  }

  /** Service fan-out is sound, and since it does not read the service it may be taken before or after
      the edit: a peer outside it has the same bundle whatever happened to the service. */
  lemma ServiceFanOutIsSound(db1: Db, db2: Db, v: int, q: int)
    requires SameButService(db1, db2, v)
    requires forall p :: p in db1.policies && UsesService(p, v) ==> Resolves(db1, p)
    ensures InServiceFanOut(db1, v, q) <==> InServiceFanOut(db2, v, q)
    ensures !InServiceFanOut(db1, v, q) ==> Compile(db1, q) == Compile(db2, q)
  {
    forall p ensures Affects(db1, p, q) <==> Affects(db2, p, q) {
      assert AffectedSlices(db1, p) == AffectedSlices(db2, p);
    }
    if !InServiceFanOut(db1, v, q) && FindPeer(db1.peers, q).Some? {
      forall p | p in Applicable(db1, db1.policies, q) ensures p.service != v {
        if p.service == v { SelectedIsAffected(db1, p, q); }
      }
      ServiceUnused(db1, db2, v, q);
    }
  }

  // ----- a removed member is really missed -----

  const PING := Service(Plain, "", "", "icmp", false, false)
  const PING_POLICY := Policy(1, End(GroupKind, 7, Empty), End(PeerKind, 2, Empty), 5, AcceptAction, HostScope,
      BothWays, true, false)

  function PingDb(members: seq<Member>): Db {
    Db([Peer(1, Host4(Dotted(10, 0, 0, 1)), false, false), Peer(2, Host4(Dotted(10, 0, 0, 2)), false, false)],
       map[7 := Group("web", false)], members, map[5 := PING], [PING_POLICY], "")
  }

  /** Removing peer 1 from its group empties its bundle of the policy's rules, yet the fan-out taken
      after the removal does not contain it. */
  lemma RemovedMemberIsMissed()
    ensures var before, after := PingDb([Member(7, 1)]), PingDb([]);
      && SameButMembersOf(before, after, 7) && FanOutComplete(after, 7)
      && Compile(before, 1) != Compile(after, 1)
      && !InFanOut(after, 7, 1)
  {
    var before, after := PingDb([Member(7, 1)]), PingDb([]);
    PingBundle(before);
    PingSelection(before, after);
    var peer1, order := before.peers[0], GroupOrder(before, [PING_POLICY]);
    PingRules(before, peer1, order);
    assert Compile(after, 1)
        == Ok(RuleBundle([], StandardRules(false, DEFAULT_CONTROL_PORT) + [] + DefaultRules(false)));
    assert |Compile(before, 1).value.rules| == |StandardRules(false, DEFAULT_CONTROL_PORT)| + 2 + |DefaultRules(false)|;
    assert |Compile(after, 1).value.rules| == |StandardRules(false, DEFAULT_CONTROL_PORT)| + |DefaultRules(false)|;
  }

  lemma PingSelection(before: Db, after: Db)
    requires before == PingDb([Member(7, 1)]) && after == PingDb([])
    ensures SameButMembersOf(before, after, 7) && FanOutComplete(after, 7) && !InFanOut(after, 7, 1)
    ensures Applicable(after, after.policies, 1) == []
  {
    assert before.members[..0] == [];
    assert Elsewhere(before.members, 7) == [];
    PingAffects(after);
    assert after.policies == [PING_POLICY];
    assert [PING_POLICY][1..] == [];
  }

  lemma PingAffects(db: Db)
    requires db == PingDb([])
    ensures Resolves(db, PING_POLICY) && !Affects(db, PING_POLICY, 1) && !Selected(db, PING_POLICY, 1)
  {
    assert db.peers[1..] == [db.peers[1]];
    assert FindPeer(db.peers, 2) == FindPeer([db.peers[1]], 2);
    assert EndPeers(db, PING_POLICY.source) == Ok([]) && EndPeers(db, PING_POLICY.target) == Ok([2]);
    assert AffectedSlices(db, PING_POLICY).value == [[], [2]];
  }

  lemma PingBundle(db: Db)
    requires db == PingDb([Member(7, 1)])
    ensures Applicable(db, db.policies, 1) == [PING_POLICY]
    ensures forall peer, order :: CompilePolicy(db, peer, order, PING_POLICY).Ok? ==>
      CompilePolicies(db, peer, order, [PING_POLICY]) == Ok(CompilePolicy(db, peer, order, PING_POLICY).value + [])
  {
    assert [PING_POLICY][1..] == [];
    assert Member(7, 1) in db.members;
  }

  lemma PingRules(db: Db, peer: Peer, order: seq<int>)
    requires db == PingDb([Member(7, 1)]) && peer == db.peers[0]
    ensures CompilePolicy(db, peer, order, PING_POLICY).Ok? && |CompilePolicy(db, peer, order, PING_POLICY).value| == 2
  {
    var ctx, pcs := CtxOf(peer, PING_POLICY, PING), [PortClause("icmp", "", "")];
    var net2 := Net4(Dotted(10, 0, 0, 2), 32);
    assert db.peers[1..] == [db.peers[1]];
    assert FindPeer(db.peers, 2) == FindPeer([db.peers[1]], 2) == Some(db.peers[1]);
    assert ResolveEnd(db, PING_POLICY.target, peer.ip) == Ok([net2]);
    assert !RunsIngress(db, PING_POLICY, 1);
    assert Dotted(10, 0, 0, 2) != Dotted(10, 0, 0, 1);
    OneNetEgress(net2, ctx, pcs[0]);
    assert pcs == [pcs[0]];
  }

  lemma OneNetKept(net: Address, ip: Address)
    requires NormalizeToCidr(ip) != net && FilterSelf([net], ip).Ok?
    ensures FilterSelf([net], ip) == Ok([net])
  {
    var own := NormalizeToCidr(ip);
    assert [net][..0] == [] && [net][0] == net;
    assert Without([net], own) == Without([], own) + [net];
    assert Without([], own) + [net] == [net];
  }

  /** One prefix, host scope: a primary rule and a reply rule. */
  lemma OneNetEgress(net: Address, ctx: Ctx, pc: PortClause)
    requires !IsMarker(net) && NormalizeToCidr(ctx.ip) != net && FilterSelf([net], ctx.ip).Ok? && ctx.host
        && !ctx.docker
    ensures var out := WriteRules(AcceptAction, Egress, ByCidrs([net]), false, ctx, [pc]); out.Ok? && |out.value| == 2
  {
    OneNetKept(net, ctx.ip);
    var far := [OneNet(net)];
    assert Nets([net]) == far;
    assert far[..0] == [] && [pc][..0] == [];
    assert |PerFar(Egress, false, far, ctx, pc)| == 1;
    assert |Replies(Egress, far, ctx, pc)| == 1;
    assert AcceptBlock(Egress, ByCidrs([net]), far, far, ctx, []) == [];
  }
}
