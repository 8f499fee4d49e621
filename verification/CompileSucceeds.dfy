/** Exactly when a compile succeeds, on the columns of the tables. */
module CompileSucceeds {
  import opened Wrappers
  import opened PortText
  import opened Netfilter
  import opened Catalog
  import opened RuleBuilder
  import opened Bundle
  import opened PolicyMeaning
  import opened CompilerProofs
  import opened MeaningProofs

  // ----- texts -----

  /** A host or a prefix that can be parsed. */
  predicate IsText(t: Address) {
    match t
    case Host4(_) => true
    case Host6(_) => true
    case Net4(_, len) => len <= 32
    case Net6(_, len) => len <= 128
    case _ => false
  }

  /** What a peer's address or a pin may be: not everything at once. */
  predicate IsPeerText(t: Address) {
    match t
    case Host4(_) => true
    case Host6(_) => true
    case Net4(_, len) => 1 <= len <= 32
    case Net6(_, len) => 1 <= len <= 128
    case _ => false
  }

  predicate IsV6(t: Address) { t.Host6? || t.Net6? }

  lemma TextsOnColumns(t: Address)
    ensures ValidGroupCidr(t) <==> IsText(t)
    ensures ValidPeerCidr(t) <==> IsPeerText(t)
    ensures IsIPv6(NormalizeToCidr(t)) <==> IsV6(t)
  {
  }

  // ----- ends -----

  /** Every member of the group that has a row has a usable address. */
  ghost predicate MembersOk(db: Db, e: End) {
    forall r: Peer :: Names(db, e, r.id) && IsPeerRow(db, r.id, r) ==> IsText(r.ip)
  }

  ghost predicate EndOk(db: Db, peer: Peer, e: End) {
    match e.kind
    case PeerKind =>
      if e.pin != Empty then IsPeerText(e.pin) else exists r :: IsPeerRow(db, e.id, r) && IsPeerText(r.ip)
    case GroupKind => e.pin == Empty && MembersOk(db, e)
    case SpecialKind =>
      && e.pin == Empty && 1 <= e.id <= 9
      && (e.id == 1 ==> peer.ip.Host4? || (peer.ip.Net4? && peer.ip.len <= 32))
      && (e.id == 7 ==> forall r :: r in db.peers ==> IsPeerText(r.ip))
  }

  lemma {:induction false} NormalisedOkIff(rows: seq<Address>)
    ensures Normalised(rows).Ok? <==> forall i :: 0 <= i < |rows| ==> ValidGroupCidr(rows[i])
  {
    if rows != [] {
      var n := |rows| - 1;
      NormalisedOkIff(rows[..n]);
      assert forall i :: 0 <= i < n ==> rows[..n][i] == rows[i];
    }
  }

  lemma GroupOkIff(db: Db, peer: Peer, e: End)
    requires e.kind == GroupKind
    ensures GroupNets(db, e.id).Ok? <==> MembersOk(db, e)
  {
    var rows := GroupRows(db, e.id);
    NormalisedOkIff(rows);
    forall t ensures Written(db, peer, e, t) <==> t in rows { GroupTexts(db, peer, e, t); }
    forall t ensures ValidGroupCidr(t) <==> IsText(t) { TextsOnColumns(t); }
    if GroupNets(db, e.id).Ok? {
      forall r: Peer | Names(db, e, r.id) && IsPeerRow(db, r.id, r) ensures IsText(r.ip) {
        assert Written(db, peer, e, r.ip);
        var i :| 0 <= i < |rows| && rows[i] == r.ip;
      }
    } else {
      var i :| 0 <= i < |rows| && !ValidGroupCidr(rows[i]);
      assert Written(db, peer, e, rows[i]);
    }
  }

  lemma {:induction false} AllPeersOkIff(peers: seq<Peer>)
    ensures AllPeerNets(peers).Ok? <==> forall r :: r in peers ==> IsPeerText(r.ip)
  {
    if peers != [] {
      AllPeersOkIff(peers[1..]);
      TextsOnColumns(peers[0].ip);
      assert peers == [peers[0]] + peers[1..];
    }
  }

  lemma EndOkIff(db: Db, peer: Peer, e: End)
    ensures ResolveEnd(db, e, peer.ip).Ok? <==> EndOk(db, peer, e)
  {
    TextsOnColumns(e.pin);
    match e.kind
    case PeerKind =>
      var found := FindPeer(db.peers, e.id);
      if found.Some? { TextsOnColumns(found.value.ip); }
      forall r ensures IsPeerRow(db, e.id, r) <==> found == Some(r) { PeerRowIsFound(db, e.id, r); }
    case GroupKind => GroupOkIff(db, peer, e);
    case SpecialKind => AllPeersOkIff(db.peers);
  }

  lemma EndHasNoMarker(db: Db, peer: Peer, e: End)
    requires !IsInternet(e) && ResolveEnd(db, e, peer.ip).Ok?
    ensures !HasMarker(ResolveEnd(db, e, peer.ip).value)
  {
    EndResolvesTo(db, peer, e);
    var nets := ResolveEnd(db, e, peer.ip).value;
    forall n | n in nets ensures !IsMarker(n) {
      var t :| Written(db, peer, e, t) && NormalizeToCidr(t) == n;
    }
  }

  // ----- sections -----

  /** The host's own address can be left out of a list of prefixes. */
  predicate SelfOk(peer: Peer) { peer.ip == Empty || IsPeerText(peer.ip) }

  lemma PrefixBlockOkIff(action: Action, s: Section, nets: seq<Address>, multicast: bool, peer: Peer, ctx: Ctx,
                         pcs: seq<PortClause>)
    requires !HasMarker(nets) && ctx.ip == peer.ip
    ensures WriteRules(action, s, ByCidrs(nets), multicast, ctx, pcs).Ok? <==> pcs == [] || SelfOk(peer)
  {
    TextsOnColumns(peer.ip);
  }

  ghost predicate IngressOk(db: Db, peer: Peer, pol: Policy, svc: Service) {
    TakesIn(db, pol, peer.id) ==>
      && !IsInternet(pol.source)
      && (IsBroadcast(pol.source) && pol.source.id == 1 ==> peer.ip.Host4? || (peer.ip.Net4? && peer.ip.len <= 32))
      && (!IsBroadcast(pol.source) && !IsMulticast(pol.source) && !ByName(db, peer, pol.source) ==>
            EndOk(db, peer, pol.source) && (svc.role == Plain ==> SelfOk(peer)))
  }

  ghost predicate EgressOk(db: Db, peer: Peer, pol: Policy, svc: Service) {
    SendsOut(db, pol, peer.id) && !ByName(db, peer, pol.target) ==>
      if IsInternet(pol.target) then peer.id == 0 || (peer.ip != Empty && !IsV6(peer.ip))
      else EndOk(db, peer, pol.target) && (svc.role == Plain ==> SelfOk(peer))
  }

  /** The clauses of a service that has ports are never empty, of the others always. */
  lemma ClausesShape(svc: Service)
    requires ClausesOf(svc).Ok?
    ensures ClausesOf(svc).value == [] <==> svc.role != Plain
  {
  }

  lemma IngressOkIff(db: Db, peer: Peer, order: seq<int>, pol: Policy, svc: Service)
    requires OrderCovers(db, order, pol.source) && ClausesOf(svc).Ok?
    ensures TargetSection(db, peer, order, pol, svc, ClausesOf(svc).value).Ok? <==> IngressOk(db, peer, pol, svc)
  {
    var ctx, pcs := CtxOf(peer, pol, svc), ClausesOf(svc).value;
    ApplicabilityOnColumns(db, pol, peer.id);
    EndKinds(pol.source);
    ClausesShape(svc);
    if TakesIn(db, pol, peer.id) && !IsInternet(pol.source) && !IsBroadcast(pol.source) && !IsMulticast(pol.source)
       && !ByName(db, peer, pol.source) {
      EndOkIff(db, peer, pol.source);
      if ResolveEnd(db, pol.source, peer.ip).Ok? {
        EndHasNoMarker(db, peer, pol.source);
        PrefixBlockOkIff(pol.action, Ingress, ResolveEnd(db, pol.source, peer.ip).value, false, peer, ctx, pcs);
      }
    }
  }

  lemma EgressOkIff(db: Db, peer: Peer, order: seq<int>, pol: Policy, svc: Service)
    requires OrderCovers(db, order, pol.target) && ClausesOf(svc).Ok?
    ensures SourceSection(db, peer, order, pol, svc, ClausesOf(svc).value).Ok? <==> EgressOk(db, peer, pol, svc)
  {
    var ctx, pcs := CtxOf(peer, pol, svc), ClausesOf(svc).value;
    ApplicabilityOnColumns(db, pol, peer.id);
    EndKinds(pol.target);
    ClausesShape(svc);
    if SendsOut(db, pol, peer.id) && !ByName(db, peer, pol.target) && !IsInternet(pol.target) {
      EndOkIff(db, peer, pol.target);
      if ResolveEnd(db, pol.target, peer.ip).Ok? {
        EndHasNoMarker(db, peer, pol.target);
        PrefixBlockOkIff(pol.action, Egress, ResolveEnd(db, pol.target, peer.ip).value, IsMulticastEnd(pol.target),
            peer,
                         ctx, pcs);
      }
    }
  }

  // ----- policies -----

  /** The ports of an ordinary service can be written: given, well formed, or not needed. */
  predicate PortsOk(svc: Service) {
    || svc.role != Plain || svc.proto == "icmp" || svc.proto == "igmp"
    || (ValidPorts(svc.dports) && ValidPorts(svc.sports) && (svc.dports != "" || svc.sports != ""))
  }

  lemma PortsOkIff(svc: Service)
    ensures ClausesOf(svc).Ok? <==> PortsOk(svc)
  {
  }

  ghost predicate PolicyOk(db: Db, peer: Peer, pol: Policy) {
    && pol.action != OtherAction
    && pol.service in db.services && !db.services[pol.service].deleted
    && var svc := db.services[pol.service];
       PortsOk(svc)
       && (svc.role == IgmpRole || svc.role == VrrpRole
          || (IngressOk(db, peer, pol, svc) && EgressOk(db, peer, pol, svc)))
  }

  lemma PolicyOkIff(db: Db, peer: Peer, order: seq<int>, pol: Policy)
    requires OrderCovers(db, order, pol.source) && OrderCovers(db, order, pol.target)
    ensures CompilePolicy(db, peer, order, pol).Ok? <==> PolicyOk(db, peer, pol)
  {
    if LiveService(db, pol.service).Ok? {
      var svc := LiveService(db, pol.service).value;
      PortsOkIff(svc);
      if ClausesOf(svc).Ok? {
        IngressOkIff(db, peer, order, pol, svc);
        EgressOkIff(db, peer, order, pol, svc);
      }
    }
  }

  lemma {:induction false} PoliciesOkIff(db: Db, peer: Peer, order: seq<int>, pols: seq<Policy>)
    requires forall pol :: pol in pols ==> OrderCovers(db, order, pol.source) && OrderCovers(db, order, pol.target)
    ensures CompilePolicies(db, peer, order, pols).Ok? <==> forall pol :: pol in pols ==> PolicyOk(db, peer, pol)
  {
    if pols != [] {
      assert pols == [pols[0]] + pols[1..];
      PolicyOkIff(db, peer, order, pols[0]);
      PoliciesOkIff(db, peer, order, pols[1..]);
    }
  }

  // ----- sets -----

  /** A group can be written as an IPv4 set. */
  ghost predicate SetOk(db: Db, g: int) {
    forall r: Peer :: Names(db, End(GroupKind, g, Empty), r.id) && IsPeerRow(db, r.id, r) ==>
        IsText(r.ip) && !IsV6(r.ip)
  }

  lemma SetOkIff(db: Db, g: int)
    ensures GroupSet(db, g).Ok? <==> SetOk(db, g)
  {
    var e, any := End(GroupKind, g, Empty), Peer(0, Empty, false, false);
    GroupOkIff(db, any, e);
    SetNameFits(if g in db.groups then db.groups[g].name else "");
    if GroupNets(db, g).Ok? {
      GroupEndResolves(db, any, e);
      var nets := GroupNets(db, g).value;
      forall t ensures IsIPv6(NormalizeToCidr(t)) <==> IsV6(t) { TextsOnColumns(t); }
      forall r: Peer | Names(db, e, r.id) && IsPeerRow(db, r.id, r) ensures NormalizeToCidr(r.ip) in nets {
        assert Written(db, any, e, r.ip);
      }
      forall n | n in nets
        ensures !IsMarker(n)
        ensures exists r: Peer :: Names(db, e, r.id) && IsPeerRow(db, r.id, r) && NormalizeToCidr(r.ip) == n
      {
        var t :| Written(db, any, e, t) && NormalizeToCidr(t) == n;
      }
    }
  }

  lemma {:induction false} SetsOkIff(db: Db, gids: seq<int>)
    ensures GroupSets(db, gids).Ok? <==> forall g :: g in gids ==> SetOk(db, g)
  {
    if gids != [] {
      assert gids == [gids[0]] + gids[1..];
      SetOkIff(db, gids[0]);
      SetsOkIff(db, gids[1..]);
    }
  }

  lemma MentionedIsOrdered(db: Db, q: int, g: int)
    ensures g in GroupOrder(db, Applicable(db, db.policies, q)) <==> Mentioned(db, q, g)
  {
    var pols := Applicable(db, db.policies, q);
    GroupOrderCovers(db, pols);
    if g in GroupOrder(db, pols) { OrderedIsMentioned(db, q, g); }
    if Mentioned(db, q, g) {
      var pol :| pol in db.policies && Concerned(db, pol, q)
          && (EndIsGroup(pol.source, g) || EndIsGroup(pol.target, g));
      ApplicabilityOnColumns(db, pol, q);
      assert pol in pols;
    }
  }

  /** A compile succeeds exactly when the host has a row, the groups its policies mention can be written as
      sets where it uses sets, and every policy that concerns it is in order. */
  lemma CompileSucceedsIff(db: Db, q: int)
    ensures Compile(db, q).Ok? <==>
      exists peer ::
        && IsPeerRow(db, q, peer)
        && (peer.hasIpset ==> forall g :: Mentioned(db, q, g) ==> SetOk(db, g))
        && forall pol :: pol in db.policies && Concerned(db, pol, q) ==> PolicyOk(db, peer, pol)
  {
    forall r ensures IsPeerRow(db, q, r) <==> FindPeer(db.peers, q) == Some(r) { PeerRowIsFound(db, q, r); }
    var found := FindPeer(db.peers, q);
    if found.Some? { CompileForIff(db, q, found.value); }
  }

  lemma CompileForIff(db: Db, q: int, peer: Peer)
    requires FindPeer(db.peers, q) == Some(peer)
    ensures Compile(db, q).Ok? <==>
      && (peer.hasIpset ==> forall g :: Mentioned(db, q, g) ==> SetOk(db, g))
      && forall pol :: pol in db.policies && Concerned(db, pol, q) ==> PolicyOk(db, peer, pol)
  {
    var pols := Applicable(db, db.policies, q);
    var order := GroupOrder(db, pols);
    GroupOrderCovers(db, pols);
    SetsOkIff(db, order);
    PoliciesOkIff(db, peer, order, pols);
    forall g ensures g in order <==> Mentioned(db, q, g) { MentionedIsOrdered(db, q, g); }
    forall pol ensures Selected(db, pol, q) <==> Concerned(db, pol, q) { ApplicabilityOnColumns(db, pol, q); }
  }
}
