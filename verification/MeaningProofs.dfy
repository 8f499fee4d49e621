/** The bundle gives every packet the verdict that the policies mean, read off the columns of the tables. */
module MeaningProofs {
  import opened Wrappers
  import opened PortText
  import opened Netfilter
  import opened Catalog
  import opened RuleBuilder
  import opened Bundle
  import opened PolicyMeaning
  import opened PolicyView
  import opened CompilerProofs
  import Broadcast
  import Backends

  // ----- addresses -----

  lemma NormalSpans(t: Address, a: Addr)
    requires ValidGroupCidr(t)
    ensures InPrefix(a, NormalizeToCidr(t)) <==> Spans(t, a)
  {
    assert Pow2(0) == 1;
  }

  lemma NormalSame(t: Address, u: Address)
    requires ValidGroupCidr(t) && ValidGroupCidr(u)
    ensures NormalizeToCidr(t) == NormalizeToCidr(u) <==> SameNet(t, u)
  {
  }

  lemma PrivateIsPrivate(a: Addr)
    ensures IsPrivate(a) <==> Private(a)
  {
    Backends.PrivateRangesAreRfc1918(a);
  }

  lemma LastIsBroadcast(x: Addr, len: nat, b: Addr)
    requires len <= 32
    ensures IsLastOf(Net4(x, len), b) <==> b == BroadcastOf(x, len)
  {
    Broadcast.BroadcastIsGreatest(x, len);
    assert forall c: Addr :: Spans(Net4(x, len), c) <==> InPrefix(c, Net4(x, len));
  }

  /** The text is one host's, in either form. */
  predicate IsHost(t: Address, a: Addr) { t == Host4(a) || t == Net4(a, 32) }

  lemma BroadcastIsLast(ip: Address, b: Addr)
    ensures IsLast(ip, b) <==> SubnetBroadcast(ip).Ok? && SubnetBroadcast(ip).value == Net4(b, 32)
  {
    if ip.Host4? { LastIsBroadcast(ip.addr, 24, b); }
    if ip.Net4? && ip.len <= 32 { LastIsBroadcast(ip.addr, ip.len, b); }
  }

  lemma SubnetDestIsLast(dest: Address, peerIps: seq<Address>)
    ensures Broadcast.IsSubnetBroadcastDest(dest, peerIps) <==>
      exists p, b: Addr :: p in peerIps && IsHost(dest, b) && IsLast(p, b)
  {
    if Broadcast.IsSubnetBroadcastDest(dest, peerIps) {
      var p :| p in peerIps && SubnetBroadcast(p).Ok?
          && Broadcast.StripHost(SubnetBroadcast(p).value) == Broadcast.StripHost(dest);
      var b := SubnetBroadcast(p).value.addr;
      BroadcastIsLast(p, b);
      assert IsHost(dest, b);
    }
    if p, b: Addr :| p in peerIps && IsHost(dest, b) && IsLast(p, b) { BroadcastIsLast(p, b); }
  }

  /** What the importer takes for a broadcast destination: nothing on OUTPUT; elsewhere the limited broadcast
      address, and otherwise the last address of the network of one of the peers. */
  lemma BroadcastDestMeans(dest: Address, chain: Chain, peerIps: seq<Address>)
    ensures var id := Broadcast.IsBroadcastDest(dest, chain, peerIps);
      && (id == 2 <==> chain != OUTPUT && IsHost(dest, 0xFFFF_FFFF))
      && (id == 1 <==> && chain != OUTPUT && !IsHost(dest, 0xFFFF_FFFF)
                       && exists p, b: Addr :: p in peerIps && IsHost(dest, b) && IsLast(p, b))
      && (id == 0 || id == 1 || id == 2)
  {
    SubnetDestIsLast(dest, peerIps);
    assert Broadcast.IsSubnetBroadcastDest(Broadcast.StripHost(dest), peerIps) <==>
        Broadcast.IsSubnetBroadcastDest(dest, peerIps);
  }

  // ----- rows -----

  predicate IsFirst(peers: seq<Peer>, id: int, r: Peer, i: nat) {
    i < |peers| && peers[i] == r && r.id == id && forall j :: 0 <= j < i ==> peers[j].id != id
  }

  lemma {:induction false} FoundIsFirst(peers: seq<Peer>, id: int) returns (i: nat)
    requires FindPeer(peers, id).Some?
    ensures IsFirst(peers, id, FindPeer(peers, id).value, i)
  {
    if peers[0].id == id {
      i := 0;
    } else {
      var k := FoundIsFirst(peers[1..], id);
      i := k + 1;
      assert forall j :: 1 <= j < i ==> peers[j] == peers[1..][j - 1];
    }
  }

  lemma {:induction false} FirstIsFound(peers: seq<Peer>, id: int, r: Peer, i: nat)
    requires IsFirst(peers, id, r, i)
    ensures FindPeer(peers, id) == Some(r)
  {
    if i > 0 {
      assert peers[0].id != id;
      assert forall j :: 0 <= j < i - 1 ==> peers[1..][j] == peers[j + 1];
      FirstIsFound(peers[1..], id, r, i - 1);
    }
  }

  lemma PeerRowIsFound(db: Db, id: int, r: Peer)
    ensures IsPeerRow(db, id, r) <==> FindPeer(db.peers, id) == Some(r)
  {
    if IsPeerRow(db, id, r) {
      var i :| 0 <= i < |db.peers| && db.peers[i] == r && r.id == id && forall j :: 0 <= j < i ==> db.peers[j].id != id;
      FirstIsFound(db.peers, id, r, i);
    }
    if FindPeer(db.peers, id) == Some(r) {
      var i := FoundIsFirst(db.peers, id);
      assert IsFirst(db.peers, id, r, i);
    }
  }

  lemma NamesIsEndHas(db: Db, e: End, q: int)
    ensures Names(db, e, q) <==> EndHas(db, e, q)
  {
  }

  /** The columns decide which policies concern a host, and in which sections and chains. */
  lemma ApplicabilityOnColumns(db: Db, pol: Policy, q: int)
    ensures Selected(db, pol, q) <==> Concerned(db, pol, q)
    ensures RunsIngress(db, pol, q) <==> TakesIn(db, pol, q)
    ensures RunsEgress(db, pol, q) <==> SendsOut(db, pol, q)
  {
    NamesIsEndHas(db, pol.source, q);
    NamesIsEndHas(db, pol.target, q);
    EndKinds(pol.source);
    EndKinds(pol.target);
  }

  lemma EndKinds(e: End)
    ensures IsMulticastEnd(e) <==> IsMulticast(e)
    ensures IsBroadcastEnd(e) <==> IsBroadcast(e)
    ensures IsInternetEnd(e) <==> IsInternet(e)
  {
  }

  lemma ScopeOnColumns(peer: Peer, pol: Policy, svc: Service)
    ensures var ctx := CtxOf(peer, pol, svc);
      ctx.ip == peer.ip && (ctx.host <==> OnHost(pol)) && (ctx.docker <==> OnDocker(pol, peer))
          && ctx.noConntrack == svc.noConntrack
  {
  }

  // ----- what an end resolves to -----

  /** The prefixes an end resolves to are the normal forms of its address texts. */
  ghost predicate ResolvesTo(db: Db, peer: Peer, e: End, nets: seq<Address>) {
    && (forall t :: Written(db, peer, e, t) ==> ValidGroupCidr(t))
    && (forall n :: n in nets <==> exists t :: Written(db, peer, e, t) && NormalizeToCidr(t) == n)
  }

  lemma PeerEndResolves(db: Db, peer: Peer, e: End)
    requires e.kind == PeerKind && ResolveEnd(db, e, peer.ip).Ok?
    ensures ResolvesTo(db, peer, e, ResolveEnd(db, e, peer.ip).value)
  {
    var nets := ResolveEnd(db, e, peer.ip).value;
    if e.pin != Empty {
      assert Written(db, peer, e, e.pin);
    } else {
      var r := FindPeer(db.peers, e.id).value;
      PeerRowIsFound(db, e.id, r);
      assert Written(db, peer, e, r.ip);
      forall s | IsPeerRow(db, e.id, s) ensures s == r { PeerRowIsFound(db, e.id, s); }
    }
  }

  lemma GroupEndResolves(db: Db, peer: Peer, e: End)
    requires e.kind == GroupKind && GroupNets(db, e.id).Ok?
    ensures ResolvesTo(db, peer, e, GroupNets(db, e.id).value)
  {
    var rows := GroupRows(db, e.id);
    NormalisedContents(rows);
    forall t ensures Written(db, peer, e, t) <==> t in rows { GroupTexts(db, peer, e, t); }
    forall n ensures n in GroupNets(db, e.id).value <==>
        exists t :: Written(db, peer, e, t) && NormalizeToCidr(t) == n {
      if n in GroupNets(db, e.id).value {
        var i :| 0 <= i < |rows| && NormalizeToCidr(rows[i]) == n;
        assert rows[i] in rows;
      }
      if t :| Written(db, peer, e, t) && NormalizeToCidr(t) == n {
        var i :| 0 <= i < |rows| && rows[i] == t;
      }
    }
    forall t | t in rows ensures ValidGroupCidr(t) {
      var i :| 0 <= i < |rows| && rows[i] == t;
    }
  }

  lemma GroupTexts(db: Db, peer: Peer, e: End, t: Address)
    requires e.kind == GroupKind
    ensures Written(db, peer, e, t) <==> t in GroupRows(db, e.id)
  {
    if Written(db, peer, e, t) {
      var r: Peer :| Names(db, e, r.id) && IsPeerRow(db, r.id, r) && r.ip == t;
      PeerRowIsFound(db, r.id, r);
      Backends.MemberIsListed(db.members, db.peers, e.id, r);
    }
    if t in GroupRows(db, e.id) {
      var r := Backends.ListedIsMember(db.members, db.peers, e.id, t);
      PeerRowIsFound(db, r.id, r);
      NamesIsEndHas(db, e, r.id);
    }
  }

  lemma {:induction false} AllPeersListed(peers: seq<Peer>, n: Address)
    requires AllPeerNets(peers).Ok?
    ensures forall r :: r in peers ==> ValidGroupCidr(r.ip)
    ensures n in AllPeerNets(peers).value <==> exists r :: r in peers && NormalizeToCidr(r.ip) == n
  {
    if peers != [] {
      AllPeersListed(peers[1..], n);
      assert peers == [peers[0]] + peers[1..];
    }
  }

  /** Every special target but the internet, address by address. */
  lemma SpecialEndResolves(db: Db, peer: Peer, e: End)
    requires e.kind == SpecialKind && !IsInternet(e) && ResolveSpecial(db, e.id, peer.ip).Ok?
    ensures ResolvesTo(db, peer, e, ResolveSpecial(db, e.id, peer.ip).value)
  {
    var nets := ResolveSpecial(db, e.id, peer.ip).value;
    if e.id == 7 {
      AllPeersTexts(db, peer, e);
    } else if e.id == 1 {
      SubnetText(db, peer, e);
    } else {
      FixedText(db, peer, e);
    }
  }

  lemma AllPeersTexts(db: Db, peer: Peer, e: End)
    requires e.kind == SpecialKind && e.id == 7 && AllPeerNets(db.peers).Ok?
    ensures ResolvesTo(db, peer, e, AllPeerNets(db.peers).value)
  {
    forall n ensures n in AllPeerNets(db.peers).value <==>
        exists t :: Written(db, peer, e, t) && NormalizeToCidr(t) == n {
      AllPeersListed(db.peers, n);
      if r :| r in db.peers && NormalizeToCidr(r.ip) == n { assert Written(db, peer, e, r.ip); }
    }
    AllPeersListed(db.peers, Empty);
  }

  lemma SubnetText(db: Db, peer: Peer, e: End)
    requires e.kind == SpecialKind && e.id == 1 && SubnetBroadcast(peer.ip).Ok?
    ensures ResolvesTo(db, peer, e, [SubnetBroadcast(peer.ip).value])
  {
    var x, len := peer.ip.addr, if peer.ip.Host4? then 24 else peer.ip.len;
    forall b: Addr ensures IsLast(peer.ip, b) <==> b == BroadcastOf(x, len) {
      LastIsBroadcast(x, len, b);
    }
    BroadcastInRange(x, len);
    assert Written(db, peer, e, Host4(BroadcastOf(x, len)));
  }

  function FixedAddress(id: int): Address {
    match id
    case 2 => Host4(0xFFFF_FFFF)
    case 3 => Host4(0xE000_0001)
    case 4 => Host4(0xE000_00FB)
    case 5 => Host4(0x7F00_0001)
    case 6 => Net4(0, 0)
    case 8 => Host4(0xE000_0016)
    case _ => Empty
  }

  lemma FixedText(db: Db, peer: Peer, e: End)
    requires e.kind == SpecialKind && e.id != 1 && e.id != 7 && e.id != 9 && ResolveSpecial(db, e.id, peer.ip).Ok?
    ensures ResolvesTo(db, peer, e, ResolveSpecial(db, e.id, peer.ip).value)
  {
    var t := FixedAddress(e.id);
    assert ResolveSpecial(db, e.id, peer.ip).value == [NormalizeToCidr(t)];
    assert forall u :: Written(db, peer, e, u) <==> u == t;
  }

  lemma EndResolvesTo(db: Db, peer: Peer, e: End)
    requires !IsInternet(e) && ResolveEnd(db, e, peer.ip).Ok?
    ensures ResolvesTo(db, peer, e, ResolveEnd(db, e, peer.ip).value)
  {
    match e.kind
    case PeerKind => PeerEndResolves(db, peer, e);
    case GroupKind => GroupEndResolves(db, peer, e);
    case SpecialKind => SpecialEndResolves(db, peer, e);
  }

  /** The compiler's view of an end is the end of the tables. */
  lemma BelongsIsEndHolds(db: Db, peer: Peer, e: End, a: Addr)
    requires if AsSet(db, peer, e) then GroupNets(db, e.id).Ok? else IsInternet(e) || ResolveEnd(db, e, peer.ip).Ok?
    requires AsSet(db, peer, e) || IsInternet(e) || peer.ip == Empty || ValidPeerCidr(peer.ip)
    ensures Belongs(db, peer, e, a) <==> EndHolds(db, peer, e, a)
  {
    EndKinds(e);
    if IsInternet(e) {
      PrivateIsPrivate(a);
    } else {
      if AsSet(db, peer, e) { GroupEndResolves(db, peer, e); } else { EndResolvesTo(db, peer, e); }
      var nets := if AsSet(db, peer, e) then GroupNets(db, e.id).value else ResolveEnd(db, e, peer.ip).value;
      forall t | Written(db, peer, e, t)
        ensures InPrefix(a, NormalizeToCidr(t)) <==> Spans(t, a)
        ensures AsSet(db, peer, e) || (IsSelf(peer, NormalizeToCidr(t)) <==> SameNet(t, peer.ip))
      {
        NormalSpans(t, a);
        if !AsSet(db, peer, e) && peer.ip != Empty { NormalSame(t, peer.ip); }
      }
      HoldsByTexts(db, peer, e, a, nets);
    }
  }

  lemma HoldsByTexts(db: Db, peer: Peer, e: End, a: Addr, nets: seq<Address>)
    requires ResolvesTo(db, peer, e, nets) && !IsInternet(e)
    requires forall t :: Written(db, peer, e, t) ==> (InPrefix(a, NormalizeToCidr(t)) <==> Spans(t, a))
    requires forall t :: Written(db, peer, e, t) ==>
      AsSet(db, peer, e) || (IsSelf(peer, NormalizeToCidr(t)) <==> SameNet(t, peer.ip))
    ensures EndHolds(db, peer, e, a) <==>
      exists n :: n in nets && InPrefix(a, n) && (AsSet(db, peer, e) || !IsSelf(peer, n))
  {
    if EndHolds(db, peer, e, a) {
      var t :| Written(db, peer, e, t) && Spans(t, a) && (ByName(db, peer, e) || !SameNet(t, peer.ip));
      assert NormalizeToCidr(t) in nets;
    }
    if n :| n in nets && InPrefix(a, n) && (AsSet(db, peer, e) || !IsSelf(peer, n)) {
      var t :| Written(db, peer, e, t) && NormalizeToCidr(t) == n;
    }
  }

  // ----- ordinary traffic -----

  lemma SwappedIsReverse(p: Packet)
    ensures Reverse(p) == Swapped(p)
  {
  }

  /** The end was written into rules, so what is needed to read it off the tables holds. */
  ghost predicate WasWritten(db: Db, peer: Peer, order: seq<int>, e: End) {
    && OrderCovers(db, order, e) && EndFor(db, peer, order, e).Ok?
    && FarTestsOf(EndFor(db, peer, order, e).value, peer.ip).Ok?
    && (AsSet(db, peer, e) ==> GroupNets(db, e.id).Ok?)
  }

  lemma WrittenEnd(db: Db, peer: Peer, order: seq<int>, e: End, a: Addr)
    requires WasWritten(db, peer, order, e)
    ensures Belongs(db, peer, e, a) <==> EndHolds(db, peer, e, a)
  {
    EndKinds(e);
    BelongsIsEndHolds(db, peer, e, a);
  }

  lemma InMeans(db: Db, peer: Peer, order: seq<int>, pol: Policy, svc: Service, chain: Chain, p: Packet)
    requires WasWritten(db, peer, order, pol.source)
    ensures CoversIngress(db, peer, pol, svc, chain, p) <==>
      TakesIn(db, pol, peer.id) && InScopeIn(db, peer, pol, svc, chain, p)
  {
    ApplicabilityOnColumns(db, pol, peer.id);
    ScopeOnColumns(peer, pol, svc);
    SwappedIsReverse(p);
    WrittenEnd(db, peer, order, pol.source, p.src);
    WrittenEnd(db, peer, order, pol.source, p.dst);
  }

  lemma OutMeans(db: Db, peer: Peer, order: seq<int>, pol: Policy, svc: Service, chain: Chain, p: Packet)
    requires WasWritten(db, peer, order, pol.target)
    requires IsMulticast(pol.target) ==> peer.ip == Empty || ValidPeerCidr(peer.ip)
    ensures CoversEgress(db, peer, pol, svc, chain, p) <==>
      SendsOut(db, pol, peer.id) && InScopeOut(db, peer, pol, svc, chain, p)
  {
    ApplicabilityOnColumns(db, pol, peer.id);
    ScopeOnColumns(peer, pol, svc);
    SwappedIsReverse(p);
    EndKinds(pol.target);
    WrittenEnd(db, peer, order, pol.target, p.src);
    WrittenEnd(db, peer, order, pol.target, p.dst);
    if IsMulticast(pol.target) && peer.ip != Empty { NormalSame(Net4(0, 0), peer.ip); }
  }

  // ----- sections -----

  lemma MulticastDecides(action: Action, ctx: Ctx, sets: seq<NamedSet>, chain: Chain, p: Packet)
    requires action != OtherAction
    ensures Eval(MulticastRules(action, ctx), sets, chain, p)
         == if ((chain == INPUT && ctx.host) || (chain == DOCKER_USER && ctx.docker)) && p.multicast
            then ActionVerdict(action) else Undecided
  {
    var host := if ctx.host then ActionRules(action, INPUT, [MulticastFrame]) else [];
    var docker := if ctx.docker then ActionRules(action, DOCKER_USER, [MulticastFrame]) else [];
    ActionDecides(action, INPUT, sets, chain, p);
    ActionDecides(action, DOCKER_USER, sets, chain, p);
    EvalConcat(host, docker, sets, chain, p);
  }

  lemma ActionDecides(action: Action, c: Chain, sets: seq<NamedSet>, chain: Chain, p: Packet)
    requires action != OtherAction
    ensures Eval(ActionRules(action, c, [MulticastFrame]), sets, chain, p)
         == if chain == c && p.multicast then ActionVerdict(action) else Undecided
  {
    SingleHolds(MulticastFrame, sets, p);
    if action == AcceptAction {
      var r := Rule(c, [MulticastFrame], ACCEPT);
      EvalCons(r, [], sets, chain, p);
      assert [r] + [] == [r];
    } else {
      DropRulesFire(action, c, [MulticastFrame], sets, chain, p);
      EvalOneTarget(DropRules(action, c, [MulticastFrame]), DROP, sets, chain, p);
    }
  }

  lemma BroadcastTexts(db: Db, peer: Peer, e: End, a: Addr)
    requires IsBroadcast(e) && ResolveSpecial(db, e.id, peer.ip).Ok?
    ensures InSome(a, ResolveSpecial(db, e.id, peer.ip).value) <==> exists t :: Written(db, peer, e, t) && Spans(t, a)
  {
    SpecialEndResolves(db, peer, e);
    var nets := ResolveSpecial(db, e.id, peer.ip).value;
    if n :| n in nets && InPrefix(a, n) {
      var t :| Written(db, peer, e, t) && NormalizeToCidr(t) == n;
      NormalSpans(t, a);
    }
    if t :| Written(db, peer, e, t) && Spans(t, a) {
      NormalSpans(t, a);
      assert NormalizeToCidr(t) in nets;
    }
  }

  lemma TargetWasWritten(db: Db, peer: Peer, order: seq<int>, sets: seq<NamedSet>, pol: Policy, svc: Service)
    requires SetsFaithful(db, peer, order, sets) && OrderCovers(db, order, pol.source)
    requires svc.role == Plain && ClausesOf(svc).Ok? && RunsIngress(db, pol, peer.id)
    requires !IsMulticastEnd(pol.source) && !IsBroadcastEnd(pol.source)
    requires TargetSection(db, peer, order, pol, svc, ClausesOf(svc).value).Ok?
    ensures WasWritten(db, peer, order, pol.source)
  {
    TargetSectionIsBlock(db, peer, order, pol, svc, ClausesOf(svc).value);
    if AsSet(db, peer, pol.source) { assert GroupSetMeans(db, sets, pol.source.id, 0); }
  }

  /** The ingress section gives the verdict the policy means for arriving traffic, for every service. */
  lemma IngressMeans(db: Db, peer: Peer, order: seq<int>, sets: seq<NamedSet>, pol: Policy, svc: Service,
                     chain: Chain, p: Packet)
    requires SetsFaithful(db, peer, order, sets) && OrderCovers(db, order, pol.source)
    requires pol.action != OtherAction && svc.role != IgmpRole && svc.role != VrrpRole && ClausesOf(svc).Ok?
    requires TargetSection(db, peer, order, pol, svc, ClausesOf(svc).value).Ok?
    ensures Eval(TargetSection(db, peer, order, pol, svc, ClausesOf(svc).value).value, sets, chain, p)
         == IngressVerdict(db, peer, pol, svc, chain, p)
  {
    var ctx, pcs := CtxOf(peer, pol, svc), ClausesOf(svc).value;
    ApplicabilityOnColumns(db, pol, peer.id);
    ScopeOnColumns(peer, pol, svc);
    EndKinds(pol.source);
    if TakesIn(db, pol, peer.id) {
      if IsBroadcast(pol.source) {
        Backends.BroadcastSourceAlwaysAccepts(db, peer, order, pol, svc, pcs, sets, chain, p);
        BroadcastTexts(db, peer, pol.source, p.dst);
      } else if IsMulticast(pol.source) || svc.role == MulticastRole {
        MulticastDecides(pol.action, ctx, sets, chain, p);
      } else if svc.role == Plain {
        TargetSectionCorrect(db, peer, order, sets, pol, svc, chain, p);
        TargetWasWritten(db, peer, order, sets, pol, svc);
        InMeans(db, peer, order, pol, svc, chain, p);
      }
    }
  }

  lemma MulticastEgressDecides(ctx: Ctx, sets: seq<NamedSet>, chain: Chain, p: Packet)
    ensures Eval(MulticastEgress(ctx), sets, chain, p)
         == if ((chain == OUTPUT && ctx.host) || (chain == DOCKER_USER && ctx.docker))
               && p.multicast && 0xE000_0000 <= p.dst <= 0xEFFF_FFFF
            then Accepted else Undecided
  {
    var net := Net4(Dotted(224, 0, 0, 0), 4);
    var ms := [Within(Dst, net), MulticastFrame];
    TwoHold(ms[0], ms[1], sets, p);
    ClassD(p.dst);
    var host := if ctx.host then [Rule(OUTPUT, ms, ACCEPT)] else [];
    var docker := if ctx.docker then [Rule(DOCKER_USER, ms, ACCEPT)] else [];
    EvalConcat(host, docker, sets, chain, p);
    EvalCons(Rule(OUTPUT, ms, ACCEPT), [], sets, chain, p);
    EvalCons(Rule(DOCKER_USER, ms, ACCEPT), [], sets, chain, p);
    assert forall r: Rule :: [r] + [] == [r];
  }

  lemma ClassD(a: Addr)
    ensures InPrefix(a, Net4(Dotted(224, 0, 0, 0), 4)) <==> 0xE000_0000 <= a <= 0xEFFF_FFFF
  {
    Pow2Values();
    Pow2Adds(4, 24);
    assert Pow2(4) == 16;
  }

  lemma SourceWasWritten(db: Db, peer: Peer, order: seq<int>, sets: seq<NamedSet>, pol: Policy, svc: Service)
    requires SetsFaithful(db, peer, order, sets) && OrderCovers(db, order, pol.target)
    requires svc.role == Plain && ClausesOf(svc).Ok? && RunsEgress(db, pol, peer.id)
    requires SourceSection(db, peer, order, pol, svc, ClausesOf(svc).value).Ok?
    ensures WasWritten(db, peer, order, pol.target)
    ensures IsMulticast(pol.target) ==> peer.ip == Empty || ValidPeerCidr(peer.ip)
  {
    EndKinds(pol.target);
    SourceSectionIsBlock(db, peer, order, pol, svc, ClausesOf(svc).value);
    if AsSet(db, peer, pol.target) { assert GroupSetMeans(db, sets, pol.target.id, 0); }
  }

  /** The egress section gives the verdict the policy means for leaving traffic, for every service. */
  lemma EgressMeans(db: Db, peer: Peer, order: seq<int>, sets: seq<NamedSet>, pol: Policy, svc: Service,
                    chain: Chain, p: Packet)
    requires SetsFaithful(db, peer, order, sets) && OrderCovers(db, order, pol.target)
    requires pol.action != OtherAction && svc.role != IgmpRole && svc.role != VrrpRole && ClausesOf(svc).Ok?
    requires SourceSection(db, peer, order, pol, svc, ClausesOf(svc).value).Ok?
    ensures Eval(SourceSection(db, peer, order, pol, svc, ClausesOf(svc).value).value, sets, chain, p)
         == EgressVerdict(db, peer, pol, svc, chain, p)
  {
    ApplicabilityOnColumns(db, pol, peer.id);
    ScopeOnColumns(peer, pol, svc);
    EndKinds(pol.target);
    if SendsOut(db, pol, peer.id) {
      if svc.role == MulticastRole {
        MulticastEgressDecides(CtxOf(peer, pol, svc), sets, chain, p);
      } else if svc.role == Plain {
        SourceSectionCorrect(db, peer, order, sets, pol, svc, chain, p);
        SourceWasWritten(db, peer, order, sets, pol, svc);
        OutMeans(db, peer, order, pol, svc, chain, p);
      }
    }
  }

  // ----- fixed services -----

  lemma FixedDecides(c: Chain, d: nat, proto: string, sets: seq<NamedSet>, chain: Chain, p: Packet)
    requires d < 256
    ensures Hits(FixedAccept(c, d, proto), sets, chain, p) <==> chain == c && At(p, Dotted(224, 0, 0, d), proto)
  {
    TwoHold(Within(Dst, Net4(Dotted(224, 0, 0, d), 32)), Proto(proto), sets, p);
    assert Pow2(0) == 1;
  }

  lemma IgmpDecides(peer: Peer, pol: Policy, svc: Service, sets: seq<NamedSet>, chain: Chain, p: Packet)
    requires OnHost(pol)
    ensures Eval(IgmpRules(CtxOf(peer, pol, svc)), sets, chain, p)
         == if IgmpAccepts(pol, peer, chain, p) then Accepted else Undecided
  {
    ScopeOnColumns(peer, pol, svc);
    var host := [FixedAccept(INPUT, 1, "igmp"), FixedAccept(OUTPUT, 22, "igmp")];
    var both := [FixedAccept(DOCKER_USER, 1, "igmp"), FixedAccept(DOCKER_USER, 22, "igmp")];
    FixedDecides(INPUT, 1, "igmp", sets, chain, p);
    FixedDecides(OUTPUT, 22, "igmp", sets, chain, p);
    FixedDecides(DOCKER_USER, 1, "igmp", sets, chain, p);
    FixedDecides(DOCKER_USER, 22, "igmp", sets, chain, p);
    EvalTwo(host[0], host[1], sets, chain, p);
    EvalTwo(both[0], both[1], sets, chain, p);
    EvalConcat(host, if OnDocker(pol, peer) then both else [], sets, chain, p);
  }

  lemma VrrpDecides(peer: Peer, pol: Policy, svc: Service, sets: seq<NamedSet>, chain: Chain, p: Packet)
    requires OnHost(pol)
    ensures Eval(VrrpRules(CtxOf(peer, pol, svc)), sets, chain, p)
         == if VrrpAccepts(pol, peer, chain, p) then Accepted else Undecided
  {
    ScopeOnColumns(peer, pol, svc);
    var host, docker := FixedAccept(OUTPUT, 18, "vrrp"), FixedAccept(DOCKER_USER, 18, "vrrp");
    FixedDecides(OUTPUT, 18, "vrrp", sets, chain, p);
    FixedDecides(DOCKER_USER, 18, "vrrp", sets, chain, p);
    EvalCons(host, [], sets, chain, p);
    EvalCons(docker, [], sets, chain, p);
    assert [host] + [] == [host] && [docker] + [] == [docker];
    EvalConcat([host], if OnDocker(pol, peer) then [docker] else [], sets, chain, p);
  }

  // ----- policies -----

  /** The rules of any policy give exactly the verdict the policy means. */
  lemma PolicyMeans(db: Db, peer: Peer, order: seq<int>, sets: seq<NamedSet>, pol: Policy, chain: Chain, p: Packet)
    requires SetsFaithful(db, peer, order, sets)
    requires OrderCovers(db, order, pol.source) && OrderCovers(db, order, pol.target)
    requires CompilePolicy(db, peer, order, pol).Ok?
    ensures Eval(CompilePolicy(db, peer, order, pol).value, sets, chain, p) == PolicyVerdict(db, peer, pol, chain, p)
  {
    var svc := LiveService(db, pol.service).value;
    ScopeOnColumns(peer, pol, svc);
    if svc.role == IgmpRole {
      if OnHost(pol) { IgmpDecides(peer, pol, svc, sets, chain, p); }
    } else if svc.role == VrrpRole {
      if OnHost(pol) { VrrpDecides(peer, pol, svc, sets, chain, p); }
    } else {
      var pcs := ClausesOf(svc).value;
      IngressMeans(db, peer, order, sets, pol, svc, chain, p);
      EgressMeans(db, peer, order, sets, pol, svc, chain, p);
      EvalConcat(TargetSection(db, peer, order, pol, svc, pcs).value,
          SourceSection(db, peer, order, pol, svc, pcs).value,
                 sets, chain, p);
    }
  }

  /** What the policies from index `k` on say: the verdict of the first that decides, or nothing. */
  ghost predicate SaidFrom(db: Db, peer: Peer, k: nat, chain: Chain, p: Packet, v: Verdict) {
    && (forall j: nat :: DecidesFirst(db, peer, k, j, chain, p) ==>
       v == PolicyVerdict(db, peer, db.policies[j], chain, p))
    && (NoneDecides(db, peer, k, chain, p) ==> v == Undecided)
  }

  lemma {:induction false} PoliciesMean(db: Db, peer: Peer, order: seq<int>, sets: seq<NamedSet>, k: nat,
                                        chain: Chain, p: Packet)
    requires k <= |db.policies| && SetsFaithful(db, peer, order, sets)
    requires forall pol :: pol in db.policies && Selected(db, pol, peer.id) ==>
      OrderCovers(db, order, pol.source) && OrderCovers(db, order, pol.target)
    requires CompilePolicies(db, peer, order, Applicable(db, db.policies[k..], peer.id)).Ok?
    ensures SaidFrom(db, peer, k, chain, p,
                     Eval(CompilePolicies(db, peer, order, Applicable(db, db.policies[k..], peer.id)).value, sets,
                         chain, p))
    decreases |db.policies| - k
  {
    if k < |db.policies| {
      var pol, rest := db.policies[k], db.policies[k + 1..];
      assert db.policies[k..][0] == pol && db.policies[k..][1..] == rest;
      ApplicabilityOnColumns(db, pol, peer.id);
      var later := Applicable(db, rest, peer.id);
      if Selected(db, pol, peer.id) {
        var all := [pol] + later;
        assert all[0] == pol && all[1..] == later && pol in db.policies;
        PolicyMeans(db, peer, order, sets, pol, chain, p);
        EvalConcat(CompilePolicy(db, peer, order, pol).value, CompilePolicies(db, peer, order, later).value, sets,
            chain, p);
      }
      PoliciesMean(db, peer, order, sets, k + 1, chain, p);
      SaidStep(db, peer, k, chain, p, Eval(CompilePolicies(db, peer, order, later).value, sets, chain, p));
    }
  }

  lemma SaidStep(db: Db, peer: Peer, k: nat, chain: Chain, p: Packet, v: Verdict)
    requires SaidFrom(db, peer, k + 1, chain, p, v) && k < |db.policies|
    ensures Decides(db, peer, k, chain, p) ==>
      SaidFrom(db, peer, k, chain, p, PolicyVerdict(db, peer, db.policies[k], chain, p))
    ensures !Decides(db, peer, k, chain, p) ==> SaidFrom(db, peer, k, chain, p, v)
  {
    if Decides(db, peer, k, chain, p) {
      FirstIsHere(db, peer, k, chain, p);
    } else {
      forall j: nat | DecidesFirst(db, peer, k, j, chain, p) ensures DecidesFirst(db, peer, k + 1, j, chain, p) {
        FirstIsLater(db, peer, k, j, chain, p);
      }
    }
  }

  lemma FirstIsHere(db: Db, peer: Peer, k: nat, chain: Chain, p: Packet)
    requires Decides(db, peer, k, chain, p)
    ensures !NoneDecides(db, peer, k, chain, p)
    ensures forall j: nat :: DecidesFirst(db, peer, k, j, chain, p) ==> j == k
  {
  }

  lemma FirstIsLater(db: Db, peer: Peer, k: nat, j: nat, chain: Chain, p: Packet)
    requires !Decides(db, peer, k, chain, p) && DecidesFirst(db, peer, k, j, chain, p)
    ensures DecidesFirst(db, peer, k + 1, j, chain, p)
  {
    assert j != k;
  }

  // ----- the bundle -----

  predicate EndIsGroup(e: End, g: int) { e.kind == GroupKind && e.id == g }

  /** A live group that some policy of the host mentions. */
  predicate Mentioned(db: Db, q: int, g: int) {
    && g in db.groups && !db.groups[g].deleted
    && exists pol :: (&& pol in db.policies && Concerned(db, pol, q)
                      && (EndIsGroup(pol.source, g) || EndIsGroup(pol.target, g)))
  }

  /** Different groups that the host's policies mention have different set names. */
  ghost predicate SetNamesDiffer(db: Db, q: int) {
    forall g, h :: Mentioned(db, q, g) && Mentioned(db, q, h) && g != h ==>
      SetName(db.groups[g].name) != SetName(db.groups[h].name)
  }

  lemma {:induction false} OrderIsMentioned(db: Db, pols: seq<Policy>, g: int) returns (pol: Policy)
    requires g in GroupOrder(db, pols)
    ensures pol in pols && (EndIsGroup(pol.source, g) || EndIsGroup(pol.target, g)) && Active(db, g)
  {
    var n := |pols| - 1;
    if g in GroupOrder(db, pols[..n]) { pol := OrderIsMentioned(db, pols[..n], g); } else { pol := pols[n]; }
  }

  lemma OrderedIsMentioned(db: Db, q: int, g: int)
    requires g in GroupOrder(db, Applicable(db, db.policies, q))
    ensures Mentioned(db, q, g)
  {
    var pol := OrderIsMentioned(db, Applicable(db, db.policies, q), g);
    ApplicabilityOnColumns(db, pol, q);
  }

  lemma NamesAreDistinct(db: Db, q: int)
    requires SetNamesDiffer(db, q)
    ensures DistinctSetNames(db, GroupOrder(db, Applicable(db, db.policies, q)))
  {
    var order := GroupOrder(db, Applicable(db, db.policies, q));
    GroupOrderCovers(db, Applicable(db, db.policies, q));
    forall i | 0 <= i < |order| ensures Mentioned(db, q, order[i]) { OrderedIsMentioned(db, q, order[i]); }
  }

  lemma ControlPortOnColumns(db: Db)
    ensures ControlPort(db) == ControlPlanePort(db) != ""
  {
  }

  /** The compiler on every packet, in every chain, for every policy list. The fixed rules decide first. Then
      the policy with the least index among those that are enabled, not deleted, name the host at an end and
      say something about the packet. Then the default. */
  lemma CompileMeansPolicies(db: Db, q: int, peer: Peer, chain: Chain, p: Packet)
    requires Compile(db, q).Ok? && SetNamesDiffer(db, q) && IsPeerRow(db, q, peer)
    ensures var b, std := Compile(db, q).value, StandardVerdict(peer.hasDocker, ControlPlanePort(db), chain, p);
      var v := Eval(b.rules, b.sets, chain, p);
      && (std != Undecided ==> v == std)
      && (std == Undecided ==>
          && (forall k: nat :: DecidesFirst(db, peer, 0, k, chain, p) ==>
             v == PolicyVerdict(db, peer, db.policies[k], chain, p))
          && (NoneDecides(db, peer, 0, chain, p) ==> v == DefaultVerdict(peer.hasDocker, chain)))
  {
    PeerRowIsFound(db, q, peer);
    var b, pols := Compile(db, q).value, Applicable(db, db.policies, q);
    var order := GroupOrder(db, pols);
    GroupOrderCovers(db, pols);
    NamesAreDistinct(db, q);
    DefinitionsAreFaithful(db, peer, order);
    var std, rest, def := StandardRules(peer.hasDocker, ControlPort(db)),
        CompilePolicies(db, peer, order, pols).value, DefaultRules(peer.hasDocker);
    assert db.policies[0..] == db.policies;
    PoliciesMean(db, peer, order, b.sets, 0, chain, p);
    ControlPortOnColumns(db);
    StandardRulesDecide(peer.hasDocker, ControlPort(db), b.sets, chain, p);
    DefaultRulesDecide(peer.hasDocker, b.sets, chain, p);
    EvalConcat(std, rest, b.sets, chain, p);
    EvalConcat(std + rest, def, b.sets, chain, p);
  }
}
