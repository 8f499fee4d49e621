/** What a policy means, read off the columns of the tables: nothing here calls the resolvers, the
    applicability query or the rule builders. */
module PolicyMeaning {
  import opened PortText
  import opened Netfilter
  import opened Catalog

  // ----- services -----

  predicate NoPortProto(proto: string) { proto == "icmp" || proto == "igmp" }

  predicate ProtoAdmits(svc: Service, p: Packet) {
    if svc.proto == "both" then p.proto == "tcp" || p.proto == "udp" else p.proto == svc.proto
  }

  predicate PortAdmits(list: string, port: nat) { list == "" || Covers(list, port) }

  /** The packet opens or continues a conversation the service allows. */
  predicate Serves(svc: Service, p: Packet) {
    && ProtoAdmits(svc, p)
    && (NoPortProto(svc.proto) || (PortAdmits(svc.dports, p.dport) && PortAdmits(svc.sports, p.sport)))
    && (svc.noConntrack || p.ct == NEW || p.ct == ESTABLISHED)
  }

  /** Refusals look at the protocol and the destination port only. */
  predicate Refuses(svc: Service, p: Packet) {
    && ProtoAdmits(svc, p)
    && (NoPortProto(svc.proto) || PortAdmits(svc.dports, p.dport))
  }

  // ----- addresses -----

  /** The address text stands for `a`. */
  predicate Spans(t: Address, a: Addr) {
    match t
    case Host4(x) => a == x
    case Net4(x, len) => len <= 32 && a / Pow2(32 - len) == x / Pow2(32 - len)
    case _ => false
  }

  /** Two texts for the same host or network. */
  predicate SameNet(t: Address, u: Address) {
    || t == u
    || (t.Host4? && u == Net4(t.addr, 32)) || (u.Host4? && t == Net4(u.addr, 32))
    || (t.Host6? && u == Net6(t.addr6, 128)) || (u.Host6? && t == Net6(u.addr6, 128))
  }

  ghost predicate IsLastOf(net: Address, b: Addr) { Spans(net, b) && forall c: Addr :: Spans(net, c) ==> c <= b }

  /** The last address of the network around `t`; a bare address is taken as its /24. */
  ghost predicate IsLast(t: Address, b: Addr) {
    (t.Host4? && IsLastOf(Net4(t.addr, 24), b)) || (t.Net4? && IsLastOf(t, b))
  }

  /** Section 3 of RFC 1918 and the loopback network. */
  predicate Private(a: Addr) {
    || 0x0A00_0000 <= a <= 0x0AFF_FFFF || 0xAC10_0000 <= a <= 0xAC1F_FFFF
    || 0xC0A8_0000 <= a <= 0xC0A8_FFFF || 0x7F00_0000 <= a <= 0x7FFF_FFFF
  }

  // ----- ends -----

  /** `r` is the row of the peer with this id. */
  predicate IsPeerRow(db: Db, id: int, r: Peer) {
    exists i :: 0 <= i < |db.peers| && db.peers[i] == r && r.id == id && forall j :: 0 <= j < i ==> db.peers[j].id != id
  }

  predicate LiveGroup(db: Db, g: int) { g in db.groups && !db.groups[g].deleted }

  /** The end is the peer, or a live group that lists it. */
  predicate Names(db: Db, e: End, q: int) {
    match e.kind
    case PeerKind => e.id == q
    case GroupKind => LiveGroup(db, e.id) && exists i :: 0 <= i < |db.members| && db.members[i] == Member(e.id, q)
    case SpecialKind => false
  }

  /** Special targets 3, 4 and 8 are multicast groups, 1 and 2 are broadcast addresses, 9 is the internet. */
  predicate IsMulticast(e: End) { e.kind == SpecialKind && (e.id == 3 || e.id == 4 || e.id == 8) }

  predicate IsBroadcast(e: End) { e.kind == SpecialKind && (e.id == 1 || e.id == 2) }

  predicate IsInternet(e: End) { e.kind == SpecialKind && e.id == 9 }

  /** `t` is an address text that stands for the end, as host `peer` sees it. */
  ghost predicate Written(db: Db, peer: Peer, e: End, t: Address) {
    match e.kind
    case PeerKind => if e.pin != Empty then t == e.pin else exists r :: IsPeerRow(db, e.id, r) && r.ip == t
    case GroupKind => exists r: Peer :: Names(db, e, r.id) && IsPeerRow(db, r.id, r) && r.ip == t
    case SpecialKind =>
      || (e.id == 1 && t.Host4? && IsLast(peer.ip, t.addr))
      || (e.id == 2 && t == Host4(0xFFFF_FFFF))
      || (e.id == 3 && t == Host4(0xE000_0001))
      || (e.id == 4 && t == Host4(0xE000_00FB))
      || (e.id == 5 && t == Host4(0x7F00_0001))
      || (e.id == 6 && t == Net4(0, 0))
      || (e.id == 7 && exists r :: r in db.peers && r.ip == t)
      || (e.id == 8 && t == Host4(0xE000_0016))
  }

  /** On hosts with ipset a live group is written as a named set. */
  predicate ByName(db: Db, peer: Peer, e: End) { peer.hasIpset && e.kind == GroupKind && LiveGroup(db, e.id) }

  /** Address `a` is at the end, as host `peer` sees it; written as prefixes, its own is left out. */
  ghost predicate EndHolds(db: Db, peer: Peer, e: End, a: Addr) {
    if IsInternet(e) then !Private(a)
    else exists t :: Written(db, peer, e, t) && Spans(t, a) && (ByName(db, peer, e) || !SameNet(t, peer.ip))
  }

  // ----- which policies concern which host, and how -----

  predicate Concerned(db: Db, pol: Policy, q: int) {
    pol.enabled && !pol.deleted && (Names(db, pol.source, q) || Names(db, pol.target, q))
  }

  /** The host is where the policy's traffic arrives. */
  predicate TakesIn(db: Db, pol: Policy, q: int) {
    && (Names(db, pol.target, q) || (pol.target.kind == SpecialKind && Names(db, pol.source, q)))
    && pol.direction != ForwardOnly && !IsMulticast(pol.target) && !IsBroadcast(pol.target)
  }

  /** The host is where it comes from. */
  predicate SendsOut(db: Db, pol: Policy, q: int) {
    && (|| Names(db, pol.source, q)
        || (&& pol.source.kind == SpecialKind && !IsMulticast(pol.source) && !IsBroadcast(pol.source)
            && Names(db, pol.target, q)))
    && pol.direction != BackwardOnly
  }

  predicate OnHost(pol: Policy) { pol.scope == HostScope || pol.scope == BothScopes }

  predicate OnDocker(pol: Policy, peer: Peer) {
    peer.hasDocker && (pol.scope == DockerScope || pol.scope == BothScopes)
  }

  /** The chain in which arriving, or leaving, packets are looked at is in scope. */
  predicate Open(pol: Policy, peer: Peer, first: Chain, chain: Chain) {
    (chain == first && OnHost(pol)) || (chain == DOCKER_USER && OnDocker(pol, peer))
  }

  function ActionVerdict(a: Action): Verdict { if a == AcceptAction then Accepted else Dropped }

  // ----- ordinary traffic -----

  function Swapped(p: Packet): Packet { p.(src := p.dst, dst := p.src, sport := p.dport, dport := p.sport) }

  predicate Asks(pol: Policy, svc: Service, p: Packet) {
    if pol.action == AcceptAction then Serves(svc, p) else Refuses(svc, p)
  }

  /** Arriving packets from the source, and, for ACCEPT, the replies to them. */
  ghost predicate InScopeIn(db: Db, peer: Peer, pol: Policy, svc: Service, chain: Chain, p: Packet) {
    || (Open(pol, peer, INPUT, chain) && EndHolds(db, peer, pol.source, p.src) && Asks(pol, svc, p))
    || (&& chain == OUTPUT && OnHost(pol) && pol.action == AcceptAction
        && EndHolds(db, peer, pol.source, p.dst) && Serves(svc, Swapped(p)))
  }

  /** Replies are expected from the end; for multicast targets from anyone, if connections are tracked. */
  ghost predicate Expected(db: Db, peer: Peer, e: End, svc: Service, a: Addr) {
    if IsMulticast(e) then !svc.noConntrack && !SameNet(Net4(0, 0), peer.ip) else EndHolds(db, peer, e, a)
  }

  /** Leaving packets to the target, and, for ACCEPT, the replies; towards ends written as prefixes these are
      let in whatever the scope. */
  ghost predicate InScopeOut(db: Db, peer: Peer, pol: Policy, svc: Service, chain: Chain, p: Packet) {
    || (Open(pol, peer, OUTPUT, chain) && EndHolds(db, peer, pol.target, p.dst) && Asks(pol, svc, p))
    || (&& chain == INPUT && pol.action == AcceptAction
        && (OnHost(pol) || (!ByName(db, peer, pol.target) && !IsInternet(pol.target)))
        && Expected(db, peer, pol.target, svc, p.src) && Serves(svc, Swapped(p)))
  }

  // ----- verdicts -----

  predicate At(p: Packet, dst: Addr, proto: string) { p.dst == dst && p.proto == proto }

  ghost function IngressVerdict(db: Db, peer: Peer, pol: Policy, svc: Service, chain: Chain, p: Packet): Verdict {
    if !TakesIn(db, pol, peer.id) then Undecided
    else if IsBroadcast(pol.source) then
      // the action is not consulted
      var proto := if svc.proto == "" || svc.proto == "both" then "udp" else svc.proto;
      if Open(pol, peer, INPUT, chain) && p.proto == proto
          && (exists t :: Written(db, peer, pol.source, t) && Spans(t, p.dst))
      then Accepted else Undecided
    else if IsMulticast(pol.source) || svc.role == MulticastRole then
      (if Open(pol, peer, INPUT, chain) && p.multicast then ActionVerdict(pol.action) else Undecided)
    else if svc.role == Plain && InScopeIn(db, peer, pol, svc, chain, p) then ActionVerdict(pol.action)
    else Undecided
  }

  ghost function EgressVerdict(db: Db, peer: Peer, pol: Policy, svc: Service, chain: Chain, p: Packet): Verdict {
    if !SendsOut(db, pol, peer.id) then Undecided
    else if svc.role == MulticastRole then
      (if && IsMulticast(pol.target) && pol.action == AcceptAction && Open(pol, peer, OUTPUT, chain)
          && p.multicast && 0xE000_0000 <= p.dst <= 0xEFFF_FFFF
       then Accepted else Undecided)
    else if svc.role == Plain && InScopeOut(db, peer, pol, svc, chain, p) then ActionVerdict(pol.action)
    else Undecided
  }

  /** IGMP and VRRP accept their own traffic whatever the action and the ends, if the scope names the host. */
  predicate IgmpAccepts(pol: Policy, peer: Peer, chain: Chain, p: Packet) {
    && OnHost(pol)
    && match chain
       case INPUT => At(p, 0xE000_0001, "igmp")
       case OUTPUT => At(p, 0xE000_0016, "igmp")
       case DOCKER_USER => OnDocker(pol, peer) && (At(p, 0xE000_0001, "igmp") || At(p, 0xE000_0016, "igmp"))
  }

  predicate VrrpAccepts(pol: Policy, peer: Peer, chain: Chain, p: Packet) {
    OnHost(pol) && At(p, 0xE000_0012, "vrrp") && (chain == OUTPUT || (chain == DOCKER_USER && OnDocker(pol, peer)))
  }

  /** What the policy says about the packet in this chain of this host. */
  ghost function PolicyVerdict(db: Db, peer: Peer, pol: Policy, chain: Chain, p: Packet): Verdict {
    if pol.service !in db.services then Undecided
    else
      var svc := db.services[pol.service];
      if svc.role == IgmpRole then (if IgmpAccepts(pol, peer, chain, p) then Accepted else Undecided)
      else if svc.role == VrrpRole then (if VrrpAccepts(pol, peer, chain, p) then Accepted else Undecided)
      else
        var v := IngressVerdict(db, peer, pol, svc, chain, p);
        if v != Undecided then v else EgressVerdict(db, peer, pol, svc, chain, p)
  }

  /** The policy at index `k` decides the packet on host `peer`. */
  ghost predicate Decides(db: Db, peer: Peer, k: nat, chain: Chain, p: Packet) {
    && k < |db.policies| && Concerned(db, db.policies[k], peer.id)
    && PolicyVerdict(db, peer, db.policies[k], chain, p) != Undecided
  }

  /** It is the first from index `k` on to do so. */
  ghost predicate DecidesFirst(db: Db, peer: Peer, k: nat, j: nat, chain: Chain, p: Packet) {
    k <= j && Decides(db, peer, j, chain, p) && forall i: nat :: k <= i < j ==> !Decides(db, peer, i, chain, p)
  }

  ghost predicate NoneDecides(db: Db, peer: Peer, k: nat, chain: Chain, p: Packet) {
    forall j: nat :: k <= j ==> !Decides(db, peer, j, chain, p)
  }

  // ----- fixed rules -----

  /** Where the hosts reach the control plane. */
  function ControlPlanePort(db: Db): string { if db.controlPort != "" then db.controlPort else "60443" }

  /** What no policy can change. */
  function StandardVerdict(docker: bool, port: string, chain: Chain, p: Packet): Verdict {
    if chain == DOCKER_USER && !docker then Undecided
    else if chain != DOCKER_USER && p.loopback then Accepted
    else if p.proto == "icmp" && p.ct == RELATED then Accepted
    else if p.ct == INVALID then Dropped
    else if chain != DOCKER_USER && p.proto == "tcp"
            && ((Covers(port, p.dport) && (p.ct == NEW || p.ct == ESTABLISHED))
               || (Covers(port, p.sport) && p.ct == ESTABLISHED))
    then Accepted
    else Undecided
  }

  function DefaultVerdict(docker: bool, chain: Chain): Verdict {
    if chain != DOCKER_USER then Dropped else if docker then Returned else Undecided
  }
}
