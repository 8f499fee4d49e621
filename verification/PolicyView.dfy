/** What a policy says about a packet in the compiler's own terms: resolved address lists, applicability
    and scope flags. `MeaningProofs` shows that it is the policy's meaning on the columns of the tables. */
module PolicyView {
  import opened Netfilter
  import opened Catalog
  import opened RuleBuilder
  import opened Bundle
  import opened PolicyMeaning

  // ----- ends -----

  predicate IsPrivate(a: Addr) { InSome(a, PRIVATE_RANGES) }

  /** The host's own prefix, which the prefix form leaves out of the far end. */
  predicate IsSelf(peer: Peer, n: Address) { peer.ip != Empty && n == NormalizeToCidr(peer.ip) }

  /** Whether the host writes the end as a named set. */
  predicate AsSet(db: Db, peer: Peer, e: End) { peer.hasIpset && e.kind == GroupKind && Active(db, e.id) }

  /** Whether address `a` belongs to the end `e`, as seen from `peer`. */
  predicate Belongs(db: Db, peer: Peer, e: End, a: Addr) {
    if AsSet(db, peer, e) then GroupNets(db, e.id).Ok? && InSome(a, GroupNets(db, e.id).value)
    else if IsInternetEnd(e) then !IsPrivate(a)
    else
      var nets := ResolveEnd(db, e, peer.ip);
      nets.Ok? && exists n :: n in nets.value && !IsSelf(peer, n) && InPrefix(a, n)
  }

  /** Whether replies from address `a` are expected when sending to `e`. */
  predicate Answers(db: Db, peer: Peer, e: End, svc: Service, a: Addr) {
    if IsMulticastEnd(e) then !svc.noConntrack && !IsSelf(peer, ANYWHERE) else Belongs(db, peer, e, a)
  }

  /** Replies to egress are let in by the host chain when the scope names the host; towards ends
      written as prefixes they are let in whatever the scope. */
  predicate LetsRepliesIn(db: Db, peer: Peer, pol: Policy) {
    ToHost(pol.scope) || (!AsSet(db, peer, pol.target) && !IsInternetEnd(pol.target))
  }

  // ----- policies -----

  predicate CoversIngress(db: Db, peer: Peer, pol: Policy, svc: Service, chain: Chain, p: Packet) {
    && RunsIngress(db, pol, peer.id)
    && match chain
       case INPUT => ToHost(pol.scope) && Belongs(db, peer, pol.source, p.src) && Concerns(pol, svc, p)
       case OUTPUT => pol.action == AcceptAction && ToHost(pol.scope) && Belongs(db, peer, pol.source, p.dst)
           && Serves(svc, Reverse(p))
       case DOCKER_USER =>
         ToDocker(pol.scope, peer.hasDocker) && Belongs(db, peer, pol.source, p.src) && Concerns(pol, svc, p)
  }

  predicate CoversEgress(db: Db, peer: Peer, pol: Policy, svc: Service, chain: Chain, p: Packet) {
    && RunsEgress(db, pol, peer.id)
    && match chain
       case OUTPUT => ToHost(pol.scope) && Belongs(db, peer, pol.target, p.dst) && Concerns(pol, svc, p)
       case INPUT => pol.action == AcceptAction && LetsRepliesIn(db, peer, pol)
           && Answers(db, peer, pol.target, svc, p.src) && Serves(svc, Reverse(p))
       case DOCKER_USER =>
         ToDocker(pol.scope, peer.hasDocker) && Belongs(db, peer, pol.target, p.dst) && Concerns(pol, svc, p)
  }

  predicate Concerns(pol: Policy, svc: Service, p: Packet) {
    if pol.action == AcceptAction then Serves(svc, p) else Refuses(svc, p)
  }

  /** The policy decides the packet in this chain of this host. */
  predicate PolicyCovers(db: Db, peer: Peer, pol: Policy, chain: Chain, p: Packet) {
    var svc := LiveService(db, pol.service);
    svc.Ok? && (CoversIngress(db, peer, pol, svc.value, chain, p) || CoversEgress(db, peer, pol, svc.value, chain, p))
  }

  /** The action of the first policy that covers the packet. */
  function FirstPolicy(db: Db, peer: Peer, pols: seq<Policy>, chain: Chain, p: Packet): Verdict {
    if pols == [] then Undecided
    else if PolicyCovers(db, peer, pols[0], chain, p) then ActionVerdict(pols[0].action)
    else FirstPolicy(db, peer, pols[1..], chain, p)
  }

  /** Services and sources whose rules ignore the action or the ports are not ordinary. */
  predicate Ordinary(db: Db, pol: Policy) {
    && (LiveService(db, pol.service).Ok? ==> LiveService(db, pol.service).value.role == Plain)
    && !IsMulticastEnd(pol.source) && !IsBroadcastEnd(pol.source)
  }
}
