/** The whole preview of a policy against what the compiler emits for it, for every service and every kind of
    end: when the preview leaves out a compiled rule, and what else it shows. */
module PreviewCases {
  import opened Wrappers
  import opened PortText
  import opened Netfilter
  import opened Catalog
  import opened RuleBuilder
  import opened Bundle
  import opened PolicyMeaning
  import opened MeaningProofs
  import opened Preview

  /** `loadPreviewInputs`: unlike in the compiler, broadcast services keep their ports. */
  function PreviewClauses(svc: Service): Result<seq<PortClause>> {
    if svc.role == MulticastRole || svc.role == IgmpRole || svc.role == VrrpRole then Ok([])
    else ExpandPorts(svc.dports, svc.sports, svc.proto)
  }

  /** `PreviewCompile`: both ends must resolve before anything is shown. */
  function PreviewCompile(db: Db, peer: Peer, pol: Policy): Result<seq<Rule>> {
    if pol.action == OtherAction then Err(BadAction)
    else
      var svc :- LiveService(db, pol.service);
      var pcs :- PreviewClauses(svc);
      var _ :- ResolveEnd(db, pol.source, peer.ip);
      var _ :- ResolveEnd(db, pol.target, peer.ip);
      var hostForward :- PreviewForward(db, peer, pol, svc, pcs, false);
      var hostBackward :- PreviewBackward(db, peer, pol, svc, pcs, false);
      var dockerForward :- PreviewForward(db, peer, pol, svc, pcs, true);
      var dockerBackward :- PreviewBackward(db, peer, pol, svc, pcs, true);
      Ok(hostForward + hostBackward + dockerForward + dockerBackward)
  }

  ghost predicate Shown(db: Db, peer: Peer, pol: Policy, r: Rule) {
    PreviewCompile(db, peer, pol).Ok? && r in PreviewCompile(db, peer, pol).value
  }

  // ----- egress -----

  lemma ForwardShown(db: Db, peer: Peer, order: seq<int>, pol: Policy, svc: Service, pcs: seq<PortClause>, r: Rule)
    requires peer.hasDocker && peer.id != 0 && svc.role != IgmpRole && svc.role != VrrpRole
    requires !UsesSet(peer, order, pol.target) && RunsEgress(db, pol, peer.id)
    requires ClausesOf(svc).Ok? && PreviewClauses(svc) == Ok(pcs)
    requires SourceSection(db, peer, order, pol, svc, ClausesOf(svc).value).Ok?
    requires PreviewForward(db, peer, pol, svc, pcs, false).Ok? && PreviewForward(db, peer, pol, svc, pcs, true).Ok?
    requires r in SourceSection(db, peer, order, pol, svc, ClausesOf(svc).value).value
    ensures r in PreviewForward(db, peer, pol, svc, pcs, false).value
        || r in PreviewForward(db, peer, pol, svc, pcs, true).value
  {
    if svc.role == Plain { ForwardPreviewIsEgress(db, peer, order, pol, svc, pcs); }
  }

  // ----- ingress -----

  lemma {:induction false} BroadcastShown(nets: seq<Address>, proto: string, ctx: Ctx, host: Ctx, docker: Ctx, r: Rule)
    requires r in BroadcastAll(ctx, nets, proto)
    requires host.host && docker.docker
    ensures (ctx.host && r in BroadcastAll(host, nets, proto)) || (ctx.docker && r in BroadcastAll(docker, nets, proto))
  {
    if r !in BroadcastRules(ctx, nets[0], proto) { BroadcastShown(nets[1..], proto, ctx, host, docker, r); }
  }

  /** Where the backward passes leave compiled rules out: packets are taken in as multicast, and the preview
      shows them as ordinary traffic, as accepted, or not at all. */
  predicate LeavesOut(db: Db, pol: Policy, svc: Service, q: int) {
    && TakesIn(db, pol, q) && svc.role != IgmpRole && svc.role != VrrpRole
    && !IsBroadcast(pol.source) && (IsMulticast(pol.source) || svc.role == MulticastRole)
    && !(IsMulticast(pol.source) && svc.role == MulticastRole && pol.action == AcceptAction)
  }

  lemma BackwardShown(db: Db, peer: Peer, order: seq<int>, pol: Policy, svc: Service, pcs: seq<PortClause>, r: Rule)
    requires peer.hasDocker && svc.role != IgmpRole && svc.role != VrrpRole && !LeavesOut(db, pol, svc, peer.id)
    requires !UsesSet(peer, order, pol.source) && RunsIngress(db, pol, peer.id)
    requires ClausesOf(svc).Ok? && PreviewClauses(svc) == Ok(pcs)
    requires TargetSection(db, peer, order, pol, svc, ClausesOf(svc).value).Ok?
    requires PreviewBackward(db, peer, pol, svc, pcs, false).Ok? && PreviewBackward(db, peer, pol, svc, pcs, true).Ok?
    requires r in TargetSection(db, peer, order, pol, svc, ClausesOf(svc).value).value
    ensures r in PreviewBackward(db, peer, pol, svc, pcs, false).value
        || r in PreviewBackward(db, peer, pol, svc, pcs, true).value
  {
    ApplicabilityOnColumns(db, pol, peer.id);
    EndKinds(pol.source);
    if IsBroadcast(pol.source) {
      var nets := ResolveSpecial(db, pol.source.id, peer.ip).value;
      BroadcastShown(nets, svc.proto, CtxOf(peer, pol, svc), PassCtx(peer, svc, false), PassCtx(peer, svc, true), r);
    } else if svc.role == Plain && !IsMulticast(pol.source) {
      BackwardPreviewIsIngress(db, peer, order, pol, svc, pcs);
    }
  }

  // ----- rules that are never shown -----

  /** A rule that looks at nothing but the frame being multicast. */
  predicate Bare(r: Rule) { r.matches == [MulticastFrame] }

  predicate NoneBare(rules: seq<Rule>) { forall i :: 0 <= i < |rules| ==> !Bare(rules[i]) }

  lemma LineHasProto(f: Far, side: Side, proto: string, rest: seq<Match>)
    ensures Line(f, side, proto, rest) != [MulticastFrame]
  {
    assert Proto(proto) in Line(f, side, proto, rest);
    assert forall m :: m in [MulticastFrame] ==> m == MulticastFrame;
  }

  lemma NoneBareConcat(a: seq<Rule>, b: seq<Rule>)
    requires NoneBare(a) && NoneBare(b)
    ensures NoneBare(a + b)
  {
  }

  lemma MatchesNotBare(s: Section, f: Far, ctx: Ctx, pc: PortClause)
    ensures PrimaryMatches(s, f, ctx, pc) != [MulticastFrame] && ReplyMatches(s, f, ctx, pc) != [MulticastFrame]
    ensures DropMatches(s, f, pc) != [MulticastFrame]
  {
    LineHasProto(f, FarSide(s), pc.proto, PrimaryPorts(pc) + CtTests(ctx.noConntrack));
    LineHasProto(f, Flip(FarSide(s)), pc.proto, ReplyPorts(pc) + CtTests(ctx.noConntrack));
    LineHasProto(f, FarSide(s), pc.proto, PortTest(Dst, pc.dports));
  }

  lemma DropRulesNotBare(action: Action, chain: Chain, ms: seq<Match>)
    requires ms != [MulticastFrame]
    ensures NoneBare(DropRules(action, chain, ms))
  {
  }

  lemma OneFarNotBare(action: Action, s: Section, withReply: bool, f: Far, ctx: Ctx, pc: PortClause)
    ensures NoneBare(OneFar(s, withReply, f, ctx, pc)) && NoneBare([ReplyRule(s, f, ctx, pc)])
    ensures NoneBare(DropOne(action, s, f, ctx, pc))
  {
    MatchesNotBare(s, f, ctx, pc);
    var reply := if ctx.host && withReply then [ReplyRule(s, f, ctx, pc)] else [];
    NoneBareConcat(PrimaryRules(s, f, ctx, pc), reply);
    NoneBareConcat(PrimaryRules(s, f, ctx, pc) + reply, DockerRules(s, f, ctx, pc));
    var ms := DropMatches(s, f, pc);
    DropRulesNotBare(action, PrimaryChain(s), ms);
    DropRulesNotBare(action, DOCKER_USER, ms);
    NoneBareConcat(if ctx.host then DropRules(action, PrimaryChain(s), ms) else [],
                   if ctx.docker then DropRules(action, DOCKER_USER, ms) else []);
  }

  lemma {:induction false} PerFarNotBare(action: Action, s: Section, withReply: bool, far: seq<Far>, ctx: Ctx,
        pc: PortClause)
    ensures NoneBare(PerFar(s, withReply, far, ctx, pc)) && NoneBare(Replies(s, far, ctx, pc))
    ensures NoneBare(DropClause(action, s, far, ctx, pc))
  {
    if far != [] {
      var n := |far| - 1;
      PerFarNotBare(action, s, withReply, far[..n], ctx, pc);
      OneFarNotBare(action, s, withReply, far[n], ctx, pc);
    }
  }

  lemma {:induction false} BlockNotBare(action: Action, s: Section, end: FarEnd, far: seq<Far>, reply: seq<Far>,
        ctx: Ctx, pcs: seq<PortClause>)
    ensures NoneBare(Block(action, s, end, far, reply, ctx, pcs))
  {
    if pcs != [] {
      var n := |pcs| - 1;
      BlockNotBare(action, s, end, far, reply, ctx, pcs[..n]);
      PerFarNotBare(action, s, !RepliesLast(s, end), far, ctx, pcs[n]);
      PerFarNotBare(action, s, true, reply, ctx, pcs[n]);
    }
  }

  lemma WrittenNotBare(action: Action, s: Section, end: FarEnd, multicast: bool, ctx: Ctx, pcs: seq<PortClause>)
    requires WriteRules(action, s, end, multicast, ctx, pcs).Ok?
    ensures NoneBare(WriteRules(action, s, end, multicast, ctx, pcs).value)
  {
    if pcs != [] {
      var far, reply := FarTestsOf(end, ctx.ip).value, FarTestsOf(ReplyEnd(end, multicast, ctx), ctx.ip).value;
      BlockNotBare(action, s, end, far, reply, ctx, pcs);
    }
  }

  lemma ForwardNotBare(db: Db, peer: Peer, pol: Policy, svc: Service, pcs: seq<PortClause>, docker: bool)
    requires svc.role != IgmpRole && svc.role != VrrpRole && PreviewForward(db, peer, pol, svc, pcs, docker).Ok?
    ensures NoneBare(PreviewForward(db, peer, pol, svc, pcs, docker).value)
  {
    var ctx := PassCtx(peer, svc, docker);
    if !PassWanted(pol.scope, docker) || pol.direction == BackwardOnly {
    } else if svc.role == MulticastRole && IsMulticastEnd(pol.target) {
    } else if IsInternetEnd(pol.target) {
      var internet := if peer.id == 0 || peer.hasIpset then ByInternetSet else ByInternetPlain;
      WrittenNotBare(pol.action, Egress, internet, false, ctx, pcs);
    } else {
      var nets := ResolveEnd(db, pol.target, peer.ip).value;
      WrittenNotBare(pol.action, Egress, ByCidrs(nets), IsMulticastEnd(pol.target), ctx, pcs);
    }
  }

  /** The backward passes show such rules for multicast services from multicast sources only, and accept them. */
  lemma BackwardBareAccepts(db: Db, peer: Peer, pol: Policy, svc: Service, pcs: seq<PortClause>, docker: bool, r: Rule)
    requires PreviewBackward(db, peer, pol, svc, pcs, docker).Ok? && !IsBroadcastEnd(pol.source)
    requires r in PreviewBackward(db, peer, pol, svc, pcs, docker).value && Bare(r)
    ensures IsMulticastEnd(pol.source) && svc.role == MulticastRole && r.target == ACCEPT
  {
    if !(IsMulticastEnd(pol.source) && svc.role == MulticastRole) {
      var nets := ResolveEnd(db, pol.source, peer.ip).value;
      WrittenNotBare(pol.action, Ingress, ByCidrs(nets), false, PassCtx(peer, svc, docker), pcs);
    }
  }

  /** The compiled rule that such a preview does not show. */
  function Hidden(pol: Policy): Rule {
    Rule(if ToHost(pol.scope) then INPUT else DOCKER_USER, [MulticastFrame],
         if pol.action == AcceptAction then ACCEPT else DROP)
  }

  lemma HiddenIsCompiled(db: Db, peer: Peer, order: seq<int>, pol: Policy, svc: Service)
    requires LeavesOut(db, pol, svc, peer.id) && peer.hasDocker && ClausesOf(svc).Ok?
    requires TargetSection(db, peer, order, pol, svc, ClausesOf(svc).value).Ok?
    ensures Hidden(pol) in TargetSection(db, peer, order, pol, svc, ClausesOf(svc).value).value
  {
    ApplicabilityOnColumns(db, pol, peer.id);
    EndKinds(pol.source);
    var ctx := CtxOf(peer, pol, svc);
    var chain := Hidden(pol).chain;
    assert Hidden(pol) in ActionRules(pol.action, chain, [MulticastFrame]);
    assert Hidden(pol) in MulticastRules(pol.action, ctx);
  }

  lemma HiddenIsNotShown(db: Db, peer: Peer, pol: Policy, svc: Service)
    requires LeavesOut(db, pol, svc, peer.id) && LiveService(db, pol.service) == Ok(svc)
        && PreviewCompile(db, peer, pol).Ok?
    ensures !Shown(db, peer, pol, Hidden(pol))
  {
    EndKinds(pol.source);
    var pcs, r := PreviewClauses(svc).value, Hidden(pol);
    ForwardNotBare(db, peer, pol, svc, pcs, false);
    ForwardNotBare(db, peer, pol, svc, pcs, true);
    var host := PreviewBackward(db, peer, pol, svc, pcs, false).value;
    var docker := PreviewBackward(db, peer, pol, svc, pcs, true).value;
    if r in host { BackwardBareAccepts(db, peer, pol, svc, pcs, false, r); }
    if r in docker { BackwardBareAccepts(db, peer, pol, svc, pcs, true, r); }
  }

  // ----- the whole preview -----

  lemma CompiledIsShown(db: Db, peer: Peer, order: seq<int>, pol: Policy, svc: Service, r: Rule)
    requires peer.hasDocker && peer.id != 0 && LiveService(db, pol.service) == Ok(svc)
    requires CompilePolicy(db, peer, order, pol).Ok? && PreviewCompile(db, peer, pol).Ok?
    requires !UsesSet(peer, order, pol.source) && !UsesSet(peer, order, pol.target)
    requires !LeavesOut(db, pol, svc, peer.id) && r in CompilePolicy(db, peer, order, pol).value
    ensures Shown(db, peer, pol, r)
  {
    var pcs := PreviewClauses(svc).value;
    if svc.role != IgmpRole && svc.role != VrrpRole {
      var clauses := ClausesOf(svc).value;
      if RunsIngress(db, pol, peer.id) && r in TargetSection(db, peer, order, pol, svc, clauses).value {
        BackwardShown(db, peer, order, pol, svc, pcs, r);
      } else {
        ForwardShown(db, peer, order, pol, svc, pcs, r);
      }
    }
  }

  /** On a Docker host, for ends that are not written as sets, the preview of a policy contains every rule the
      compiler emits for it, except exactly when the host takes the policy's packets in as multicast and the
      service, the source and the action are not all three multicast, multicast and ACCEPT. */
  lemma PreviewOmitsNothingIff(db: Db, peer: Peer, order: seq<int>, pol: Policy, svc: Service)
    requires peer.hasDocker && peer.id != 0 && LiveService(db, pol.service) == Ok(svc)
    requires CompilePolicy(db, peer, order, pol).Ok? && PreviewCompile(db, peer, pol).Ok?
    requires !UsesSet(peer, order, pol.source) && !UsesSet(peer, order, pol.target)
    ensures (forall r :: r in CompilePolicy(db, peer, order, pol).value ==> Shown(db, peer, pol, r))
       <==> !LeavesOut(db, pol, svc, peer.id)
  {
    if LeavesOut(db, pol, svc, peer.id) {
      HiddenIsCompiled(db, peer, order, pol, svc);
      HiddenIsNotShown(db, peer, pol, svc);
    } else {
      forall r | r in CompilePolicy(db, peer, order, pol).value ensures Shown(db, peer, pol, r) {
        CompiledIsShown(db, peer, order, pol, svc, r);
      }
    }
  }

  /** For an ordinary service and source, on a host at both ends, it shows exactly those rules. */
  lemma PreviewIsCompile(db: Db, peer: Peer, order: seq<int>, pol: Policy, svc: Service, r: Rule)
    requires peer.hasDocker && peer.id != 0 && LiveService(db, pol.service) == Ok(svc) && svc.role == Plain
    requires CompilePolicy(db, peer, order, pol).Ok? && PreviewCompile(db, peer, pol).Ok?
    requires !UsesSet(peer, order, pol.source) && !UsesSet(peer, order, pol.target)
    requires pol.source.kind != SpecialKind && pol.target.kind != SpecialKind
    requires Names(db, pol.source, peer.id) && Names(db, pol.target, peer.id)
    ensures Shown(db, peer, pol, r) <==> r in CompilePolicy(db, peer, order, pol).value
  {
    NamesIsEndHas(db, pol.source, peer.id);
    NamesIsEndHas(db, pol.target, peer.id);
    var pcs := PreviewClauses(svc).value;
    if RunsEgress(db, pol, peer.id) { ForwardPreviewIsEgress(db, peer, order, pol, svc, pcs); }
    if RunsIngress(db, pol, peer.id) { BackwardPreviewIsIngress(db, peer, order, pol, svc, pcs); }
  }

  /** The fixed rules of an IGMP or VRRP service. */
  function Fixed(role: Role, ctx: Ctx): seq<Rule> { if role == IgmpRole then IgmpRules(ctx) else VrrpRules(ctx) }

  lemma FixedPreview(db: Db, peer: Peer, pol: Policy, svc: Service)
    requires LiveService(db, pol.service) == Ok(svc) && (svc.role == IgmpRole || svc.role == VrrpRole)
    requires PreviewCompile(db, peer, pol).Ok?
    ensures PreviewCompile(db, peer, pol).value
         == (if pol.scope != DockerScope then Fixed(svc.role, PassCtx(peer, svc, false)) else [])
            + if pol.scope != HostScope then Fixed(svc.role, PassCtx(peer, svc, true)) else []
  {
  }

  lemma FixedCompiled(db: Db, peer: Peer, order: seq<int>, pol: Policy, svc: Service)
    requires LiveService(db, pol.service) == Ok(svc) && (svc.role == IgmpRole || svc.role == VrrpRole)
    requires pol.action != OtherAction
    ensures CompilePolicy(db, peer, order, pol)
        == Ok(if OnHost(pol) then Fixed(svc.role, CtxOf(peer, pol, svc)) else [])
  {
  }

  lemma FixedSplits(role: Role, ip: Address, noConntrack: bool)
    requires role == IgmpRole || role == VrrpRole
    ensures Fixed(role, Ctx(ip, true, true, noConntrack))
         == Fixed(role, Ctx(ip, true, false, noConntrack)) + Fixed(role, Ctx(ip, false, true, noConntrack))
    ensures forall r :: r in Fixed(role, Ctx(ip, true, false, noConntrack)) ==> r.chain != DOCKER_USER
    ensures forall r :: r in Fixed(role, Ctx(ip, false, true, noConntrack)) ==> r.chain == DOCKER_USER
    ensures Fixed(role, Ctx(ip, false, true, noConntrack)) != []
  {
  }

  /** IGMP and VRRP: the preview shows in each chain that the scope names what the service accepts there, also
      where the compiler emits nothing because the scope names Docker alone. */
  lemma FixedServicesShown(db: Db, peer: Peer, order: seq<int>, pol: Policy, svc: Service, r: Rule)
    requires peer.hasDocker && LiveService(db, pol.service) == Ok(svc) && (svc.role == IgmpRole || svc.role == VrrpRole)
    requires PreviewCompile(db, peer, pol).Ok?
    ensures var both := CompilePolicy(db, peer, order, pol.(scope := BothScopes));
      && both.Ok? && (Shown(db, peer, pol, r) <==>
          r in both.value && (if r.chain == DOCKER_USER then pol.scope != HostScope else pol.scope != DockerScope))
    ensures CompilePolicy(db, peer, order, pol).Ok?
    ensures pol.scope == DockerScope ==>
      CompilePolicy(db, peer, order, pol).value == [] && PreviewCompile(db, peer, pol).value != []
  {
    FixedPreview(db, peer, pol, svc);
    FixedCompiled(db, peer, order, pol, svc);
    FixedCompiled(db, peer, order, pol.(scope := BothScopes), svc);
    FixedSplits(svc.role, peer.ip, svc.noConntrack);
  }

  /** A service with the reserved name of a broadcast service is previewed as an ordinary one with its ports,
      where the compiler emits nothing. */
  lemma BroadcastServiceShownAsPlain(db: Db, peer: Peer, pol: Policy, svc: Service, docker: bool)
    requires svc.role == BroadcastRole && PreviewClauses(svc).Ok?
    ensures var pcs, plain := PreviewClauses(svc).value, svc.(role := Plain);
      && ClausesOf(plain) == Ok(pcs)
      && PreviewForward(db, peer, pol, svc, pcs, docker) == PreviewForward(db, peer, pol, plain, pcs, docker)
      && PreviewBackward(db, peer, pol, svc, pcs, docker) == PreviewBackward(db, peer, pol, plain, pcs, docker)
  {
  }

  lemma BroadcastServiceCompilesToNothing(db: Db, peer: Peer, order: seq<int>, pol: Policy, svc: Service)
    requires LiveService(db, pol.service) == Ok(svc) && svc.role == BroadcastRole && pol.source.kind != SpecialKind
    requires CompilePolicy(db, peer, order, pol).Ok?
    ensures CompilePolicy(db, peer, order, pol).value == []
  {
  }

  /** A direction or scope that leaves a section out leaves it out of the preview. */
  lemma SectionsLeftOut(db: Db, peer: Peer, pol: Policy, svc: Service, pcs: seq<PortClause>, docker: bool)
    ensures pol.direction == BackwardOnly && svc.role != IgmpRole && svc.role != VrrpRole ==>
      PreviewForward(db, peer, pol, svc, pcs, docker) == Ok([])
    ensures pol.direction == ForwardOnly ==> PreviewBackward(db, peer, pol, svc, pcs, docker) == Ok([])
    ensures (if docker then pol.scope == HostScope else pol.scope == DockerScope) ==>
      PreviewForward(db, peer, pol, svc, pcs, docker) == PreviewBackward(db, peer, pol, svc, pcs, docker) == Ok([])
  {
  }
}
