/** The policy preview renders host and Docker chains in separate passes; on a Docker host it
    shows exactly the rules the compiler emits in one pass. */
module Preview {
  import opened Wrappers
  import opened PortText
  import opened Netfilter
  import opened Catalog
  import opened RuleBuilder
  import opened Bundle
  import opened CompilerProofs
  import opened Backends

  /** One pass: host chains or DOCKER-USER. */
  function PassCtx(peer: Peer, svc: Service, docker: bool): Ctx { Ctx(peer.ip, !docker, docker, svc.noConntrack) }

  predicate PassWanted(scope: Scope, docker: bool) { if docker then scope != HostScope else scope != DockerScope }

  /** `previewForward` */
  function PreviewForward(db: Db, peer: Peer, pol: Policy, svc: Service, pcs: seq<PortClause>,
        docker: bool): Result<seq<Rule>> {
    var ctx := PassCtx(peer, svc, docker);
    if !PassWanted(pol.scope, docker) then Ok([])
    else if svc.role == IgmpRole then Ok(IgmpRules(ctx))
    else if svc.role == VrrpRole then Ok(VrrpRules(ctx))
    else if pol.direction == BackwardOnly then Ok([])
    else if svc.role == MulticastRole && IsMulticastEnd(pol.target) then Ok(MulticastEgress(ctx))
    else if IsInternetEnd(pol.target) then
      var _ :- CheckInternetPeer(peer);
      var end := if peer.id == 0 || peer.hasIpset then ByInternetSet else ByInternetPlain;
      WriteRules(pol.action, Egress, end, false, ctx, pcs)
    else
      var nets :- ResolveEnd(db, pol.target, peer.ip);
      WriteRules(pol.action, Egress, ByCidrs(nets), IsMulticastEnd(pol.target), ctx, pcs)
  }

  /** `previewBackward` */
  function PreviewBackward(db: Db, peer: Peer, pol: Policy, svc: Service, pcs: seq<PortClause>,
        docker: bool): Result<seq<Rule>> {
    var ctx := PassCtx(peer, svc, docker);
    if !PassWanted(pol.scope, docker) || svc.role == IgmpRole || svc.role == VrrpRole then Ok([])
    else if pol.direction == ForwardOnly then Ok([])
    else if IsInternetEnd(pol.source) then Err(IngressFromInternet)
    else
      var nets :- ResolveEnd(db, pol.source, peer.ip);
      if IsMulticastEnd(pol.source) && svc.role == MulticastRole then Ok(MulticastRules(AcceptAction, ctx))
      else if IsBroadcastEnd(pol.source) then
        (if HasMarker(nets) then Err(IngressFromInternet) else Ok(BroadcastAll(ctx, nets, svc.proto)))
      else WriteRules(pol.action, Ingress, ByCidrs(nets), false, ctx, pcs)
  }

  // ----- splitting a block by scope -----

  ghost predicate SplitInto(whole: seq<Rule>, a: seq<Rule>, b: seq<Rule>) {
    forall r :: r in whole <==> r in a || r in b
  }

  lemma SplitConcat(w1: seq<Rule>, a1: seq<Rule>, b1: seq<Rule>, w2: seq<Rule>, a2: seq<Rule>, b2: seq<Rule>)
    requires SplitInto(w1, a1, b1) && SplitInto(w2, a2, b2)
    ensures SplitInto(w1 + w2, a1 + a2, b1 + b2)
  {
  }

  function HostPart(ctx: Ctx): Ctx { ctx.(docker := false) }

  function DockerPart(ctx: Ctx): Ctx { ctx.(host := false) }

  lemma OneFarSplits(action: Action, s: Section, withReply: bool, f: Far, ctx: Ctx, pc: PortClause)
    ensures SplitInto(OneFar(s, withReply, f, ctx, pc), OneFar(s, withReply, f, HostPart(ctx), pc),
        OneFar(s, withReply, f, DockerPart(ctx), pc))
    ensures SplitInto(DropOne(action, s, f, ctx, pc), DropOne(action, s, f, HostPart(ctx), pc),
        DropOne(action, s, f, DockerPart(ctx), pc))
  {
  }

  lemma {:induction false} PerFarSplits(action: Action, s: Section, withReply: bool, far: seq<Far>, ctx: Ctx,
        pc: PortClause)
    ensures SplitInto(PerFar(s, withReply, far, ctx, pc), PerFar(s, withReply, far, HostPart(ctx), pc),
        PerFar(s, withReply, far, DockerPart(ctx), pc))
    ensures SplitInto(DropClause(action, s, far, ctx, pc), DropClause(action, s, far, HostPart(ctx), pc),
        DropClause(action, s, far, DockerPart(ctx), pc))
  {
    if far != [] {
      var n := |far| - 1;
      var pre, f := far[..n], far[n];
      PerFarSplits(action, s, withReply, pre, ctx, pc);
      OneFarSplits(action, s, withReply, f, ctx, pc);
      SplitConcat(PerFar(s, withReply, pre, ctx, pc), PerFar(s, withReply, pre, HostPart(ctx), pc),
          PerFar(s, withReply, pre, DockerPart(ctx), pc),
                  OneFar(s, withReply, f, ctx, pc), OneFar(s, withReply, f, HostPart(ctx), pc),
                      OneFar(s, withReply, f, DockerPart(ctx), pc));
      SplitConcat(DropClause(action, s, pre, ctx, pc), DropClause(action, s, pre, HostPart(ctx), pc),
          DropClause(action, s, pre, DockerPart(ctx), pc),
                  DropOne(action, s, f, ctx, pc), DropOne(action, s, f, HostPart(ctx), pc),
                      DropOne(action, s, f, DockerPart(ctx), pc));
    }
  }

  lemma {:induction false} RepliesIgnoreScope(s: Section, far: seq<Far>, ctx: Ctx, pc: PortClause)
    ensures Replies(s, far, HostPart(ctx), pc) == Replies(s, far, ctx, pc) == Replies(s, far, DockerPart(ctx), pc)
  {
    if far != [] { RepliesIgnoreScope(s, far[..|far| - 1], ctx, pc); }
  }

  lemma AcceptClauseSplits(s: Section, end: FarEnd, far: seq<Far>, reply: seq<Far>, ctx: Ctx, pc: PortClause)
    ensures SplitInto(AcceptClause(s, end, far, reply, ctx, pc), AcceptClause(s, end, far, reply, HostPart(ctx), pc),
        AcceptClause(s, end, far, reply, DockerPart(ctx), pc))
  {
    var withReply := !RepliesLast(s, end);
    PerFarSplits(AcceptAction, s, withReply, far, ctx, pc);
    RepliesIgnoreScope(s, reply, ctx, pc);
    var last := if RepliesLast(s, end) then Replies(s, reply, ctx, pc) else [];
    SplitConcat(PerFar(s, withReply, far, ctx, pc), PerFar(s, withReply, far, HostPart(ctx), pc),
        PerFar(s, withReply, far, DockerPart(ctx), pc),
                last, last, last);
  }

  lemma {:induction false} BlockSplits(action: Action, s: Section, end: FarEnd, far: seq<Far>, reply: seq<Far>,
        ctx: Ctx, pcs: seq<PortClause>)
    ensures SplitInto(Block(action, s, end, far, reply, ctx, pcs),
        Block(action, s, end, far, reply, HostPart(ctx), pcs), Block(action, s, end, far, reply, DockerPart(ctx), pcs))
  {
    if pcs != [] {
      var n := |pcs| - 1;
      var pre, pc, h, d := pcs[..n], pcs[n], HostPart(ctx), DockerPart(ctx);
      BlockSplits(action, s, end, far, reply, ctx, pre);
      if action == AcceptAction {
        AcceptClauseSplits(s, end, far, reply, ctx, pc);
        SplitConcat(AcceptBlock(s, end, far, reply, ctx, pre), AcceptBlock(s, end, far, reply, h, pre),
            AcceptBlock(s, end, far, reply, d, pre),
                    AcceptClause(s, end, far, reply, ctx, pc), AcceptClause(s, end, far, reply, h, pc),
                        AcceptClause(s, end, far, reply, d, pc));
      } else {
        PerFarSplits(action, s, true, far, ctx, pc);
        SplitConcat(DropBlock(action, s, far, ctx, pre), DropBlock(action, s, far, h, pre),
            DropBlock(action, s, far, d, pre),
                    DropClause(action, s, far, ctx, pc), DropClause(action, s, far, h, pc),
                        DropClause(action, s, far, d, pc));
      }
    }
  }

  /** `writeRules` with both scopes emits the union of what it emits for each, and fails alike. */
  lemma WriteRulesSplits(action: Action, s: Section, end: FarEnd, multicast: bool, ctx: Ctx, pcs: seq<PortClause>)
    ensures var w, h, d := WriteRules(action, s, end, multicast, ctx, pcs),
        WriteRules(action, s, end, multicast, HostPart(ctx), pcs),
            WriteRules(action, s, end, multicast, DockerPart(ctx), pcs);
      if w.Err? then h == d == w else h.Ok? && d.Ok? && SplitInto(w.value, h.value, d.value)
  {
    var far, reply := FarTestsOf(end, ctx.ip), FarTestsOf(ReplyEnd(end, multicast, ctx), ctx.ip);
    if far.Ok? && reply.Ok? {
      BlockSplits(action, s, end, far.value, reply.value, ctx, pcs);
    }
  }

  /** What one pass contributes is what `writeRules` emits for that scope alone. */
  lemma PassesMakeTheSection(action: Action, s: Section, end: FarEnd, multicast: bool, peer: Peer, pol: Policy,
        svc: Service, pcs: seq<PortClause>)
    requires peer.hasDocker && WriteRules(action, s, end, multicast, CtxOf(peer, pol, svc), pcs).Ok?
    ensures var w, h, d := WriteRules(action, s, end, multicast, CtxOf(peer, pol, svc), pcs),
                           WriteRules(action, s, end, multicast, PassCtx(peer, svc, false), pcs),
                               WriteRules(action, s, end, multicast, PassCtx(peer, svc, true), pcs);
      && (PassWanted(pol.scope, false) ==> h.Ok?) && (PassWanted(pol.scope, true) ==> d.Ok?)
      && forall r :: r in w.value <==>
         (PassWanted(pol.scope, false) && r in h.value) || (PassWanted(pol.scope, true) && r in d.value)
  {
    WriteRulesSplits(action, s, end, multicast, CtxOf(peer, pol, svc), pcs);
  }

  /** Forward lines of the preview are the egress rules of the compiled policy. */
  lemma ForwardPreviewIsEgress(db: Db, peer: Peer, order: seq<int>, pol: Policy, svc: Service, pcs: seq<PortClause>)
    requires peer.hasDocker && peer.id != 0 && svc.role == Plain && RunsEgress(db, pol, peer.id)
        && !UsesSet(peer, order, pol.target)
    requires SourceSection(db, peer, order, pol, svc, pcs).Ok?
    ensures PreviewForward(db, peer, pol, svc, pcs, false).Ok? && PreviewForward(db, peer, pol, svc, pcs, true).Ok?
    ensures SplitInto(SourceSection(db, peer, order, pol, svc, pcs).value,
                      PreviewForward(db, peer, pol, svc, pcs, false).value,
                          PreviewForward(db, peer, pol, svc, pcs, true).value)
  {
    SourceSectionIsBlock(db, peer, order, pol, svc, pcs);
    var end := EndFor(db, peer, order, pol.target).value;
    PassesMakeTheSection(pol.action, Egress, end, IsMulticastEnd(pol.target), peer, pol, svc, pcs);
  }

  /** Backward lines of the preview are the ingress rules of the compiled policy. */
  lemma BackwardPreviewIsIngress(db: Db, peer: Peer, order: seq<int>, pol: Policy, svc: Service, pcs: seq<PortClause>)
    requires peer.hasDocker && svc.role == Plain && RunsIngress(db, pol, peer.id) && !UsesSet(peer, order, pol.source)
    requires !IsMulticastEnd(pol.source) && !IsBroadcastEnd(pol.source)
    requires TargetSection(db, peer, order, pol, svc, pcs).Ok?
    ensures PreviewBackward(db, peer, pol, svc, pcs, false).Ok? && PreviewBackward(db, peer, pol, svc, pcs, true).Ok?
    ensures SplitInto(TargetSection(db, peer, order, pol, svc, pcs).value,
                      PreviewBackward(db, peer, pol, svc, pcs, false).value,
                          PreviewBackward(db, peer, pol, svc, pcs, true).value)
  {
    var nets := ResolveEnd(db, pol.source, peer.ip).value;
    PassesMakeTheSection(pol.action, Ingress, ByCidrs(nets), false, peer, pol, svc, pcs);
  }

  /** Every address match of a successful preview, whatever the service and the ends, is a prefix
      iptables can read; in particular the internet marker, bare or normalised, is in none. */
  lemma PreviewAddressesAreReadable(db: Db, peer: Peer, pol: Policy, svc: Service, pcs: seq<PortClause>, docker: bool)
    ensures var r := PreviewForward(db, peer, pol, svc, pcs, docker);
      r.Ok? ==> UsesOnly(r.value, Readable()) && UsesOnly(r.value, Unmarked())
    ensures var r := PreviewBackward(db, peer, pol, svc, pcs, docker);
      r.Ok? ==> UsesOnly(r.value, Readable()) && UsesOnly(r.value, Unmarked())
  {
    ForwardReadable(db, peer, pol, svc, pcs, docker);
    BackwardReadable(db, peer, pol, svc, pcs, docker);
  }

  lemma ForwardReadable(db: Db, peer: Peer, pol: Policy, svc: Service, pcs: seq<PortClause>, docker: bool)
    ensures var r := PreviewForward(db, peer, pol, svc, pcs, docker); r.Ok? ==> UsesOnly(r.value, Readable())
  {
    var ctx := PassCtx(peer, svc, docker);
    FixedServicesReadable(ctx);
    MulticastReadable(pol.action, ctx);
    if IsInternetEnd(pol.target) {
      var internet := if peer.id == 0 || peer.hasIpset then ByInternetSet else ByInternetPlain;
      InternetReadable(pol.action, internet, ctx, pcs);
    } else if ResolveEnd(db, pol.target, peer.ip).Ok? {
      EndResolves(db, pol.target, peer.ip);
      NetsReadable(pol.action, Egress, ResolveEnd(db, pol.target, peer.ip).value, IsMulticastEnd(pol.target), ctx, pcs);
    }
  }

  lemma InternetReadable(action: Action, end: FarEnd, ctx: Ctx, pcs: seq<PortClause>)
    requires !end.ByCidrs?
    ensures var r := WriteRules(action, Egress, end, false, ctx, pcs); r.Ok? ==> UsesOnly(r.value, Readable())
  {
    if WriteRules(action, Egress, end, false, ctx, pcs).Ok? {
      WriteRulesUsesOnly(action, Egress, end, false, ctx, pcs, Readable());
    }
  }

  lemma NetsReadable(action: Action, s: Section, nets: seq<Address>, multicast: bool, ctx: Ctx, pcs: seq<PortClause>)
    requires Resolved(nets)
    ensures var r := WriteRules(action, s, ByCidrs(nets), multicast, ctx, pcs); r.Ok? ==> UsesOnly(r.value, Readable())
  {
    if WriteRules(action, s, ByCidrs(nets), multicast, ctx, pcs).Ok? {
      ResolvedRulesAreReadable(action, s, nets, multicast, ctx, pcs);
    }
  }

  lemma BackwardReadable(db: Db, peer: Peer, pol: Policy, svc: Service, pcs: seq<PortClause>, docker: bool)
    ensures var r := PreviewBackward(db, peer, pol, svc, pcs, docker); r.Ok? ==> UsesOnly(r.value, Readable())
  {
    var ctx := PassCtx(peer, svc, docker);
    MulticastReadable(AcceptAction, ctx);
    if ResolveEnd(db, pol.source, peer.ip).Ok? {
      var nets := ResolveEnd(db, pol.source, peer.ip).value;
      EndResolves(db, pol.source, peer.ip);
      NetsReadable(pol.action, Ingress, nets, false, ctx, pcs);
      if IsBroadcastEnd(pol.source) {
        SpecialResolves(db, pol.source.id, peer.ip);
        BroadcastUsesOnly(ctx, nets, svc.proto, Readable());
      }
    }
  }
}
