/** Compiler correctness: first-match evaluation of a bundle is the standard verdict, else the
    first covering policy's action, else the chain's default. */
module CompilerProofs {
  import opened Wrappers
  import opened PortText
  import opened Netfilter
  import opened Catalog
  import opened RuleBuilder
  import opened Bundle
  import opened PolicyMeaning
  import opened PolicyView

  // ----- one rule -----

  /** An address satisfies a far test. */
  predicate FarHolds(f: Far, sets: seq<NamedSet>, a: Addr) {
    match f
    case OneNet(n) => InPrefix(a, n)
    case Named(name) => InSet(sets, name, a)
    case OutsidePrivateSet => !InSet(sets, PRIVATE_SET, a)
    case OutsidePrivatePlain => !IsPrivate(a)
  }

  lemma {:induction false} NegationsHold(side: Side, nets: seq<Address>, sets: seq<NamedSet>, p: Packet)
    ensures AllHold(Negations(side, nets), sets, p) <==> !InSome(AddrOf(side, p), nets)
  {
    if nets != [] {
      NegationsHold(side, nets[1..], sets, p);
      AllHoldConcat([Outside(side, nets[0])], Negations(side, nets[1..]), sets, p);
      assert nets == [nets[0]] + nets[1..];
      assert AllHold([Outside(side, nets[0])], sets, p) <==> Holds(Outside(side, nets[0]), sets, p) by {
        assert Outside(side, nets[0]) in [Outside(side, nets[0])];
      }
    }
  }

  lemma SingleHolds(m: Match, sets: seq<NamedSet>, p: Packet)
    ensures AllHold([m], sets, p) <==> Holds(m, sets, p)
  {
    assert m in [m];
  }

  lemma AnywhereHolds(a: Addr)
    ensures InPrefix(a, ANYWHERE)
  {
    Pow2Values();
  }

  lemma FarTestsHold(f: Far, side: Side, sets: seq<NamedSet>, p: Packet)
    ensures AllHold(FarTests(f, side), sets, p) <==> FarHolds(f, sets, AddrOf(side, p))
  {
    match f
    case OneNet(n) => SingleHolds(Within(side, n), sets, p);
    case Named(name) => SingleHolds(InNamedSet(side, name), sets, p);
    case OutsidePrivateSet => SingleHolds(NotInNamedSet(side, PRIVATE_SET), sets, p);
    case OutsidePrivatePlain =>
      SingleHolds(Within(side, ANYWHERE), sets, p);
      AnywhereHolds(AddrOf(side, p));
      NegationsHold(side, PRIVATE_RANGES, sets, p);
      AllHoldConcat([Within(side, ANYWHERE)], Negations(side, PRIVATE_RANGES), sets, p);
  }

  lemma LineHolds(f: Far, side: Side, proto: string, rest: seq<Match>, sets: seq<NamedSet>, p: Packet)
    ensures AllHold(Line(f, side, proto, rest), sets, p)
       <==> FarHolds(f, sets, AddrOf(side, p)) && p.proto == proto && AllHold(rest, sets, p)
  {
    var ft, pr := FarTests(f, side), [Proto(proto)];
    FarTestsHold(f, side, sets, p);
    SingleHolds(Proto(proto), sets, p);
    AllHoldConcat(ft, pr, sets, p);
    AllHoldConcat(ft + pr, rest, sets, p);
    AllHoldConcat(pr, ft, sets, p);
    AllHoldConcat(pr + ft, rest, sets, p);
  }

  predicate CtAdmits(noConntrack: bool, p: Packet) { noConntrack || p.ct == NEW || p.ct == ESTABLISHED }

  predicate PortsAdmit(pc: PortClause, p: Packet) { PortAdmits(pc.dports, p.dport) && PortAdmits(pc.sports, p.sport) }

  lemma PortTestHolds(side: Side, list: string, sets: seq<NamedSet>, p: Packet)
    ensures AllHold(PortTest(side, list), sets, p) <==> PortAdmits(list, PortOf(side, p))
  {
    if list != "" { SingleHolds(Ports(side, list), sets, p); }
  }

  lemma CtTestsHold(noConntrack: bool, sets: seq<NamedSet>, p: Packet)
    ensures AllHold(CtTests(noConntrack), sets, p) <==> CtAdmits(noConntrack, p)
  {
    if !noConntrack { SingleHolds(Conntrack({NEW, ESTABLISHED}), sets, p); }
  }

  /** A primary rule tests the packet; a reply rule tests the packet's reversal. */
  lemma PortTestsHold(pc: PortClause, noConntrack: bool, sets: seq<NamedSet>, p: Packet)
    ensures AllHold(PrimaryPorts(pc) + CtTests(noConntrack), sets, p) <==> PortsAdmit(pc, p) && CtAdmits(noConntrack, p)
    ensures AllHold(ReplyPorts(pc) + CtTests(noConntrack), sets, p) <==>
        PortsAdmit(pc, Reverse(p)) && CtAdmits(noConntrack, p)
  {
    PortTestHolds(Src, pc.sports, sets, p);
    PortTestHolds(Dst, pc.dports, sets, p);
    PortTestHolds(Src, pc.dports, sets, p);
    PortTestHolds(Dst, pc.sports, sets, p);
    CtTestsHold(noConntrack, sets, p);
    AllHoldConcat(PortTest(Src, pc.sports), PortTest(Dst, pc.dports), sets, p);
    AllHoldConcat(PortTest(Src, pc.dports), PortTest(Dst, pc.sports), sets, p);
    AllHoldConcat(PrimaryPorts(pc), CtTests(noConntrack), sets, p);
    AllHoldConcat(ReplyPorts(pc), CtTests(noConntrack), sets, p);
  }

  predicate ClauseServes(pc: PortClause, noConntrack: bool, p: Packet) {
    p.proto == pc.proto && PortsAdmit(pc, p) && CtAdmits(noConntrack, p)
  }

  lemma AcceptMatchesHold(s: Section, f: Far, ctx: Ctx, pc: PortClause, sets: seq<NamedSet>, p: Packet)
    ensures AllHold(PrimaryMatches(s, f, ctx, pc), sets, p)
       <==> FarHolds(f, sets, AddrOf(FarSide(s), p)) && ClauseServes(pc, ctx.noConntrack, p)
    ensures AllHold(ReplyMatches(s, f, ctx, pc), sets, p)
       <==> FarHolds(f, sets, AddrOf(Flip(FarSide(s)), p)) && ClauseServes(pc, ctx.noConntrack, Reverse(p))
  {
    LineHolds(f, FarSide(s), pc.proto, PrimaryPorts(pc) + CtTests(ctx.noConntrack), sets, p);
    LineHolds(f, Flip(FarSide(s)), pc.proto, ReplyPorts(pc) + CtTests(ctx.noConntrack), sets, p);
    PortTestsHold(pc, ctx.noConntrack, sets, p);
  }

  // ----- one block -----

  lemma FiresConcat(a: seq<Rule>, b: seq<Rule>, t: Target, sets: seq<NamedSet>, chain: Chain, p: Packet)
    ensures Fires(a + b, t, sets, chain, p) <==> Fires(a, t, sets, chain, p) || Fires(b, t, sets, chain, p)
  {
    assert forall r :: r in a + b <==> r in a || r in b;
  }

  predicate SomeFar(far: seq<Far>, sets: seq<NamedSet>, a: Addr) {
    exists f :: f in far && FarHolds(f, sets, a)
  }

  /** What the primary side of a section says: a direct predicate for its two chains. */
  predicate PrimaryOpen(s: Section, ctx: Ctx, chain: Chain) {
    (chain == PrimaryChain(s) && ctx.host) || (chain == DOCKER_USER && ctx.docker)
  }

  lemma OneFarFires(s: Section, withReply: bool, f: Far, ctx: Ctx, pc: PortClause, sets: seq<NamedSet>, chain: Chain,
        p: Packet)
    ensures Fires(OneFar(s, withReply, f, ctx, pc), ACCEPT, sets, chain, p) <==>
      || (PrimaryOpen(s, ctx, chain) && FarHolds(f, sets, AddrOf(FarSide(s), p))
         && ClauseServes(pc, ctx.noConntrack, p))
      || (chain == ReplyChain(s) && ctx.host && withReply && FarHolds(f, sets, AddrOf(Flip(FarSide(s)), p))
         && ClauseServes(pc, ctx.noConntrack, Reverse(p)))
    ensures OneTarget(OneFar(s, withReply, f, ctx, pc), ACCEPT)
  {
    AcceptMatchesHold(s, f, ctx, pc, sets, p);
    var a, c := PrimaryRules(s, f, ctx, pc), DockerRules(s, f, ctx, pc);
    var b := if ctx.host && withReply then [ReplyRule(s, f, ctx, pc)] else [];
    FiresConcat(a, b, ACCEPT, sets, chain, p);
    FiresConcat(a + b, c, ACCEPT, sets, chain, p);
  }

  lemma {:induction false} PerFarFires(s: Section, withReply: bool, far: seq<Far>, ctx: Ctx, pc: PortClause,
        sets: seq<NamedSet>, chain: Chain, p: Packet)
    ensures Fires(PerFar(s, withReply, far, ctx, pc), ACCEPT, sets, chain, p) <==>
      || (PrimaryOpen(s, ctx, chain) && SomeFar(far, sets, AddrOf(FarSide(s), p))
         && ClauseServes(pc, ctx.noConntrack, p))
      || (chain == ReplyChain(s) && ctx.host && withReply && SomeFar(far, sets, AddrOf(Flip(FarSide(s)), p))
         && ClauseServes(pc, ctx.noConntrack, Reverse(p)))
    ensures OneTarget(PerFar(s, withReply, far, ctx, pc), ACCEPT)
  {
    if far != [] {
      var n := |far| - 1;
      PerFarFires(s, withReply, far[..n], ctx, pc, sets, chain, p);
      OneFarFires(s, withReply, far[n], ctx, pc, sets, chain, p);
      FiresConcat(PerFar(s, withReply, far[..n], ctx, pc), OneFar(s, withReply, far[n], ctx, pc), ACCEPT, sets,
          chain, p);
      SomeFarSnoc(far, sets, AddrOf(FarSide(s), p));
      SomeFarSnoc(far, sets, AddrOf(Flip(FarSide(s)), p));
    }
  }

  lemma SomeFarSnoc(far: seq<Far>, sets: seq<NamedSet>, a: Addr)
    requires far != []
    ensures SomeFar(far, sets, a) <==> SomeFar(far[..|far| - 1], sets, a) || FarHolds(far[|far| - 1], sets, a)
  {
    assert far == far[..|far| - 1] + [far[|far| - 1]];
  }

  lemma {:induction false} RepliesFire(s: Section, far: seq<Far>, ctx: Ctx, pc: PortClause, sets: seq<NamedSet>,
        chain: Chain, p: Packet)
    ensures Fires(Replies(s, far, ctx, pc), ACCEPT, sets, chain, p) <==>
      chain == ReplyChain(s) && SomeFar(far, sets, AddrOf(Flip(FarSide(s)), p))
          && ClauseServes(pc, ctx.noConntrack, Reverse(p))
    ensures OneTarget(Replies(s, far, ctx, pc), ACCEPT)
  {
    if far != [] {
      var n := |far| - 1;
      RepliesFire(s, far[..n], ctx, pc, sets, chain, p);
      AcceptMatchesHold(s, far[n], ctx, pc, sets, p);
      SomeFarSnoc(far, sets, AddrOf(Flip(FarSide(s)), p));
      var r := ReplyRule(s, far[n], ctx, pc);
      FiresConcat(Replies(s, far[..n], ctx, pc), [r], ACCEPT, sets, chain, p);
      assert Fires([r], ACCEPT, sets, chain, p) <==> Hits(r, sets, chain, p) by { assert r in [r]; }
    }
  }

  predicate SomeClause(pcs: seq<PortClause>, noConntrack: bool, p: Packet) {
    exists pc :: pc in pcs && ClauseServes(pc, noConntrack, p)
  }

  /** The ACCEPT block as one formula. */
  predicate AcceptSays(s: Section, end: FarEnd, far: seq<Far>, replyFar: seq<Far>, ctx: Ctx, pcs: seq<PortClause>,
        sets: seq<NamedSet>, chain: Chain, p: Packet) {
    || (PrimaryOpen(s, ctx, chain) && SomeFar(far, sets, AddrOf(FarSide(s), p)) && SomeClause(pcs, ctx.noConntrack, p))
    || (&& chain == ReplyChain(s)
        && (if RepliesLast(s, end) then SomeFar(replyFar, sets, AddrOf(Flip(FarSide(s)), p))
            else ctx.host && SomeFar(far, sets, AddrOf(Flip(FarSide(s)), p)))
        && SomeClause(pcs, ctx.noConntrack, Reverse(p)))
  }

  lemma SomeClauseSnoc(pcs: seq<PortClause>, noConntrack: bool, p: Packet)
    requires pcs != []
    ensures SomeClause(pcs, noConntrack, p) <==>
        SomeClause(pcs[..|pcs| - 1], noConntrack, p) || ClauseServes(pcs[|pcs| - 1], noConntrack, p)
  {
    assert pcs == pcs[..|pcs| - 1] + [pcs[|pcs| - 1]];
  }

  lemma AcceptClauseFires(s: Section, end: FarEnd, far: seq<Far>, replyFar: seq<Far>, ctx: Ctx, pc: PortClause,
        sets: seq<NamedSet>, chain: Chain, p: Packet)
    ensures Fires(AcceptClause(s, end, far, replyFar, ctx, pc), ACCEPT, sets, chain, p)
       <==> AcceptSays(s, end, far, replyFar, ctx, [pc], sets, chain, p)
    ensures OneTarget(AcceptClause(s, end, far, replyFar, ctx, pc), ACCEPT)
  {
    var last := RepliesLast(s, end);
    PerFarFires(s, !last, far, ctx, pc, sets, chain, p);
    RepliesFire(s, replyFar, ctx, pc, sets, chain, p);
    FiresConcat(PerFar(s, !last, far, ctx, pc), if last then Replies(s, replyFar, ctx, pc) else [], ACCEPT, sets,
        chain, p);
    assert [pc][..0] == [];
    SomeClauseSnoc([pc], ctx.noConntrack, p);
    SomeClauseSnoc([pc], ctx.noConntrack, Reverse(p));
  }

  lemma {:induction false} AcceptBlockFires(s: Section, end: FarEnd, far: seq<Far>, replyFar: seq<Far>, ctx: Ctx,
        pcs: seq<PortClause>, sets: seq<NamedSet>, chain: Chain, p: Packet)
    ensures Fires(AcceptBlock(s, end, far, replyFar, ctx, pcs), ACCEPT, sets, chain, p)
       <==> AcceptSays(s, end, far, replyFar, ctx, pcs, sets, chain, p)
    ensures OneTarget(AcceptBlock(s, end, far, replyFar, ctx, pcs), ACCEPT)
  {
    if pcs != [] {
      var n := |pcs| - 1;
      AcceptBlockFires(s, end, far, replyFar, ctx, pcs[..n], sets, chain, p);
      AcceptClauseFires(s, end, far, replyFar, ctx, pcs[n], sets, chain, p);
      FiresConcat(AcceptBlock(s, end, far, replyFar, ctx, pcs[..n]),
          AcceptClause(s, end, far, replyFar, ctx, pcs[n]), ACCEPT, sets, chain, p);
      SomeClauseSnoc(pcs, ctx.noConntrack, p);
      SomeClauseSnoc(pcs, ctx.noConntrack, Reverse(p));
      assert [pcs[n]][..0] == [];
      SomeClauseSnoc([pcs[n]], ctx.noConntrack, p);
      SomeClauseSnoc([pcs[n]], ctx.noConntrack, Reverse(p));
    }
  }

  // ----- refusals -----

  predicate ClauseRefuses(pc: PortClause, p: Packet) { p.proto == pc.proto && PortAdmits(pc.dports, p.dport) }

  predicate SomeRefusal(pcs: seq<PortClause>, p: Packet) { exists pc :: pc in pcs && ClauseRefuses(pc, p) }

  predicate DropSays(s: Section, far: seq<Far>, ctx: Ctx, pcs: seq<PortClause>, sets: seq<NamedSet>, chain: Chain,
        p: Packet) {
    PrimaryOpen(s, ctx, chain) && SomeFar(far, sets, AddrOf(FarSide(s), p)) && SomeRefusal(pcs, p)
  }

  lemma DropOneFires(action: Action, s: Section, f: Far, ctx: Ctx, pc: PortClause, sets: seq<NamedSet>, chain: Chain,
        p: Packet)
    ensures Fires(DropOne(action, s, f, ctx, pc), DROP, sets, chain, p) <==>
      PrimaryOpen(s, ctx, chain) && FarHolds(f, sets, AddrOf(FarSide(s), p)) && ClauseRefuses(pc, p)
    ensures OneTarget(DropOne(action, s, f, ctx, pc), DROP)
  {
    var ms := DropMatches(s, f, pc);
    LineHolds(f, FarSide(s), pc.proto, PortTest(Dst, pc.dports), sets, p);
    PortTestHolds(Dst, pc.dports, sets, p);
    DropRulesFire(action, PrimaryChain(s), ms, sets, chain, p);
    DropRulesFire(action, DOCKER_USER, ms, sets, chain, p);
    FiresConcat(if ctx.host then DropRules(action, PrimaryChain(s), ms) else [],
                if ctx.docker then DropRules(action, DOCKER_USER, ms) else [], DROP, sets, chain, p);
  }

  lemma DropRulesFire(action: Action, c: Chain, ms: seq<Match>, sets: seq<NamedSet>, chain: Chain, p: Packet)
    ensures Fires(DropRules(action, c, ms), DROP, sets, chain, p) <==> chain == c && AllHold(ms, sets, p)
    ensures OneTarget(DropRules(action, c, ms), DROP)
  {
    var r := Rule(c, ms, DROP);
    FiresConcat(if action == LogDropAction then [Rule(c, ms, LOG)] else [], [r], DROP, sets, chain, p);
    assert Fires([r], DROP, sets, chain, p) <==> Hits(r, sets, chain, p) by { assert r in [r]; }
  }

  lemma {:induction false} DropClauseFires(action: Action, s: Section, far: seq<Far>, ctx: Ctx, pc: PortClause,
        sets: seq<NamedSet>, chain: Chain, p: Packet)
    ensures Fires(DropClause(action, s, far, ctx, pc), DROP, sets, chain, p) <==>
      PrimaryOpen(s, ctx, chain) && SomeFar(far, sets, AddrOf(FarSide(s), p)) && ClauseRefuses(pc, p)
    ensures OneTarget(DropClause(action, s, far, ctx, pc), DROP)
  {
    if far != [] {
      var n := |far| - 1;
      DropClauseFires(action, s, far[..n], ctx, pc, sets, chain, p);
      DropOneFires(action, s, far[n], ctx, pc, sets, chain, p);
      FiresConcat(DropClause(action, s, far[..n], ctx, pc), DropOne(action, s, far[n], ctx, pc), DROP, sets, chain, p);
      SomeFarSnoc(far, sets, AddrOf(FarSide(s), p));
    }
  }

  lemma {:induction false} DropBlockFires(action: Action, s: Section, far: seq<Far>, ctx: Ctx, pcs: seq<PortClause>,
        sets: seq<NamedSet>, chain: Chain, p: Packet)
    ensures Fires(DropBlock(action, s, far, ctx, pcs), DROP, sets, chain, p) <==>
        DropSays(s, far, ctx, pcs, sets, chain, p)
    ensures OneTarget(DropBlock(action, s, far, ctx, pcs), DROP)
  {
    if pcs != [] {
      var n := |pcs| - 1;
      DropBlockFires(action, s, far, ctx, pcs[..n], sets, chain, p);
      DropClauseFires(action, s, far, ctx, pcs[n], sets, chain, p);
      FiresConcat(DropBlock(action, s, far, ctx, pcs[..n]), DropClause(action, s, far, ctx, pcs[n]), DROP, sets,
          chain, p);
      assert pcs == pcs[..n] + [pcs[n]];
    }
  }

  // ----- one section: from far tests and clauses to ends and services -----

  lemma NetsHold(nets: seq<Address>, sets: seq<NamedSet>, a: Addr)
    ensures SomeFar(Nets(nets), sets, a) <==> InSome(a, nets)
  {
    forall n | n in nets && InPrefix(a, n) ensures SomeFar(Nets(nets), sets, a) {
      var i :| 0 <= i < |nets| && nets[i] == n;
      assert Nets(nets)[i] == OneNet(n);
      assert OneNet(n) in Nets(nets);
    }
    forall f | f in Nets(nets) && FarHolds(f, sets, a) ensures InSome(a, nets) {
      var i :| 0 <= i < |nets| && Nets(nets)[i] == f;
      assert nets[i] in nets;
    }
  }

  lemma OneFarTest(f: Far, sets: seq<NamedSet>, a: Addr)
    ensures SomeFar([f], sets, a) <==> FarHolds(f, sets, a)
  {
    assert f in [f];
  }

  /** A section's rules decide exactly the packets its formula describes. */
  lemma SectionDecides(action: Action, s: Section, end: FarEnd, multicast: bool, ctx: Ctx, pcs: seq<PortClause>,
        sets: seq<NamedSet>, chain: Chain, p: Packet)
    requires action != OtherAction
    requires WriteRules(action, s, end, multicast, ctx, pcs).Ok? && pcs != []
    ensures var far, reply := FarTestsOf(end, ctx.ip), FarTestsOf(ReplyEnd(end, multicast, ctx), ctx.ip);
      && far.Ok? && reply.Ok?
      && OneTarget(WriteRules(action, s, end, multicast, ctx, pcs).value,
                   if action == AcceptAction then ACCEPT else DROP)
      && Eval(WriteRules(action, s, end, multicast, ctx, pcs).value, sets, chain, p)
         == if (if action == AcceptAction then AcceptSays(s, end, far.value, reply.value, ctx, pcs, sets, chain, p)
                else DropSays(s, far.value, ctx, pcs, sets, chain, p))
            then ActionVerdict(action) else Undecided
  {
    var far, reply := FarTestsOf(end, ctx.ip), FarTestsOf(ReplyEnd(end, multicast, ctx), ctx.ip);
    var rules := WriteRules(action, s, end, multicast, ctx, pcs).value;
    if action == AcceptAction {
      AcceptBlockFires(s, end, far.value, reply.value, ctx, pcs, sets, chain, p);
      EvalOneTarget(rules, ACCEPT, sets, chain, p);
    } else {
      DropBlockFires(action, s, far.value, ctx, pcs, sets, chain, p);
      EvalOneTarget(rules, DROP, sets, chain, p);
    }
  }

  /** Port expansion keeps the service's meaning. */
  lemma ExpansionKeepsMeaning(svc: Service, p: Packet)
    requires svc.role == Plain && ClausesOf(svc).Ok?
    ensures SomeClause(ClausesOf(svc).value, svc.noConntrack, p) <==> Serves(svc, p)
    ensures SomeRefusal(ClausesOf(svc).value, p) <==> Refuses(svc, p)
  {
    var pcs := ClausesOf(svc).value;
    TwoClauses(pcs, svc.noConntrack, p);
  }

  lemma TwoClauses(pcs: seq<PortClause>, noConntrack: bool, p: Packet)
    requires 1 <= |pcs| <= 2
    ensures SomeClause(pcs, noConntrack, p) <==>
        ClauseServes(pcs[0], noConntrack, p) || ClauseServes(pcs[|pcs| - 1], noConntrack, p)
    ensures SomeRefusal(pcs, p) <==> ClauseRefuses(pcs[0], p) || ClauseRefuses(pcs[|pcs| - 1], p)
  {
    var a, b := pcs[0], pcs[|pcs| - 1];
    assert a in pcs && b in pcs;
    assert forall pc :: pc in pcs ==> pc == a || pc == b;
  }

  // ----- ends -----

  /** The named sets of a bundle stand for what they name. */
  ghost predicate SetsFaithful(db: Db, peer: Peer, order: seq<int>, sets: seq<NamedSet>) {
    peer.hasIpset ==>
      && (forall a: Addr :: InSet(sets, PRIVATE_SET, a) <==> IsPrivate(a))
      && (forall g, a: Addr :: g in order ==> GroupSetMeans(db, sets, g, a))
  }

  predicate GroupSetMeans(db: Db, sets: seq<NamedSet>, g: int, a: Addr) {
    && g in db.groups && GroupNets(db, g).Ok?
    && (InSet(sets, SetName(db.groups[g].name), a) <==> InSome(a, GroupNets(db, g).value))
  }

  /** The far end the compiler writes for an end of a policy. */
  function EndFor(db: Db, peer: Peer, order: seq<int>, e: End): Result<FarEnd> {
    if UsesSet(peer, order, e) then Ok(GroupEnd(db, e.id))
    else if IsInternetEnd(e) then Ok(if peer.hasIpset then ByInternetSet else ByInternetPlain)
    else
      var nets :- ResolveEnd(db, e, peer.ip);
      Ok(ByCidrs(nets))
  }

  predicate OrderCovers(db: Db, order: seq<int>, e: End) {
    e.kind == GroupKind ==> (e.id in order <==> Active(db, e.id))
  }

  lemma FarEndMeansEnd(db: Db, peer: Peer, order: seq<int>, sets: seq<NamedSet>, e: End, a: Addr)
    requires SetsFaithful(db, peer, order, sets) && OrderCovers(db, order, e)
    requires EndFor(db, peer, order, e).Ok? && FarTestsOf(EndFor(db, peer, order, e).value, peer.ip).Ok?
    ensures SomeFar(FarTestsOf(EndFor(db, peer, order, e).value, peer.ip).value, sets, a) <==> Belongs(db, peer, e, a)
  {
    var end := EndFor(db, peer, order, e).value;
    var far := FarTestsOf(end, peer.ip).value;
    if UsesSet(peer, order, e) {
      assert GroupSetMeans(db, sets, e.id, a);
      OneFarTest(Named(SetName(db.groups[e.id].name)), sets, a);
    } else if IsInternetEnd(e) {
      OneFarTest(far[0], sets, a);
    } else {
      NetsHold(FilterSelf(end.nets, peer.ip).value, sets, a);
    }
  }

  lemma ReplyEndMeansAnswers(db: Db, peer: Peer, order: seq<int>, sets: seq<NamedSet>, e: End, svc: Service,
        ctx: Ctx, a: Addr)
    requires SetsFaithful(db, peer, order, sets) && OrderCovers(db, order, e)
    requires ctx.ip == peer.ip && ctx.noConntrack == svc.noConntrack
    requires EndFor(db, peer, order, e).Ok?
    requires var r := ReplyEnd(EndFor(db, peer, order, e).value, IsMulticastEnd(e), ctx); FarTestsOf(r, peer.ip).Ok?
    ensures var r := ReplyEnd(EndFor(db, peer, order, e).value, IsMulticastEnd(e), ctx);
      SomeFar(FarTestsOf(r, peer.ip).value, sets, a) <==> Answers(db, peer, e, svc, a)
  {
    if IsMulticastEnd(e) {
      var nets := if ctx.noConntrack then [] else [ANYWHERE];
      NetsHold(FilterSelf(nets, peer.ip).value, sets, a);
      AnywhereHolds(a);
      assert ANYWHERE in [ANYWHERE];
    } else {
      FarEndMeansEnd(db, peer, order, sets, e, a);
    }
  }

  // ----- one policy -----

  lemma TargetSectionIsBlock(db: Db, peer: Peer, order: seq<int>, pol: Policy, svc: Service, pcs: seq<PortClause>)
    requires svc.role != MulticastRole && RunsIngress(db, pol, peer.id)
    requires !IsMulticastEnd(pol.source) && !IsBroadcastEnd(pol.source)
    requires TargetSection(db, peer, order, pol, svc, pcs).Ok?
    ensures EndFor(db, peer, order, pol.source).Ok?
    ensures TargetSection(db, peer, order, pol, svc, pcs)
         == WriteRules(pol.action, Ingress, EndFor(db, peer, order, pol.source).value, false, CtxOf(peer, pol, svc),
             pcs)
  {
  }

  lemma IngressFormula(db: Db, peer: Peer, order: seq<int>, sets: seq<NamedSet>, pol: Policy, svc: Service,
        end: FarEnd, far: seq<Far>, reply: seq<Far>, chain: Chain, p: Packet)
    requires SetsFaithful(db, peer, order, sets) && OrderCovers(db, order, pol.source)
    requires svc.role == Plain && ClausesOf(svc).Ok? && RunsIngress(db, pol, peer.id)
    requires EndFor(db, peer, order, pol.source) == Ok(end) && FarTestsOf(end, peer.ip) == Ok(far)
    ensures CoversIngress(db, peer, pol, svc, chain, p) <==>
      if pol.action == AcceptAction then
        AcceptSays(Ingress, end, far, reply, CtxOf(peer, pol, svc), ClausesOf(svc).value, sets, chain, p)
      else DropSays(Ingress, far, CtxOf(peer, pol, svc), ClausesOf(svc).value, sets, chain, p)
  {
    FarEndMeansEnd(db, peer, order, sets, pol.source, p.src);
    FarEndMeansEnd(db, peer, order, sets, pol.source, p.dst);
    ExpansionKeepsMeaning(svc, p);
    ExpansionKeepsMeaning(svc, Reverse(p));
  }

  lemma TargetSectionCorrect(db: Db, peer: Peer, order: seq<int>, sets: seq<NamedSet>, pol: Policy, svc: Service,
        chain: Chain, p: Packet)
    requires SetsFaithful(db, peer, order, sets) && OrderCovers(db, order, pol.source)
    requires pol.action != OtherAction && svc.role == Plain && ClausesOf(svc).Ok?
    requires !IsMulticastEnd(pol.source) && !IsBroadcastEnd(pol.source)
    requires TargetSection(db, peer, order, pol, svc, ClausesOf(svc).value).Ok?
    ensures Eval(TargetSection(db, peer, order, pol, svc, ClausesOf(svc).value).value, sets, chain, p)
         == if CoversIngress(db, peer, pol, svc, chain, p) then ActionVerdict(pol.action) else Undecided
  {
    if RunsIngress(db, pol, peer.id) {
      var ctx, pcs := CtxOf(peer, pol, svc), ClausesOf(svc).value;
      TargetSectionIsBlock(db, peer, order, pol, svc, pcs);
      var end := EndFor(db, peer, order, pol.source).value;
      SectionDecides(pol.action, Ingress, end, false, ctx, pcs, sets, chain, p);
      IngressFormula(db, peer, order, sets, pol, svc, end, FarTestsOf(end, ctx.ip).value,
                     FarTestsOf(ReplyEnd(end, false, ctx), ctx.ip).value, chain, p);
    }
  }

  lemma SourceSectionIsBlock(db: Db, peer: Peer, order: seq<int>, pol: Policy, svc: Service, pcs: seq<PortClause>)
    requires svc.role == Plain && RunsEgress(db, pol, peer.id)
    requires SourceSection(db, peer, order, pol, svc, pcs).Ok?
    ensures EndFor(db, peer, order, pol.target).Ok?
    ensures SourceSection(db, peer, order, pol, svc, pcs)
         == WriteRules(pol.action, Egress, EndFor(db, peer, order, pol.target).value, IsMulticastEnd(pol.target),
             CtxOf(peer, pol, svc), pcs)
  {
  }

  lemma EgressFormula(db: Db, peer: Peer, order: seq<int>, sets: seq<NamedSet>, pol: Policy, svc: Service,
        end: FarEnd, far: seq<Far>, reply: seq<Far>, chain: Chain, p: Packet)
    requires SetsFaithful(db, peer, order, sets) && OrderCovers(db, order, pol.target)
    requires svc.role == Plain && ClausesOf(svc).Ok? && RunsEgress(db, pol, peer.id)
    requires EndFor(db, peer, order, pol.target) == Ok(end) && FarTestsOf(end, peer.ip) == Ok(far)
    requires FarTestsOf(ReplyEnd(end, IsMulticastEnd(pol.target), CtxOf(peer, pol, svc)), peer.ip) == Ok(reply)
    ensures CoversEgress(db, peer, pol, svc, chain, p) <==>
      if pol.action == AcceptAction then
        AcceptSays(Egress, end, far, reply, CtxOf(peer, pol, svc), ClausesOf(svc).value, sets, chain, p)
      else DropSays(Egress, far, CtxOf(peer, pol, svc), ClausesOf(svc).value, sets, chain, p)
  {
    FarEndMeansEnd(db, peer, order, sets, pol.target, p.dst);
    FarEndMeansEnd(db, peer, order, sets, pol.target, p.src);
    ReplyEndMeansAnswers(db, peer, order, sets, pol.target, svc, CtxOf(peer, pol, svc), p.src);
    ExpansionKeepsMeaning(svc, p);
    ExpansionKeepsMeaning(svc, Reverse(p));
  }

  lemma SourceSectionCorrect(db: Db, peer: Peer, order: seq<int>, sets: seq<NamedSet>, pol: Policy, svc: Service,
        chain: Chain, p: Packet)
    requires SetsFaithful(db, peer, order, sets) && OrderCovers(db, order, pol.target)
    requires pol.action != OtherAction && svc.role == Plain && ClausesOf(svc).Ok?
    requires SourceSection(db, peer, order, pol, svc, ClausesOf(svc).value).Ok?
    ensures Eval(SourceSection(db, peer, order, pol, svc, ClausesOf(svc).value).value, sets, chain, p)
         == if CoversEgress(db, peer, pol, svc, chain, p) then ActionVerdict(pol.action) else Undecided
  {
    if RunsEgress(db, pol, peer.id) {
      var ctx, pcs, multicast := CtxOf(peer, pol, svc), ClausesOf(svc).value, IsMulticastEnd(pol.target);
      SourceSectionIsBlock(db, peer, order, pol, svc, pcs);
      var end := EndFor(db, peer, order, pol.target).value;
      SectionDecides(pol.action, Egress, end, multicast, ctx, pcs, sets, chain, p);
      EgressFormula(db, peer, order, sets, pol, svc, end, FarTestsOf(end, ctx.ip).value,
                    FarTestsOf(ReplyEnd(end, multicast, ctx), ctx.ip).value, chain, p);
    }
  }

  lemma PolicyCorrect(db: Db, peer: Peer, order: seq<int>, sets: seq<NamedSet>, pol: Policy, chain: Chain, p: Packet)
    requires SetsFaithful(db, peer, order, sets) && OrderCovers(db, order, pol.source)
        && OrderCovers(db, order, pol.target)
    requires Ordinary(db, pol) && CompilePolicy(db, peer, order, pol).Ok?
    ensures Eval(CompilePolicy(db, peer, order, pol).value, sets, chain, p)
         == if PolicyCovers(db, peer, pol, chain, p) then ActionVerdict(pol.action) else Undecided
  {
    var svc := LiveService(db, pol.service).value;
    var pcs := ClausesOf(svc).value;
    TargetSectionCorrect(db, peer, order, sets, pol, svc, chain, p);
    SourceSectionCorrect(db, peer, order, sets, pol, svc, chain, p);
    EvalConcat(TargetSection(db, peer, order, pol, svc, pcs).value,
        SourceSection(db, peer, order, pol, svc, pcs).value, sets, chain, p);
  }

  lemma {:induction false} PoliciesCorrect(db: Db, peer: Peer, order: seq<int>, sets: seq<NamedSet>,
        pols: seq<Policy>, chain: Chain, p: Packet)
    requires SetsFaithful(db, peer, order, sets)
    requires forall pol :: pol in pols ==>
        Ordinary(db, pol) && OrderCovers(db, order, pol.source) && OrderCovers(db, order, pol.target)
    requires CompilePolicies(db, peer, order, pols).Ok?
    ensures Eval(CompilePolicies(db, peer, order, pols).value, sets, chain, p) == FirstPolicy(db, peer, pols, chain, p)
  {
    if pols != [] {
      assert pols[0] in pols;
      PolicyCorrect(db, peer, order, sets, pols[0], chain, p);
      PoliciesCorrect(db, peer, order, sets, pols[1..], chain, p);
      EvalConcat(CompilePolicy(db, peer, order, pols[0]).value, CompilePolicies(db, peer, order, pols[1..]).value,
          sets, chain, p);
    }
  }

  // ----- the bundle's sets -----

  lemma {:induction false} GroupOrderCovers(db: Db, pols: seq<Policy>)
    ensures forall g :: g in GroupOrder(db, pols) ==> Active(db, g)
    ensures forall i, j :: 0 <= i < j < |GroupOrder(db, pols)| ==> GroupOrder(db, pols)[i] != GroupOrder(db, pols)[j]
    ensures forall pol :: pol in pols ==>
        OrderCovers(db, GroupOrder(db, pols), pol.source) && OrderCovers(db, GroupOrder(db, pols), pol.target)
  {
    if pols != [] {
      var n := |pols| - 1;
      GroupOrderCovers(db, pols[..n]);
      var before := GroupOrder(db, pols[..n]);
      var mid := AddGroup(db, before, pols[n].source);
      var after := AddGroup(db, mid, pols[n].target);
      assert forall g :: g in before ==> g in mid;
      assert forall g :: g in mid ==> g in after;
      forall pol | pol in pols ensures OrderCovers(db, after, pol.source) && OrderCovers(db, after, pol.target) {
        assert pol == pols[n] || pol in pols[..n];
      }
    }
  }

  /** The bundle's groups keep distinct set names after sanitising. */
  predicate DistinctSetNames(db: Db, gids: seq<int>) {
    forall i, j :: 0 <= i < j < |gids| && gids[i] in db.groups && gids[j] in db.groups ==>
      SetName(db.groups[gids[i]].name) != SetName(db.groups[gids[j]].name)
  }

  lemma {:induction false} GroupSetsContents(db: Db, gids: seq<int>)
    requires GroupSets(db, gids).Ok?
    ensures |GroupSets(db, gids).value| == |gids|
    ensures forall i :: 0 <= i < |gids| ==> GroupSet(db, gids[i]) == Ok(GroupSets(db, gids).value[i])
  {
    if gids != [] {
      GroupSetsContents(db, gids[1..]);
    }
  }

  /** A set whose name no other set has is the one a name test looks at. */
  lemma OnlySet(sets: seq<NamedSet>, k: nat, a: Addr)
    requires k < |sets| && forall i :: 0 <= i < |sets| && i != k ==> sets[i].name != sets[k].name
    ensures InSet(sets, sets[k].name, a) <==> InSome(a, sets[k].members)
  {
    assert sets[k] in sets;
    forall s | s in sets && s.name == sets[k].name ensures s == sets[k] {
      var i :| 0 <= i < |sets| && sets[i] == s;
    }
  }

  function GroupName(db: Db, g: int): string { if g in db.groups then db.groups[g].name else "" }

  lemma SetsContents(db: Db, gids: seq<int>, sets: seq<NamedSet>)
    requires GroupSets(db, gids).Ok?
    requires sets == GroupSets(db, gids).value + [NamedSet(PRIVATE_SET, PRIVATE_RANGES)]
    ensures |sets| == |gids| + 1 && sets[|gids|] == NamedSet(PRIVATE_SET, PRIVATE_RANGES)
    ensures forall i :: 0 <= i < |gids| ==> GroupSet(db, gids[i]) == Ok(sets[i])
    ensures forall i :: 0 <= i < |gids| ==> sets[i].name == SetName(GroupName(db, gids[i])) != PRIVATE_SET
  {
    GroupSetsContents(db, gids);
    forall i | 0 <= i < |gids| ensures sets[i].name == SetName(GroupName(db, gids[i])) != PRIVATE_SET {
      assert GroupSet(db, gids[i]) == Ok(sets[i]);
      GroupSetIsNotPrivateSet(GroupName(db, gids[i]));
    }
  }

  lemma GroupSetFaithful(db: Db, gids: seq<int>, sets: seq<NamedSet>, g: int, a: Addr)
    requires GroupSets(db, gids).Ok? && DistinctSetNames(db, gids)
    requires forall h :: h in gids ==> h in db.groups
    requires sets == GroupSets(db, gids).value + [NamedSet(PRIVATE_SET, PRIVATE_RANGES)]
    requires g in gids
    ensures GroupSetMeans(db, sets, g, a)
  {
    SetsContents(db, gids, sets);
    var k :| 0 <= k < |gids| && gids[k] == g;
    assert GroupSet(db, gids[k]) == Ok(sets[k]);
    forall i | 0 <= i < |sets| && i != k ensures sets[i].name != sets[k].name {
      if i < |gids| { assert gids[i] in gids; }
    }
    OnlySet(sets, k, a);
  }

  lemma PrivateSetFaithful(db: Db, gids: seq<int>, sets: seq<NamedSet>, a: Addr)
    requires GroupSets(db, gids).Ok?
    requires sets == GroupSets(db, gids).value + [NamedSet(PRIVATE_SET, PRIVATE_RANGES)]
    ensures InSet(sets, PRIVATE_SET, a) <==> IsPrivate(a)
  {
    SetsContents(db, gids, sets);
    OnlySet(sets, |gids|, a);
  }

  lemma DefinitionsAreFaithful(db: Db, peer: Peer, order: seq<int>)
    requires SetDefinitions(db, peer, order).Ok? && DistinctSetNames(db, order)
    requires forall h :: h in order ==> h in db.groups
    ensures SetsFaithful(db, peer, order, SetDefinitions(db, peer, order).value)
  {
    if peer.hasIpset {
      var sets := SetDefinitions(db, peer, order).value;
      forall a: Addr ensures InSet(sets, PRIVATE_SET, a) <==> IsPrivate(a) { PrivateSetFaithful(db, order, sets, a); }
      forall g, a: Addr | g in order ensures GroupSetMeans(db, sets, g, a) {
        GroupSetFaithful(db, order, sets, g, a);
      }
    }
  }

  // ----- fixed rules -----

  lemma EvalCons(r: Rule, rest: seq<Rule>, sets: seq<NamedSet>, chain: Chain, p: Packet)
    ensures Eval([r] + rest, sets, chain, p)
         == if Hits(r, sets, chain, p) && r.target != LOG then VerdictOf(r.target) else Eval(rest, sets, chain, p)
  {
    assert ([r] + rest)[1..] == rest;
  }

  lemma TwoHold(a: Match, b: Match, sets: seq<NamedSet>, p: Packet)
    ensures AllHold([a, b], sets, p) <==> Holds(a, sets, p) && Holds(b, sets, p)
  {
    assert a in [a, b] && b in [a, b];
  }

  lemma ThreeHold(a: Match, b: Match, c: Match, sets: seq<NamedSet>, p: Packet)
    ensures AllHold([a, b, c], sets, p) <==> Holds(a, sets, p) && Holds(b, sets, p) && Holds(c, sets, p)
  {
    assert a in [a, b, c] && b in [a, b, c] && c in [a, b, c];
  }

  lemma EvalTwo(r: Rule, q: Rule, sets: seq<NamedSet>, chain: Chain, p: Packet)
    ensures Eval([r, q], sets, chain, p)
         == if Hits(r, sets, chain, p) && r.target != LOG then VerdictOf(r.target)
            else if Hits(q, sets, chain, p) && q.target != LOG then VerdictOf(q.target)
            else Undecided
  {
    EvalCons(r, [q], sets, chain, p);
    EvalCons(q, [], sets, chain, p);
    assert [q] + [] == [q] && [r] + [q] == [r, q];
  }

  lemma ControlRulesDecide(port: string, sets: seq<NamedSet>, chain: Chain, p: Packet)
    requires port != ""
    ensures Eval(ControlRules(port), sets, chain, p)
         == if chain != DOCKER_USER && p.proto == "tcp"
               && ((Covers(port, p.dport) && (p.ct == NEW || p.ct == ESTABLISHED))
                  || (Covers(port, p.sport) && p.ct == ESTABLISHED))
            then Accepted else Undecided
  {
    var rules := ControlRules(port);
    ThreeHold(Proto("tcp"), Ports(Dst, port), Conntrack({NEW, ESTABLISHED}), sets, p);
    ThreeHold(Proto("tcp"), Ports(Src, port), Conntrack({ESTABLISHED}), sets, p);
    EvalOneTarget(rules, ACCEPT, sets, chain, p);
    if chain == INPUT {
      assert Fires(rules, ACCEPT, sets, chain, p) <==> Hits(rules[0], sets, chain, p) || Hits(rules[3], sets, chain, p);
    } else if chain == OUTPUT {
      assert Fires(rules, ACCEPT, sets, chain, p) <==> Hits(rules[1], sets, chain, p) || Hits(rules[2], sets, chain, p);
    }
  }

  /** The loopback, ICMP and INVALID rules, which every chain of the host shares. */
  function OpeningRules(): seq<Rule> {
    [Rule(INPUT, [ViaLoopback], ACCEPT), Rule(OUTPUT, [ViaLoopback], ACCEPT)]
    + ([Rule(INPUT, [Proto("icmp"), Conntrack({RELATED})], ACCEPT),
        Rule(OUTPUT, [Proto("icmp"), Conntrack({RELATED})], ACCEPT)]
    + [Rule(INPUT, [Conntrack({INVALID})], DROP), Rule(OUTPUT, [Conntrack({INVALID})], DROP)])
  }

  lemma OpeningRulesDecide(sets: seq<NamedSet>, chain: Chain, p: Packet)
    ensures Eval(OpeningRules(), sets, chain, p)
         == if chain == DOCKER_USER then Undecided
            else if p.loopback then Accepted
            else if p.proto == "icmp" && p.ct == RELATED then Accepted
            else if p.ct == INVALID then Dropped else Undecided
  {
    var lo, im, iv := [ViaLoopback], [Proto("icmp"), Conntrack({RELATED})], [Conntrack({INVALID})];
    SingleHolds(ViaLoopback, sets, p);
    TwoHold(Proto("icmp"), Conntrack({RELATED}), sets, p);
    SingleHolds(Conntrack({INVALID}), sets, p);
    EvalTwo(Rule(INPUT, lo, ACCEPT), Rule(OUTPUT, lo, ACCEPT), sets, chain, p);
    EvalTwo(Rule(INPUT, im, ACCEPT), Rule(OUTPUT, im, ACCEPT), sets, chain, p);
    EvalTwo(Rule(INPUT, iv, DROP), Rule(OUTPUT, iv, DROP), sets, chain, p);
    var a, b, c := [Rule(INPUT, lo, ACCEPT), Rule(OUTPUT, lo, ACCEPT)],
        [Rule(INPUT, im, ACCEPT), Rule(OUTPUT, im, ACCEPT)],
                   [Rule(INPUT, iv, DROP), Rule(OUTPUT, iv, DROP)];
    EvalConcat(b, c, sets, chain, p);
    EvalConcat(a, b + c, sets, chain, p);
  }

  lemma StandardRulesDecide(docker: bool, port: string, sets: seq<NamedSet>, chain: Chain, p: Packet)
    requires port != ""
    ensures Eval(StandardRules(docker, port), sets, chain, p) == StandardVerdict(docker, port, chain, p)
  {
    var im, iv := [Proto("icmp"), Conntrack({RELATED})], [Conntrack({INVALID})];
    var dk := if docker then [Rule(DOCKER_USER, im, ACCEPT), Rule(DOCKER_USER, iv, DROP)] else [];
    assert StandardRules(docker, port) == OpeningRules() + ControlRules(port) + dk;
    OpeningRulesDecide(sets, chain, p);
    ControlRulesDecide(port, sets, chain, p);
    TwoHold(Proto("icmp"), Conntrack({RELATED}), sets, p);
    SingleHolds(Conntrack({INVALID}), sets, p);
    EvalTwo(Rule(DOCKER_USER, im, ACCEPT), Rule(DOCKER_USER, iv, DROP), sets, chain, p);
    EvalConcat(OpeningRules(), ControlRules(port), sets, chain, p);
    EvalConcat(OpeningRules() + ControlRules(port), dk, sets, chain, p);
  }

  lemma DefaultRulesDecide(docker: bool, sets: seq<NamedSet>, chain: Chain, p: Packet)
    ensures Eval(DefaultRules(docker), sets, chain, p) == DefaultVerdict(docker, chain)
  {
    var a, b := [Rule(INPUT, [], LOG), Rule(INPUT, [], DROP)], [Rule(OUTPUT, [], LOG), Rule(OUTPUT, [], DROP)];
    var c := if docker then [Rule(DOCKER_USER, [], RETURN)] else [];
    EvalTwo(a[0], a[1], sets, chain, p);
    EvalTwo(b[0], b[1], sets, chain, p);
    assert DefaultRules(docker) == a + b + c;
    EvalConcat(a, b, sets, chain, p);
    EvalConcat(a + b, c, sets, chain, p);
  }

  // ----- the bundle -----

  /** The whole compiler on every packet, in every chain of the host. */
  lemma CompileCorrect(db: Db, q: int, chain: Chain, p: Packet)
    requires Compile(db, q).Ok?
    requires forall pol :: pol in Applicable(db, db.policies, q) ==> Ordinary(db, pol)
    requires DistinctSetNames(db, GroupOrder(db, Applicable(db, db.policies, q)))
    ensures var b, peer := Compile(db, q).value, FindPeer(db.peers, q).value;
      Eval(b.rules, b.sets, chain, p)
      == OrElse(StandardVerdict(peer.hasDocker, ControlPort(db), chain, p),
         OrElse(FirstPolicy(db, peer, Applicable(db, db.policies, q), chain, p),
                DefaultVerdict(peer.hasDocker, chain)))
  {
    var b, peer, pols := Compile(db, q).value, FindPeer(db.peers, q).value, Applicable(db, db.policies, q);
    var order := GroupOrder(db, pols);
    GroupOrderCovers(db, pols);
    DefinitionsAreFaithful(db, peer, order);
    var rules := CompilePolicies(db, peer, order, pols).value;
    PoliciesCorrect(db, peer, order, b.sets, pols, chain, p);
    StandardRulesDecide(peer.hasDocker, ControlPort(db), b.sets, chain, p);
    DefaultRulesDecide(peer.hasDocker, b.sets, chain, p);
    EvalConcat(StandardRules(peer.hasDocker, ControlPort(db)), rules, b.sets, chain, p);
    EvalConcat(StandardRules(peer.hasDocker, ControlPort(db)) + rules, DefaultRules(peer.hasDocker), b.sets, chain, p);
  }

  /** No policy list, ordinary or not, can override the standard prefix: loopback and control-plane
      traffic stays open and other invalid packets stay dropped. */
  lemma StandardPrefixWins(db: Db, q: int, chain: Chain, p: Packet)
    requires Compile(db, q).Ok? && chain != DOCKER_USER
    ensures var b := Compile(db, q).value;
      var control := p.proto == "tcp"
        && ((Covers(ControlPort(db), p.dport) && p.ct in {NEW, ESTABLISHED})
           || (Covers(ControlPort(db), p.sport) && p.ct == ESTABLISHED));
      && (p.loopback || control ==> Eval(b.rules, b.sets, chain, p) == Accepted)
      && (!p.loopback && p.ct == INVALID ==> Eval(b.rules, b.sets, chain, p) == Dropped)
  {
    var b, peer := Compile(db, q).value, FindPeer(db.peers, q).value;
    var std := StandardRules(peer.hasDocker, ControlPort(db));
    var pols := Applicable(db, db.policies, q);
    var rest := CompilePolicies(db, peer, GroupOrder(db, pols), pols).value + DefaultRules(peer.hasDocker);
    StandardRulesDecide(peer.hasDocker, ControlPort(db), b.sets, chain, p);
    assert b.rules == std + rest;
    EvalConcat(std, rest, b.sets, chain, p);
  }
}
