/** The back ends of the compiler agree with each other, and the two ends of a policy agree. */
module Backends {
  import opened Wrappers
  import opened PortText
  import opened Netfilter
  import opened Catalog
  import opened RuleBuilder
  import opened Bundle
  import opened PolicyMeaning
  import opened PolicyView
  import opened CompilerProofs
  import FanOut

  // ----- internet: named set against explicit negations -----

  predicate Between(a: Addr, lo: Addr, hi: Addr) { lo <= a <= hi }

  /** The private ranges are those of section 3 of RFC 1918 and the loopback network. */
  lemma PrivateRangesAreRfc1918(a: Addr)
    ensures IsPrivate(a) <==>
      || Between(a, Dotted(10, 0, 0, 0), Dotted(10, 255, 255, 255))
      || Between(a, Dotted(172, 16, 0, 0), Dotted(172, 31, 255, 255))
      || Between(a, Dotted(192, 168, 0, 0), Dotted(192, 168, 255, 255))
      || Between(a, Dotted(127, 0, 0, 0), Dotted(127, 255, 255, 255))
  {
    Pow2Values();
    var r := PRIVATE_RANGES;
    RangeTen(a);
    Range172(a);
    Range192(a);
    RangeLoopback(a);
    assert IsPrivate(a) <==> InPrefix(a, r[0]) || InPrefix(a, r[1]) || InPrefix(a, r[2]) || InPrefix(a, r[3]) by {
      FourRanges(a, r);
    }
  }

  lemma RangeTen(a: Addr)
    requires Pow2(24) == 0x100_0000
    ensures InPrefix(a, Net4(Dotted(10, 0, 0, 0), 8)) <==> Between(a, Dotted(10, 0, 0, 0), Dotted(10, 255, 255, 255))
  {
  }

  lemma Range172(a: Addr)
    requires Pow2(20) == 0x10_0000
    ensures InPrefix(a, Net4(Dotted(172, 16, 0, 0), 12)) <==>
        Between(a, Dotted(172, 16, 0, 0), Dotted(172, 31, 255, 255))
  {
  }

  lemma Range192(a: Addr)
    requires Pow2(16) == 0x1_0000
    ensures InPrefix(a, Net4(Dotted(192, 168, 0, 0), 16)) <==>
        Between(a, Dotted(192, 168, 0, 0), Dotted(192, 168, 255, 255))
  {
  }

  lemma RangeLoopback(a: Addr)
    requires Pow2(24) == 0x100_0000
    ensures InPrefix(a, Net4(Dotted(127, 0, 0, 0), 8)) <==> Between(a, Dotted(127, 0, 0, 0), Dotted(127, 255, 255, 255))
  {
  }

  lemma FourRanges(a: Addr, r: seq<Address>)
    requires |r| == 4
    ensures InSome(a, r) <==> InPrefix(a, r[0]) || InPrefix(a, r[1]) || InPrefix(a, r[2]) || InPrefix(a, r[3])
  {
    assert r[0] in r && r[1] in r && r[2] in r && r[3] in r;
    assert forall n :: n in r ==> n == r[0] || n == r[1] || n == r[2] || n == r[3];
  }

  /** What an internet block decides: public far addresses with the block's ports. */
  predicate InternetSays(action: Action, ctx: Ctx, pcs: seq<PortClause>, chain: Chain, p: Packet) {
    || (&& PrimaryOpen(Egress, ctx, chain) && !IsPrivate(p.dst)
        && (if action == AcceptAction then SomeClause(pcs, ctx.noConntrack, p) else SomeRefusal(pcs, p)))
    || (&& action == AcceptAction && chain == INPUT && ctx.host && !IsPrivate(p.src)
        && SomeClause(pcs, ctx.noConntrack, Reverse(p)))
  }

  lemma InternetDecides(action: Action, end: FarEnd, ctx: Ctx, pcs: seq<PortClause>, sets: seq<NamedSet>,
        chain: Chain, p: Packet)
    requires action != OtherAction && (end == ByInternetSet || end == ByInternetPlain)
    requires forall a: Addr :: InSet(sets, PRIVATE_SET, a) <==> IsPrivate(a)
    ensures var rules := WriteRules(action, Egress, end, false, ctx, pcs);
      && rules.Ok?
      && Eval(rules.value, sets, chain, p)
         == if InternetSays(action, ctx, pcs, chain, p) then ActionVerdict(action) else Undecided
  {
    if pcs != [] {
      var f := if end == ByInternetSet then OutsidePrivateSet else OutsidePrivatePlain;
      assert FarTestsOf(end, ctx.ip) == Ok([f]);
      SectionDecides(action, Egress, end, false, ctx, pcs, sets, chain, p);
      OneFarTest(f, sets, p.src);
      OneFarTest(f, sets, p.dst);
    }
  }

  /** For every action, scope, clause list and conntrack flag both forms decide every packet alike:
      exactly those whose far address is public and whose ports the block names. */
  lemma InternetBackendsAgree(action: Action, ctx: Ctx, pcs: seq<PortClause>, sets: seq<NamedSet>, chain: Chain,
        p: Packet)
    requires action != OtherAction
    requires forall a: Addr :: InSet(sets, PRIVATE_SET, a) <==> IsPrivate(a)
    ensures var viaSet, plain := WriteRules(action, Egress, ByInternetSet, false, ctx, pcs),
        WriteRules(action, Egress, ByInternetPlain, false, ctx, pcs);
      && viaSet.Ok? && plain.Ok?
      && Eval(viaSet.value, sets, chain, p) == Eval(plain.value, sets, chain, p)
         == if InternetSays(action, ctx, pcs, chain, p) then ActionVerdict(action) else Undecided
  {
    InternetDecides(action, ByInternetSet, ctx, pcs, sets, chain, p);
    InternetDecides(action, ByInternetPlain, ctx, pcs, sets, chain, p);
  }

  // ----- groups: named set against one rule per prefix -----

  /** The address of the far end that a chain's rules look at. */
  function FarAddr(s: Section, chain: Chain, p: Packet): Addr {
    AddrOf(if chain == ReplyChain(s) then Flip(FarSide(s)) else FarSide(s), p)
  }

  lemma FilteringKeepsOthers(nets: seq<Address>, ip: Address, a: Addr)
    requires FilterSelf(nets, ip).Ok?
    requires ip != Empty ==> !InPrefix(a, NormalizeToCidr(ip))
    ensures InSome(a, FilterSelf(nets, ip).value) <==> InSome(a, nets)
  {
  }

  /** For host scope, the set form and the prefix form of the same group decide alike whenever the
      far address is outside the host's own prefix. */
  lemma GroupBackendsAgree(action: Action, s: Section, name: string, nets: seq<Address>, ctx: Ctx,
        pcs: seq<PortClause>, sets: seq<NamedSet>, chain: Chain, p: Packet)
    requires action != OtherAction && ctx.host
    requires forall a: Addr :: InSet(sets, name, a) <==> InSome(a, nets)
    requires WriteRules(action, s, ByCidrs(nets), false, ctx, pcs).Ok?
    requires ctx.ip != Empty ==> !InPrefix(FarAddr(s, chain, p), NormalizeToCidr(ctx.ip))
    ensures WriteRules(action, s, BySet(name), false, ctx, pcs).Ok?
    ensures Eval(WriteRules(action, s, BySet(name), false, ctx, pcs).value, sets, chain, p)
         == Eval(WriteRules(action, s, ByCidrs(nets), false, ctx, pcs).value, sets, chain, p)
  {
    if pcs != [] {
      var a := FarAddr(s, chain, p);
      SectionDecides(action, s, BySet(name), false, ctx, pcs, sets, chain, p);
      SectionDecides(action, s, ByCidrs(nets), false, ctx, pcs, sets, chain, p);
      OneFarTest(Named(name), sets, a);
      NetsHold(FilterSelf(nets, ctx.ip).value, sets, a);
      FilteringKeepsOthers(nets, ctx.ip, a);
    }
  }

  // ----- replies -----

  /** Reply closure, with its exact limits. A flow of the block is open in the primary chain when
      the scope names the host; its reversal is open in the reply chain under the same condition,
      except that prefix egress opens it for every scope. */
  lemma ReplyClosure(s: Section, end: FarEnd, ctx: Ctx, pcs: seq<PortClause>, sets: seq<NamedSet>, p: Packet)
    requires pcs != [] && WriteRules(AcceptAction, s, end, false, ctx, pcs).Ok?
    ensures var rules := WriteRules(AcceptAction, s, end, false, ctx, pcs).value;
      var flow := SomeFar(FarTestsOf(end, ctx.ip).value, sets, AddrOf(FarSide(s), p))
          && SomeClause(pcs, ctx.noConntrack, p);
      && (Fires(rules, ACCEPT, sets, PrimaryChain(s), p) <==> ctx.host && flow)
      && (Fires(rules, ACCEPT, sets, ReplyChain(s), Reverse(p)) <==> (ctx.host || RepliesLast(s, end)) && flow)
      && (ctx.host ==> (Fires(rules, ACCEPT, sets, PrimaryChain(s), p) <==>
         Fires(rules, ACCEPT, sets, ReplyChain(s), Reverse(p))))
  {
    var far := FarTestsOf(end, ctx.ip).value;
    AcceptBlockFires(s, end, far, far, ctx, pcs, sets, PrimaryChain(s), p);
    AcceptBlockFires(s, end, far, far, ctx, pcs, sets, ReplyChain(s), Reverse(p));
    assert Reverse(Reverse(p)) == p;
  }

  // ----- both ends of a policy -----

  /** The text under which a host appears in an end it belongs to. */
  function WrittenAddress(e: End, host: Peer): Address {
    NormalizeToCidr(if e.kind == PeerKind && e.pin != Empty then e.pin else host.ip)
  }

  lemma {:induction false} MemberIsListed(members: seq<Member>, peers: seq<Peer>, gid: int, host: Peer)
    requires Member(gid, host.id) in members && FindPeer(peers, host.id) == Some(host)
    ensures host.ip in MemberAddresses(members, peers, gid)
  {
    var n := |members| - 1;
    if members[n] != Member(gid, host.id) {
      MemberIsListed(members[..n], peers, gid, host);
    }
  }

  /** A member of an end belongs to it in every other host's eyes. */
  lemma MemberBelongs(db: Db, viewer: Peer, e: End, host: Peer, a: Addr)
    requires EndHas(db, e, host.id) && FindPeer(db.peers, host.id) == Some(host)
    requires InPrefix(a, WrittenAddress(e, host)) && !IsSelf(viewer, WrittenAddress(e, host))
    requires if AsSet(db, viewer, e) then GroupNets(db, e.id).Ok? else ResolveEnd(db, e, viewer.ip).Ok?
    ensures Belongs(db, viewer, e, a)
  {
    if e.kind == GroupKind {
      var rows := GroupRows(db, e.id);
      MemberIsListed(db.members, db.peers, e.id, host);
      NormalisedContents(rows);
      var i :| 0 <= i < |rows| && rows[i] == host.ip;
      assert WrittenAddress(e, host) in GroupNets(db, e.id).value;
    } else {
      assert WrittenAddress(e, host) in ResolveEnd(db, e, viewer.ip).value;
    }
  }

  /** `host` is in the tables and part of the end, and `viewer` writes its address, which covers `a`. */
  predicate StandsFor(db: Db, viewer: Peer, e: End, host: Peer, a: Addr) {
    && FindPeer(db.peers, host.id) == Some(host) && EndHas(db, e, host.id)
    && InPrefix(a, WrittenAddress(e, host)) && (AsSet(db, viewer, e) || !IsSelf(viewer, WrittenAddress(e, host)))
  }

  lemma {:induction false} ListedIsMember(members: seq<Member>, peers: seq<Peer>, gid: int, ip: Address)
        returns (host: Peer)
    requires ip in MemberAddresses(members, peers, gid)
    ensures Member(gid, host.id) in members && FindPeer(peers, host.id) == Some(host) && host.ip == ip
  {
    var n := |members| - 1;
    var found := FindPeer(peers, members[n].peer);
    if members[n].group == gid && found.Some? && found.value.ip == ip {
      host := found.value;
      assert members[n] == Member(gid, host.id);
    } else {
      host := ListedIsMember(members[..n], peers, gid, ip);
    }
  }

  /** An address of a group end is the written address of a member. */
  lemma NetHasMember(db: Db, e: End, n: Address) returns (host: Peer)
    requires e.kind == GroupKind && GroupNets(db, e.id).Ok? && n in GroupNets(db, e.id).value
    ensures FindPeer(db.peers, host.id) == Some(host) && EndHas(db, e, host.id) && WrittenAddress(e, host) == n
  {
    var rows := GroupRows(db, e.id);
    NormalisedContents(rows);
    var i :| 0 <= i < |rows| && NormalizeToCidr(rows[i]) == n;
    host := ListedIsMember(db.members, db.peers, e.id, rows[i]);
  }

  /** What belonging amounts to in terms of the tables: exactly the addresses written for the peers
      of the end, the viewer's own left out where it writes prefixes; a pinned end is its pin. */
  lemma BelongsIffMember(db: Db, viewer: Peer, e: End, a: Addr)
    requires e.kind != SpecialKind
    requires if AsSet(db, viewer, e) then GroupNets(db, e.id).Ok? else ResolveEnd(db, e, viewer.ip).Ok?
    ensures e.kind == GroupKind || e.pin == Empty ==>
      (Belongs(db, viewer, e, a) <==> exists host :: host in db.peers && StandsFor(db, viewer, e, host, a))
    ensures e.kind == PeerKind && e.pin != Empty ==>
      (Belongs(db, viewer, e, a) <==> InPrefix(a, NormalizeToCidr(e.pin)) && !IsSelf(viewer, NormalizeToCidr(e.pin)))
  {
    forall host | host in db.peers && StandsFor(db, viewer, e, host, a) ensures Belongs(db, viewer, e, a) {
      if AsSet(db, viewer, e) {
        SetMemberBelongs(db, viewer, e, host, a);
      } else {
        MemberBelongs(db, viewer, e, host, a);
      }
    }
    if Belongs(db, viewer, e, a) {
      if e.kind == GroupKind {
        var nets := GroupNets(db, e.id).value;
        var n :| n in nets && InPrefix(a, n) && (AsSet(db, viewer, e) || !IsSelf(viewer, n));
        var host := NetHasMember(db, e, n);
        assert StandsFor(db, viewer, e, host, a);
      } else if e.pin == Empty {
        assert StandsFor(db, viewer, e, FindPeer(db.peers, e.id).value, a);
      }
    }
  }

  lemma SetMemberBelongs(db: Db, viewer: Peer, e: End, host: Peer, a: Addr)
    requires AsSet(db, viewer, e) && GroupNets(db, e.id).Ok? && StandsFor(db, viewer, e, host, a)
    ensures Belongs(db, viewer, e, a)
  {
    var rows := GroupRows(db, e.id);
    MemberIsListed(db.members, db.peers, e.id, host);
    NormalisedContents(rows);
    var i :| 0 <= i < |rows| && rows[i] == host.ip;
    assert WrittenAddress(e, host) in GroupNets(db, e.id).value;
  }

  /** Packets from A to B: the egress section of a policy in A's bundle and its ingress section in
      B's bundle give the same verdict. */
  lemma BothEndsAgree(db: Db, a: Peer, orderA: seq<int>, setsA: seq<NamedSet>, b: Peer, orderB: seq<int>,
        setsB: seq<NamedSet>,
                      pol: Policy, svc: Service, p: Packet)
    requires SetsFaithful(db, a, orderA, setsA) && SetsFaithful(db, b, orderB, setsB)
    requires OrderCovers(db, orderA, pol.target) && OrderCovers(db, orderB, pol.source)
    requires FindPeer(db.peers, a.id) == Some(a) && FindPeer(db.peers, b.id) == Some(b)
    requires EndHas(db, pol.source, a.id) && EndHas(db, pol.target, b.id)
    requires pol.action == AcceptAction && pol.direction == BothWays && ToHost(pol.scope)
    requires svc.role == Plain && ClausesOf(svc).Ok?
    requires SourceSection(db, a, orderA, pol, svc, ClausesOf(svc).value).Ok?
    requires TargetSection(db, b, orderB, pol, svc, ClausesOf(svc).value).Ok?
    requires InPrefix(p.src, WrittenAddress(pol.source, a)) && InPrefix(p.dst, WrittenAddress(pol.target, b))
    requires !IsSelf(b, WrittenAddress(pol.source, a)) && !IsSelf(a, WrittenAddress(pol.target, b))
    ensures Eval(SourceSection(db, a, orderA, pol, svc, ClausesOf(svc).value).value, setsA, OUTPUT, p)
         == Eval(TargetSection(db, b, orderB, pol, svc, ClausesOf(svc).value).value, setsB, INPUT, p)
         == if Serves(svc, p) then Accepted else Undecided
  {
    SourceSectionCorrect(db, a, orderA, setsA, pol, svc, OUTPUT, p);
    TargetSectionCorrect(db, b, orderB, setsB, pol, svc, INPUT, p);
    if AsSet(db, a, pol.target) { assert GroupSetMeans(db, setsA, pol.target.id, p.dst); }
    if AsSet(db, b, pol.source) { assert GroupSetMeans(db, setsB, pol.source.id, p.src); }
    MemberBelongs(db, a, pol.target, b, p.dst);
    MemberBelongs(db, b, pol.source, a, p.src);
  }

  // ----- what address matches hold -----

  /** Every address a rule matches on satisfies `ok`. */
  predicate MatchesOnly(ms: seq<Match>, ok: Address -> bool) {
    forall i :: 0 <= i < |ms| ==> (ms[i].Within? || ms[i].Outside? ==> ok(ms[i].net))
  }

  predicate UsesOnly(rules: seq<Rule>, ok: Address -> bool) {
    forall i :: 0 <= i < |rules| ==> MatchesOnly(rules[i].matches, ok)
  }

  /** The addresses the builders add on their own. */
  predicate AdmitsFixed(ok: Address -> bool) {
    ok(ANYWHERE) && forall n :: n in PRIVATE_RANGES ==> ok(n)
  }

  lemma UsesOnlyConcat(a: seq<Rule>, b: seq<Rule>, ok: Address -> bool)
    requires UsesOnly(a, ok) && UsesOnly(b, ok)
    ensures UsesOnly(a + b, ok)
  {
  }

  predicate FarOnly(f: Far, ok: Address -> bool) { f.OneNet? ==> ok(f.net) }

  lemma LineUsesOnly(f: Far, side: Side, proto: string, rest: seq<Match>, ok: Address -> bool)
    requires AdmitsFixed(ok) && FarOnly(f, ok) && MatchesOnly(rest, ok)
    ensures MatchesOnly(Line(f, side, proto, rest), ok)
  {
    NegationsUseOnly(side, PRIVATE_RANGES, ok);
    assert MatchesOnly(FarTests(f, side), ok);
    assert MatchesOnly([Proto(proto)], ok);
  }

  lemma {:induction false} NegationsUseOnly(side: Side, nets: seq<Address>, ok: Address -> bool)
    requires forall n :: n in nets ==> ok(n)
    ensures MatchesOnly(Negations(side, nets), ok)
  {
    if nets != [] {
      assert nets[0] in nets;
      NegationsUseOnly(side, nets[1..], ok);
    }
  }

  lemma OneFarUsesOnly(action: Action, s: Section, withReply: bool, f: Far, ctx: Ctx, pc: PortClause,
        ok: Address -> bool)
    requires AdmitsFixed(ok) && FarOnly(f, ok)
    ensures UsesOnly(OneFar(s, withReply, f, ctx, pc), ok)
    ensures UsesOnly([ReplyRule(s, f, ctx, pc)], ok)
    ensures UsesOnly(DropOne(action, s, f, ctx, pc), ok)
  {
    BuiltMatchesUseOnly(s, f, ctx, pc, ok);
    var reply := if ctx.host && withReply then [ReplyRule(s, f, ctx, pc)] else [];
    UsesOnlyConcat(PrimaryRules(s, f, ctx, pc), reply, ok);
    UsesOnlyConcat(PrimaryRules(s, f, ctx, pc) + reply, DockerRules(s, f, ctx, pc), ok);
    var ms := DropMatches(s, f, pc);
    var host := if ctx.host then DropRules(action, PrimaryChain(s), ms) else [];
    var docker := if ctx.docker then DropRules(action, DOCKER_USER, ms) else [];
    UsesOnlyConcat(host, docker, ok);
  }

  lemma BuiltMatchesUseOnly(s: Section, f: Far, ctx: Ctx, pc: PortClause, ok: Address -> bool)
    requires AdmitsFixed(ok) && FarOnly(f, ok)
    ensures MatchesOnly(PrimaryMatches(s, f, ctx, pc), ok)
    ensures MatchesOnly(ReplyMatches(s, f, ctx, pc), ok)
    ensures MatchesOnly(DropMatches(s, f, pc), ok)
  {
    LineUsesOnly(f, FarSide(s), pc.proto, PrimaryPorts(pc) + CtTests(ctx.noConntrack), ok);
    LineUsesOnly(f, Flip(FarSide(s)), pc.proto, ReplyPorts(pc) + CtTests(ctx.noConntrack), ok);
    LineUsesOnly(f, FarSide(s), pc.proto, PortTest(Dst, pc.dports), ok);
  }

  lemma {:induction false} BlockUsesOnly(action: Action, s: Section, end: FarEnd, far: seq<Far>, reply: seq<Far>,
        ctx: Ctx,
                                         pcs: seq<PortClause>, ok: Address -> bool)
    requires AdmitsFixed(ok) && forall f :: f in far || f in reply ==> FarOnly(f, ok)
    ensures UsesOnly(Block(action, s, end, far, reply, ctx, pcs), ok)
  {
    if pcs != [] {
      var n := |pcs| - 1;
      BlockUsesOnly(action, s, end, far, reply, ctx, pcs[..n], ok);
      PerFarUsesOnly(action, s, !RepliesLast(s, end), far, ctx, pcs[n], ok);
      PerFarUsesOnly(action, s, true, reply, ctx, pcs[n], ok);
    }
  }

  lemma {:induction false} PerFarUsesOnly(action: Action, s: Section, withReply: bool, far: seq<Far>, ctx: Ctx,
        pc: PortClause, ok: Address -> bool)
    requires AdmitsFixed(ok) && forall f :: f in far ==> FarOnly(f, ok)
    ensures UsesOnly(PerFar(s, withReply, far, ctx, pc), ok)
    ensures UsesOnly(Replies(s, far, ctx, pc), ok)
    ensures UsesOnly(DropClause(action, s, far, ctx, pc), ok)
  {
    if far != [] {
      var n := |far| - 1;
      PerFarUsesOnly(action, s, withReply, far[..n], ctx, pc, ok);
      OneFarUsesOnly(action, s, withReply, far[n], ctx, pc, ok);
    }
  }

  predicate EndOnly(end: FarEnd, ok: Address -> bool) { end.ByCidrs? ==> forall n :: n in end.nets ==> ok(n) }

  lemma WriteRulesUsesOnly(action: Action, s: Section, end: FarEnd, multicast: bool, ctx: Ctx, pcs: seq<PortClause>,
        ok: Address -> bool)
    requires AdmitsFixed(ok) && EndOnly(end, ok) && WriteRules(action, s, end, multicast, ctx, pcs).Ok?
    ensures UsesOnly(WriteRules(action, s, end, multicast, ctx, pcs).value, ok)
  {
    if pcs != [] {
      var far, reply := FarTestsOf(end, ctx.ip).value, FarTestsOf(ReplyEnd(end, multicast, ctx), ctx.ip).value;
      BlockUsesOnly(action, s, end, far, reply, ctx, pcs, ok);
    }
  }

  function Unmarked(): Address -> bool { a => !IsMarker(a) }

  function Readable(): Address -> bool { a => IsPrefix(a) }

  /** `writeRules` never puts the marker, bare or normalised, into an address match, whatever it is
      given. */
  lemma WriteRulesMarkerFree(action: Action, s: Section, end: FarEnd, multicast: bool, ctx: Ctx, pcs: seq<PortClause>)
    requires WriteRules(action, s, end, multicast, ctx, pcs).Ok?
    ensures UsesOnly(WriteRules(action, s, end, multicast, ctx, pcs).value, Unmarked())
  {
    WriteRulesUsesOnly(action, s, end, multicast, ctx, pcs, Unmarked());
  }

  // ----- every address of a bundle is a prefix -----

  /** What a resolved end may hold: prefixes, or the marker alone. */
  predicate Resolved(nets: seq<Address>) { nets == [InternetMarker] || forall n :: n in nets ==> IsPrefix(n) }

  lemma {:induction false} AllPeerNetsArePrefixes(peers: seq<Peer>)
    requires AllPeerNets(peers).Ok?
    ensures forall n :: n in AllPeerNets(peers).value ==> IsPrefix(n)
  {
    if peers != [] { AllPeerNetsArePrefixes(peers[1..]); }
  }

  lemma GroupNetsArePrefixes(db: Db, gid: int)
    requires GroupNets(db, gid).Ok?
    ensures forall n :: n in GroupNets(db, gid).value ==> IsPrefix(n)
  {
    NormalisedContents(GroupRows(db, gid));
  }

  lemma SpecialResolves(db: Db, id: int, ip: Address)
    requires ResolveSpecial(db, id, ip).Ok?
    ensures Resolved(ResolveSpecial(db, id, ip).value)
    ensures id != INTERNET ==> forall n :: n in ResolveSpecial(db, id, ip).value ==> IsPrefix(n)
  {
    if id == ALL_PEERS { AllPeerNetsArePrefixes(db.peers); }
  }

  lemma EndResolves(db: Db, e: End, ip: Address)
    requires ResolveEnd(db, e, ip).Ok?
    ensures Resolved(ResolveEnd(db, e, ip).value)
  {
    if e.kind == SpecialKind {
      SpecialResolves(db, e.id, ip);
    } else if e.kind == GroupKind {
      GroupNetsArePrefixes(db, e.id);
    }
  }

  /** Whatever an end resolves to, the written rules hold prefixes only: the guard stops the marker. */
  lemma ResolvedRulesAreReadable(action: Action, s: Section, nets: seq<Address>, multicast: bool, ctx: Ctx,
        pcs: seq<PortClause>)
    requires Resolved(nets) && WriteRules(action, s, ByCidrs(nets), multicast, ctx, pcs).Ok?
    ensures UsesOnly(WriteRules(action, s, ByCidrs(nets), multicast, ctx, pcs).value, Readable())
  {
    assert InternetMarker in [InternetMarker];
    WriteRulesUsesOnly(action, s, ByCidrs(nets), multicast, ctx, pcs, Readable());
  }

  lemma {:induction false} BroadcastUsesOnly(ctx: Ctx, nets: seq<Address>, proto: string, ok: Address -> bool)
    requires forall n :: n in nets ==> ok(n)
    ensures UsesOnly(BroadcastAll(ctx, nets, proto), ok)
  {
    if nets != [] {
      BroadcastUsesOnly(ctx, nets[1..], proto, ok);
      assert nets[0] in nets;
    }
  }

  lemma BroadcastSectionReadable(db: Db, peer: Peer, order: seq<int>, pol: Policy, svc: Service, pcs: seq<PortClause>)
    requires RunsIngress(db, pol, peer.id) && IsBroadcastEnd(pol.source)
        && TargetSection(db, peer, order, pol, svc, pcs).Ok?
    ensures UsesOnly(TargetSection(db, peer, order, pol, svc, pcs).value, Readable())
  {
    SpecialResolves(db, pol.source.id, peer.ip);
    BroadcastUsesOnly(CtxOf(peer, pol, svc), ResolveSpecial(db, pol.source.id, peer.ip).value, svc.proto, Readable());
  }

  lemma MulticastReadable(action: Action, ctx: Ctx)
    ensures UsesOnly(MulticastRules(action, ctx), Readable()) && UsesOnly(MulticastEgress(ctx), Readable())
  {
  }

  lemma EndForReadable(action: Action, s: Section, db: Db, peer: Peer, order: seq<int>, e: End, multicast: bool,
        ctx: Ctx, pcs: seq<PortClause>)
    requires EndFor(db, peer, order, e).Ok?
        && WriteRules(action, s, EndFor(db, peer, order, e).value, multicast, ctx, pcs).Ok?
    ensures UsesOnly(WriteRules(action, s, EndFor(db, peer, order, e).value, multicast, ctx, pcs).value, Readable())
  {
    var end := EndFor(db, peer, order, e).value;
    if end.ByCidrs? {
      EndResolves(db, e, peer.ip);
      ResolvedRulesAreReadable(action, s, end.nets, multicast, ctx, pcs);
    } else {
      WriteRulesUsesOnly(action, s, end, multicast, ctx, pcs, Readable());
    }
  }

  lemma TargetReadable(db: Db, peer: Peer, order: seq<int>, pol: Policy, svc: Service, pcs: seq<PortClause>)
    requires TargetSection(db, peer, order, pol, svc, pcs).Ok?
    ensures UsesOnly(TargetSection(db, peer, order, pol, svc, pcs).value, Readable())
  {
    var ctx := CtxOf(peer, pol, svc);
    if RunsIngress(db, pol, peer.id) {
      if IsBroadcastEnd(pol.source) {
        BroadcastSectionReadable(db, peer, order, pol, svc, pcs);
      } else if IsMulticastEnd(pol.source) || svc.role == MulticastRole {
        MulticastReadable(pol.action, ctx);
      } else {
        TargetSectionIsBlock(db, peer, order, pol, svc, pcs);
        EndForReadable(pol.action, Ingress, db, peer, order, pol.source, false, ctx, pcs);
      }
    }
  }

  lemma SourceReadable(db: Db, peer: Peer, order: seq<int>, pol: Policy, svc: Service, pcs: seq<PortClause>)
    requires SourceSection(db, peer, order, pol, svc, pcs).Ok?
    ensures UsesOnly(SourceSection(db, peer, order, pol, svc, pcs).value, Readable())
  {
    var ctx := CtxOf(peer, pol, svc);
    MulticastReadable(pol.action, ctx);
    if RunsEgress(db, pol, peer.id) && (svc.role != MulticastRole || IsInternetEnd(pol.target)) {
      EndForReadable(pol.action, Egress, db, peer, order, pol.target, IsMulticastEnd(pol.target), ctx, pcs);
    }
  }

  lemma FixedServicesReadable(ctx: Ctx)
    ensures UsesOnly(IgmpRules(ctx), Readable()) && UsesOnly(VrrpRules(ctx), Readable())
  {
  }

  lemma PolicyReadable(db: Db, peer: Peer, order: seq<int>, pol: Policy)
    requires CompilePolicy(db, peer, order, pol).Ok?
    ensures UsesOnly(CompilePolicy(db, peer, order, pol).value, Readable())
  {
    var svc := LiveService(db, pol.service).value;
    var pcs := ClausesOf(svc).value;
    if svc.role == IgmpRole || svc.role == VrrpRole {
      FixedServicesReadable(CtxOf(peer, pol, svc));
    } else {
      var ingress := TargetSection(db, peer, order, pol, svc, pcs).value;
      var egress := SourceSection(db, peer, order, pol, svc, pcs).value;
      TargetReadable(db, peer, order, pol, svc, pcs);
      SourceReadable(db, peer, order, pol, svc, pcs);
      UsesOnlyConcat(ingress, egress, Readable());
    }
  }

  lemma {:induction false} PoliciesReadable(db: Db, peer: Peer, order: seq<int>, pols: seq<Policy>)
    requires CompilePolicies(db, peer, order, pols).Ok?
    ensures UsesOnly(CompilePolicies(db, peer, order, pols).value, Readable())
  {
    if pols != [] {
      PolicyReadable(db, peer, order, pols[0]);
      PoliciesReadable(db, peer, order, pols[1..]);
      var first, rest := CompilePolicy(db, peer, order, pols[0]).value,
          CompilePolicies(db, peer, order, pols[1..]).value;
      UsesOnlyConcat(first, rest, Readable());
    }
  }

  /** Every address match of a successful compile is a prefix iptables can read; in particular the
      internet marker, bare or normalised, is in none. */
  lemma BundleAddressesAreReadable(db: Db, q: int)
    requires Compile(db, q).Ok?
    ensures UsesOnly(Compile(db, q).value.rules, Readable())
    ensures UsesOnly(Compile(db, q).value.rules, Unmarked())
  {
    var peer, pols := FindPeer(db.peers, q).value, Applicable(db, db.policies, q);
    PoliciesReadable(db, peer, GroupOrder(db, pols), pols);
    var std, def := StandardRules(peer.hasDocker, ControlPort(db)), DefaultRules(peer.hasDocker);
    var rest := CompilePolicies(db, peer, GroupOrder(db, pols), pols).value;
    StandardReadable(peer.hasDocker, ControlPort(db));
    UsesOnlyConcat(std, rest, Readable());
    UsesOnlyConcat(std + rest, def, Readable());
  }

  lemma StandardReadable(docker: bool, port: string)
    ensures UsesOnly(StandardRules(docker, port), Readable()) && UsesOnly(DefaultRules(docker), Readable())
  {
  }

  // ----- broadcast sources ignore the action -----

  predicate ChainOpen(ctx: Ctx, chain: Chain) { (chain == INPUT && ctx.host) || (chain == DOCKER_USER && ctx.docker) }

  lemma {:induction false} BroadcastAllDecides(ctx: Ctx, nets: seq<Address>, proto: string, sets: seq<NamedSet>,
        chain: Chain, p: Packet)
    ensures Eval(BroadcastAll(ctx, nets, proto), sets, chain, p)
         == if ChainOpen(ctx, chain) && InSome(p.dst, nets) && p.proto == BroadcastProto(proto) then Accepted
            else Undecided
  {
    if nets != [] {
      BroadcastAllDecides(ctx, nets[1..], proto, sets, chain, p);
      EvalConcat(BroadcastRules(ctx, nets[0], proto), BroadcastAll(ctx, nets[1..], proto), sets, chain, p);
      BroadcastOneDecides(ctx, nets[0], proto, sets, chain, p);
      assert nets == [nets[0]] + nets[1..];
      assert InSome(p.dst, nets) <==> InPrefix(p.dst, nets[0]) || InSome(p.dst, nets[1..]) by {
        if InPrefix(p.dst, nets[0]) { assert nets[0] in nets; }
        if n :| n in nets[1..] && InPrefix(p.dst, n) { assert n in nets; }
      }
    }
  }

  lemma BroadcastOneDecides(ctx: Ctx, net: Address, proto: string, sets: seq<NamedSet>, chain: Chain, p: Packet)
    ensures Eval(BroadcastRules(ctx, net, proto), sets, chain, p)
         == if ChainOpen(ctx, chain) && InPrefix(p.dst, net) && p.proto == BroadcastProto(proto) then Accepted
            else Undecided
  {
    var ms := [Within(Dst, net), Proto(BroadcastProto(proto))];
    TwoHold(ms[0], ms[1], sets, p);
    var host := if ctx.host then [Rule(INPUT, ms, ACCEPT)] else [];
    var docker := if ctx.docker then [Rule(DOCKER_USER, ms, ACCEPT)] else [];
    EvalConcat(host, docker, sets, chain, p);
    EvalCons(Rule(INPUT, ms, ACCEPT), [], sets, chain, p);
    EvalCons(Rule(DOCKER_USER, ms, ACCEPT), [], sets, chain, p);
    assert forall r: Rule :: [r] + [] == [r];
  }

  /** A policy whose source is a broadcast special accepts what is sent to the broadcast addresses,
      even when its action is DROP or LOG_DROP. */
  lemma BroadcastSourceAlwaysAccepts(db: Db, peer: Peer, order: seq<int>, pol: Policy, svc: Service,
        pcs: seq<PortClause>, sets: seq<NamedSet>, chain: Chain, p: Packet)
    requires RunsIngress(db, pol, peer.id) && IsBroadcastEnd(pol.source)
        && ResolveSpecial(db, pol.source.id, peer.ip).Ok?
    ensures TargetSection(db, peer, order, pol, svc, pcs).Ok?
    ensures var nets := ResolveSpecial(db, pol.source.id, peer.ip).value;
      Eval(TargetSection(db, peer, order, pol, svc, pcs).value, sets, chain, p)
      == if ChainOpen(CtxOf(peer, pol, svc), chain) && InSome(p.dst, nets) && p.proto == BroadcastProto(svc.proto)
         then Accepted else Undecided
  {
    BroadcastAllDecides(CtxOf(peer, pol, svc), ResolveSpecial(db, pol.source.id, peer.ip).value, svc.proto, sets,
        chain, p);
  }

  /** A DROP policy from the limited broadcast address to host 1, and a packet it lets in. */
  const DROP_BROADCAST := Policy(1, End(SpecialKind, LIMITED_BROADCAST, Empty), End(PeerKind, 1, Empty), 5, DropAction,
                                 HostScope, BothWays, true, false)
  const DNS := Service(Plain, "53", "", "udp", false, false)
  const LONE_HOST := Peer(1, Host4(Dotted(10, 0, 0, 1)), false, false)

  lemma DropPolicyAccepts(db: Db, order: seq<int>, pcs: seq<PortClause>, sets: seq<NamedSet>)
    ensures var p := Packet(Dotted(10, 0, 0, 2), Dotted(255, 255, 255, 255), "udp", 68, 67, NEW, false, false);
      var r := TargetSection(db, LONE_HOST, order, DROP_BROADCAST, DNS, pcs);
      DROP_BROADCAST.action == DropAction && r.Ok? && Eval(r.value, sets, INPUT, p) == Accepted
  {
    var p := Packet(Dotted(10, 0, 0, 2), Dotted(255, 255, 255, 255), "udp", 68, 67, NEW, false, false);
    var nets := ResolveSpecial(db, LIMITED_BROADCAST, LONE_HOST.ip).value;
    assert nets[0] in nets && InPrefix(p.dst, nets[0]);
    BroadcastSourceAlwaysAccepts(db, LONE_HOST, order, DROP_BROADCAST, DNS, pcs, sets, INPUT, p);
  }

  // ----- a Docker-only policy opens the host's INPUT chain -----

  const DOCKER_PING := Policy(1, End(PeerKind, 1, Empty), End(PeerKind, 2, Empty), 5, AcceptAction, DockerScope,
      BothWays, true, false)
  const DOCKER_HOST := Peer(1, Host4(Dotted(10, 0, 0, 1)), true, false)
  const OTHER_HOST := Peer(2, Host4(Dotted(10, 0, 0, 2)), false, false)

  function DockerDb(): Db { Db([DOCKER_HOST, OTHER_HOST], map[], [], map[5 := FanOut.PING], [DOCKER_PING], "") }

  lemma DockerPingResolves(db: Db)
    requires db == DockerDb()
    ensures ResolveEnd(db, DOCKER_PING.target, DOCKER_HOST.ip) == Ok([Net4(Dotted(10, 0, 0, 2), 32)])
  {
    assert db.peers[1..] == [OTHER_HOST];
    assert FindPeer(db.peers, 2) == FindPeer([OTHER_HOST], 2);
  }

  lemma DockerPingCompiles(db: Db)
    requires db == DockerDb()
    ensures CompilePolicy(db, DOCKER_HOST, [], DOCKER_PING).Ok? && Ordinary(db, DOCKER_PING)
    ensures !RunsIngress(db, DOCKER_PING, 1) && RunsEgress(db, DOCKER_PING, 1)
  {
    DockerPingResolves(db);
    assert !RunsIngress(db, DOCKER_PING, 1) && RunsEgress(db, DOCKER_PING, 1);
    assert !IsMarker(Net4(Dotted(10, 0, 0, 2), 32));
  }

  lemma DockerPingCovers(db: Db, p: Packet)
    requires db == DockerDb()
    requires p == Packet(Dotted(10, 0, 0, 1), Dotted(10, 0, 0, 2), "icmp", 0, 0, NEW, false, false)
    ensures !PolicyCovers(db, DOCKER_HOST, DOCKER_PING, OUTPUT, p)
    ensures PolicyCovers(db, DOCKER_HOST, DOCKER_PING, INPUT, Reverse(p))
  {
    var net := Net4(Dotted(10, 0, 0, 2), 32);
    DockerPingResolves(db);
    DockerPingCompiles(db);
    assert net in [net] && InPrefix(p.dst, net) && !IsSelf(DOCKER_HOST, net);
    assert Belongs(db, DOCKER_HOST, DOCKER_PING.target, p.dst);
    assert Reverse(Reverse(p)) == p;
  }

  /** A policy for containers only leaves the host's OUTPUT chain alone but lets the reply into INPUT. */
  lemma DockerScopeOpensInput(db: Db, p: Packet)
    requires db == DockerDb()
    requires p == Packet(Dotted(10, 0, 0, 1), Dotted(10, 0, 0, 2), "icmp", 0, 0, NEW, false, false)
    ensures var r := CompilePolicy(db, DOCKER_HOST, [], DOCKER_PING);
      && r.Ok? && Ordinary(db, DOCKER_PING)
      && Eval(r.value, [], OUTPUT, p) == Undecided && Eval(r.value, [], INPUT, Reverse(p)) == Accepted
  {
    DockerPingCompiles(db);
    DockerPingCovers(db, p);
    PolicyCorrect(db, DOCKER_HOST, [], [], DOCKER_PING, OUTPUT, p);
    PolicyCorrect(db, DOCKER_HOST, [], [], DOCKER_PING, INPUT, Reverse(p));
  }
}
