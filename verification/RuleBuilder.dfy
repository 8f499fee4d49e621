/** The three rule builders of the compiler: ACCEPT blocks with reply rules, DROP/LOG_DROP
    blocks, and the internet fallback for hosts without ipset. Each builder is a method with the
    source's loops, proved to append exactly the rules of a specification function. */
module RuleBuilder {
  import opened Wrappers
  import opened PortText
  import opened Netfilter
  import opened Catalog

  const PRIVATE_SET := "runic_private_ranges"

  const PRIVATE_RANGES: seq<Address> := [
    Net4(Dotted(10, 0, 0, 0), 8), Net4(Dotted(172, 16, 0, 0), 12),
    Net4(Dotted(192, 168, 0, 0), 16), Net4(Dotted(127, 0, 0, 0), 8)]

  /** A section handles traffic arriving from the source end or leaving for the target end. */
  datatype Section = Ingress | Egress

  function PrimaryChain(s: Section): Chain { if s == Ingress then INPUT else OUTPUT }

  function ReplyChain(s: Section): Chain { if s == Ingress then OUTPUT else INPUT }

  /** Which address of a primary packet belongs to the far end. */
  function FarSide(s: Section): Side { if s == Ingress then Src else Dst }

  /** How the far end is written into rules. */
  datatype FarEnd = ByCidrs(nets: seq<Address>) | BySet(name: string) | ByInternetSet | ByInternetPlain

  /** One address test of the far end. */
  datatype Far = OneNet(net: Address) | Named(name: string) | OutsidePrivateSet | OutsidePrivatePlain

  datatype Ctx = Ctx(ip: Address, host: bool, docker: bool, noConntrack: bool)

  // ----- parts of one rule -----

  function Negations(side: Side, nets: seq<Address>): seq<Match> {
    if nets == [] then [] else [Outside(side, nets[0])] + Negations(side, nets[1..])
  }

  function FarTests(f: Far, side: Side): seq<Match> {
    match f
    case OneNet(net) => [Within(side, net)]
    case Named(name) => [InNamedSet(side, name)]
    case OutsidePrivateSet => [NotInNamedSet(side, PRIVATE_SET)]
    case OutsidePrivatePlain => [Within(side, ANYWHERE)] + Negations(side, PRIVATE_RANGES)
  }

  function PortTest(side: Side, list: string): seq<Match> {
    if list == "" then [] else [Ports(side, list)]
  }

  function PrimaryPorts(pc: PortClause): seq<Match> { PortTest(Src, pc.sports) + PortTest(Dst, pc.dports) }

  function ReplyPorts(pc: PortClause): seq<Match> { PortTest(Src, pc.dports) + PortTest(Dst, pc.sports) }

  function CtTests(noConntrack: bool): seq<Match> {
    if noConntrack then [] else [Conntrack({NEW, ESTABLISHED})]
  }

  /** Prefix tests precede the protocol in a rule, set tests follow it. */
  function Line(f: Far, side: Side, proto: string, rest: seq<Match>): seq<Match> {
    if f.OneNet? || f.OutsidePrivatePlain? then FarTests(f, side) + [Proto(proto)] + rest
    else [Proto(proto)] + FarTests(f, side) + rest
  }

  function PrimaryMatches(s: Section, f: Far, ctx: Ctx, pc: PortClause): seq<Match> {
    Line(f, FarSide(s), pc.proto, PrimaryPorts(pc) + CtTests(ctx.noConntrack))
  }

  function ReplyMatches(s: Section, f: Far, ctx: Ctx, pc: PortClause): seq<Match> {
    Line(f, Flip(FarSide(s)), pc.proto, ReplyPorts(pc) + CtTests(ctx.noConntrack))
  }

  // ----- ACCEPT -----

  function PrimaryRules(s: Section, f: Far, ctx: Ctx, pc: PortClause): seq<Rule> {
    if ctx.host then [Rule(PrimaryChain(s), PrimaryMatches(s, f, ctx, pc), ACCEPT)] else []
  }

  function ReplyRule(s: Section, f: Far, ctx: Ctx, pc: PortClause): Rule {
    Rule(ReplyChain(s), ReplyMatches(s, f, ctx, pc), ACCEPT)
  }

  function DockerRules(s: Section, f: Far, ctx: Ctx, pc: PortClause): seq<Rule> {
    if ctx.docker then [Rule(DOCKER_USER, PrimaryMatches(s, f, ctx, pc), ACCEPT)] else []
  }

  /** Primary rule, its reply rule if it goes here, and the Docker mirror. */
  function OneFar(s: Section, withReply: bool, f: Far, ctx: Ctx, pc: PortClause): seq<Rule> {
    PrimaryRules(s, f, ctx, pc)
    + (if ctx.host && withReply then [ReplyRule(s, f, ctx, pc)] else [])
    + DockerRules(s, f, ctx, pc)
  }

  function PerFar(s: Section, withReply: bool, far: seq<Far>, ctx: Ctx, pc: PortClause): seq<Rule> {
    if far == [] then []
    else
      var n := |far| - 1;
      PerFar(s, withReply, far[..n], ctx, pc) + OneFar(s, withReply, far[n], ctx, pc)
  }

  /** Egress to prefixes writes its reply rules after all the primary ones, whatever the scope. */
  function Replies(s: Section, far: seq<Far>, ctx: Ctx, pc: PortClause): seq<Rule> {
    if far == [] then []
    else
      var n := |far| - 1;
      Replies(s, far[..n], ctx, pc) + [ReplyRule(s, far[n], ctx, pc)]
  }

  /** The far tests of a section. Only the prefix form drops the host's own prefix, so only it
      needs the host's address to be valid. */
  function FarTestsOf(end: FarEnd, ip: Address): Result<seq<Far>> {
    match end
    case ByCidrs(nets) =>
      var kept :- FilterSelf(nets, ip);
      Ok(Nets(kept))
    case BySet(name) => Ok([Named(name)])
    case ByInternetSet => Ok([OutsidePrivateSet])
    case ByInternetPlain => Ok([OutsidePrivatePlain])
  }

  function Nets(nets: seq<Address>): seq<Far> {
    seq(|nets|, i requires 0 <= i < |nets| => OneNet(nets[i]))
  }

  function FilterSelf(nets: seq<Address>, ip: Address): Result<seq<Address>> {
    if ip == Empty then Ok(nets)
    else if !ValidPeerCidr(ip) then Err(BadAddress)
    else Ok(Without(nets, NormalizeToCidr(ip)))
  }

  function Without(nets: seq<Address>, self: Address): (r: seq<Address>)
    ensures forall n :: n in r <==> n in nets && n != self
  {
    if nets == [] then []
    else
      var k := |nets| - 1;
      var before := Without(nets[..k], self);
      assert forall n :: n in nets <==> n in nets[..k] || n == nets[k];
      if nets[k] == self then before else before + [nets[k]]
  }

  /** A multicast target answers from anywhere, or not at all without conntrack. */
  function ReplyEnd(end: FarEnd, multicastTarget: bool, ctx: Ctx): FarEnd {
    if multicastTarget && end.ByCidrs? then ByCidrs(if ctx.noConntrack then [] else [ANYWHERE]) else end
  }

  predicate RepliesLast(s: Section, end: FarEnd) { s == Egress && end.ByCidrs? }

  function AcceptClause(s: Section, end: FarEnd, far: seq<Far>, replyFar: seq<Far>, ctx: Ctx,
        pc: PortClause): seq<Rule> {
    PerFar(s, !RepliesLast(s, end), far, ctx, pc)
    + (if RepliesLast(s, end) then Replies(s, replyFar, ctx, pc) else [])
  }

  function AcceptBlock(s: Section, end: FarEnd, far: seq<Far>, replyFar: seq<Far>, ctx: Ctx,
        pcs: seq<PortClause>): seq<Rule> {
    if pcs == [] then []
    else
      var n := |pcs| - 1;
      AcceptBlock(s, end, far, replyFar, ctx, pcs[..n]) + AcceptClause(s, end, far, replyFar, ctx, pcs[n])
  }

  // ----- DROP and LOG_DROP -----

  function DropRules(action: Action, chain: Chain, ms: seq<Match>): seq<Rule> {
    (if action == LogDropAction then [Rule(chain, ms, LOG)] else []) + [Rule(chain, ms, DROP)]
  }

  /** Refused traffic is matched by destination port alone and without conntrack. */
  function DropMatches(s: Section, f: Far, pc: PortClause): seq<Match> {
    Line(f, FarSide(s), pc.proto, PortTest(Dst, pc.dports))
  }

  function DropOne(action: Action, s: Section, f: Far, ctx: Ctx, pc: PortClause): seq<Rule> {
    (if ctx.host then DropRules(action, PrimaryChain(s), DropMatches(s, f, pc)) else [])
    + (if ctx.docker then DropRules(action, DOCKER_USER, DropMatches(s, f, pc)) else [])
  }

  function DropClause(action: Action, s: Section, far: seq<Far>, ctx: Ctx, pc: PortClause): seq<Rule> {
    if far == [] then []
    else
      var n := |far| - 1;
      DropClause(action, s, far[..n], ctx, pc) + DropOne(action, s, far[n], ctx, pc)
  }

  function DropBlock(action: Action, s: Section, far: seq<Far>, ctx: Ctx, pcs: seq<PortClause>): seq<Rule> {
    if pcs == [] then []
    else
      var n := |pcs| - 1;
      DropBlock(action, s, far, ctx, pcs[..n]) + DropClause(action, s, far, ctx, pcs[n])
  }

  // ----- one section -----

  function Block(action: Action, s: Section, end: FarEnd, far: seq<Far>, replyFar: seq<Far>, ctx: Ctx,
        pcs: seq<PortClause>): seq<Rule> {
    if action == AcceptAction then AcceptBlock(s, end, far, replyFar, ctx, pcs)
    else DropBlock(action, s, far, ctx, pcs)
  }

  /** `writeRules`, and for `ByInternetPlain` `buildInternetFallbackRules`. */
  function WriteRules(action: Action, s: Section, end: FarEnd, multicastTarget: bool, ctx: Ctx,
        pcs: seq<PortClause>): Result<seq<Rule>> {
    if end.ByCidrs? && HasMarker(end.nets) then Err(MarkerLeak)
    else if pcs == [] then Ok([])
    else
      var far :- FarTestsOf(end, ctx.ip);
      var replyFar :- FarTestsOf(ReplyEnd(end, multicastTarget, ctx), ctx.ip);
      Ok(Block(action, s, end, far, replyFar, ctx, pcs))
  }

  // ----- the builders as the source runs them -----

  method FilterSelfReferencing(nets: seq<Address>, ip: Address) returns (r: Result<seq<Address>>)
    ensures r == FilterSelf(nets, ip)
  {
    if ip == Empty { return Ok(nets); }
    if !ValidPeerCidr(ip) { return Err(BadAddress); }
    var self, filtered := NormalizeToCidr(ip), [];
    for i := 0 to |nets|
      invariant filtered == Without(nets[..i], self)
    {
      assert nets[..i + 1][..i] == nets[..i];
      if nets[i] != self { filtered := filtered + [nets[i]]; }
    }
    assert nets[..|nets|] == nets;
    return Ok(filtered);
  }

  lemma TakeNets(nets: seq<Address>, k: nat)
    requires k < |nets|
    ensures Nets(nets[..k + 1]) == Nets(nets[..k]) + [OneNet(nets[k])]
    ensures Nets(nets[..k + 1])[..k] == Nets(nets[..k])
  {
  }

  function SetTest(end: FarEnd): Far
    requires !end.ByCidrs?
  {
    match end
    case BySet(name) => Named(name)
    case ByInternetSet => OutsidePrivateSet
    case ByInternetPlain => OutsidePrivatePlain
  }

  method EmitAccept(s: Section, withReply: bool, f: Far, ctx: Ctx, pc: PortClause) returns (out: seq<Rule>)
    ensures out == OneFar(s, withReply, f, ctx, pc)
  {
    out := [];
    if ctx.host {
      out := [Rule(PrimaryChain(s), PrimaryMatches(s, f, ctx, pc), ACCEPT)];
      if withReply {
        out := out + [Rule(ReplyChain(s), ReplyMatches(s, f, ctx, pc), ACCEPT)];
      }
    }
    if ctx.docker {
      out := out + [Rule(DOCKER_USER, PrimaryMatches(s, f, ctx, pc), ACCEPT)];
    }
  }

  /** The loop over the filtered prefixes... */
  method EmitPerNet(s: Section, nets: seq<Address>, ctx: Ctx, pc: PortClause) returns (rules: seq<Rule>)
    ensures rules == PerFar(s, s == Ingress, Nets(nets), ctx, pc)
  {
    rules := [];
    for k := 0 to |nets|
      invariant rules == PerFar(s, s == Ingress, Nets(nets[..k]), ctx, pc)
    {
      TakeNets(nets, k);
      var out := EmitAccept(s, s == Ingress, OneNet(nets[k]), ctx, pc);
      rules := rules + out;
    }
    assert nets[..|nets|] == nets;
  }

  /** ...and the one over the filtered reply prefixes. */
  method EmitReplies(nets: seq<Address>, ctx: Ctx, pc: PortClause) returns (rules: seq<Rule>)
    ensures rules == Replies(Egress, Nets(nets), ctx, pc)
  {
    rules := [];
    for k := 0 to |nets|
      invariant rules == Replies(Egress, Nets(nets[..k]), ctx, pc)
    {
      TakeNets(nets, k);
      rules := rules + [Rule(INPUT, ReplyMatches(Egress, OneNet(nets[k]), ctx, pc), ACCEPT)];
    }
    assert nets[..|nets|] == nets;
  }

  /** One port clause of an ACCEPT block. */
  method EmitAcceptClause(s: Section, end: FarEnd, multicastTarget: bool, ctx: Ctx, pc: PortClause)
        returns (r: Result<seq<Rule>>)
    ensures var far, reply := FarTestsOf(end, ctx.ip), FarTestsOf(ReplyEnd(end, multicastTarget, ctx), ctx.ip);
      if far.Err? then r == Err(far.why)
      else if reply.Err? then r == Err(reply.why)
      else r == Ok(AcceptClause(s, end, far.value, reply.value, ctx, pc))
  {
    var rules, replies: seq<Rule> := [], [];
    if !end.ByCidrs? {
      rules := EmitAccept(s, true, SetTest(end), ctx, pc);
      SingletonPerFar(s, true, SetTest(end), ctx, pc);
    } else {
      var filtered := FilterSelfReferencing(end.nets, ctx.ip);
      if filtered.Err? { return Err(filtered.why); }
      rules := EmitPerNet(s, filtered.value, ctx, pc);
      if s == Egress {
        var returnNets := if multicastTarget then (if ctx.noConntrack then [] else [ANYWHERE]) else end.nets;
        var filteredReturn := FilterSelfReferencing(returnNets, ctx.ip);
        if filteredReturn.Err? { return Err(filteredReturn.why); }
        replies := EmitReplies(filteredReturn.value, ctx, pc);
      }
    }
    return Ok(rules + replies);
  }

  lemma SingletonPerFar(s: Section, withReply: bool, f: Far, ctx: Ctx, pc: PortClause)
    ensures PerFar(s, withReply, [f], ctx, pc) == OneFar(s, withReply, f, ctx, pc)
  {
    assert [f][..0] == [];
  }

  lemma AcceptIsWritten(s: Section, end: FarEnd, multicastTarget: bool, ctx: Ctx, pcs: seq<PortClause>)
    requires end.ByCidrs? ==> !HasMarker(end.nets)
    ensures var far, reply := FarTestsOf(end, ctx.ip), FarTestsOf(ReplyEnd(end, multicastTarget, ctx), ctx.ip);
      WriteRules(AcceptAction, s, end, multicastTarget, ctx, pcs) ==
        if pcs == [] then Ok([])
        else if far.Err? then Err(far.why)
        else if reply.Err? then Err(reply.why)
        else Ok(AcceptBlock(s, end, far.value, reply.value, ctx, pcs))
  {
  }

  method BuildAcceptRules(s: Section, end: FarEnd, multicastTarget: bool, ctx: Ctx, pcs: seq<PortClause>)
        returns (r: Result<seq<Rule>>)
    requires end.ByCidrs? ==> !HasMarker(end.nets)
    ensures r == WriteRules(AcceptAction, s, end, multicastTarget, ctx, pcs)
  {
    AcceptIsWritten(s, end, multicastTarget, ctx, pcs);
    var rules: seq<Rule> := [];
    ghost var far, reply := FarTestsOf(end, ctx.ip), FarTestsOf(ReplyEnd(end, multicastTarget, ctx), ctx.ip);
    for i := 0 to |pcs|
      invariant i > 0 ==> far.Ok? && reply.Ok?
      invariant i == 0 ==> rules == []
      invariant i > 0 ==> rules == AcceptBlock(s, end, far.value, reply.value, ctx, pcs[..i])
    {
      assert pcs[..i + 1][..i] == pcs[..i];
      var one := EmitAcceptClause(s, end, multicastTarget, ctx, pcs[i]);
      if one.Err? { return Err(one.why); }
      rules := rules + one.value;
    }
    assert pcs[..|pcs|] == pcs;
    return Ok(rules);
  }

  method EmitDrop(action: Action, s: Section, f: Far, ctx: Ctx, pc: PortClause) returns (out: seq<Rule>)
    ensures out == DropOne(action, s, f, ctx, pc)
  {
    out := [];
    if ctx.host { out := DropRules(action, PrimaryChain(s), DropMatches(s, f, pc)); }
    if ctx.docker { out := out + DropRules(action, DOCKER_USER, DropMatches(s, f, pc)); }
  }

  method EmitDropClause(action: Action, s: Section, end: FarEnd, ctx: Ctx, pc: PortClause)
        returns (r: Result<seq<Rule>>)
    ensures var far := FarTestsOf(end, ctx.ip);
      if far.Err? then r == Err(far.why) else r == Ok(DropClause(action, s, far.value, ctx, pc))
  {
    if !end.ByCidrs? {
      var out := EmitDrop(action, s, SetTest(end), ctx, pc);
      assert [SetTest(end)][..0] == [] && [] + out == out;
      return Ok(out);
    }
    var filtered := FilterSelfReferencing(end.nets, ctx.ip);
    if filtered.Err? { return Err(filtered.why); }
    var nets, rules := filtered.value, [];
    for k := 0 to |nets|
      invariant rules == DropClause(action, s, Nets(nets[..k]), ctx, pc)
    {
      TakeNets(nets, k);
      var out := EmitDrop(action, s, OneNet(nets[k]), ctx, pc);
      rules := rules + out;
    }
    assert nets[..|nets|] == nets;
    return Ok(rules);
  }

  method BuildLogDropRules(action: Action, s: Section, end: FarEnd, ctx: Ctx, pcs: seq<PortClause>)
        returns (r: Result<seq<Rule>>)
    requires action != AcceptAction
    requires end.ByCidrs? ==> !HasMarker(end.nets)
    ensures r == WriteRules(action, s, end, false, ctx, pcs)
  {
    var rules: seq<Rule> := [];
    ghost var far := FarTestsOf(end, ctx.ip);
    for i := 0 to |pcs|
      invariant i > 0 ==> far.Ok?
      invariant i == 0 ==> rules == []
      invariant i > 0 ==> rules == DropBlock(action, s, far.value, ctx, pcs[..i])
    {
      assert pcs[..i + 1][..i] == pcs[..i];
      var one := EmitDropClause(action, s, end, ctx, pcs[i]);
      if one.Err? { return Err(one.why); }
      rules := rules + one.value;
    }
    assert pcs[..|pcs|] == pcs;
    return Ok(rules);
  }
}
