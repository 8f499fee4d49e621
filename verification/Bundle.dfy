/** From the tables to one host's bundle: standard rules, policies in priority order, default deny. */
module Bundle {
  import opened Wrappers
  import opened PortText
  import opened Netfilter
  import opened Catalog
  import opened RuleBuilder

  const GROUP_PREFIX := "runic_group_"
  const DEFAULT_CONTROL_PORT := "60443"
  const MAX_SET_NAME := 32

  // ----- ipset names -----

  function Lower(c: char): char {
    if 'A' <= c <= 'Z' then (c as int - 'A' as int + 'a' as int) as char else c
  }

  /** Runs of characters outside [a-z0-9] become one underscore. */
  function Collapse(s: string, prevUnderscore: bool): string {
    if s == "" then ""
    else
      var c := Lower(s[0]);
      if 'a' <= c <= 'z' || IsDigit(c) then [c] + Collapse(s[1..], false)
      else if !prevUnderscore then "_" + Collapse(s[1..], true)
      else Collapse(s[1..], true)
  }

  function TrimLeft(s: string): string { if s != "" && s[0] == '_' then TrimLeft(s[1..]) else s }

  function TrimRight(s: string): string {
    if s != "" && s[|s| - 1] == '_' then TrimRight(s[..|s| - 1]) else s
  }

  function Sanitize(name: string): string {
    var c := Collapse(name, false);
    TrimRight(TrimLeft(if |c| > 20 then c[..20] else c))
  }

  function SetName(name: string): string { GROUP_PREFIX + Sanitize(name) }

  lemma {:induction false} TrimShrinks(s: string)
    ensures |TrimLeft(s)| <= |s| && |TrimRight(s)| <= |s|
    decreases |s|
  {
    if s != "" {
      TrimShrinks(s[1..]);
      TrimShrinks(s[..|s| - 1]);
    }
  }

  /** Every set name carries the group prefix, and the kernel's name limit is never hit, so the length
      check cannot fail a compile. */
  lemma SetNameFits(name: string)
    ensures StartsWith(SetName(name), GROUP_PREFIX)
    ensures |SetName(name)| <= MAX_SET_NAME
  {
    var c := Collapse(name, false);
    var t := if |c| > 20 then c[..20] else c;
    TrimShrinks(t);
    TrimShrinks(TrimLeft(t));
  }

  predicate IsPlainChar(c: char) { 'a' <= c <= 'z' || IsDigit(c) }

  predicate AllPlain(s: string) { forall i :: 0 <= i < |s| ==> IsPlainChar(s[i]) }

  predicate AllSafe(s: string) { forall i :: 0 <= i < |s| ==> IsPlainChar(s[i]) || s[i] == '_' }

  predicate NoRuns(s: string) { forall i :: 0 <= i < |s| - 1 ==> s[i] != '_' || s[i + 1] != '_' }

  /** A run of other characters becomes a single underscore. */
  lemma {:induction false} CollapseIsSafe(s: string, prev: bool)
    ensures AllSafe(Collapse(s, prev)) && NoRuns(Collapse(s, prev))
    ensures prev && Collapse(s, prev) != "" ==> Collapse(s, prev)[0] != '_'
    ensures AllPlain(s) ==> Collapse(s, prev) == s
  {
    if s != "" {
      CollapseIsSafe(s[1..], false);
      CollapseIsSafe(s[1..], true);
      assert s == [s[0]] + s[1..];
    }
  }

  lemma {:induction false} TrimmedEnds(s: string)
    ensures AllSafe(s) ==> AllSafe(TrimLeft(s)) && AllSafe(TrimRight(s))
    ensures TrimLeft(s) != "" ==> TrimLeft(s)[0] != '_'
    ensures TrimRight(s) != "" ==> TrimRight(s)[|TrimRight(s)| - 1] != '_' && TrimRight(s)[0] == s[0]
    ensures AllPlain(s) ==> TrimLeft(s) == s && TrimRight(s) == s
    decreases |s|
  {
    if s != "" {
      TrimmedEnds(s[1..]);
      TrimmedEnds(s[..|s| - 1]);
    }
  }

  /** What the sanitiser leaves of a name: lower-case letters, digits and underscores, none of them at an end;
      a short name of letters and digits stays as it is, so different such names never share a set. */
  lemma SanitizedIsSafe(name: string)
    ensures AllSafe(Sanitize(name)) && |Sanitize(name)| <= 20
    ensures Sanitize(name) != "" ==> Sanitize(name)[0] != '_' && Sanitize(name)[|Sanitize(name)| - 1] != '_'
    ensures AllPlain(name) && |name| <= 20 ==> SetName(name) == "runic_group_" + name
  {
    var c := Collapse(name, false);
    var t := if |c| > 20 then c[..20] else c;
    CollapseIsSafe(name, false);
    TrimmedEnds(t);
    TrimmedEnds(TrimLeft(t));
    TrimShrinks(t);
    TrimShrinks(TrimLeft(t));
  }

  predicate SameLetter(c: char, d: char) { c == d || ('A' <= c <= 'Z' && d as int == c as int + 32) }

  /** An upper-case letter counts as its lower-case one. */
  lemma {:induction false} CaseIsIgnored(s: string, t: string, prev: bool)
    requires |s| == |t| && forall i :: 0 <= i < |s| ==> SameLetter(s[i], t[i])
    ensures Collapse(s, prev) == Collapse(t, prev)
  {
    if s != "" {
      CaseIsIgnored(s[1..], t[1..], false);
      CaseIsIgnored(s[1..], t[1..], true);
    }
  }

  lemma GroupSetIsNotPrivateSet(name: string)
    ensures SetName(name) != PRIVATE_SET
  {
    assert SetName(name)[6] == 'g' && PRIVATE_SET[6] == 'p';
  }

  /** Distinct groups can share a set name: the sanitiser is not injective. */
  lemma SanitizerCollides()
    ensures "a-b" != "a b" && SetName("a-b") == SetName("a b")
  {
    assert "a-b"[1..] == "-b" && "-b"[1..] == "b" && "b"[1..] == "";
    assert "a b"[1..] == " b" && " b"[1..] == "b";
    assert Collapse("b", true) == "b";
    assert Collapse("-b", false) == "_b" && Collapse(" b", false) == "_b";
  }

  // ----- fixed rules -----

  function StandardRules(docker: bool, port: string): seq<Rule> {
    [ Rule(INPUT, [ViaLoopback], ACCEPT),
      Rule(OUTPUT, [ViaLoopback], ACCEPT),
      Rule(INPUT, [Proto("icmp"), Conntrack({RELATED})], ACCEPT),
      Rule(OUTPUT, [Proto("icmp"), Conntrack({RELATED})], ACCEPT),
      Rule(INPUT, [Conntrack({INVALID})], DROP),
      Rule(OUTPUT, [Conntrack({INVALID})], DROP) ]
    + ControlRules(port)
    + if docker then
        [ Rule(DOCKER_USER, [Proto("icmp"), Conntrack({RELATED})], ACCEPT),
          Rule(DOCKER_USER, [Conntrack({INVALID})], DROP) ]
      else []
  }

  function ControlRules(port: string): seq<Rule> {
    if port == "" then []
    else
      [ Rule(INPUT, [Proto("tcp"), Ports(Dst, port), Conntrack({NEW, ESTABLISHED})], ACCEPT),
        Rule(OUTPUT, [Proto("tcp"), Ports(Src, port), Conntrack({ESTABLISHED})], ACCEPT),
        Rule(OUTPUT, [Proto("tcp"), Ports(Dst, port), Conntrack({NEW, ESTABLISHED})], ACCEPT),
        Rule(INPUT, [Proto("tcp"), Ports(Src, port), Conntrack({ESTABLISHED})], ACCEPT) ]
  }

  function DefaultRules(docker: bool): seq<Rule> {
    [ Rule(INPUT, [], LOG), Rule(INPUT, [], DROP), Rule(OUTPUT, [], LOG), Rule(OUTPUT, [], DROP) ]
    + if docker then [Rule(DOCKER_USER, [], RETURN)] else []
  }

  // ----- special services and ends -----

  function ActionRules(action: Action, chain: Chain, ms: seq<Match>): seq<Rule> {
    if action == AcceptAction then [Rule(chain, ms, ACCEPT)] else DropRules(action, chain, ms)
  }

  function MulticastRules(action: Action, ctx: Ctx): seq<Rule> {
    (if ctx.host then ActionRules(action, INPUT, [MulticastFrame]) else [])
    + (if ctx.docker then ActionRules(action, DOCKER_USER, [MulticastFrame]) else [])
  }

  function BroadcastProto(proto: string): string { if proto == "" || proto == "both" then "udp" else proto }

  /** Always ACCEPT: the policy's action is not consulted. */
  function BroadcastRules(ctx: Ctx, net: Address, proto: string): seq<Rule> {
    (if ctx.host then [Rule(INPUT, [Within(Dst, net), Proto(BroadcastProto(proto))], ACCEPT)] else [])
    + (if ctx.docker then [Rule(DOCKER_USER, [Within(Dst, net), Proto(BroadcastProto(proto))], ACCEPT)] else [])
  }

  function BroadcastAll(ctx: Ctx, nets: seq<Address>, proto: string): seq<Rule> {
    if nets == [] then [] else BroadcastRules(ctx, nets[0], proto) + BroadcastAll(ctx, nets[1..], proto)
  }

  function FixedAccept(chain: Chain, d: nat, proto: string): Rule
    requires d < 256
  {
    Rule(chain, [Within(Dst, Net4(Dotted(224, 0, 0, d), 32)), Proto(proto)], ACCEPT)
  }

  function IgmpRules(ctx: Ctx): seq<Rule> {
    (if ctx.host then [FixedAccept(INPUT, 1, "igmp"), FixedAccept(OUTPUT, 22, "igmp")] else [])
    + (if ctx.docker then [FixedAccept(DOCKER_USER, 1, "igmp"), FixedAccept(DOCKER_USER, 22, "igmp")] else [])
  }

  function VrrpRules(ctx: Ctx): seq<Rule> {
    (if ctx.host then [FixedAccept(OUTPUT, 18, "vrrp")] else [])
    + (if ctx.docker then [FixedAccept(DOCKER_USER, 18, "vrrp")] else [])
  }

  function MulticastEgress(ctx: Ctx): seq<Rule> {
    var ms := [Within(Dst, Net4(Dotted(224, 0, 0, 0), 4)), MulticastFrame];
    (if ctx.host then [Rule(OUTPUT, ms, ACCEPT)] else []) + (if ctx.docker then [Rule(DOCKER_USER, ms, ACCEPT)] else [])
  }

  // ----- one policy -----

  predicate ToHost(scope: Scope) { scope != DockerScope }

  predicate ToDocker(scope: Scope, hasDocker: bool) { hasDocker && scope != HostScope }

  function CtxOf(peer: Peer, pol: Policy, svc: Service): Ctx {
    Ctx(peer.ip, ToHost(pol.scope), ToDocker(pol.scope, peer.hasDocker), svc.noConntrack)
  }

  function LiveService(db: Db, id: int): Result<Service> {
    if id in db.services && !db.services[id].deleted then Ok(db.services[id]) else Err(UnknownService)
  }

  function ClausesOf(svc: Service): Result<seq<PortClause>> {
    if svc.role == Plain then ExpandPorts(svc.dports, svc.sports, svc.proto) else Ok([])
  }

  /** A group end becomes a named set on hosts with ipset, if the group is in the bundle's sets. */
  predicate UsesSet(peer: Peer, setGroups: seq<int>, e: End) {
    peer.hasIpset && e.kind == GroupKind && e.id in setGroups
  }

  function GroupEnd(db: Db, gid: int): FarEnd { BySet(if gid in db.groups then SetName(db.groups[gid].name) else "") }

  function CheckInternetPeer(peer: Peer): Result<()> {
    if peer.id == 0 then Ok(())
    else if peer.ip == Empty then Err(EmptyIpInternet)
    else if IsIPv6(peer.ip) then Err(IPv6Internet)
    else Ok(())
  }

  predicate RunsIngress(db: Db, pol: Policy, q: int) {
    IsTarget(db, pol, q) && pol.direction != ForwardOnly && !IsMulticastEnd(pol.target) && !IsBroadcastEnd(pol.target)
  }

  predicate RunsEgress(db: Db, pol: Policy, q: int) { IsSource(db, pol, q) && pol.direction != BackwardOnly }

  /** `writeTargetSection` */
  function TargetSection(db: Db, peer: Peer, setGroups: seq<int>, pol: Policy, svc: Service,
        pcs: seq<PortClause>): Result<seq<Rule>> {
    var ctx := CtxOf(peer, pol, svc);
    if !RunsIngress(db, pol, peer.id) then Ok([])
    else if IsInternetEnd(pol.source) then Err(IngressFromInternet)
    else if IsMulticastEnd(pol.source) then Ok(MulticastRules(pol.action, ctx))
    else if IsBroadcastEnd(pol.source) then
      var nets :- ResolveSpecial(db, pol.source.id, peer.ip);
      Ok(BroadcastAll(ctx, nets, svc.proto))
    else if UsesSet(peer, setGroups, pol.source) then
      if svc.role == MulticastRole then Ok(MulticastRules(pol.action, ctx))
      else WriteRules(pol.action, Ingress, GroupEnd(db, pol.source.id), false, ctx, pcs)
    else
      var nets :- ResolveEnd(db, pol.source, peer.ip);
      if svc.role == MulticastRole then Ok(MulticastRules(pol.action, ctx))
      else WriteRules(pol.action, Ingress, ByCidrs(nets), false, ctx, pcs)
  }

  /** `writeSourceSection` */
  function SourceSection(db: Db, peer: Peer, setGroups: seq<int>, pol: Policy, svc: Service,
        pcs: seq<PortClause>): Result<seq<Rule>> {
    var ctx := CtxOf(peer, pol, svc);
    if !RunsEgress(db, pol, peer.id) then Ok([])
    else if UsesSet(peer, setGroups, pol.target) then
      if svc.role == MulticastRole then Ok([])
      else WriteRules(pol.action, Egress, GroupEnd(db, pol.target.id), false, ctx, pcs)
    else if IsInternetEnd(pol.target) then
      var _ :- CheckInternetPeer(peer);
      WriteRules(pol.action, Egress, if peer.hasIpset then ByInternetSet else ByInternetPlain, false, ctx, pcs)
    else
      var nets :- ResolveEnd(db, pol.target, peer.ip);
      if HasMarker(nets) then Err(MarkerLeak)
      else if svc.role == MulticastRole then
        Ok(if IsMulticastEnd(pol.target) && pol.action == AcceptAction then MulticastEgress(ctx) else [])
      else WriteRules(pol.action, Egress, ByCidrs(nets), IsMulticastEnd(pol.target), ctx, pcs)
  }

  /** `writeSinglePolicy` */
  function CompilePolicy(db: Db, peer: Peer, setGroups: seq<int>, pol: Policy): Result<seq<Rule>> {
    if pol.action == OtherAction then Err(BadAction)
    else
      var svc :- LiveService(db, pol.service);
      var pcs :- ClausesOf(svc);
      var ctx := CtxOf(peer, pol, svc);
      if svc.role == IgmpRole then Ok(if ctx.host then IgmpRules(ctx) else [])
      else if svc.role == VrrpRole then Ok(if ctx.host then VrrpRules(ctx) else [])
      else
        var ingress :- TargetSection(db, peer, setGroups, pol, svc, pcs);
        var egress :- SourceSection(db, peer, setGroups, pol, svc, pcs);
        Ok(ingress + egress)
  }

  function CompilePolicies(db: Db, peer: Peer, setGroups: seq<int>, pols: seq<Policy>): Result<seq<Rule>> {
    if pols == [] then Ok([])
    else
      var first :- CompilePolicy(db, peer, setGroups, pols[0]);
      var rest :- CompilePolicies(db, peer, setGroups, pols[1..]);
      Ok(first + rest)
  }

  // ----- group sets -----

  function AddGroup(db: Db, order: seq<int>, e: End): seq<int> {
    if e.kind == GroupKind && e.id !in order && Active(db, e.id) then order + [e.id] else order
  }

  /** Groups named by the policies whose name can be looked up, in order of first appearance. */
  function GroupOrder(db: Db, pols: seq<Policy>): seq<int> {
    if pols == [] then []
    else
      var n := |pols| - 1;
      AddGroup(db, AddGroup(db, GroupOrder(db, pols[..n]), pols[n].source), pols[n].target)
  }

  function CheckFamily(members: seq<Address>): Result<()> {
    if HasMarker(members) then Err(MarkerMember)
    else if exists m :: m in members && IsIPv6(m) then Err(IPv6Member)
    else Ok(())
  }

  function GroupSet(db: Db, gid: int): Result<NamedSet> {
    var members :- GroupNets(db, gid);
    var name := SetName(if gid in db.groups then db.groups[gid].name else "");
    if |name| > MAX_SET_NAME then Err(NameTooLong)
    else
      var _ :- CheckFamily(members);
      Ok(NamedSet(name, members))
  }

  function GroupSets(db: Db, gids: seq<int>): Result<seq<NamedSet>> {
    if gids == [] then Ok([])
    else
      var first :- GroupSet(db, gids[0]);
      var rest :- GroupSets(db, gids[1..]);
      Ok([first] + rest)
  }

  function SetDefinitions(db: Db, peer: Peer, order: seq<int>): Result<seq<NamedSet>> {
    if !peer.hasIpset then Ok([])
    else
      var groups :- GroupSets(db, order);
      Ok(groups + [NamedSet(PRIVATE_SET, PRIVATE_RANGES)])
  }

  // ----- the bundle -----

  datatype RuleBundle = RuleBundle(sets: seq<NamedSet>, rules: seq<Rule>)

  function ControlPort(db: Db): string { if db.controlPort == "" then DEFAULT_CONTROL_PORT else db.controlPort }

  function Compile(db: Db, q: int): Result<RuleBundle> {
    var found := FindPeer(db.peers, q);
    if found.None? then Err(UnknownPeer)
    else
      var peer := found.value;
      var pols := Applicable(db, db.policies, q);
      var order := GroupOrder(db, pols);
      var sets :- SetDefinitions(db, peer, order);
      var rules :- CompilePolicies(db, peer, order, pols);
      Ok(RuleBundle(sets, StandardRules(peer.hasDocker, ControlPort(db)) + rules + DefaultRules(peer.hasDocker)))
  }
}
