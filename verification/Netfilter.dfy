/** The part of netfilter that a Runic bundle relies on: IPv4 prefixes, packets, rules, named
    sets, and first-match evaluation of one chain. Nothing here knows about policies. */
module Netfilter {
  import opened PortText

  const ADDR_LIMIT := 0x1_0000_0000

  type Addr = a: int | 0 <= a < ADDR_LIMIT

  /** An address column, policy override or rule literal, as text. Distinct values are distinct
      texts: `10.0.0.5`, `10.0.0.5/32` and `10.0.0.5/24` are three of them. */
  datatype Address =
    | Empty
    | Garbage(text: string)
    | InternetMarker
    | Host4(addr: Addr)
    | Net4(addr: Addr, len: nat)
    | Host6(addr6: nat)
    | Net6(addr6: nat, len: nat)

  function Pow2(n: nat): (r: nat)
    ensures r > 0
  {
    if n == 0 then 1 else 2 * Pow2(n - 1)
  }

  /** Whether the IPv4 address `a` shares the first `len` bits of the prefix `n`. */
  predicate InPrefix(a: Addr, n: Address) {
    n.Net4? && n.len <= 32 && a / Pow2(32 - n.len) == n.addr / Pow2(32 - n.len)
  }

  predicate InSome(a: Addr, nets: seq<Address>) {
    exists n :: n in nets && InPrefix(a, n)
  }

  datatype Chain = INPUT | OUTPUT | DOCKER_USER

  datatype CtState = NEW | ESTABLISHED | RELATED | INVALID | UNTRACKED

  datatype Packet = Packet(
    src: Addr, dst: Addr, proto: string, sport: nat, dport: nat,
    ct: CtState, loopback: bool, multicast: bool)

  /** The packet a peer sends back: addresses and ports exchanged. */
  function Reverse(p: Packet): (r: Packet)
    ensures r.src == p.dst && r.dst == p.src && r.sport == p.dport && r.dport == p.sport
  {
    p.(src := p.dst, dst := p.src, sport := p.dport, dport := p.sport)
  }

  function AddrOf(side: Side, p: Packet): Addr { if side == Src then p.src else p.dst }

  function PortOf(side: Side, p: Packet): nat { if side == Src then p.sport else p.dport }

  datatype Match =
    | Proto(name: string)
    | Within(side: Side, net: Address)
    | Outside(side: Side, net: Address)
    | InNamedSet(side: Side, set_: string)
    | NotInNamedSet(side: Side, set_: string)
    | Ports(side: Side, list: string)
    | Conntrack(states: set<CtState>)
    | ViaLoopback
    | MulticastFrame

  datatype Target = ACCEPT | DROP | LOG | RETURN

  datatype Rule = Rule(chain: Chain, matches: seq<Match>, target: Target)

  datatype NamedSet = NamedSet(name: string, members: seq<Address>)

  predicate InSet(sets: seq<NamedSet>, name: string, a: Addr) {
    exists s :: s in sets && s.name == name && InSome(a, s.members)
  }

  predicate Holds(m: Match, sets: seq<NamedSet>, p: Packet) {
    match m
    case Proto(name) => p.proto == name
    case Within(side, net) => InPrefix(AddrOf(side, p), net)
    case Outside(side, net) => !InPrefix(AddrOf(side, p), net)
    case InNamedSet(side, name) => InSet(sets, name, AddrOf(side, p))
    case NotInNamedSet(side, name) => !InSet(sets, name, AddrOf(side, p))
    case Ports(side, list) => Covers(list, PortOf(side, p))
    case Conntrack(states) => p.ct in states
    case ViaLoopback => p.loopback
    case MulticastFrame => p.multicast
  }

  predicate AllHold(ms: seq<Match>, sets: seq<NamedSet>, p: Packet) {
    forall m :: m in ms ==> Holds(m, sets, p)
  }

  predicate Hits(r: Rule, sets: seq<NamedSet>, chain: Chain, p: Packet) {
    r.chain == chain && AllHold(r.matches, sets, p)
  }

  datatype Verdict = Accepted | Dropped | Returned | Undecided

  function VerdictOf(t: Target): Verdict {
    match t
    case ACCEPT => Accepted
    case DROP => Dropped
    case LOG => Undecided
    case RETURN => Returned
  }

  /** First match wins; LOG falls through to the next rule. */
  function Eval(rules: seq<Rule>, sets: seq<NamedSet>, chain: Chain, p: Packet): Verdict {
    if rules == [] then Undecided
    else if Hits(rules[0], sets, chain, p) && rules[0].target != LOG then VerdictOf(rules[0].target)
    else Eval(rules[1..], sets, chain, p)
  }

  function OrElse(v: Verdict, w: Verdict): Verdict { if v == Undecided then w else v }

  lemma {:induction false} EvalConcat(a: seq<Rule>, b: seq<Rule>, sets: seq<NamedSet>, chain: Chain, p: Packet)
    ensures Eval(a + b, sets, chain, p) == OrElse(Eval(a, sets, chain, p), Eval(b, sets, chain, p))
  {
    if a == [] {
      assert a + b == b;
    } else {
      assert (a + b)[1..] == a[1..] + b;
      EvalConcat(a[1..], b, sets, chain, p);
    }
  }

  /** Some rule of the block with the terminal target `t` hits the packet. */
  predicate Fires(rules: seq<Rule>, t: Target, sets: seq<NamedSet>, chain: Chain, p: Packet) {
    exists r :: r in rules && r.target == t && Hits(r, sets, chain, p)
  }

  predicate OneTarget(rules: seq<Rule>, t: Target) {
    t != LOG && forall r :: r in rules ==> r.target == t || r.target == LOG
  }

  /** In a block whose rules share one terminal target, order is irrelevant. */
  lemma {:induction false} EvalOneTarget(rules: seq<Rule>, t: Target, sets: seq<NamedSet>, chain: Chain, p: Packet)
    requires OneTarget(rules, t)
    ensures Eval(rules, sets, chain, p)
         == if Fires(rules, t, sets, chain, p) then VerdictOf(t) else Undecided
  {
    if rules != [] {
      EvalOneTarget(rules[1..], t, sets, chain, p);
      assert rules == [rules[0]] + rules[1..];
    }
  }

  lemma AllHoldConcat(a: seq<Match>, b: seq<Match>, sets: seq<NamedSet>, p: Packet)
    ensures AllHold(a + b, sets, p) <==> AllHold(a, sets, p) && AllHold(b, sets, p)
  {
    assert forall m :: m in a ==> m in a + b;
    assert forall m :: m in b ==> m in a + b;
  }
}
