/** The tables the engine reads, and how it resolves their entities to addresses. */
module Catalog {
  import opened Wrappers
  import opened PortText
  import opened Netfilter

  datatype Kind = PeerKind | GroupKind | SpecialKind
  datatype Action = AcceptAction | DropAction | LogDropAction | OtherAction
  datatype Scope = HostScope | DockerScope | BothScopes
  datatype Direction = BothWays | ForwardOnly | BackwardOnly

  /** What the service's reserved name makes of it; every other name is `Plain`. */
  datatype Role = Plain | MulticastRole | BroadcastRole | IgmpRole | VrrpRole

  /** One end of a policy, with the optional address that pins a peer's end. */
  datatype End = End(kind: Kind, id: int, pin: Address)

  datatype Policy = Policy(
    id: int, source: End, target: End, service: int, action: Action,
    scope: Scope, direction: Direction, enabled: bool, deleted: bool)

  datatype Peer = Peer(id: int, ip: Address, hasDocker: bool, hasIpset: bool)
  datatype Group = Group(name: string, deleted: bool)
  datatype Service = Service(role: Role, dports: string, sports: string, proto: string, noConntrack: bool,
        deleted: bool)
  datatype Member = Member(group: int, peer: int)

  /** Rows in the order queries return them; `policies` in priority order. */
  datatype Db = Db(
    peers: seq<Peer>, groups: map<int, Group>, members: seq<Member>,
    services: map<int, Service>, policies: seq<Policy>, controlPort: string)

  // ----- special entities -----

  const SUBNET_BROADCAST := 1
  const LIMITED_BROADCAST := 2
  const ALL_HOSTS := 3
  const MDNS := 4
  const LOOPBACK := 5
  const ANY_IP := 6
  const ALL_PEERS := 7
  const IGMPV3 := 8
  const INTERNET := 9

  predicate IsMulticastEnd(e: End) { e.kind == SpecialKind && e.id in {ALL_HOSTS, MDNS, IGMPV3} }

  predicate IsBroadcastEnd(e: End) { e.kind == SpecialKind && e.id in {SUBNET_BROADCAST, LIMITED_BROADCAST} }

  predicate IsInternetEnd(e: End) { e.kind == SpecialKind && e.id == INTERNET }

  function Dotted(a: nat, b: nat, c: nat, d: nat): Addr
    requires a < 256 && b < 256 && c < 256 && d < 256
  {
    ((a * 256 + b) * 256 + c) * 256 + d
  }

  const ANYWHERE := Net4(0, 0)

  // ----- address text -----

  /** `ValidateIPOrCIDR`, which is also `ValidateGroupCIDR`: a parseable address or prefix. */
  predicate ValidGroupCidr(a: Address) {
    match a
    case Host4(_) => true
    case Net4(_, len) => len <= 32
    case Host6(_) => true
    case Net6(_, len) => len <= 128
    case _ => false
  }

  /** `ValidatePeerCIDR`: additionally not an allow-all /0. */
  predicate ValidPeerCidr(a: Address) {
    ValidGroupCidr(a) && (a.Net4? || a.Net6? ==> a.len != 0)
  }

  predicate IsIPv6(a: Address) { a.Host6? || a.Net6? }

  predicate IsPrefixText(a: Address) { a.Net4? || a.Net6? }

  /** `NormalizeToCIDR`: no validation, unparseable text gets "/32". */
  function NormalizeToCidr(a: Address): (r: Address)
    ensures ValidGroupCidr(a) ==> IsPrefixText(r) && ValidGroupCidr(r)
  {
    match a
    case Empty => Empty
    case Garbage(t) => if '/' in t then a else Garbage(t + "/32")
    case InternetMarker => Garbage(MARKER + "/32")
    case Host4(x) => Net4(x, 32)
    case Host6(x) => Net6(x, 128)
    case Net4(_, _) => a
    case Net6(_, _) => a
  }

  const MARKER := "__internet__"

  /** `isInternetSentinelCIDR`: the marker, bare or with a prefix length behind it. */
  predicate IsMarker(a: Address) { a == InternetMarker || (a.Garbage? && StartsWith(a.text, MARKER + "/")) }

  predicate HasMarker(nets: seq<Address>) { exists n :: n in nets && IsMarker(n) }

  /** Normalising the marker does not hide it. */
  lemma NormalisedMarkerIsMarker()
    ensures IsMarker(NormalizeToCidr(InternetMarker))
  {
    assert (MARKER + "/32")[..13] == MARKER + "/";
  }

  /** A prefix iptables can read. */
  predicate IsPrefix(a: Address) { IsPrefixText(a) && ValidGroupCidr(a) }

  /** `normalizeCIDR` with the group validator. */
  function NormalizeGroupCidr(a: Address): Result<Address> {
    if !ValidGroupCidr(a) then Err(BadAddress)
    else if IsPrefixText(a) then Ok(a)
    else if a.Host6? then Ok(Net6(a.addr6, 128))
    else Ok(Net4(a.addr, 32))
  }

  // ----- lookups -----

  function FindPeer(peers: seq<Peer>, id: int): (r: Option<Peer>)
    ensures r.Some? ==> r.value in peers && r.value.id == id
    ensures r.None? ==> forall p :: p in peers ==> p.id != id
  {
    if peers == [] then None
    else if peers[0].id == id then Some(peers[0])
    else FindPeer(peers[1..], id)
  }

  predicate Active(db: Db, gid: int) { gid in db.groups && !db.groups[gid].deleted }

  /** The membership test every query uses: a member row of a group that is not pending delete. */
  predicate IsMember(db: Db, gid: int, q: int) { Active(db, gid) && Member(gid, q) in db.members }

  function MemberAddresses(members: seq<Member>, peers: seq<Peer>, gid: int): seq<Address> {
    if members == [] then []
    else
      var n := |members| - 1;
      var before := MemberAddresses(members[..n], peers, gid);
      var peer := FindPeer(peers, members[n].peer);
      if members[n].group == gid && peer.Some? then before + [peer.value.ip] else before
  }

  /** The rows of `group_members JOIN peers JOIN groups` for one group. */
  function GroupRows(db: Db, gid: int): seq<Address> {
    if Active(db, gid) then MemberAddresses(db.members, db.peers, gid) else []
  }

  /** Normalised, first occurrence of each kept, failing on the first bad address. */
  function Normalised(rows: seq<Address>): Result<seq<Address>> {
    if rows == [] then Ok([])
    else
      var n := |rows| - 1;
      var before :- Normalised(rows[..n]);
      if !ValidGroupCidr(rows[n]) then Err(BadAddress)
      else
        var c := NormalizeToCidr(rows[n]);
        Ok(if c in before then before else before + [c])
  }

  function GroupNets(db: Db, gid: int): Result<seq<Address>> { Normalised(GroupRows(db, gid)) }

  /** A prefix of the rows that fails makes the whole list fail the same way. */
  lemma {:induction false} NormalisedFailsEarly(rows: seq<Address>, k: nat)
    requires k < |rows| && !ValidGroupCidr(rows[k])
    ensures Normalised(rows) == Err(BadAddress)
  {
    var n := |rows| - 1;
    if k < n {
      NormalisedFailsEarly(rows[..n], k);
    } else if Normalised(rows[..n]).Err? {
      var j := FirstInvalid(rows[..n]);
      NormalisedFailsEarly(rows[..n], j);
    }
  }

  lemma {:induction false} FirstInvalid(rows: seq<Address>) returns (j: nat)
    requires Normalised(rows).Err?
    ensures j < |rows| && !ValidGroupCidr(rows[j])
  {
    var n := |rows| - 1;
    if Normalised(rows[..n]).Err? { j := FirstInvalid(rows[..n]); } else { j := n; }
  }

  /** The resolver behind `-s`/`-d` literals. */
  method ResolveGroup(db: Db, gid: int) returns (r: Result<seq<Address>>)
    ensures r == GroupNets(db, gid)
  {
    var rows := GroupRows(db, gid);
    var seen: set<Address>, results := {}, [];
    for i := 0 to |rows|
      invariant Normalised(rows[..i]) == Ok(results)
      invariant forall a :: a in seen <==> a in results
    {
      assert rows[..i + 1][..i] == rows[..i];
      var cidr := NormalizeGroupCidr(rows[i]);
      if cidr.Err? {
        NormalisedFailsEarly(rows, i);
        return Err(cidr.why);
      }
      if cidr.value !in seen {
        seen := seen + {cidr.value};
        results := results + [cidr.value];
      }
    }
    assert rows[..|rows|] == rows;
    return Ok(results);
  }

  /** The resolver behind named sets: separate code, the same list. */
  method ResolveGroupForIpset(db: Db, gid: int) returns (r: Result<seq<Address>>)
    ensures r == GroupNets(db, gid)
  {
    var rows := GroupRows(db, gid);
    var members: seq<Address>, seen: set<Address> := [], {};
    for i := 0 to |rows|
      invariant Normalised(rows[..i]) == Ok(members)
      invariant forall a :: a in seen <==> a in members
    {
      assert rows[..i + 1][..i] == rows[..i];
      if !ValidGroupCidr(rows[i]) {
        NormalisedFailsEarly(rows, i);
        return Err(BadAddress);
      }
      var key := NormalizeToCidr(rows[i]);
      if key in seen { continue; }
      seen := seen + {key};
      members := members + [key];
    }
    assert rows[..|rows|] == rows;
    return Ok(members);
  }

  /** The list holds exactly the members' prefixes, each once. */
  lemma {:induction false} NormalisedContents(rows: seq<Address>)
    requires Normalised(rows).Ok?
    ensures forall c :: c in Normalised(rows).value <==> exists i :: 0 <= i < |rows| && NormalizeToCidr(rows[i]) == c
    ensures forall i, j :: 0 <= i < j < |Normalised(rows).value| ==>
        Normalised(rows).value[i] != Normalised(rows).value[j]
    ensures forall i :: 0 <= i < |rows| ==> ValidGroupCidr(rows[i])
  {
    if rows != [] {
      var n := |rows| - 1;
      NormalisedContents(rows[..n]);
      assert forall i :: 0 <= i < n ==> rows[..n][i] == rows[i];
    }
  }

  function AllPeerNets(peers: seq<Peer>): Result<seq<Address>> {
    if peers == [] then Ok([])
    else if !ValidPeerCidr(peers[0].ip) then Err(BadAddress)
    else
      var rest :- AllPeerNets(peers[1..]);
      Ok([NormalizeToCidr(peers[0].ip)] + rest)
  }

  /** Greatest address of the prefix of length `len` around `a`. */
  function BroadcastOf(a: Addr, len: nat): int
    requires len <= 32
  {
    var size := Pow2(32 - len);
    a / size * size + size - 1
  }

  lemma Pow2Values()
    ensures Pow2(0) == 1 && Pow2(8) == 0x100 && Pow2(16) == 0x1_0000 && Pow2(20) == 0x10_0000 && Pow2(24) == 0x100_0000
    ensures Pow2(32) == ADDR_LIMIT
  {
    assert Pow2(8) == 0x100;
    Pow2Adds(8, 8);
    Pow2Adds(16, 4);
    Pow2Adds(16, 8);
    Pow2Adds(16, 16);
  }

  lemma {:induction false} Pow2Adds(a: nat, b: nat)
    ensures Pow2(a + b) == Pow2(a) * Pow2(b)
  {
    if a > 0 { Pow2Adds(a - 1, b); }
  }

  lemma BroadcastInRange(a: Addr, len: nat)
    requires len <= 32
    ensures a <= BroadcastOf(a, len) < ADDR_LIMIT
  {
    Pow2Adds(32 - len, len);
    Pow2Values();
    BlockEnd(a, Pow2(32 - len), Pow2(len));
  }

  lemma BlockEnd(a: nat, size: nat, blocks: nat)
    requires size > 0 && a < size * blocks
    ensures a <= a / size * size + size - 1 < size * blocks
  {
    var q := a / size;
    assert a == q * size + a % size;
    if q >= blocks { MulMonotone(blocks, q, size); }
    MulMonotone(q + 1, blocks, size);
    assert (q + 1) * size == q * size + size;
  }

  lemma MulMonotone(x: nat, y: nat, k: nat)
    requires x <= y
    ensures x * k <= y * k
  {
  }

  function SubnetBroadcast(ip: Address): (r: Result<Address>)
  {
    match ip
    case Host4(a) => BroadcastInRange(a, 24); Ok(Net4(BroadcastOf(a, 24), 32))
    case Net4(a, len) =>
      if len > 32 then Err(BadAddress) else BroadcastInRange(a, len); Ok(Net4(BroadcastOf(a, len), 32))
    case _ => Err(BadAddress)
  }

  function ResolveSpecial(db: Db, id: int, peerIp: Address): Result<seq<Address>> {
    if id == SUBNET_BROADCAST then var b :- SubnetBroadcast(peerIp); Ok([b])
    else if id == LIMITED_BROADCAST then Ok([Net4(Dotted(255, 255, 255, 255), 32)])
    else if id == ALL_HOSTS then Ok([Net4(Dotted(224, 0, 0, 1), 32)])
    else if id == MDNS then Ok([Net4(Dotted(224, 0, 0, 251), 32)])
    else if id == LOOPBACK then Ok([Net4(Dotted(127, 0, 0, 1), 32)])
    else if id == ANY_IP then Ok([ANYWHERE])
    else if id == ALL_PEERS then AllPeerNets(db.peers)
    else if id == IGMPV3 then Ok([Net4(Dotted(224, 0, 0, 22), 32)])
    else if id == INTERNET then Ok([InternetMarker])
    else Err(UnknownSpecial)
  }

  function ResolvePeer(db: Db, id: int): Result<seq<Address>> {
    var peer := FindPeer(db.peers, id);
    if peer.None? then Err(UnknownPeer)
    else if !ValidPeerCidr(peer.value.ip) then Err(BadAddress)
    else Ok([NormalizeToCidr(peer.value.ip)])
  }

  /** `resolveEntityCIDRs`: the prefixes that stand for one end of a policy. */
  function ResolveEnd(db: Db, e: End, peerIp: Address): Result<seq<Address>> {
    if e.pin != Empty && e.kind != PeerKind then Err(OverrideOnNonPeer)
    else if e.kind == SpecialKind then ResolveSpecial(db, e.id, peerIp)
    else if e.kind == PeerKind && e.pin != Empty then
      (if ValidPeerCidr(e.pin) then Ok([NormalizeToCidr(e.pin)]) else Err(BadAddress))
    else if e.kind == PeerKind then ResolvePeer(db, e.id)
    else GroupNets(db, e.id)
  }

  // ----- which policies concern which peer -----

  predicate EndHas(db: Db, e: End, q: int) {
    (e.kind == PeerKind && e.id == q) || (e.kind == GroupKind && IsMember(db, e.id, q))
  }

  /** The `is_target` column of the applicability query. */
  predicate IsTarget(db: Db, p: Policy, q: int) {
    EndHas(db, p.target, q) || (p.target.kind == SpecialKind && EndHas(db, p.source, q))
  }

  /** The `is_source` column: broadcast and multicast sources do not make the target a sender. */
  predicate IsSource(db: Db, p: Policy, q: int) {
    || EndHas(db, p.source, q)
    || (p.source.kind == SpecialKind && !IsBroadcastEnd(p.source) && !IsMulticastEnd(p.source)
       && EndHas(db, p.target, q))
  }

  /** The WHERE clause of the applicability query. */
  predicate Selected(db: Db, p: Policy, q: int) {
    && p.enabled && !p.deleted
    && (|| EndHas(db, p.target, q)
        || EndHas(db, p.source, q)
        || (p.target.kind == SpecialKind && EndHas(db, p.source, q))
        || (p.source.kind == SpecialKind && EndHas(db, p.target, q)))
  }

  function Applicable(db: Db, policies: seq<Policy>, q: int): (r: seq<Policy>)
    ensures forall p :: p in r <==> p in policies && Selected(db, p, q)
  {
    if policies == [] then []
    else
      var rest := Applicable(db, policies[1..], q);
      if Selected(db, policies[0], q) then [policies[0]] + rest else rest
  }
}
