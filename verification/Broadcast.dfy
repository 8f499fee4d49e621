/** Subnet broadcast arithmetic: the byte loop computes the greatest address of the network, and the
    importer recognises exactly what the resolver emits. */
module Broadcast {
  import opened Wrappers
  import opened Netfilter
  import opened Catalog

  // ----- the greatest address of a prefix -----

  lemma SameBlock(x: nat, a: nat, size: nat)
    requires size > 0 && x / size == a / size
    ensures x <= a / size * size + size - 1
  {
    assert x == x / size * size + x % size;
  }

  lemma BlockEndInBlock(a: nat, size: nat)
    requires size > 0
    ensures (a / size * size + size - 1) / size == a / size
  {
    var q, e := a / size, a / size * size + size - 1;
    DivUnique(e, size, q, size - 1);
  }

  lemma DivUnique(x: nat, size: nat, q: nat, r: nat)
    requires size > 0 && r < size && x == q * size + r
    ensures x / size == q
  {
    var q', r' := x / size, x % size;
    assert x == q' * size + r';
    assert (q' + 1) * size == q' * size + size && (q + 1) * size == q * size + size;
    if q' < q { MulMonotone(q' + 1, q, size); }
    if q < q' { MulMonotone(q + 1, q', size); }
  }

  /** The broadcast address lies in the network and no address of the network exceeds it. */
  lemma BroadcastIsGreatest(a: Addr, len: nat)
    requires len <= 32
    ensures a <= BroadcastOf(a, len) < ADDR_LIMIT
    ensures InPrefix(BroadcastOf(a, len), Net4(a, len))
    ensures forall x: Addr :: InPrefix(x, Net4(a, len)) ==> x <= BroadcastOf(a, len)
  {
    BroadcastInRange(a, len);
    BlockEndInBlock(a, Pow2(32 - len));
    forall x: Addr | InPrefix(x, Net4(a, len)) ensures x <= BroadcastOf(a, len) { SameBlock(x, a, Pow2(32 - len)); }
  }

  // ----- the byte loop -----

  function Ones(len: nat, i: nat): nat
    requires i < 4
  {
    if len <= 8 * i then 0 else if len >= 8 * i + 8 then 8 else len - 8 * i
  }

  /** The byte with its host bits set: what `b | ^mask` is for a mask byte with 8 - log2(s) ones. */
  function HostBits(b: nat, s: nat): int
    requires s > 0
  {
    b / s * s + s - 1
  }

  lemma OrSetsAllOrNone(b: bv8)
    ensures (b | 0xFF) as int == HostBits(b as int, 256) && (b | 0x00) as int == HostBits(b as int, 1)
  {
    assert b | 0xFF == 0xFF && b | 0x00 == b;
  }

  lemma OrSetsManyHostBits(b: bv8)
    ensures (b | 0x7F) as int == HostBits(b as int, 128) && (b | 0x3F) as int == HostBits(b as int, 64)
    ensures (b | 0x1F) as int == HostBits(b as int, 32)
  {
  }

  lemma OrSetsFewHostBits(b: bv8)
    ensures (b | 0x0F) as int == HostBits(b as int, 16) && (b | 0x07) as int == HostBits(b as int, 8)
  {
  }

  lemma OrSetsFewerHostBits(b: bv8)
    ensures (b | 0x03) as int == HostBits(b as int, 4) && (b | 0x01) as int == HostBits(b as int, 2)
  {
  }

  /** A mask byte with `ones` leading ones. */
  function MaskByte(ones: nat): bv8
    requires ones <= 8
  {
    match ones
    case 0 => 0x00
    case 1 => 0x80
    case 2 => 0xC0
    case 3 => 0xE0
    case 4 => 0xF0
    case 5 => 0xF8
    case 6 => 0xFC
    case 7 => 0xFE
    case _ => 0xFF
  }

  /** The complement of a mask byte has the host bits set. */
  lemma Wildcard(ones: nat)
    requires ones <= 8
    ensures !MaskByte(ones) == match ones
      case 0 => 0xFF as bv8
      case 1 => 0x7F
      case 2 => 0x3F
      case 3 => 0x1F
      case 4 => 0x0F
      case 5 => 0x07
      case 6 => 0x03
      case 7 => 0x01
      case _ => 0x00
  {
  }

  /** `ip[i] | ^mask[i]` sets the host bits of the byte and keeps the others. */
  lemma OrSetsHostBits(b: bv8, ones: nat)
    requires ones <= 8
    ensures (b | !MaskByte(ones)) as int == HostBits(b as int, Pow2(8 - ones))
  {
    Wildcard(ones);
    SmallPowers();
    if ones == 0 || ones == 8 {
      OrSetsAllOrNone(b);
    } else if ones <= 3 {
      OrSetsManyHostBits(b);
    } else if ones <= 5 {
      OrSetsFewHostBits(b);
    } else {
      OrSetsFewerHostBits(b);
    }
  }

  lemma SmallPowers()
    ensures Pow2(0) == 1 && Pow2(1) == 2 && Pow2(2) == 4 && Pow2(3) == 8 && Pow2(4) == 16
    ensures Pow2(5) == 32 && Pow2(6) == 64 && Pow2(7) == 128 && Pow2(8) == 256
  {
    assert Pow2(4) == 16;
  }

  /** One partly masked byte, whole bytes above it and free bytes below it. */
  lemma BlockOfBytes(h: nat, b: nat, l: nat, s: nat, m: nat, lower: nat)
    requires s * m == 256 && s > 0 && lower > 0 && l < lower
    ensures var a := (h * 256 + b) * lower + l; var size := s * lower;
      size > 0 && a / size * size + size - 1 == (h * 256 + HostBits(b, s)) * lower + lower - 1
  {
    var a, size := (h * 256 + b) * lower + l, s * lower;
    var c, d := b / s, b % s;
    var q, r := h * m + c, d * lower + l;
    assert size > 0 && b == c * s + d;
    MulMonotone(d + 1, s, lower);
    assert (d + 1) * lower == d * lower + lower;
    assert r < size;
    assert h * 256 == h * m * s;
    assert q * s == h * m * s + c * s;
    assert h * 256 + b == q * s + d;
    assert (q * s + d) * lower == q * s * lower + d * lower;
    assert q * s * lower == q * size;
    assert a == q * size + r;
    DivUnique(a, size, q, r);
    assert (q * s + (s - 1)) * lower == q * s * lower + s * lower - lower;
  }

  function IntOf(b: bv8): (n: nat)
    ensures n < 256
  {
    b as int
  }

  predicate AreBytes(b: seq<nat>) { |b| == 4 && forall i :: 0 <= i < 4 ==> b[i] < 256 }

  function Ints(b: seq<bv8>): (r: seq<nat>)
    requires |b| == 4
    ensures AreBytes(r) && forall i :: 0 <= i < 4 ==> r[i] == IntOf(b[i])
  {
    [IntOf(b[0]), IntOf(b[1]), IntOf(b[2]), IntOf(b[3])]
  }

  function ValueOf(b: seq<nat>): Addr
    requires AreBytes(b)
  {
    Dotted(b[0], b[1], b[2], b[3])
  }

  /** The four masked bytes, read as one number, are the greatest address of the block. */
  lemma BytesMakeBroadcast(b0: nat, b1: nat, b2: nat, b3: nat, len: nat)
    requires b0 < 256 && b1 < 256 && b2 < 256 && b3 < 256 && len <= 32
    ensures Dotted4(HostBits(b0, Pow2(8 - Ones(len, 0))), HostBits(b1, Pow2(8 - Ones(len, 1))),
                    HostBits(b2, Pow2(8 - Ones(len, 2))), HostBits(b3, Pow2(8 - Ones(len, 3))))
                        == BroadcastOf(Dotted(b0, b1, b2, b3), len)
  {
    if len >= 24 {
      LastByte(b0, b1, b2, b3, len);
    } else if len >= 16 {
      ThirdByte(b0, b1, b2, b3, len);
    } else if len >= 8 {
      SecondByte(b0, b1, b2, b3, len);
    } else {
      FirstByte(b0, b1, b2, b3, len);
    }
  }

  lemma LastByte(b0: nat, b1: nat, b2: nat, b3: nat, len: nat)
    requires b0 < 256 && b1 < 256 && b2 < 256 && b3 < 256 && 24 <= len <= 32
    ensures Dotted4(HostBits(b0, Pow2(0)), HostBits(b1, Pow2(0)), HostBits(b2, Pow2(0)),
        HostBits(b3, Pow2(32 - len))) == BroadcastOf(Dotted(b0, b1, b2, b3), len)
  {
    SmallPowers();
    Pow2Adds(32 - len, len - 24);
    BlockOfBytes((b0 * 256 + b1) * 256 + b2, b3, 0, Pow2(32 - len), Pow2(len - 24), 1);
  }

  lemma ThirdByte(b0: nat, b1: nat, b2: nat, b3: nat, len: nat)
    requires b0 < 256 && b1 < 256 && b2 < 256 && b3 < 256 && 16 <= len < 24
    ensures Dotted4(HostBits(b0, Pow2(0)), HostBits(b1, Pow2(0)), HostBits(b2, Pow2(24 - len)),
        HostBits(b3, Pow2(8))) == BroadcastOf(Dotted(b0, b1, b2, b3), len)
  {
    SmallPowers();
    PartByte(len, 2);
    BlockOfBytes(b0 * 256 + b1, b2, b3, Pow2(24 - len), Pow2(len - 16), 0x100);
  }

  lemma SecondByte(b0: nat, b1: nat, b2: nat, b3: nat, len: nat)
    requires b0 < 256 && b1 < 256 && b2 < 256 && b3 < 256 && 8 <= len < 16
    ensures Dotted4(HostBits(b0, Pow2(0)), HostBits(b1, Pow2(16 - len)), HostBits(b2, Pow2(8)),
        HostBits(b3, Pow2(8))) == BroadcastOf(Dotted(b0, b1, b2, b3), len)
  {
    SmallPowers();
    Pow2Values();
    PartByte(len, 1);
    var low := b2 * 256 + b3;
    BlockOfBytes(b0, b1, low, Pow2(16 - len), Pow2(len - 8), 0x1_0000);
    assert Dotted(b0, b1, b2, b3) == (b0 * 256 + b1) * 0x1_0000 + low;
    FreeBytes(b2, b2, b3);
    assert HostBits(b0, 1) == b0;
  }

  lemma FirstByte(b0: nat, b1: nat, b2: nat, b3: nat, len: nat)
    requires b0 < 256 && b1 < 256 && b2 < 256 && b3 < 256 && len < 8
    ensures Dotted4(HostBits(b0, Pow2(8 - len)), HostBits(b1, Pow2(8)), HostBits(b2, Pow2(8)), HostBits(b3, Pow2(8)))
        == BroadcastOf(Dotted(b0, b1, b2, b3), len)
  {
    SmallPowers();
    Pow2Values();
    PartByte(len, 0);
    var low := (b1 * 256 + b2) * 256 + b3;
    BlockOfBytes(0, b0, low, Pow2(8 - len), Pow2(len), 0x100_0000);
    assert Dotted(b0, b1, b2, b3) == (0 * 256 + b0) * 0x100_0000 + low;
    FreeBytes(b1, b2, b3);
  }

  lemma FreeBytes(b1: nat, b2: nat, b3: nat)
    requires b1 < 256 && b2 < 256 && b3 < 256
    ensures HostBits(b1, 256) == HostBits(b2, 256) == HostBits(b3, 256) == 255
  {
  }

  function Dotted4(a: int, b: int, c: int, d: int): int { ((a * 256 + b) * 256 + c) * 256 + d }

  lemma PartByte(len: nat, i: nat)
    requires i < 4 && 8 * i <= len < 8 * i + 8
    ensures Pow2(8 * i + 8 - len) * Pow2(len - 8 * i) == 256
    ensures Pow2(32 - len) == Pow2(8 * i + 8 - len) * Pow2(24 - 8 * i)
  {
    Pow2Values();
    Pow2Adds(8 * i + 8 - len, len - 8 * i);
    Pow2Adds(8 * i + 8 - len, 24 - 8 * i);
  }

  predicate IsMasked(b: nat, r: nat, ones: nat)
    requires ones <= 8
  {
    r == HostBits(b, Pow2(8 - ones))
  }

  /** The loop body: `ip[i] | ^mask[i]`. */
  method MaskOne(b: bv8, ones: nat) returns (r: bv8)
    requires ones <= 8
    ensures IsMaskedByte(b, r, ones)
  {
    r := b | !MaskByte(ones);
    OrSetsHostBits(b, ones);
  }

  lemma MaskedBytesMakeBroadcast(ip: seq<nat>, bytes: seq<nat>, len: nat)
    requires AreBytes(ip) && AreBytes(bytes) && len <= 32
    requires forall k :: 0 <= k < 4 ==> IsMasked(ip[k], bytes[k], Ones(len, k))
    ensures ValueOf(bytes) == BroadcastOf(ValueOf(ip), len)
  {
    assert IsMasked(ip[0], bytes[0], Ones(len, 0)) && IsMasked(ip[1], bytes[1], Ones(len, 1));
    assert IsMasked(ip[2], bytes[2], Ones(len, 2)) && IsMasked(ip[3], bytes[3], Ones(len, 3));
    BytesMakeBroadcast(ip[0], ip[1], ip[2], ip[3], len);
  }

  /** The loop of `ComputeSubnetBroadcast` over the four bytes of an address with a prefix. */
  method ComputeBroadcastBytes(ip: seq<bv8>, len: nat) returns (bytes: array<bv8>)
    requires |ip| == 4 && len <= 32
    ensures bytes.Length == 4 && ValueOf(Ints(bytes[..])) == BroadcastOf(ValueOf(Ints(ip)), len)
  {
    bytes := new bv8[4];
    for i := 0 to 4
      invariant forall k :: 0 <= k < i ==> IsMaskedByte(ip[k], bytes[k], Ones(len, k))
    {
      var r := MaskOne(ip[i], Ones(len, i));
      bytes[i] := r;
    }
    AllMasked(ip, bytes[..], len);
  }

  predicate IsMaskedByte(b: bv8, r: bv8, ones: nat)
    requires ones <= 8
  {
    IsMasked(IntOf(b), IntOf(r), ones)
  }

  lemma AllMasked(ip: seq<bv8>, bytes: seq<bv8>, len: nat)
    requires |ip| == |bytes| == 4 && len <= 32
    requires forall k :: 0 <= k < 4 ==> IsMaskedByte(ip[k], bytes[k], Ones(len, k))
    ensures ValueOf(Ints(bytes)) == BroadcastOf(ValueOf(Ints(ip)), len)
  {
    var a, b := Ints(ip), Ints(bytes);
    forall k | 0 <= k < 4 ensures IsMasked(a[k], b[k], Ones(len, k)) {
      assert IsMaskedByte(ip[k], bytes[k], Ones(len, k));
    }
    MaskedBytesMakeBroadcast(a, b, len);
  }

  /** A bare address is treated as its /24 network: the last byte becomes 255. */
  lemma BareAddressIsSlash24(a: nat, b: nat, c: nat, d: nat)
    requires a < 256 && b < 256 && c < 256 && d < 256
    ensures SubnetBroadcast(Host4(Dotted(a, b, c, d))) == SubnetBroadcast(Net4(Dotted(a, b, c, d), 24))
        == Ok(Net4(Dotted(a, b, c, 255), 32))
  {
    Pow2Values();
  }

  // ----- recognising broadcast destinations -----

  /** `NormalizeIP`: a host prefix is stripped, a network prefix kept. */
  function StripHost(a: Address): Address {
    match a
    case Net4(x, len) => if len == 32 then Host4(x) else a
    case Net6(x, len) => if len == 128 then Host6(x) else a
    case _ => a
  }

  const LIMITED := Dotted(255, 255, 255, 255)

  /** `IsSubnetBroadcastDest`: some peer address has this broadcast address. */
  predicate IsSubnetBroadcastDest(dest: Address, peerIps: seq<Address>) {
    exists p :: p in peerIps && SubnetBroadcast(p).Ok? && StripHost(SubnetBroadcast(p).value) == StripHost(dest)
  }

  /** `IsBroadcastDest`: 0, or the id of the special target. */
  function IsBroadcastDest(dest: Address, chain: Chain, peerIps: seq<Address>): int {
    if chain == OUTPUT then 0
    else if StripHost(dest) == Host4(LIMITED) then LIMITED_BROADCAST
    else if IsSubnetBroadcastDest(StripHost(dest), peerIps) then SUBNET_BROADCAST
    else 0
  }

  /** On INPUT the importer recognises exactly what the resolver emits for the same peer address, the
      limited broadcast address taking precedence. */
  lemma RecognisesWhatIsEmitted(db: Db, ip: Address, dest: Address)
    requires SubnetBroadcast(ip).Ok?
    ensures IsBroadcastDest(dest, INPUT, [ip]) == SUBNET_BROADCAST <==>
      StripHost(dest) != Host4(LIMITED)
          && ResolveSpecial(db, SUBNET_BROADCAST, ip) == Ok([NormalizeToCidr(StripHost(dest))])
    ensures IsBroadcastDest(dest, INPUT, [ip]) == LIMITED_BROADCAST <==>
      ResolveSpecial(db, LIMITED_BROADCAST, ip) == Ok([NormalizeToCidr(StripHost(dest))])
    ensures forall net :: ResolveSpecial(db, SUBNET_BROADCAST, ip) == Ok([net]) ==>
      IsBroadcastDest(net, INPUT, [ip]) == if net == Net4(LIMITED, 32) then LIMITED_BROADCAST else SUBNET_BROADCAST
  {
    assert ip in [ip];
    var b := SubnetBroadcast(ip).value;
    assert b.Net4? && b.len == 32;
    assert IsSubnetBroadcastDest(StripHost(dest), [ip]) <==> StripHost(b) == StripHost(StripHost(dest));
    assert ResolveSpecial(db, SUBNET_BROADCAST, ip).value == [b];
    assert [b][0] == b && [NormalizeToCidr(StripHost(dest))][0] == NormalizeToCidr(StripHost(dest));
    assert ResolveSpecial(db, LIMITED_BROADCAST, ip).value[0] == Net4(LIMITED, 32);
  }
}
