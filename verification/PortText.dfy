/** Port lists and port flags as text: validation and expansion of a service's port columns,
    and the textual inversion that turns a rule's port flags into those of its reply. */
module PortText {
  import opened Wrappers

  datatype Side = Src | Dst

  function Flip(side: Side): Side { if side == Src then Dst else Src }

  // ----- text helpers -----

  predicate IsDigit(c: char) { '0' <= c <= '9' }

  predicate IsSeparator(c: char) { c == ',' || c == ':' }

  function Split(s: string, sep: char): (parts: seq<string>)
    ensures |parts| > 0
  {
    if s == "" then [""]
    else
      var rest := Split(s[1..], sep);
      if s[0] == sep then [""] + rest else [[s[0]] + rest[0]] + rest[1..]
  }

  function Number(s: string): nat {
    if s == "" then 0
    else
      var last := s[|s| - 1];
      10 * Number(s[..|s| - 1]) + (if IsDigit(last) then last as nat - '0' as nat else 0)
  }

  // ----- port lists -----

  /** `^\d+([,:]\d+)*$` */
  predicate PortShape(s: string) {
    && s != "" && IsDigit(s[0]) && IsDigit(s[|s| - 1])
    && (forall i :: 0 <= i < |s| ==> IsDigit(s[i]) || IsSeparator(s[i]))
    && (forall i :: 0 <= i < |s| - 1 ==> IsSeparator(s[i]) ==> IsDigit(s[i + 1]))
  }

  function Low(seg: string): nat { Number(Split(seg, ':')[0]) }

  function High(seg: string): nat {
    var parts := Split(seg, ':');
    Number(parts[|parts| - 1])
  }

  predicate ValidSegment(seg: string) {
    |Split(seg, ':')| <= 2 && 1 <= Low(seg) <= High(seg) <= 65535
  }

  predicate ValidPorts(s: string) {
    s == "" || (PortShape(s) && forall seg :: seg in Split(s, ',') ==> ValidSegment(seg))
  }

  /** The ports a list or single port names. */
  predicate Covers(list: string, port: nat) {
    exists seg :: seg in Split(list, ',') && Low(seg) <= port <= High(seg)
  }

  /** The loop over the comma-separated segments decides exactly `ValidPorts`. */
  method ValidatePorts(ports: string) returns (ok: bool)
    ensures ok <==> ValidPorts(ports)
  {
    if ports == "" { return true; }
    if !PortShape(ports) { return false; }
    var segs := Split(ports, ',');
    for i := 0 to |segs|
      invariant forall k :: 0 <= k < i ==> ValidSegment(segs[k])
    {
      var parts := Split(segs[i], ':');
      assert segs[i] in segs;
      if |parts| > 2 { return false; }
      var lo, hi := Number(parts[0]), Number(parts[|parts| - 1]);
      if lo < 1 || lo > 65535 || hi < 1 || hi > 65535 || lo > hi { return false; }
    }
    return true;
  }

  // ----- services to port clauses -----

  /** One protocol with the destination and source port lists to test ("" tests nothing). */
  datatype PortClause = PortClause(proto: string, dports: string, sports: string)

  function ExpandPorts(dports: string, sports: string, proto: string): (r: Result<seq<PortClause>>)
    ensures r.Ok? ==> 1 <= |r.value| <= 2
  {
    if proto == "icmp" || proto == "igmp" then Ok([PortClause(proto, "", "")])
    else if !ValidPorts(dports) || !ValidPorts(sports) then Err(BadPorts)
    else if dports == "" && sports == "" then Err(NoPorts)
    else if proto == "both" then Ok([PortClause("tcp", dports, sports), PortClause("udp", dports, sports)])
    else Ok([PortClause(proto, dports, sports)])
  }

  // ----- rendering and inversion -----

  function Flag(side: Side, many: bool): string {
    if side == Dst then (if many then "--dports" else "--dport")
    else (if many then "--sports" else "--sport")
  }

  predicate IsList(list: string) { ',' in list || ':' in list }

  /** The iptables fragment for one side's ports, as `expandPortsSingle` writes it. */
  function Fragment(side: Side, list: string): string {
    if list == "" then ""
    else if IsList(list) then "-m multiport " + Flag(side, true) + " " + list
    else Flag(side, false) + " " + list
  }

  predicate StartsWith(s: string, p: string) { |p| <= |s| && s[..|p|] == p }

  /** Leftmost non-overlapping replacement. */
  function ReplaceAll(s: string, old_: string, new_: string): string
    requires old_ != ""
    decreases |s|
  {
    if s == "" then ""
    else if StartsWith(s, old_) then new_ + ReplaceAll(s[|old_|..], old_, new_)
    else [s[0]] + ReplaceAll(s[1..], old_, new_)
  }

  function SwapFlags(frag: string, from: Side): string {
    ReplaceAll(ReplaceAll(frag, Flag(from, true), Flag(Flip(from), true)),
               Flag(from, false), Flag(Flip(from), false))
  }

  function Join2(a: string, b: string): string {
    if a == "" then b else if b == "" then a else a + " " + b
  }

  function InvertPortMatch(dstMatch: string, srcMatch: string): string {
    var result := if dstMatch != "" then SwapFlags(dstMatch, Dst) else "";
    if srcMatch != "" then
      (if result != "" then result + " " + SwapFlags(srcMatch, Src) else SwapFlags(srcMatch, Src))
    else result
  }

  /** A list without a dash in it cannot contain a flag. */
  predicate PlainText(list: string) { '-' !in list }

  lemma ValidPortsArePlain(s: string)
    requires ValidPorts(s)
    ensures PlainText(s)
  {
  }

  predicate IsFlag(f: string) {
    |f| > 2 && f[0] == '-' && f[1] == '-' && '-' !in f[2..]
  }

  lemma DiffersAt(s: string, p: string, k: nat)
    requires k < |s| && k < |p| && s[k] != p[k]
    ensures !StartsWith(s, p)
  {
  }

  /** No double dash starts inside `a` when `b` follows it. */
  predicate NoFlagStart(a: string, b: string) {
    forall i :: 0 <= i < |a| ==> a[i] != '-' || (i + 1 < |a + b| && (a + b)[i + 1] != '-')
  }

  /** Text before the first double dash is copied unchanged. */
  lemma {:induction false} ReplaceSkips(a: string, b: string, old_: string, new_: string)
    requires IsFlag(old_) && NoFlagStart(a, b)
    ensures ReplaceAll(a + b, old_, new_) == a + ReplaceAll(b, old_, new_)
    decreases |a|
  {
    if a == "" {
      assert a + b == b;
    } else {
      var s := a + b;
      assert s[0] == a[0] && s[1..] == a[1..] + b;
      DiffersAt(s, old_, if s[0] != '-' then 0 else 1);
      forall i | 0 <= i < |a[1..]|
        ensures a[1..][i] != '-' || (i + 1 < |a[1..] + b| && (a[1..] + b)[i + 1] != '-')
      {
        assert a[1..][i] == a[i + 1] && (a[1..] + b)[i..] == s[i + 1..];
      }
      ReplaceSkips(a[1..], b, old_, new_);
    }
  }

  lemma ReplacePlain(a: string, old_: string, new_: string)
    requires IsFlag(old_) && PlainText(a)
    ensures ReplaceAll(a, old_, new_) == a
  {
    assert a + "" == a;
    ReplaceSkips(a, "", old_, new_);
  }

  /** Replacing a flag at the head of a fragment changes that flag only. */
  lemma ReplaceHead(old_: string, new_: string, rest: string)
    requires IsFlag(old_) && PlainText(rest)
    ensures ReplaceAll(old_ + rest, old_, new_) == new_ + rest
  {
    var s := old_ + rest;
    assert s[..|old_|] == old_ && s[|old_|..] == rest;
    ReplacePlain(rest, old_, new_);
  }

  /** A different flag at the head is left alone. */
  lemma ReplaceOther(flag: string, old_: string, new_: string, rest: string)
    requires IsFlag(old_) && IsFlag(flag) && PlainText(rest)
    requires !StartsWith(flag + rest, old_)
    ensures ReplaceAll(flag + rest, old_, new_) == flag + rest
  {
    var s := flag + rest;
    var a := flag[1..];
    assert s == [s[0]] + (a + rest) && s[1..] == a + rest;
    forall i | 0 <= i < |a|
      ensures a[i] != '-' || (i + 1 < |a + rest| && (a + rest)[i + 1] != '-')
    {
      if i > 0 {
        assert a[i] == flag[2..][i - 1] && a[i] in flag[2..];
      } else {
        assert (a + rest)[1] == flag[2] == flag[2..][0] && flag[2] in flag[2..];
      }
    }
    ReplaceSkips(a, rest, old_, new_);
    ReplacePlain(rest, old_, new_);
  }

  /** The single-port form: the plural pass finds nothing, the singular pass renames the flag. */
  lemma RenameSingle(f: string, g: string, rest: string)
    requires IsFlag(f) && PlainText(rest) && rest != "" && rest[0] != 's'
    ensures ReplaceAll(ReplaceAll(f + rest, f + "s", g + "s"), f, g) == g + rest
  {
    assert (f + "s")[2..] == f[2..] + "s";
    assert (f + rest)[|f|] == rest[0] && (f + "s")[|f|] == 's';
    DiffersAt(f + rest, f + "s", |f|);
    ReplaceOther(f, f + "s", g + "s", rest);
    ReplaceHead(f, g, rest);
  }

  /** The list form: the plural pass renames the flag, the singular pass finds nothing. */
  lemma RenameMulti(m: string, f: string, g: string, rest: string)
    requires IsFlag(f) && IsFlag(g) && f[2] != g[2] && PlainText(rest)
    requires NoFlagStart(m, f + "s" + rest) && NoFlagStart(m, g + "s" + rest)
    ensures ReplaceAll(ReplaceAll(m + (f + "s" + rest), f + "s", g + "s"), f, g) == m + (g + "s" + rest)
  {
    var fs, gs := f + "s", g + "s";
    assert fs[2..] == f[2..] + "s" && gs[2..] == g[2..] + "s";
    ReplaceSkips(m, fs + rest, fs, gs);
    ReplaceHead(fs, gs, rest);
    ReplaceSkips(m, gs + rest, f, g);
    assert (gs + rest)[2] == g[2];
    DiffersAt(gs + rest, f, 2);
    ReplaceOther(gs, f, g, rest);
  }

  lemma FlagNames(from: Side)
    ensures IsFlag(Flag(from, false)) && IsFlag(Flag(Flip(from), false))
    ensures Flag(from, true) == Flag(from, false) + "s"
    ensures Flag(from, false)[2] != Flag(Flip(from), false)[2]
  {
    assert Flag(from, false)[2..] == (if from == Dst then "dport" else "sport");
    assert Flag(Flip(from), false)[2..] == (if from == Dst then "sport" else "dport");
  }

  lemma ModuleIsNoFlag(tail: string)
    ensures NoFlagStart("-m multiport ", tail)
  {
    assert ("-m multiport " + tail)[1] == 'm';
  }

  lemma SwapText(m: string, from: Side, list: string, f: string, g: string, many: bool)
    requires f == Flag(from, false) && g == Flag(Flip(from), false) && PlainText(list)
    requires many ==> forall tail :: NoFlagStart(m, tail)
    ensures many ==> SwapFlags(m + ((f + "s") + (" " + list)), from) == m + ((g + "s") + (" " + list))
    ensures !many ==> SwapFlags(f + (" " + list), from) == g + (" " + list)
  {
    FlagNames(from);
    FlagNames(Flip(from));
    if many { RenameMulti(m, f, g, " " + list); } else { RenameSingle(f, g, " " + list); }
  }

  lemma SwapFragment(from: Side, list: string)
    requires list != "" && PlainText(list)
    ensures SwapFlags(Fragment(from, list), from) == Fragment(Flip(from), list) != ""
  {
    var f, g := Flag(from, false), Flag(Flip(from), false);
    forall tail ensures NoFlagStart("-m multiport ", tail) { ModuleIsNoFlag(tail); }
    SwapText("-m multiport ", from, list, f, g, IsList(list));
    FragmentText(from, list);
    FragmentText(Flip(from), list);
  }

  lemma FragmentText(side: Side, list: string)
    requires list != ""
    ensures Fragment(side, list) == if IsList(list) then "-m multiport " + ((Flag(side, false) + "s") + (" " + list))
                                    else Flag(side, false) + (" " + list)
  {
    FlagNames(side);
  }

  /** Textual inversion of a clause's fragments is the fragments of the exchanged port lists:
      what was tested on the destination port is tested on the source port and conversely. */
  lemma InversionExchangesSides(dports: string, sports: string)
    requires ValidPorts(dports) && ValidPorts(sports)
    ensures InvertPortMatch(Fragment(Dst, dports), Fragment(Src, sports))
         == Join2(Fragment(Src, dports), Fragment(Dst, sports))
  {
    ValidPortsArePlain(dports);
    ValidPortsArePlain(sports);
    if dports != "" { SwapFragment(Dst, dports); }
    if sports != "" { SwapFragment(Src, sports); }
  }

  /** Inverting the reply's fragments gives the primary tests back. */
  lemma InversionIsInvolutive(dports: string, sports: string)
    requires ValidPorts(dports) && ValidPorts(sports)
    ensures InvertPortMatch(SwapFlags(Fragment(Src, sports), Src), SwapFlags(Fragment(Dst, dports), Dst))
         == Join2(Fragment(Src, sports), Fragment(Dst, dports))
  {
    ValidPortsArePlain(dports);
    ValidPortsArePlain(sports);
    if dports != "" { SwapFragment(Dst, dports); SwapFragment(Src, dports); }
    if sports != "" { SwapFragment(Src, sports); SwapFragment(Dst, sports); }
  }
}
