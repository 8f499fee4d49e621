/** The lines the compiler prints for prefixes, read back by the iptables-save parser. */
module IptRoundTrip {
  import opened PortText
  import opened IptParse
  import Netfilter
  import RuleBuilder

  // ----- printing -----

  /** The three shapes of a non-LOG line on the prefix path. */
  datatype Shape = PrimaryLine | ReturnLine | DropLine

  /** Everything a line shows. `cidr` is the text of the far prefix. */
  datatype Printed = Printed(
    shape: Shape, chain: string, side: Side, cidr: string, clause: PortClause, noConntrack: bool, target: string)

  /** The port fragments as `splitPortMatches` and the drop builder write them. */
  function PortsText(shape: Shape, pc: PortClause): string {
    var d, s := Fragment(Dst, pc.dports), Fragment(Src, pc.sports);
    match shape
    case PrimaryLine => if s != "" then s + " " + d else d
    case ReturnLine => InvertPortMatch(d, s)
    case DropLine => d
  }

  const CT := "-m conntrack --ctstate NEW,ESTABLISHED"

  function AddressFlag(side: Side): string { if side == Src then "-s" else "-d" }

  function Jumped(p: Printed): string { "-j" + " " + p.target }

  /** The conntrack column of ACCEPT lines, which may be empty, and the jump. */
  function TailText(p: Printed): string {
    if p.shape == DropLine then Jumped(p) else (if p.noConntrack then "" else CT) + " " + Jumped(p)
  }

  function LineText(p: Printed): string {
    ChainPrefix(p.chain) + (AddressFlag(p.side) + " " + (p.cidr + " " + ("-p" + " " + (p.clause.proto + " "
      + (PortsText(p.shape, p.clause) + " " + TailText(p))))))
  }

  predicate Printable(p: Printed) {
    && IsWord(p.chain) && IsWord(p.cidr) && IsWord(p.clause.proto) && IsWord(p.target)
    && ValidPorts(p.clause.dports) && ValidPorts(p.clause.sports)
  }

  // ----- what the line shows -----

  /** The list tested on the source port; it is printed first. */
  function SourceList(p: Printed): string {
    match p.shape
    case PrimaryLine => p.clause.sports
    case ReturnLine => p.clause.dports
    case DropLine => ""
  }

  function DestList(p: Printed): string { if p.shape == ReturnLine then p.clause.sports else p.clause.dports }

  predicate Tracked(p: Printed) { p.shape != DropLine && !p.noConntrack }

  /** A list of source ports is followed by a single destination port. */
  predicate Swallows(p: Printed) { IsList(SourceList(p)) && DestList(p) != "" && !IsList(DestList(p)) }

  function Addressed(side: Side, cidr: string, proto: string): Parsed {
    if side == Src then BLANK.(sourceIp := cidr, protocol := proto) else BLANK.(destIp := cidr, protocol := proto)
  }

  function PortModule(list: string): seq<string> { if list != "" && IsList(list) then ["multiport"] else [] }

  /** The record of a line with these two port lists. */
  function Shown(p: Printed, sports: string, dports: string): Parsed {
    Addressed(p.side, p.cidr, p.clause.proto).(
      sourcePort := sports, destPort := dports, target := p.target,
      states := if Tracked(p) then ["NEW", "ESTABLISHED"] else [],
      modules := PortModule(sports) + PortModule(dports) + if Tracked(p) then ["conntrack"] else [])
  }

  // ----- splitting the text -----

  function FragmentWords(side: Side, list: string): seq<string> {
    if list == "" then []
    else if IsList(list) then ["-m", "multiport", Flag(side, true), list]
    else [Flag(side, false), list]
  }

  const CT_WORDS := ["-m", "conntrack", "--ctstate", "NEW,ESTABLISHED"]

  function TailWords(p: Printed): seq<string> { (if Tracked(p) then CT_WORDS else []) + ["-j", p.target] }

  function Words(p: Printed): seq<string> {
    [AddressFlag(p.side), p.cidr, "-p", p.clause.proto]
    + (FragmentWords(Src, SourceList(p)) + (FragmentWords(Dst, DestList(p)) + TailWords(p)))
  }

  lemma FieldsOfTwo(a: string, b: string)
    requires IsWord(a) && IsWord(b)
    ensures Fields(a + " " + b) == [a, b]
  {
    FieldsSeparate(a, b);
    FieldsOfWord(a);
    FieldsOfWord(b);
  }

  lemma FieldsCons(a: string, rest: string)
    requires IsWord(a)
    ensures Fields(a + " " + rest) == [a] + Fields(rest)
  {
    FieldsSeparate(a, rest);
    FieldsOfWord(a);
  }

  lemma FieldsOfFour(a: string, b: string, c: string, d: string)
    requires IsWord(a) && IsWord(b) && IsWord(c) && IsWord(d)
    ensures Fields(a + " " + (b + " " + (c + " " + d))) == [a, b, c, d]
  {
    FieldsOfTwo(c, d);
    FieldsCons(b, c + " " + d);
    FieldsCons(a, b + " " + (c + " " + d));
  }

  lemma PortsAreWords(list: string)
    requires ValidPorts(list) && list != ""
    ensures IsWord(list) && list[0] != '-'
  {
    forall i | 0 <= i < |list| ensures !IsSpace(list[i]) { assert IsDigit(list[i]) || IsSeparator(list[i]); }
  }

  lemma FlagIsWord(side: Side, many: bool)
    ensures IsWord(Flag(side, many))
  {
  }

  lemma MultiportText(flag: string, list: string)
    ensures "-m multiport " + flag + " " + list == "-m" + " " + ("multiport" + " " + (flag + " " + list))
  {
    assert "-m multiport " == "-m" + " " + "multiport" + " ";
  }

  lemma FieldsOfFragment(side: Side, list: string)
    requires ValidPorts(list)
    ensures Fields(Fragment(side, list)) == FragmentWords(side, list)
  {
    if list != "" {
      PortsAreWords(list);
      FlagIsWord(side, IsList(list));
      if IsList(list) {
        MultiportText(Flag(side, true), list);
        FieldsOfFour("-m", "multiport", Flag(side, true), list);
      } else {
        FieldsOfTwo(Flag(side, false), list);
      }
    }
  }

  lemma FieldsOfJoin(a: string, b: string)
    ensures Fields(Join2(a, b)) == Fields(a) + Fields(b)
  {
    if a != "" && b != "" { FieldsSeparate(a, b); }
  }

  lemma FieldsOfPorts(p: Printed)
    requires Printable(p)
    ensures Fields(PortsText(p.shape, p.clause)) == FragmentWords(Src, SourceList(p)) + FragmentWords(Dst, DestList(p))
  {
    var s, d := Fragment(Src, SourceList(p)), Fragment(Dst, DestList(p));
    FieldsOfFragment(Src, SourceList(p));
    FieldsOfFragment(Dst, DestList(p));
    match p.shape
    case PrimaryLine => FieldsSeparate(s, d);
    case ReturnLine =>
      InversionExchangesSides(p.clause.dports, p.clause.sports);
      FieldsOfJoin(s, d);
    case DropLine =>
  }

  lemma CtText(text: string)
    requires text == CT
    ensures text == "-m" + " " + ("conntrack" + " " + ("--ctstate" + " " + "NEW,ESTABLISHED"))
  {
  }

  lemma FieldsOfCt(text: string)
    requires text == CT
    ensures Fields(text) == CT_WORDS
  {
    CtText(text);
    FieldsOfFour("-m", "conntrack", "--ctstate", "NEW,ESTABLISHED");
  }

  lemma FieldsOfTail(p: Printed)
    requires Printable(p)
    ensures Fields(TailText(p)) == TailWords(p)
  {
    FieldsOfTwo("-j", p.target);
    if Tracked(p) {
      FieldsOfCt(CT);
      FieldsSeparate(CT, Jumped(p));
    } else {
      FieldsSeparate("", Jumped(p));
    }
  }

  lemma FieldsOfPair(a: string, b: string, rest: string)
    requires IsWord(a) && IsWord(b)
    ensures Fields(a + " " + (b + " " + rest)) == [a, b] + Fields(rest)
  {
    FieldsCons(b, rest);
    FieldsCons(a, b + " " + rest);
  }

  lemma FieldsOfHead(flag: string, cidr: string, pflag: string, proto: string, rest: string)
    requires IsWord(flag) && IsWord(cidr) && IsWord(pflag) && IsWord(proto)
    ensures Fields(flag + " " + (cidr + " " + (pflag + " " + (proto + " " + rest))))
        == [flag, cidr, pflag, proto] + Fields(rest)
  {
    FieldsOfPair(pflag, proto, rest);
    FieldsOfPair(flag, cidr, pflag + " " + (proto + " " + rest));
  }

  lemma AddressFlagIsWord(side: Side)
    ensures IsWord(AddressFlag(side)) && IsWord("-p")
  {
  }

  lemma TrimOwnPrefix(prefix: string, rest: string)
    ensures TrimPrefix(prefix + rest, prefix) == rest
  {
    assert (prefix + rest)[..|prefix|] == prefix && (prefix + rest)[|prefix|..] == rest;
  }

  /** Splitting the printed text at whitespace gives the words back, empty columns or not. */
  lemma FieldsOfLine(p: Printed)
    requires Printable(p)
    ensures Fields(TrimPrefix(LineText(p), ChainPrefix(p.chain))) == Words(p)
  {
    var rest := PortsText(p.shape, p.clause) + " " + TailText(p);
    TrimOwnPrefix(ChainPrefix(p.chain),
        AddressFlag(p.side) + " " + (p.cidr + " " + ("-p" + " " + (p.clause.proto + " " + rest))));
    AddressFlagIsWord(p.side);
    FieldsOfHead(AddressFlag(p.side), p.cidr, "-p", p.clause.proto, rest);
    FieldsOfRest(p);
  }

  lemma FieldsOfRest(p: Printed)
    requires Printable(p)
    ensures Fields(PortsText(p.shape, p.clause) + " " + TailText(p))
         == FragmentWords(Src, SourceList(p)) + (FragmentWords(Dst, DestList(p)) + TailWords(p))
  {
    FieldsSeparate(PortsText(p.shape, p.clause), TailText(p));
    FieldsOfPorts(p);
    FieldsOfTail(p);
    assert FragmentWords(Src, SourceList(p)) + FragmentWords(Dst, DestList(p)) + TailWords(p)
        == FragmentWords(Src, SourceList(p)) + (FragmentWords(Dst, DestList(p)) + TailWords(p));
  }

  // ----- parsing the words -----

  predicate Opens(ts: seq<Token>) { ts != [] && EndsBlock(ts[0].kind) }

  lemma StepFlag(f: Token, v: Token, ts: seq<Token>, r: Parsed)
    requires IsPlainFlag(f.kind)
    ensures ParseTokens([f, v] + ts, r) == ParseTokens(ts, Assign(r, f.kind, v.text))
  {
    var all := [f, v] + ts;
    assert all[0] == f && all[1] == v && all[2..] == ts;
  }

  lemma BlockTakesOne(h: Handlers, f: Token, v: Token, ts: seq<Token>, r: Parsed)
    requires h != OfSet && Handles(h, f.kind) && !EndsBlock(f.kind)
    ensures Block([f, v] + ts, h, r) == Block(ts, h, Assign(r, f.kind, v.text))
  {
    var all := [f, v] + ts;
    assert all[0] == f && all[1] == v && all[2..] == ts;
  }

  lemma BlockSkips(h: Handlers, t: Token, ts: seq<Token>, r: Parsed)
    requires !Handles(h, t.kind) && !EndsBlock(t.kind)
    ensures Block([t] + ts, h, r) == Block(ts, h, r)
  {
    assert ([t] + ts)[1..] == ts;
  }

  lemma StepModule(m: Token, name: Token, h: Handlers, ts: seq<Token>, r: Parsed)
    requires m.kind == Module && h == HandlersOf(name.text) != NoHandlers
    ensures var out := Block(ts, h, WithModule(r, name.text));
        ParseTokens([m, name] + ts, r) == ParseTokens(out.0, out.1)
  {
    var all := [m, name] + ts;
    assert all[0] == m && all[1] == name && all[2..] == ts;
  }

  /** A module block with one flag, closed by the token that follows. */
  lemma StepBlock(m: Token, name: Token, h: Handlers, f: Token, v: Token, ts: seq<Token>, r: Parsed)
    requires m.kind == Module && h == HandlersOf(name.text) != NoHandlers && h != OfSet
    requires Handles(h, f.kind) && !EndsBlock(f.kind) && Opens(ts)
    ensures ParseTokens([m, name, f, v] + ts, r) == ParseTokens(ts, Assign(WithModule(r, name.text), f.kind, v.text))
  {
    assert [m, name, f, v] + ts == [m, name] + ([f, v] + ts);
    StepModule(m, name, h, [f, v] + ts, r);
    BlockTakesOne(h, f, v, ts, WithModule(r, name.text));
  }

  lemma BlockSwallows(h: Handlers, f: Token, v: Token, g: Token, w: Token, ts: seq<Token>, r: Parsed)
    requires h != OfSet && Handles(h, f.kind) && !EndsBlock(f.kind) && Opens(ts)
    requires !Handles(h, g.kind) && !EndsBlock(g.kind) && !Handles(h, w.kind) && !EndsBlock(w.kind)
    ensures Block([f, v] + ([g, w] + ts), h, r) == (ts, Assign(r, f.kind, v.text))
  {
    var r2 := Assign(r, f.kind, v.text);
    BlockTakesOne(h, f, v, [g, w] + ts, r);
    assert [g, w] + ts == [g] + ([w] + ts);
    BlockSkips(h, g, [w] + ts, r2);
    BlockSkips(h, w, ts, r2);
  }

  /** The same block with a foreign flag and its value behind it: both are swallowed. */
  lemma StepSwallow(m: Token, name: Token, h: Handlers, f: Token, v: Token, g: Token, w: Token, ts: seq<Token>,
        r: Parsed)
    requires m.kind == Module && h == HandlersOf(name.text) != NoHandlers && h != OfSet
    requires Handles(h, f.kind) && !EndsBlock(f.kind) && Opens(ts)
    requires !Handles(h, g.kind) && !EndsBlock(g.kind) && !Handles(h, w.kind) && !EndsBlock(w.kind)
    ensures ParseTokens([m, name, f, v] + ([g, w] + ts), r)
         == ParseTokens(ts, Assign(WithModule(r, name.text), f.kind, v.text))
  {
    var rest := [f, v] + ([g, w] + ts);
    assert [m, name, f, v] + ([g, w] + ts) == [m, name] + rest;
    BlockSwallows(h, f, v, g, w, ts, WithModule(r, name.text));
    StepModule(m, name, h, rest, r);
  }

  // ----- the kinds of the printed words -----

  function PortKind(side: Side, many: bool): TokenKind {
    if side == Src then (if many then SourcePorts else SourcePort) else (if many then DestPorts else DestPort)
  }

  lemma FlagKind(side: Side, many: bool)
    ensures KindOf(Flag(side, many)) == PortKind(side, many)
  {
  }

  lemma ValueKind(t: string)
    requires t != "" && t[0] != '-'
    ensures KindOf(t) == Other
  {
  }

  lemma FixedKinds()
    ensures KindOf("-m") == Module && KindOf("-p") == Protocol && KindOf("-j") == Jump && KindOf("--ctstate") == CtState
    ensures KindOf("-s") == Source && KindOf("-d") == Dest
  {
  }

  lemma FixedModules()
    ensures HandlersOf("multiport") == OfMultiport && HandlersOf("conntrack") == OfConntrack
  {
  }

  function Tok(t: string): Token { Token(KindOf(t), t) }

  lemma TokenizeTwo(a: string, b: string)
    ensures Tokenize([a, b]) == [Tok(a), Tok(b)]
  {
  }

  lemma TokenizeFour(a: string, b: string, c: string, d: string)
    ensures Tokenize([a, b, c, d]) == [Tok(a), Tok(b), Tok(c), Tok(d)]
  {
  }

  function WithPorts(r: Parsed, side: Side, list: string): Parsed {
    if list == "" then r
    else
      var r1 := r.(modules := r.modules + PortModule(list));
      if side == Src then r1.(sourcePort := list) else r1.(destPort := list)
  }

  /** One fragment followed by something that closes its block. */
  lemma ParseFragment(side: Side, list: string, ts: seq<Token>, r: Parsed)
    requires IsList(list) ==> Opens(ts)
    ensures ParseTokens(Tokenize(FragmentWords(side, list)) + ts, r) == ParseTokens(ts, WithPorts(r, side, list))
  {
    if list == "" {
      assert Tokenize([]) + ts == ts;
    } else if IsList(list) {
      FixedKinds();
      FixedModules();
      FlagKind(side, true);
      TokenizeFour("-m", "multiport", Flag(side, true), list);
      StepBlock(Tok("-m"), Tok("multiport"), OfMultiport, Tok(Flag(side, true)), Tok(list), ts, r);
    } else {
      FlagKind(side, false);
      TokenizeTwo(Flag(side, false), list);
      StepFlag(Tok(Flag(side, false)), Tok(list), ts, r);
      assert r.modules + [] == r.modules;
    }
  }

  /** A list fragment followed by a single port on the other side: the second is lost. */
  lemma ParseSwallowed(sports: string, dports: string, ts: seq<Token>, r: Parsed)
    requires IsList(sports) && !IsList(dports) && dports != "" && dports[0] != '-' && Opens(ts)
    ensures ParseTokens(Tokenize(FragmentWords(Src, sports)) + (Tokenize(FragmentWords(Dst, dports)) + ts), r)
         == ParseTokens(ts, WithPorts(r, Src, sports))
  {
    FixedKinds();
    FixedModules();
    FlagKind(Src, true);
    FlagKind(Dst, false);
    ValueKind(dports);
    TokenizeFour("-m", "multiport", Flag(Src, true), sports);
    TokenizeTwo(Flag(Dst, false), dports);
    StepSwallow(Tok("-m"), Tok("multiport"), OfMultiport, Tok(Flag(Src, true)), Tok(sports),
                Tok(Flag(Dst, false)), Tok(dports), ts, r);
  }

  lemma {:induction false} SplitAt(a: string, sep: char, b: string)
    requires sep !in a && sep !in b
    ensures Split(a + [sep] + b, sep) == [a, b]
  {
    var s := a + [sep] + b;
    if a == "" {
      SplitPlain(b, sep);
      assert s == [sep] + b && s[1..] == b;
    } else {
      assert s[0] == a[0] && s[1..] == a[1..] + [sep] + b;
      SplitAt(a[1..], sep, b);
      assert [a[0]] + a[1..] == a;
    }
  }

  lemma StatesOfTwo(a: string, b: string)
    requires ',' !in a && ',' !in b && a != "" && b != ""
    ensures NonEmpty(Split(a + "," + b, ',')) == [a, b]
  {
    SplitAt(a, ',', b);
    assert [a, b][1..] == [b] && [b][1..] == [];
    assert NonEmpty([b]) == [b] + NonEmpty([]);
  }

  function WithTail(r: Parsed, tracked: bool, target: string): Parsed {
    if tracked then WithModule(r, "conntrack").(states := r.states + ["NEW", "ESTABLISHED"], target := target)
    else r.(target := target)
  }

  lemma ParseJump(j: Token, target: Token, r: Parsed)
    requires j.kind == Jump
    ensures ParseTokens([j, target], r) == r.(target := target.text)
  {
    assert [j, target] + [] == [j, target];
    StepFlag(j, target, [], r);
  }

  lemma ParseTracked(m: Token, name: Token, f: Token, v: Token, j: Token, target: Token, r: Parsed)
    requires m.kind == Module && HandlersOf(name.text) == OfConntrack && f.kind == CtState && j.kind == Jump
    ensures ParseTokens([m, name, f, v] + [j, target], r)
         == Assign(WithModule(r, name.text), CtState, v.text).(target := target.text)
  {
    StepBlock(m, name, OfConntrack, f, v, [j, target], r);
    ParseJump(j, target, Assign(WithModule(r, name.text), CtState, v.text));
  }

  lemma AssignTwo(r: Parsed, v: string, a: string, b: string)
    requires v == a + "," + b && ',' !in a && ',' !in b && a != "" && b != ""
    ensures Assign(r, CtState, v) == r.(states := r.states + [a, b])
  {
    StatesOfTwo(a, b);
  }

  lemma StatesText(v: string)
    requires v == "NEW,ESTABLISHED"
    ensures v == "NEW" + "," + "ESTABLISHED"
  {
  }

  lemma AssignStates(r: Parsed, v: string)
    requires v == "NEW,ESTABLISHED"
    ensures Assign(r, CtState, v) == r.(states := r.states + ["NEW", "ESTABLISHED"])
  {
    StatesText(v);
    AssignTwo(r, v, "NEW", "ESTABLISHED");
  }

  lemma TailTokens(p: Printed)
    ensures Tokenize(TailWords(p)) ==
      (if Tracked(p) then [Tok("-m"), Tok("conntrack"), Tok("--ctstate"), Tok("NEW,ESTABLISHED")] else [])
          + [Tok("-j"), Tok(p.target)]
  {
    TokenizeTwo("-j", p.target);
    TokenizeFour("-m", "conntrack", "--ctstate", "NEW,ESTABLISHED");
    TokenizeConcat(CT_WORDS, ["-j", p.target]);
    assert [] + ["-j", p.target] == ["-j", p.target];
  }

  lemma TailOpens(p: Printed)
    ensures Opens(Tokenize(TailWords(p)))
  {
    FixedKinds();
    TailTokens(p);
  }

  lemma ParseTail(p: Printed, r: Parsed)
    ensures ParseTokens(Tokenize(TailWords(p)), r) == WithTail(r, Tracked(p), p.target)
  {
    FixedKinds();
    TailTokens(p);
    var j, t := Tok("-j"), Tok(p.target);
    if Tracked(p) {
      FixedModules();
      ParseTracked(Tok("-m"), Tok("conntrack"), Tok("--ctstate"), Tok("NEW,ESTABLISHED"), j, t, r);
      AssignStates(WithModule(r, "conntrack"), Tok("NEW,ESTABLISHED").text);
    } else {
      assert [] + [j, t] == [j, t];
      ParseJump(j, t, r);
    }
  }

  lemma ParseHead(p: Printed, ts: seq<Token>)
    ensures ParseTokens(Tokenize([AddressFlag(p.side), p.cidr, "-p", p.clause.proto]) + ts, BLANK)
         == ParseTokens(ts, Addressed(p.side, p.cidr, p.clause.proto))
  {
    FixedKinds();
    var a, c, f, v := Tok(AddressFlag(p.side)), Tok(p.cidr), Tok("-p"), Tok(p.clause.proto);
    TokenizeFour(AddressFlag(p.side), p.cidr, "-p", p.clause.proto);
    assert [a, c, f, v] + ts == [a, c] + ([f, v] + ts);
    StepFlag(a, c, [f, v] + ts, BLANK);
    StepFlag(f, v, ts, Assign(BLANK, a.kind, c.text));
  }

  lemma ParsePorts(sports: string, dports: string, ts: seq<Token>, r: Parsed)
    requires Opens(ts) && (dports == "" || dports[0] != '-')
    ensures var swallowed := IsList(sports) && dports != "" && !IsList(dports);
      ParseTokens(Tokenize(FragmentWords(Src, sports)) + (Tokenize(FragmentWords(Dst, dports)) + ts), r)
      == ParseTokens(ts, WithPorts(WithPorts(r, Src, sports), Dst, if swallowed then "" else dports))
  {
    var rest := Tokenize(FragmentWords(Dst, dports)) + ts;
    if IsList(sports) && dports != "" && !IsList(dports) {
      ParseSwallowed(sports, dports, ts, r);
    } else {
      if IsList(sports) { RestOpens(dports, ts); }
      ParseFragment(Src, sports, rest, r);
      ParseFragment(Dst, dports, ts, WithPorts(r, Src, sports));
    }
  }

  lemma RestOpens(dports: string, ts: seq<Token>)
    requires Opens(ts) && (dports == "" || IsList(dports))
    ensures Opens(Tokenize(FragmentWords(Dst, dports)) + ts)
  {
    if dports == "" {
      assert Tokenize([]) + ts == ts;
    } else {
      FixedKinds();
      TokenizeFour("-m", "multiport", Flag(Dst, true), dports);
    }
  }

  /** Print then parse: the record shows chain-free content of the line exactly, without a warning;
      only a single destination port printed behind a list of source ports is missing from it. */
  lemma PrintThenParse(p: Printed)
    requires Printable(p)
    ensures ParseLine(LineText(p), p.chain) == Shown(p, SourceList(p), if Swallows(p) then "" else DestList(p))
  {
    FieldsOfLine(p);
    var head := [AddressFlag(p.side), p.cidr, "-p", p.clause.proto];
    var f1, f2, tail := FragmentWords(Src, SourceList(p)), FragmentWords(Dst, DestList(p)), TailWords(p);
    TokenizeConcat(head, f1 + (f2 + tail));
    TokenizeConcat(f1, f2 + tail);
    TokenizeConcat(f2, tail);
    var r0 := Addressed(p.side, p.cidr, p.clause.proto);
    ParseHead(p, Tokenize(f1 + (f2 + tail)));
    TailOpens(p);
    if DestList(p) != "" { PortsAreWords(DestList(p)); }
    ParsePorts(SourceList(p), DestList(p), Tokenize(tail), r0);
    var d := if Swallows(p) then "" else DestList(p);
    var r1 := WithPorts(WithPorts(r0, Src, SourceList(p)), Dst, d);
    ParseTail(p, r1);
    Assembled(p, SourceList(p), d);
  }

  lemma AddressedFields(side: Side, cidr: string, proto: string)
    ensures var r := Addressed(side, cidr, proto);
      && r == BLANK.(sourceIp := r.sourceIp, destIp := r.destIp, protocol := proto)
      && r.sourcePort == "" && r.destPort == "" && r.states == [] && r.modules == [] && r.warnings == []
      && (r.sourceIp == cidr || r.destIp == cidr)
  {
  }

  lemma PortsFields(r: Parsed, sports: string, dports: string)
    requires r.sourcePort == "" && r.destPort == ""
    ensures WithPorts(WithPorts(r, Src, sports), Dst, dports)
         == r.(sourcePort := sports, destPort := dports,
             modules := r.modules + (PortModule(sports) + PortModule(dports)))
  {
    assert r.modules + (PortModule(sports) + PortModule(dports)) == r.modules + PortModule(sports) + PortModule(dports);
    assert sports == "" ==> r.modules + PortModule(sports) == r.modules;
    assert dports == "" ==> r.modules + PortModule(sports) + PortModule(dports) == r.modules + PortModule(sports);
  }

  lemma Complete(r: Parsed, cidr: string)
    requires r.target != "" && cidr != "" && (r.sourceIp == cidr || r.destIp == cidr)
    ensures Checked(r) == r
  {
  }

  lemma Assembled(p: Printed, sports: string, dports: string)
    requires IsWord(p.cidr) && IsWord(p.target)
    ensures var r := WithTail(WithPorts(WithPorts(Addressed(p.side, p.cidr, p.clause.proto), Src, sports), Dst,
        dports), Tracked(p), p.target);
      Checked(r) == r == Shown(p, sports, dports)
  {
    var r0 := Addressed(p.side, p.cidr, p.clause.proto);
    var mods := PortModule(sports) + PortModule(dports);
    AddressedFields(p.side, p.cidr, p.clause.proto);
    PortsFields(r0, sports, dports);
    assert [] + mods == mods && mods + [] == mods;
    Complete(Shown(p, sports, dports), p.cidr);
  }

  /** The record is faithful exactly when no single port is printed behind a list. */
  lemma FaithfulIff(p: Printed)
    requires Printable(p)
    ensures ParseLine(LineText(p), p.chain) == Shown(p, SourceList(p), DestList(p)) <==> !Swallows(p)
  {
    PrintThenParse(p);
  }

  lemma TwoDigits(s: string)
    requires |s| == 2 && IsDigit(s[0]) && IsDigit(s[1])
    ensures Number(s) == 10 * (s[0] as nat - '0' as nat) + (s[1] as nat - '0' as nat)
  {
    assert s[..1][..0] == "" && s[..1][0] == s[0];
    assert Number(s[..1]) == 10 * Number("") + (s[0] as nat - '0' as nat);
  }

  lemma PlainPort(s: string)
    requires |s| == 2 && IsDigit(s[0]) && IsDigit(s[1]) && s[0] != '0'
    ensures ValidPorts(s) && !IsList(s)
  {
    TwoDigits(s);
    SplitPlain(s, ',');
    SplitPlain(s, ':');
  }

  lemma PlainRange(a: string, b: string)
    requires |a| == 2 && IsDigit(a[0]) && IsDigit(a[1]) && |b| == 2 && IsDigit(b[0]) && IsDigit(b[1])
    requires a[0] != '0' && Number(a) <= Number(b)
    ensures ValidPorts(a + [':'] + b) && IsList(a + [':'] + b)
  {
    var s := a + [':'] + b;
    TwoDigits(a);
    TwoDigits(b);
    SplitPlain(s, ',');
    SplitAt(a, ':', b);
    assert s[2] == ':';
  }

  lemma WitnessPorts(single: string, list: string)
    requires single == "53" && list == "67:68"
    ensures ValidPorts(single) && !IsList(single) && ValidPorts(list) && IsList(list)
  {
    var a, b := list[..2], list[3..];
    PlainPort(single);
    TwoDigits(a);
    TwoDigits(b);
    PlainRange(a, b);
    assert list == a + [':'] + b;
  }

  lemma WitnessWords(chain: string, cidr: string, proto: string, target: string)
    requires chain == "INPUT" && cidr == "10.0.0.0/8" && proto == "udp" && target == "ACCEPT"
    ensures IsWord(chain) && IsWord(cidr) && IsWord(proto) && IsWord(target)
  {
  }

  /** The failing family is not empty: source ports 67:68 and destination port 53. */
  lemma SwallowedPort(p: Printed)
    requires p == Printed(PrimaryLine, "INPUT", Src, "10.0.0.0/8", PortClause("udp", "53", "67:68"), false, "ACCEPT")
    ensures Printable(p) && Swallows(p)
    ensures ParseLine(LineText(p), p.chain) == Shown(p, SourceList(p), "") != Shown(p, SourceList(p), DestList(p))
  {
    WitnessPorts(p.clause.dports, p.clause.sports);
    WitnessWords(p.chain, p.cidr, p.clause.proto, p.target);
    PrintThenParse(p);
  }

  // ----- back to the rule -----

  function CtNamed(s: string): Netfilter.CtState {
    match s
    case "NEW" => Netfilter.NEW
    case "ESTABLISHED" => Netfilter.ESTABLISHED
    case "RELATED" => Netfilter.RELATED
    case "INVALID" => Netfilter.INVALID
    case _ => Netfilter.UNTRACKED
  }

  function Addresses(side: Side, text: string, read: string -> Netfilter.Address): seq<Netfilter.Match> {
    if text == "" then [] else [Netfilter.Within(side, read(text))]
  }

  /** The tests a parsed record stands for, given a reading of address text. */
  function Meaning(r: Parsed, read: string -> Netfilter.Address): seq<Netfilter.Match> {
    Addresses(Src, r.sourceIp, read) + Addresses(Dst, r.destIp, read)
    + (if r.protocol == "" then [] else [Netfilter.Proto(r.protocol)])
    + (RuleBuilder.PortTest(Src, r.sourcePort) + RuleBuilder.PortTest(Dst, r.destPort)
       + (if r.states == [] then [] else [Netfilter.Conntrack(set s | s in r.states :: CtNamed(s))]))
  }

  /** The section whose builder prints the line: replies look at the other address. */
  function SectionOf(p: Printed): RuleBuilder.Section {
    if (p.side == Src) == (p.shape != ReturnLine) then RuleBuilder.Ingress else RuleBuilder.Egress
  }

  /** The tests of the rule the compiler built for the line. */
  function Meant(p: Printed, net: Netfilter.Address): seq<Netfilter.Match> {
    var s, f, ctx := SectionOf(p), RuleBuilder.OneNet(net), RuleBuilder.Ctx(Netfilter.Empty, true, true, p.noConntrack);
    match p.shape
    case PrimaryLine => RuleBuilder.PrimaryMatches(s, f, ctx, p.clause)
    case ReturnLine => RuleBuilder.ReplyMatches(s, f, ctx, p.clause)
    case DropLine => RuleBuilder.DropMatches(s, f, p.clause)
  }

  /** Compile, print, parse: the record means the rule the compiler built, unless a port was swallowed. */
  lemma ParsedRuleIsTheRule(p: Printed, net: Netfilter.Address, read: string -> Netfilter.Address)
    requires Printable(p) && read(p.cidr) == net
    ensures ParseLine(LineText(p), p.chain).target == p.target
    ensures ParseLine(LineText(p), p.chain).warnings == []
    ensures Meaning(ParseLine(LineText(p), p.chain), read) == Meant(p, net) <==> !Swallows(p)
  {
    PrintThenParse(p);
    ShownMeans(p, net, read, DestList(p));
    ShownMeans(p, net, read, "");
    MeantSplit(p, net);
    if Swallows(p) {
      assert |RuleBuilder.PortTest(Dst, DestList(p))| == 1;
    }
  }

  lemma MeantSplit(p: Printed, net: Netfilter.Address)
    ensures Meant(p, net) == [Netfilter.Within(p.side, net), Netfilter.Proto(p.clause.proto)]
      + (RuleBuilder.PortTest(Src, SourceList(p)) + RuleBuilder.PortTest(Dst, DestList(p))
         + (if Tracked(p) then RuleBuilder.CtTests(false) else []))
  {
  }

  lemma ShownMeans(p: Printed, net: Netfilter.Address, read: string -> Netfilter.Address, dports: string)
    requires IsWord(p.cidr) && IsWord(p.clause.proto) && read(p.cidr) == net
    ensures Meaning(Shown(p, SourceList(p), dports), read)
      == [Netfilter.Within(p.side, net), Netfilter.Proto(p.clause.proto)]
      + (RuleBuilder.PortTest(Src, SourceList(p)) + RuleBuilder.PortTest(Dst, dports)
         + (if Tracked(p) then RuleBuilder.CtTests(false) else []))
  {
    var r := Shown(p, SourceList(p), dports);
    AddressesShown(p, net, read);
    StatesShown(p, r.states);
    ShownFields(p, SourceList(p), dports);
    Assembles(r, read, Netfilter.Within(p.side, net), if Tracked(p) then RuleBuilder.CtTests(false) else []);
  }

  lemma ShownFields(p: Printed, sports: string, dports: string)
    ensures var r, a := Shown(p, sports, dports), Addressed(p.side, p.cidr, p.clause.proto);
      && r.sourceIp == a.sourceIp && r.destIp == a.destIp && r.protocol == p.clause.proto
      && r.sourcePort == sports && r.destPort == dports
  {
  }

  lemma Assembles(r: Parsed, read: string -> Netfilter.Address, w: Netfilter.Match, ct: seq<Netfilter.Match>)
    requires r.protocol != "" && Addresses(Src, r.sourceIp, read) + Addresses(Dst, r.destIp, read) == [w]
    requires (if r.states == [] then [] else [Netfilter.Conntrack(set s | s in r.states :: CtNamed(s))]) == ct
    ensures Meaning(r, read) == [w, Netfilter.Proto(r.protocol)]
      + (RuleBuilder.PortTest(Src, r.sourcePort) + RuleBuilder.PortTest(Dst, r.destPort) + ct)
  {
    assert [w] + [Netfilter.Proto(r.protocol)] == [w, Netfilter.Proto(r.protocol)];
  }

  lemma AddressesShown(p: Printed, net: Netfilter.Address, read: string -> Netfilter.Address)
    requires IsWord(p.cidr) && read(p.cidr) == net
    ensures var r := Addressed(p.side, p.cidr, p.clause.proto);
      Addresses(Src, r.sourceIp, read) + Addresses(Dst, r.destIp, read) == [Netfilter.Within(p.side, net)]
  {
  }

  lemma StatesShown(p: Printed, states: seq<string>)
    requires states == if Tracked(p) then ["NEW", "ESTABLISHED"] else []
    ensures (if states == [] then [] else [Netfilter.Conntrack(set s | s in states :: CtNamed(s))])
         == if Tracked(p) then RuleBuilder.CtTests(false) else []
  {
    TrackedStates();
  }

  lemma TwoNames(a: string, b: string)
    ensures (set s | s in [a, b] :: CtNamed(s)) == {CtNamed(a), CtNamed(b)}
  {
    assert a in [a, b] && b in [a, b];
  }

  lemma TrackedStates()
    ensures (set s | s in ["NEW", "ESTABLISHED"] :: CtNamed(s)) == {Netfilter.NEW, Netfilter.ESTABLISHED}
  {
    TwoNames("NEW", "ESTABLISHED");
  }

  /** Importing a host's own bundle: tracked ACCEPT lines are never offered for import, the others
      always are. */
  lemma OwnLinesImport(p: Printed)
    requires Printable(p) && (p.target == "ACCEPT" || p.target == "DROP")
    ensures Classify(p.chain, ParseLine(LineText(p), p.chain)) == if Tracked(p) then States else Clean
  {
    PrintThenParse(p);
    var dports := if Swallows(p) then "" else DestList(p);
    var r := Shown(p, SourceList(p), dports);
    AddressedFields(p.side, p.cidr, p.clause.proto);
    if Tracked(p) {
      TrackedClass(p.chain, r);
    } else {
      UntrackedClass(p.chain, r);
    }
  }

  predicate NoInterface(r: Parsed) {
    r.inInterface == "" && r.outInterface == "" && r.ipset == [] && (r.target == "ACCEPT" || r.target == "DROP")
  }

  lemma UntrackedClass(chain: string, r: Parsed)
    requires NoInterface(r) && r.states == [] && forall m :: m in r.modules ==> m == "multiport"
    ensures Classify(chain, r) == Clean
  {
    FixedModules();
  }

  lemma PlainStates(states: seq<string>)
    requires states == ["NEW", "ESTABLISHED"]
    ensures "RELATED" !in states && "INVALID" !in states
    ensures exists s :: s in states && s != "NEW"
  {
    assert states[1] in states && |states[1]| == 11;
  }

  lemma TrackedClass(chain: string, r: Parsed)
    requires NoInterface(r) && r.states == ["NEW", "ESTABLISHED"]
    ensures Classify(chain, r) == States
  {
    PlainStates(r.states);
  }
}
