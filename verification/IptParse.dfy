/** The iptables-save parser: a lossless split into chains, and token loops that fill a rule record. */
module IptParse {
  import opened PortText

  // ----- words -----

  predicate IsSpace(c: char) { c == ' ' || '\t' <= c <= '\r' }

  predicate IsWord(s: string) { s != "" && forall i :: 0 <= i < |s| ==> !IsSpace(s[i]) }

  function WordLen(s: string): (n: nat)
    ensures n <= |s|
  {
    if s == "" || IsSpace(s[0]) then 0 else 1 + WordLen(s[1..])
  }

  /** `strings.Fields` */
  function Fields(s: string): seq<string>
    decreases |s|
  {
    if s == "" then []
    else if IsSpace(s[0]) then Fields(s[1..])
    else [s[..WordLen(s)]] + Fields(s[WordLen(s)..])
  }

  lemma {:induction false} WordLenStops(a: string, b: string)
    ensures WordLen(a + " " + b) == WordLen(a)
  {
    if a == "" {
      assert a + " " + b == " " + b;
    } else {
      assert (a + " " + b)[1..] == a[1..] + " " + b;
      WordLenStops(a[1..], b);
    }
  }

  /** A space separates fields. */
  lemma {:induction false} FieldsSeparate(a: string, b: string)
    ensures Fields(a + " " + b) == Fields(a) + Fields(b)
    decreases |a|
  {
    var s := a + " " + b;
    if a == "" {
      assert s == " " + b && s[1..] == b;
    } else if IsSpace(a[0]) {
      assert s[1..] == a[1..] + " " + b;
      FieldsSeparate(a[1..], b);
    } else {
      var n := WordLen(a);
      WordLenStops(a, b);
      assert s[..n] == a[..n] && s[n..] == a[n..] + " " + b;
      FieldsSeparate(a[n..], b);
    }
  }

  lemma {:induction false} WholeWord(w: string)
    requires forall i :: 0 <= i < |w| ==> !IsSpace(w[i])
    ensures WordLen(w) == |w|
  {
    if w != "" { WholeWord(w[1..]); }
  }

  lemma FieldsOfWord(w: string)
    requires IsWord(w)
    ensures Fields(w) == [w]
  {
    WholeWord(w);
    assert w[..|w|] == w && w[|w|..] == "";
  }

  lemma {:induction false} FieldsAreWords(s: string, w: string)
    requires w in Fields(s)
    ensures IsWord(w)
    decreases |s|
  {
    if IsSpace(s[0]) {
      FieldsAreWords(s[1..], w);
    } else {
      WordLenIsWord(s);
      if w != s[..WordLen(s)] { FieldsAreWords(s[WordLen(s)..], w); }
    }
  }

  lemma {:induction false} WordLenIsWord(s: string)
    ensures forall i :: 0 <= i < WordLen(s) ==> !IsSpace(s[i])
  {
    if s != "" && !IsSpace(s[0]) {
      WordLenIsWord(s[1..]);
      forall i | 0 < i < WordLen(s) ensures !IsSpace(s[i]) { assert s[i] == s[1..][i - 1]; }
    }
  }

  // ----- the record -----

  datatype Parsed = Parsed(
    protocol: string, sourceIp: string, destIp: string, sourcePort: string, destPort: string,
    inInterface: string, outInterface: string, ipset: seq<string>, states: seq<string>,
    target: string, comment: string, pktType: string, warnings: seq<string>, modules: seq<string>)

  const BLANK := Parsed("", "", "", "", "", "", "", [], [], "", "", "", [], [])

  datatype TokenKind =
    | Protocol | Source | Dest | SourcePort | DestPort | InIface | OutIface | Jump | Module
    | MatchSet | CtState | Comment | SourcePorts | DestPorts | PktType | Other

  function KindOf(t: string): TokenKind {
    match t
    case "-p" => Protocol
    case "-s" => Source
    case "-d" => Dest
    case "--sport" => SourcePort
    case "--dport" => DestPort
    case "-i" => InIface
    case "-o" => OutIface
    case "-j" => Jump
    case "-m" => Module
    case "--match-set" => MatchSet
    case "--ctstate" => CtState
    case "--comment" => Comment
    case "--sports" => SourcePorts
    case "--dports" => DestPorts
    case "--pkt-type" => PktType
    case _ => Other
  }

  /** A token with the role its text plays. */
  datatype Token = Token(kind: TokenKind, text: string)

  function Tokenize(words: seq<string>): (ts: seq<Token>)
    ensures |ts| == |words|
  {
    seq(|words|, i requires 0 <= i < |words| => Token(KindOf(words[i]), words[i]))
  }

  lemma TokenizeConcat(a: seq<string>, b: seq<string>)
    ensures Tokenize(a + b) == Tokenize(a) + Tokenize(b)
  {
  }

  predicate IsPlainFlag(k: TokenKind) {
    k.Protocol? || k.Source? || k.Dest? || k.SourcePort? || k.DestPort? || k.InIface? || k.OutIface? || k.Jump?
  }

  predicate EndsBlock(k: TokenKind) { k.Module? || k.Jump? || k.Protocol? || k.Source? || k.Dest? || k.InIface?
        || k.OutIface? }

  function Assign(r: Parsed, k: TokenKind, v: string): Parsed {
    match k
    case Protocol => r.(protocol := v)
    case Source => r.(sourceIp := v)
    case Dest => r.(destIp := v)
    case SourcePort => r.(sourcePort := v)
    case SourcePorts => r.(sourcePort := v)
    case DestPort => r.(destPort := v)
    case DestPorts => r.(destPort := v)
    case InIface => r.(inInterface := v)
    case OutIface => r.(outInterface := v)
    case Jump => r.(target := v)
    case CtState => r.(states := r.states + NonEmpty(Split(v, ',')))
    case Comment => r.(comment := TrimQuotes(v))
    case PktType => r.(pktType := v)
    case _ => r
  }

  function NonEmpty(parts: seq<string>): seq<string> {
    if parts == [] then [] else (if parts[0] == "" then [] else [parts[0]]) + NonEmpty(parts[1..])
  }

  function TrimQuotes(s: string): string
    decreases |s|
  {
    if s == "" then ""
    else if s[0] == '"' then TrimQuotes(s[1..])
    else if s[|s| - 1] == '"' then TrimQuotes(s[..|s| - 1])
    else s
  }

  // ----- module blocks -----

  datatype Handlers = OfSet | OfConntrack | OfTransport | OfComment | OfMultiport | OfPktType | NoHandlers

  function HandlersOf(m: string): Handlers {
    match m
    case "set" => OfSet
    case "conntrack" => OfConntrack
    case "tcp" => OfTransport
    case "udp" => OfTransport
    case "comment" => OfComment
    case "multiport" => OfMultiport
    case "pkttype" => OfPktType
    case _ => NoHandlers
  }

  predicate Handles(h: Handlers, k: TokenKind) {
    match h
    case OfSet => k == MatchSet
    case OfConntrack => k == CtState
    case OfTransport => k == DestPort || k == SourcePort
    case OfComment => k == Comment
    case OfMultiport => k == DestPorts || k == SourcePorts
    case OfPktType => k == PktType
    case NoHandlers => false
  }

  /** What a module block consumes: its own flags with their values, and anything else it swallows. */
  function Block(ts: seq<Token>, h: Handlers, r: Parsed): (out: (seq<Token>, Parsed))
    ensures |out.0| <= |ts|
    ensures out.0 == [] || EndsBlock(out.0[0].kind)
    decreases |ts|
  {
    if ts == [] || EndsBlock(ts[0].kind) then (ts, r)
    else if !Handles(h, ts[0].kind) then Block(ts[1..], h, r)
    else if h == OfSet then
      (if |ts| >= 3 then Block(ts[3..], h, r.(ipset := [ts[1].text, ts[2].text])) else ([], r))
    else if |ts| >= 2 then Block(ts[2..], h, Assign(r, ts[0].kind, ts[1].text))
    else ([], r)
  }

  function WithModule(r: Parsed, m: string): Parsed { r.(modules := r.modules + [m]) }

  function Warned(r: Parsed, w: string): Parsed { r.(warnings := r.warnings + [w]) }

  /** The main loop. */
  function ParseTokens(ts: seq<Token>, r: Parsed): Parsed
    decreases |ts|
  {
    if ts == [] then r
    else if IsPlainFlag(ts[0].kind) then
      (if |ts| >= 2 then ParseTokens(ts[2..], Assign(r, ts[0].kind, ts[1].text)) else r)
    else if ts[0].kind == Module then
      if |ts| < 2 then r
      else
        var h, r1 := HandlersOf(ts[1].text), WithModule(r, ts[1].text);
        if h == NoHandlers then ParseTokens(ts[2..], r1)
        else var out := Block(ts[2..], h, r1); ParseTokens(out.0, out.1)
    else ParseTokens(ts[1..], Warned(r, "unrecognized token: " + ts[0].text))
  }

  predicate NoCriteria(r: Parsed) {
    && r.protocol == "" && r.sourceIp == "" && r.destIp == "" && r.sourcePort == "" && r.destPort == ""
    && r.inInterface == "" && r.outInterface == "" && r.ipset == [] && r.states == [] && r.comment == ""
       && r.pktType == ""
  }

  function Checked(r: Parsed): Parsed {
    if r.target == "" then Warned(r, "rule missing target (-j)")
    else if NoCriteria(r) then Warned(r, "rule has no match criteria \U{2014} possibly truncated")
    else r
  }

  function ChainPrefix(chain: string): string { "-A " + chain + " " }

  function TrimPrefix(s: string, p: string): string { if StartsWith(s, p) then s[|p|..] else s }

  /** The fields `parseRule` recovers from one line. */
  function ParseLine(line: string, chain: string): Parsed {
    Checked(ParseTokens(Tokenize(Fields(TrimPrefix(line, ChainPrefix(chain)))), BLANK))
  }

  // ----- the token loops -----

  /** The tokens from index `i`, which a handler may leave past the end. */
  function Rest(ts: seq<Token>, i: nat): seq<Token> { if i <= |ts| then ts[i..] else [] }

  lemma RestStep(ts: seq<Token>, i: nat, k: nat)
    requires i < |ts|
    ensures Rest(ts, i)[0] == ts[i] && |Rest(ts, i)| == |ts| - i
    ensures k <= |ts| - i ==> Rest(ts, i)[k..] == Rest(ts, i + k)
    ensures k < |ts| - i ==> Rest(ts, i)[k] == ts[i + k]
  {
  }

  /** One pass of the block loop, on indices. */
  lemma BlockStep(ts: seq<Token>, j: nat, h: Handlers, r: Parsed)
    requires j < |ts| && !EndsBlock(ts[j].kind)
    ensures !Handles(h, ts[j].kind) ==> Block(Rest(ts, j), h, r) == Block(Rest(ts, j + 1), h, r)
    ensures Handles(h, ts[j].kind) && h == OfSet && j + 2 < |ts| ==>
      Block(Rest(ts, j), h, r) == Block(Rest(ts, j + 3), h, r.(ipset := [ts[j + 1].text, ts[j + 2].text]))
    ensures Handles(h, ts[j].kind) && h == OfSet && j + 2 >= |ts| ==> Block(Rest(ts, j), h, r) == ([], r)
    ensures Handles(h, ts[j].kind) && h != OfSet && j + 1 < |ts| ==>
      Block(Rest(ts, j), h, r) == Block(Rest(ts, j + 2), h, Assign(r, ts[j].kind, ts[j + 1].text))
    ensures Handles(h, ts[j].kind) && h != OfSet && j + 1 >= |ts| ==> Block(Rest(ts, j), h, r) == ([], r)
  {
    RestStep(ts, j, 1);
    RestStep(ts, j, 2);
    RestStep(ts, j, 3);
  }

  /** One turn of the block loop: a known flag with its values, or one swallowed token. */
  method BlockTurn(ts: seq<Token>, i0: nat, h: Handlers, r0: Parsed) returns (i: nat, r: Parsed)
    requires i0 + 1 < |ts| && !EndsBlock(ts[i0 + 1].kind)
    ensures i > i0
    ensures Block(Rest(ts, i0 + 1), h, r0) == Block(Rest(ts, i + 1), h, r)
  {
    BlockStep(ts, i0 + 1, h, r0);
    if !Handles(h, ts[i0 + 1].kind) { return i0 + 1, r0; }
    i, r := i0 + 2, r0;
    if h == OfSet {
      if i + 1 < |ts| {
        r := r.(ipset := [ts[i].text, ts[i + 1].text]);
        i := i + 1;
      }
    } else if i < |ts| {
      r := Assign(r, ts[i0 + 1].kind, ts[i].text);
    }
  }

  lemma BlockDone(ts: seq<Token>, j: nat, h: Handlers, r: Parsed)
    requires j < |ts| ==> EndsBlock(ts[j].kind)
    ensures Block(Rest(ts, j), h, r) == (Rest(ts, j), r)
  {
    if j < |ts| { RestStep(ts, j, 0); }
  }

  /** `parseModuleParams`: never out of range, and it returns the index of the last token it consumed. */
  method ParseModuleParams(ts: seq<Token>, start: nat, h: Handlers, r0: Parsed) returns (i: nat, r: Parsed)
    requires start < |ts|
    ensures i >= start
    ensures Block(Rest(ts, start + 1), h, r0) == (Rest(ts, i + 1), r)
  {
    i, r := start, r0;
    ghost var whole := Block(Rest(ts, start + 1), h, r0);
    while i + 1 < |ts| && !EndsBlock(ts[i + 1].kind)
      invariant i >= start && whole == Block(Rest(ts, i + 1), h, r)
      decreases |ts| - i
    {
      i, r := BlockTurn(ts, i, h, r);
    }
    BlockDone(ts, i + 1, h, r);
  }

  lemma MainStep(ts: seq<Token>, i: nat, r: Parsed)
    requires i < |ts|
    ensures IsPlainFlag(ts[i].kind) && i + 1 < |ts| ==>
      ParseTokens(Rest(ts, i), r) == ParseTokens(Rest(ts, i + 2), Assign(r, ts[i].kind, ts[i + 1].text))
    ensures (IsPlainFlag(ts[i].kind) || ts[i].kind == Module) && i + 1 >= |ts| ==> ParseTokens(Rest(ts, i), r) == r
    ensures ts[i].kind == Module && i + 1 < |ts| && HandlersOf(ts[i + 1].text) == NoHandlers ==>
      ParseTokens(Rest(ts, i), r) == ParseTokens(Rest(ts, i + 2), WithModule(r, ts[i + 1].text))
    ensures ts[i].kind == Module && i + 1 < |ts| && HandlersOf(ts[i + 1].text) != NoHandlers ==>
      var out := Block(Rest(ts, i + 2), HandlersOf(ts[i + 1].text), WithModule(r, ts[i + 1].text));
      ParseTokens(Rest(ts, i), r) == ParseTokens(out.0, out.1)
    ensures !IsPlainFlag(ts[i].kind) && ts[i].kind != Module ==>
      ParseTokens(Rest(ts, i), r) == ParseTokens(Rest(ts, i + 1), Warned(r, "unrecognized token: " + ts[i].text))
  {
    RestStep(ts, i, 1);
    RestStep(ts, i, 2);
  }

  /** One turn of the main loop. */
  method Turn(ts: seq<Token>, i0: nat, r0: Parsed) returns (i: nat, r: Parsed)
    requires i0 < |ts|
    ensures i > i0
    ensures ParseTokens(Rest(ts, i0), r0) == ParseTokens(Rest(ts, i), r)
  {
    i, r := i0, r0;
    var tok := ts[i];
    MainStep(ts, i, r);
    if IsPlainFlag(tok.kind) {
      i := i + 1;
      if i < |ts| { r := Assign(r, tok.kind, ts[i].text); }
    } else if tok.kind == Module {
      i := i + 1;
      if i < |ts| {
        var h := HandlersOf(ts[i].text);
        r := WithModule(r, ts[i].text);
        if h != NoHandlers { i, r := ParseModuleParams(ts, i, h, r); }
      }
    } else {
      r := Warned(r, "unrecognized token: " + tok.text);
    }
    i := i + 1;
  }

  /** `parseRule`: the token loop terminates in range and computes `ParseLine`. */
  method ParseFields(line: string, chain: string) returns (r: Parsed)
    ensures r == ParseLine(line, chain)
  {
    var ts := Tokenize(Fields(TrimPrefix(line, ChainPrefix(chain))));
    r := BLANK;
    var i := 0;
    ghost var whole := ParseTokens(ts, BLANK);
    assert Rest(ts, 0) == ts;
    while i < |ts|
      invariant whole == ParseTokens(Rest(ts, i), r)
      decreases |ts| - i
    {
      i, r := Turn(ts, i, r);
    }
    r := Checked(r);
  }

  // ----- classification -----

  datatype Class = Standard | Clean | Interface | Target | States | UnknownModule

  predicate IsRunicStandard(r: Parsed) {
    || (r.target == "ACCEPT" && (r.inInterface == "lo" || r.outInterface == "lo"))
    || (r.protocol == "icmp" && r.target == "ACCEPT" && "RELATED" in r.states)
    || (r.target == "ACCEPT" && "ESTABLISHED" in r.states && "RELATED" in r.states)
    || (r.target == "DROP" && "INVALID" in r.states)
    || (r.ipset != [] && StartsWith(r.ipset[0], "runic_"))
  }

  predicate Supported(m: string) { HandlersOf(m) != NoHandlers || m == "icmp" }

  function Classify(chain: string, r: Parsed): Class {
    if IsRunicStandard(r) then Standard
    else if r.inInterface != "" then Interface
    else if r.outInterface != "" && !(chain == "DOCKER-USER" && r.outInterface == "docker0") then Interface
    else if r.target != "ACCEPT" && r.target != "DROP" then Target
    else if exists s :: s in r.states && s != "NEW" then States
    else if exists m :: m in r.modules && !Supported(m) then UnknownModule
    else Clean
  }

  // ----- chains -----

  function TrimLeft(s: string): string { if s != "" && IsSpace(s[0]) then TrimLeft(s[1..]) else s }

  function TrimRight(s: string): string {
    if s != "" && IsSpace(s[|s| - 1]) then TrimRight(s[..|s| - 1]) else s
  }

  function Trim(s: string): string { TrimRight(TrimLeft(s)) }

  /** The line appends a rule to `chain`. */
  predicate AppendsTo(line: string, chain: string) {
    StartsWith(Trim(line), "-A ") && |Fields(Trim(line))| >= 2 && Fields(Trim(line))[1] == chain
  }

  /** The trimmed lines that append to `chain`, in order. */
  function RawRules(lines: seq<string>, chain: string): seq<string> {
    if lines == [] then []
    else
      var last := |lines| - 1;
      RawRules(lines[..last], chain) + (if AppendsTo(lines[last], chain) then [Trim(lines[last])] else [])
  }

  /** The index of the first line that appends to `chain`. */
  function FirstAt(lines: seq<string>, chain: string): (k: nat)
    ensures k <= |lines|
  {
    if lines == [] || AppendsTo(lines[0], chain) then 0 else 1 + FirstAt(lines[1..], chain)
  }

  lemma {:induction false} FirstAtGrows(lines: seq<string>, line: string, chain: string)
    ensures FirstAt(lines + [line], chain)
         == if FirstAt(lines, chain) == |lines| && !AppendsTo(line, chain) then |lines| + 1 else FirstAt(lines, chain)
  {
    if lines == [] {
      assert [line][1..] == [] && [] + [line] == [line];
    } else {
      assert (lines + [line])[1..] == lines[1..] + [line];
      FirstAtGrows(lines[1..], line, chain);
    }
  }

  lemma RawRulesGrow(lines: seq<string>, line: string, chain: string)
    ensures RawRules(lines + [line], chain)
         == RawRules(lines, chain) + if AppendsTo(line, chain) then [Trim(line)] else []
  {
    assert (lines + [line])[..|lines|] == lines;
  }

  lemma {:induction false} FoundMeansRaw(lines: seq<string>, chain: string)
    ensures FirstAt(lines, chain) < |lines| <==> RawRules(lines, chain) != []
    decreases |lines|
  {
    if lines != [] {
      var last := |lines| - 1;
      FoundMeansRaw(lines[..last], chain);
      assert lines[..last] + [lines[last]] == lines;
      FirstAtGrows(lines[..last], lines[last], chain);
    }
  }

  datatype ParsedRule = ParsedRule(chain: string, order: nat, raw: string, fields: Parsed, class_: Class)

  datatype ParsedChain = ParsedChain(name: string, rules: seq<ParsedRule>)

  /** Exactly the requested chains that have a rule, in the order of their first rule. */
  ghost predicate IsChainOrder(names: seq<string>, lines: seq<string>, wanted: set<string>) {
    && (forall c :: c in names <==> c in wanted && RawRules(lines, c) != [])
    && (forall i, j :: 0 <= i < j < |names| ==> FirstAt(lines, names[i]) < FirstAt(lines, names[j]))
  }

  /** The rules of one chain: every matching line once, in order, numbered from 1. */
  predicate IsChainOf(pc: ParsedChain, lines: seq<string>) {
    var raws := RawRules(lines, pc.name);
    |pc.rules| == |raws| &&
    forall k :: 0 <= k < |raws| ==>
      var fields := ParseLine(raws[k], pc.name);
      pc.rules[k] == ParsedRule(pc.name, k + 1, raws[k], fields, Classify(pc.name, fields))
  }

  method ParseRules(name: string, raws: seq<string>) returns (rules: seq<ParsedRule>)
    ensures |rules| == |raws|
    ensures forall k :: 0 <= k < |raws| ==>
      var fields := ParseLine(raws[k], name);
      rules[k] == ParsedRule(name, k + 1, raws[k], fields, Classify(name, fields))
  {
    rules := [];
    for i := 0 to |raws|
      invariant |rules| == i
      invariant forall k :: 0 <= k < i ==>
        var fields := ParseLine(raws[k], name);
        rules[k] == ParsedRule(name, k + 1, raws[k], fields, Classify(name, fields))
    {
      var fields := ParseFields(raws[i], name);
      rules := rules + [ParsedRule(name, i + 1, raws[i], fields, Classify(name, fields))];
    }
  }

  lemma Grown(lines: seq<string>, line: string, c: string)
    ensures AppendsTo(line, c) ==> RawRules(lines + [line], c) == RawRules(lines, c) + [Trim(line)]
    ensures AppendsTo(line, c) && RawRules(lines, c) == [] ==> FirstAt(lines + [line], c) == |lines|
    ensures !AppendsTo(line, c) ==> RawRules(lines + [line], c) == RawRules(lines, c)
    ensures RawRules(lines, c) != [] ==> FirstAt(lines + [line], c) == FirstAt(lines, c) < |lines|
  {
    FirstAtGrows(lines, line, c);
    RawRulesGrow(lines, line, c);
    FoundMeansRaw(lines, c);
  }

  lemma OrderGrows(old_: seq<string>, line: string, wanted: set<string>, order: seq<string>, order': seq<string>,
        c: string)
    requires IsChainOrder(order, old_, wanted) && c in wanted && AppendsTo(line, c)
    requires order' == if c in order then order else order + [c]
    ensures IsChainOrder(order', old_ + [line], wanted)
  {
    forall d ensures d in order' <==> d in wanted && RawRules(old_ + [line], d) != [] { Grown(old_, line, d); }
    forall i, j | 0 <= i < j < |order'| ensures FirstAt(old_ + [line], order'[i]) < FirstAt(old_ + [line], order'[j]) {
      assert order'[i] in order;
      Grown(old_, line, order'[i]);
      Grown(old_, line, order'[j]);
    }
  }

  lemma CollectStep(old_: seq<string>, line: string, order: seq<string>, order': seq<string>,
                    rules: map<string, seq<string>>, rules': map<string, seq<string>>, c: string)
    requires CollectsRules(rules, order, old_) && AppendsTo(line, c)
    requires c !in order ==> RawRules(old_, c) == []
    requires order' == if c in order then order else order + [c]
    requires rules' == rules[c := (if c in rules then rules[c] else []) + [Trim(line)]]
    ensures CollectsRules(rules', order', old_ + [line])
  {
    forall d | d in rules' ensures rules'[d] == RawRules(old_ + [line], d) { Grown(old_, line, d); }
  }

  lemma SkipStep(old_: seq<string>, line: string, wanted: set<string>, rules: map<string, seq<string>>,
        order: seq<string>)
    requires forall c :: c in wanted ==> !AppendsTo(line, c)
    requires IsChainOrder(order, old_, wanted) && CollectsRules(rules, order, old_)
    ensures IsChainOrder(order, old_ + [line], wanted) && CollectsRules(rules, order, old_ + [line])
  {
    forall d | d in wanted ensures RawRules(old_ + [line], d) == RawRules(old_, d) { Grown(old_, line, d); }
    forall d | d in order ensures FirstAt(old_ + [line], d) == FirstAt(old_, d) { Grown(old_, line, d); }
  }

  ghost predicate CollectsRules(rules: map<string, seq<string>>, order: seq<string>, lines: seq<string>) {
    && (forall c :: c in rules <==> c in order)
    && (forall c :: c in rules ==> rules[c] == RawRules(lines, c))
  }

  predicate Skipped(t: string) {
    t == "" || StartsWith(t, "#") || StartsWith(t, ":") || StartsWith(t, "*") || t == "COMMIT"
  }

  /** The line test of the collecting loop: the chain a trimmed line appends to, "" if none. */
  function ChainOf(t: string): (c: string)
  {
    if Skipped(t) || !StartsWith(t, "-A ") || |Fields(t)| < 2 then "" else Fields(t)[1]
  }

  lemma ChainOfIsAppends(line: string, c: string)
    ensures AppendsTo(line, c) <==> ChainOf(Trim(line)) == c != ""
  {
    var t := Trim(line);
    if StartsWith(t, "-A ") {
      assert t[..3] == "-A ";
      assert t[0] == t[..3][0] == '-' && t[1] == t[..3][1] == 'A';
      if |Fields(t)| >= 2 { FieldsAreWords(t, Fields(t)[1]); }
    }
  }

  /** One line of the collecting loop. */
  method CollectLine(ghost old_: seq<string>, line: string, wanted: set<string>, order0: seq<string>,
        rules0: map<string, seq<string>>)
      returns (order: seq<string>, rules: map<string, seq<string>>)
    requires IsChainOrder(order0, old_, wanted) && CollectsRules(rules0, order0, old_)
    ensures IsChainOrder(order, old_ + [line], wanted) && CollectsRules(rules, order, old_ + [line])
  {
    order, rules := order0, rules0;
    var trimmed := Trim(line);
    var name := ChainOf(trimmed);
    ChainOfIsAppends(line, name);
    if name == "" || name !in wanted {
      forall c | c in wanted ensures !AppendsTo(line, c) { ChainOfIsAppends(line, c); }
      SkipStep(old_, line, wanted, rules, order);
    } else {
      if name !in rules {
        order := order + [name];
        rules := rules[name := []];
      }
      rules := rules[name := rules[name] + [trimmed]];
      OrderGrows(old_, line, wanted, order0, order, name);
      CollectStep(old_, line, order0, order, rules0, rules, name);
    }
  }

  /** The collecting loop. */
  method Collect(lines: seq<string>, wanted: set<string>) returns (order: seq<string>, rules: map<string, seq<string>>)
    ensures IsChainOrder(order, lines, wanted) && CollectsRules(rules, order, lines)
  {
    order, rules := [], map[];
    for i := 0 to |lines|
      invariant IsChainOrder(order, lines[..i], wanted) && CollectsRules(rules, order, lines[..i])
    {
      order, rules := CollectLine(lines[..i], lines[i], wanted, order, rules);
      assert lines[..i + 1] == lines[..i] + [lines[i]];
    }
    assert lines[..|lines|] == lines;
  }

  /** `Parse` is lossless. */
  method Parse(text: string, chains: seq<string>) returns (result: seq<ParsedChain>)
    ensures IsChainOrder(Names(result), Split(text, '\n'), set c | c in chains)
    ensures forall pc :: pc in result ==> IsChainOf(pc, Split(text, '\n'))
  {
    var lines := Split(text, '\n');
    var order, rules := Collect(lines, set c | c in chains);
    result := [];
    for i := 0 to |order|
      invariant Names(result) == order[..i]
      invariant forall pc :: pc in result ==> IsChainOf(pc, lines)
    {
      var parsed := ParseRules(order[i], rules[order[i]]);
      result := result + [ParsedChain(order[i], parsed)];
    }
    assert order[..|order|] == order;
  }

  function Names(chains: seq<ParsedChain>): seq<string> { seq(|chains|, i requires 0 <= i < |chains| =>
        chains[i].name) }

  // ----- the importer's second parse -----

  /** The text the importer parses again for a stored rule. */
  function Reprinted(raw: string, chain: string): string { ChainPrefix(chain) + TrimPrefix(raw, ChainPrefix(chain)) }

  lemma {:induction false} TrimmedEnds(s: string)
    ensures Trim(s) != "" ==> !IsSpace(Trim(s)[0]) && !IsSpace(Trim(s)[|Trim(s)| - 1])
  {
    TrimLeftEnds(s);
    TrimRightEnds(TrimLeft(s));
  }

  lemma {:induction false} TrimLeftEnds(s: string)
    ensures TrimLeft(s) != "" ==> !IsSpace(TrimLeft(s)[0])
  {
    if s != "" && IsSpace(s[0]) { TrimLeftEnds(s[1..]); }
  }

  lemma {:induction false} TrimRightEnds(s: string)
    ensures StartsWith(s, TrimRight(s))
    ensures TrimRight(s) != "" ==> TrimRight(s)[0] == s[0] && !IsSpace(TrimRight(s)[|TrimRight(s)| - 1])
  {
    if s != "" && IsSpace(s[|s| - 1]) {
      TrimRightEnds(s[..|s| - 1]);
    }
  }

  lemma {:induction false} TrimKeepsChars(s: string, c: char)
    requires c in Trim(s)
    ensures c in s
  {
    TrimRightEnds(TrimLeft(s));
    assert c in TrimLeft(s);
    TrimLeftKeeps(s, c);
  }

  lemma {:induction false} TrimLeftKeeps(s: string, c: char)
    requires c in TrimLeft(s)
    ensures c in s
  {
    if s != "" && IsSpace(s[0]) { TrimLeftKeeps(s[1..], c); }
  }

  lemma {:induction false} SplitPieces(s: string, sep: char, piece: string)
    requires piece in Split(s, sep)
    ensures sep !in piece
  {
    if s != "" {
      var rest := Split(s[1..], sep);
      if piece in rest { SplitPieces(s[1..], sep, piece); }
      if s[0] != sep && piece == [s[0]] + rest[0] { SplitPieces(s[1..], sep, rest[0]); }
    }
  }

  lemma {:induction false} SplitPlain(s: string, sep: char)
    requires sep !in s
    ensures Split(s, sep) == [s]
  {
    if s != "" {
      SplitPlain(s[1..], sep);
      assert [s[0]] + s[1..] == s;
    }
  }

  /** Stripping the prefix off the reprint leaves what stripping it off the line left. */
  lemma ReprintStrips(raw: string, chain: string)
    ensures ParseLine(Reprinted(raw, chain), chain) == ParseLine(raw, chain)
    ensures forall c :: c in Reprinted(raw, chain) ==> c in raw || c in ChainPrefix(chain)
  {
    var prefix, rest := ChainPrefix(chain), TrimPrefix(raw, ChainPrefix(chain));
    var again := prefix + rest;
    assert again[..|prefix|] == prefix && again[|prefix|..] == rest;
    assert TrimPrefix(again, prefix) == rest;
  }

  lemma PrefixIsOneLine(chain: string)
    requires IsWord(chain)
    ensures '\n' !in ChainPrefix(chain)
  {
    assert '\n' !in "-A " && '\n' !in " ";
  }

  lemma LineIsOneLine(text: string, line: string)
    requires line in Split(text, '\n')
    ensures '\n' !in Trim(line)
  {
    SplitPieces(text, '\n', line);
    if '\n' in Trim(line) { TrimKeepsChars(line, '\n'); }
  }

  /** Parsing a stored raw rule again yields one rule with the same fields and the same class,
      even where irregular spacing kept the chain prefix from being stripped. */
  lemma ReparseStable(text: string, line: string, chain: string)
    requires line in Split(text, '\n') && AppendsTo(line, chain)
    ensures var again := Reprinted(Trim(line), chain);
      && RawRules(Split(again, '\n'), chain) == [again]
      && ParseLine(again, chain) == ParseLine(Trim(line), chain)
  {
    var raw := Trim(line);
    var again := Reprinted(raw, chain);
    LineIsOneLine(text, line);
    FieldsAreWords(raw, chain);
    PrefixIsOneLine(chain);
    ReprintStrips(raw, chain);
    TrimmedEnds(line);
    RawAppends(line, chain);
    ReprintAppends(raw, chain);
    SplitPlain(again, '\n');
    OneLine(again, chain);
  }

  lemma RawAppends(line: string, chain: string)
    requires AppendsTo(line, chain)
    ensures Trim(line) != "" && AppendsTo(Trim(line), chain)
  {
    TrimmedEnds(line);
    TrimNothing(Trim(line));
  }

  lemma OneLine(again: string, chain: string)
    requires AppendsTo(again, chain) && Trim(again) == again
    ensures RawRules([again], chain) == [again]
  {
    assert [again][..0] == [];
  }

  lemma FieldsOfReprint(a: string, chain: string, raw: string)
    requires IsWord(a) && IsWord(chain)
    ensures Fields(a + " " + chain + " " + raw) == [a, chain] + Fields(raw)
  {
    assert a + " " + chain + " " + raw == a + " " + (chain + " " + raw);
    FieldsSeparate(a, chain + " " + raw);
    FieldsSeparate(chain, raw);
    FieldsOfWord(a);
    FieldsOfWord(chain);
  }

  lemma TrimNothing(s: string)
    requires s != "" && !IsSpace(s[0]) && !IsSpace(s[|s| - 1])
    ensures Trim(s) == s
  {
  }

  lemma ReprintAppends(raw: string, chain: string)
    requires raw != "" && !IsSpace(raw[0]) && !IsSpace(raw[|raw| - 1])
    requires IsWord(chain) && AppendsTo(raw, chain)
    ensures var again := Reprinted(raw, chain); Trim(again) == again && AppendsTo(again, chain)
  {
    var prefix := ChainPrefix(chain);
    TrimNothing(raw);
    if StartsWith(raw, prefix) {
      assert raw == raw[..|prefix|] + raw[|prefix|..];
    } else {
      var again := prefix + raw;
      assert again[0] == '-' && again[|again| - 1] == raw[|raw| - 1];
      TrimNothing(again);
      assert IsWord("-A");
      assert again == "-A" + " " + chain + " " + raw;
      FieldsOfReprint("-A", chain, raw);
      assert again[..3] == "-A ";
    }
  }
}
