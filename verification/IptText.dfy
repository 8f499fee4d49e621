/** The parser's options by their text, and what a class says about the record it was given to. */
module IptText {
  import opened PortText
  import opened IptParse
  import opened IptMeaning

  lemma Front(a: seq<string>, rest: seq<string>)
    ensures Tokenize(a + rest)[|a|..] == Tokenize(rest)
    ensures forall i :: 0 <= i < |a| ==> Tokenize(a + rest)[i] == Token(KindOf(a[i]), a[i])
  {
    TokenizeConcat(a, rest);
  }

  /** What parsing a line of these words adds to a record. */
  function Reads(words: seq<string>, r: Parsed): Parsed { ParseTokens(Tokenize(words), r) }

  lemma OneOption(flag: string, v: string, rest: seq<string>, r: Parsed)
    requires IsPlainFlag(KindOf(flag))
    ensures Reads([flag, v] + rest, r) == Reads(rest, Assign(r, KindOf(flag), v))
  {
    Front([flag, v], rest);
  }

  /** The options outside module blocks, each with its value: addresses and interfaces, */
  lemma AddressOptions(v: string, rest: seq<string>, r: Parsed)
    ensures Reads(["-s", v] + rest, r) == Reads(rest, r.(sourceIp := v))
    ensures Reads(["-d", v] + rest, r) == Reads(rest, r.(destIp := v))
    ensures Reads(["-i", v] + rest, r) == Reads(rest, r.(inInterface := v))
    ensures Reads(["-o", v] + rest, r) == Reads(rest, r.(outInterface := v))
  {
    OneOption("-s", v, rest, r);
    OneOption("-d", v, rest, r);
    OneOption("-i", v, rest, r);
    OneOption("-o", v, rest, r);
  }

  /** protocol, ports and target. */
  lemma OtherOptions(v: string, rest: seq<string>, r: Parsed)
    ensures Reads(["-p", v] + rest, r) == Reads(rest, r.(protocol := v))
    ensures Reads(["--sport", v] + rest, r) == Reads(rest, r.(sourcePort := v))
    ensures Reads(["--dport", v] + rest, r) == Reads(rest, r.(destPort := v))
    ensures Reads(["-j", v] + rest, r) == Reads(rest, r.(target := v))
  {
    OneOption("-p", v, rest, r);
    OneOption("--sport", v, rest, r);
    OneOption("--dport", v, rest, r);
    OneOption("-j", v, rest, r);
  }

  /** The words that mean something outside module blocks. */
  predicate IsMainWord(w: string) {
    || w == "-p" || w == "-s" || w == "-d" || w == "-i" || w == "-o" || w == "-j" || w == "--sport" || w == "--dport"
    || w == "-m"
  }

  /** Any other word is skipped with a warning that names it; an option without a value ends the line. */
  lemma OtherWords(w: string, rest: seq<string>, r: Parsed)
    ensures !IsMainWord(w) ==>
      Reads([w] + rest, r) == Reads(rest, r.(warnings := r.warnings + ["unrecognized token: " + w]))
    ensures IsMainWord(w) ==> Reads([w], r) == r
  {
    Front([w], rest);
    Front([w], []);
  }

  /** Reading on inside the block of module `m`. */
  function ReadsIn(m: string, words: seq<string>, r: Parsed): Parsed { From(Tokenize(words), HandlersOf(m), r) }

  /** A module option notes the module. The seven modules with parameters open a block; any other is followed by
      ordinary options. */
  predicate HasParameters(m: string) {
    || m == "set" || m == "conntrack" || m == "tcp" || m == "udp" || m == "comment" || m == "multiport"
    || m == "pkttype"
  }

  lemma ModuleOption(m: string, rest: seq<string>, r: Parsed)
    ensures var noted := r.(modules := r.modules + [m]);
      Reads(["-m", m] + rest, r) == if HasParameters(m) then ReadsIn(m, rest, noted) else Reads(rest, noted)
  {
    Front(["-m", m], rest);
  }

  lemma OneParameter(m: string, flag: string, v: string, rest: seq<string>, r: Parsed)
    requires HandlersOf(m) != OfSet && HandlersOf(m) != NoHandlers && Handles(HandlersOf(m), KindOf(flag))
    ensures ReadsIn(m, [flag, v] + rest, r) == ReadsIn(m, rest, Assign(r, KindOf(flag), v))
  {
    Front([flag, v], rest);
    FromHandled(Tokenize([flag, v] + rest), HandlersOf(m), r);
  }

  /** The parameters of each module: the name and direction of a set, */
  lemma SetParameter(v: string, w: string, rest: seq<string>, r: Parsed)
    ensures ReadsIn("set", ["--match-set", v, w] + rest, r) == ReadsIn("set", rest, r.(ipset := [v, w]))
  {
    Front(["--match-set", v, w], rest);
    FromHandled(Tokenize(["--match-set", v, w] + rest), OfSet, r);
  }

  /** single ports, */
  lemma TransportParameters(v: string, rest: seq<string>, r: Parsed)
    ensures ReadsIn("tcp", ["--dport", v] + rest, r) == ReadsIn("tcp", rest, r.(destPort := v))
    ensures ReadsIn("tcp", ["--sport", v] + rest, r) == ReadsIn("tcp", rest, r.(sourcePort := v))
    ensures ReadsIn("udp", ["--dport", v] + rest, r) == ReadsIn("udp", rest, r.(destPort := v))
    ensures ReadsIn("udp", ["--sport", v] + rest, r) == ReadsIn("udp", rest, r.(sourcePort := v))
  {
    OneParameter("tcp", "--dport", v, rest, r);
    OneParameter("tcp", "--sport", v, rest, r);
    OneParameter("udp", "--dport", v, rest, r);
    OneParameter("udp", "--sport", v, rest, r);
  }

  /** port lists, */
  lemma ListParameters(v: string, rest: seq<string>, r: Parsed)
    ensures ReadsIn("multiport", ["--dports", v] + rest, r) == ReadsIn("multiport", rest, r.(destPort := v))
    ensures ReadsIn("multiport", ["--sports", v] + rest, r) == ReadsIn("multiport", rest, r.(sourcePort := v))
  {
    OneParameter("multiport", "--dports", v, rest, r);
    OneParameter("multiport", "--sports", v, rest, r);
  }

  /** packet types, */
  lemma FrameParameter(v: string, rest: seq<string>, r: Parsed)
    ensures ReadsIn("pkttype", ["--pkt-type", v] + rest, r) == ReadsIn("pkttype", rest, r.(pktType := v))
  {
    OneParameter("pkttype", "--pkt-type", v, rest, r);
  }

  /** connection states, separated by commas, */
  lemma StateParameter(v: string, rest: seq<string>, r: Parsed)
    ensures ReadsIn("conntrack", ["--ctstate", v] + rest, r) == ReadsIn("conntrack", rest, Assign(r, CtState, v))
    ensures Assign(r, CtState, v) == r.(states := r.states + NonEmpty(Split(v, ',')))
  {
    OneParameter("conntrack", "--ctstate", v, rest, r);
  }

  /** and a comment without its quotes. */
  lemma CommentParameter(v: string, rest: seq<string>, r: Parsed)
    ensures ReadsIn("comment", ["--comment", v] + rest, r) == ReadsIn("comment", rest, Assign(r, Comment, v))
    ensures Assign(r, Comment, v) == r.(comment := TrimQuotes(v))
  {
    OneParameter("comment", "--comment", v, rest, r);
  }

  predicate EndsBlockWord(w: string) {
    w == "-m" || w == "-j" || w == "-p" || w == "-s" || w == "-d" || w == "-i" || w == "-o"
  }

  predicate IsParameter(m: string, w: string) {
    || (m == "set" && w == "--match-set") || (m == "conntrack" && w == "--ctstate")
    || ((m == "tcp" || m == "udp") && (w == "--dport" || w == "--sport"))
    || (m == "comment" && w == "--comment") || (m == "multiport" && (w == "--dports" || w == "--sports"))
    || (m == "pkttype" && w == "--pkt-type")
  }

  /** A block ends at seven words; any other word that is not a parameter of its module is swallowed without a
      trace. */
  lemma BlockWords(m: string, w: string, rest: seq<string>, r: Parsed)
    requires HasParameters(m)
    ensures EndsBlockWord(w) ==> ReadsIn(m, [w] + rest, r) == Reads([w] + rest, r)
    ensures !EndsBlockWord(w) && !IsParameter(m, w) ==> ReadsIn(m, [w] + rest, r) == ReadsIn(m, rest, r)
  {
    Front([w], rest);
    WordKinds(m, w);
    if EndsBlockWord(w) {
      FromEnds(Tokenize([w] + rest), HandlersOf(m), r);
    } else if !IsParameter(m, w) {
      FromLost(Tokenize([w] + rest), HandlersOf(m), r);
    }
  }

  lemma WordKinds(m: string, w: string)
    ensures EndsBlock(KindOf(w)) <==> EndsBlockWord(w)
    ensures HandlersOf(m) != NoHandlers <==> HasParameters(m)
    ensures Handles(HandlersOf(m), KindOf(w)) <==> IsParameter(m, w)
  {
  }

  predicate AllQuotes(s: string) { forall i :: 0 <= i < |s| ==> s[i] == '"' }

  /** `s[i..j]` is what is left of `s` without the quotes at both ends. */
  predicate Unquoted(s: string, i: nat, j: nat) {
    && i <= j <= |s| && AllQuotes(s[..i]) && AllQuotes(s[j..]) && (i < j ==> s[i] != '"' && s[j - 1] != '"')
  }

  lemma UnquotedFront(s: string, i: nat, j: nat)
    requires s != "" && s[0] == '"' && Unquoted(s[1..], i, j)
    ensures Unquoted(s, i + 1, j + 1) && s[1..][i..j] == s[i + 1..j + 1]
  {
    assert s[..i + 1] == [s[0]] + s[1..][..i];
    assert s[j + 1..] == s[1..][j..];
  }

  lemma UnquotedBack(s: string, i: nat, j: nat)
    requires s != "" && s[|s| - 1] == '"' && Unquoted(s[..|s| - 1], i, j)
    ensures Unquoted(s, i, j) && s[..|s| - 1][i..j] == s[i..j]
  {
    assert s[..i] == s[..|s| - 1][..i];
    assert s[j..] == s[..|s| - 1][j..] + [s[|s| - 1]];
  }

  /** A comment loses the quotes at both ends and nothing else. */
  lemma {:induction false} TrimQuotesMeans(s: string) returns (i: nat, j: nat)
    ensures Unquoted(s, i, j) && TrimQuotes(s) == s[i..j]
    decreases |s|
  {
    if s == "" {
      i, j := 0, 0;
    } else if s[0] == '"' {
      i, j := TrimQuotesMeans(s[1..]);
      UnquotedFront(s, i, j);
      i, j := i + 1, j + 1;
    } else if s[|s| - 1] == '"' {
      i, j := TrimQuotesMeans(s[..|s| - 1]);
      UnquotedBack(s, i, j);
    } else {
      i, j := 0, |s|;
    }
  }

  /** Of a list of states the empty parts are dropped. */
  lemma {:induction false} NonEmptyMeans(parts: seq<string>)
    ensures forall w :: w in NonEmpty(parts) <==> w in parts && w != ""
  {
    if parts != [] {
      NonEmptyMeans(parts[1..]);
      assert parts == [parts[0]] + parts[1..];
    }
  }

  /** The warnings a record ends with: a missing target, or else no condition at all. */
  lemma LastWarning(r: Parsed)
    ensures r.target == "" ==> Checked(r) == r.(warnings := r.warnings + ["rule missing target (-j)"])
    ensures r.target != "" && (forall f :: f != Verdict ==> Get(r, f) == []) ==>
      Checked(r) == r.(warnings := r.warnings + ["rule has no match criteria \U{2014} possibly truncated"])
    ensures r.target != "" && (exists f :: f != Verdict && Get(r, f) != []) ==> Checked(r) == r
  {
    if r.target != "" && forall f :: f != Verdict ==> Get(r, f) == [] {
      assert Get(r, Proto) == [] && Get(r, SrcAddr) == [] && Get(r, DstAddr) == [] && Get(r, Sport) == [];
      assert Get(r, Dport) == [] && Get(r, In) == [] && Get(r, Out) == [] && Get(r, State) == [];
      assert Get(r, Remark) == [] && Get(r, Frame) == [] && Get(r, Set) == [];
    }
  }

  // ----- classes -----

  predicate IsKnownModule(m: string) { HasParameters(m) || m == "icmp" }

  /** A record is clean exactly when it has no interface, docker0 on DOCKER-USER aside, accepts or drops, has no
      state other than NEW, uses only known modules and does not mention one of the compiler's own sets. */
  lemma CleanIff(chain: string, r: Parsed)
    ensures Classify(chain, r) == Clean <==>
      && r.inInterface == ""
      && (r.outInterface == "" || (chain == "DOCKER-USER" && r.outInterface == "docker0"))
      && (r.target == "ACCEPT" || r.target == "DROP")
      && (forall s :: s in r.states ==> s == "NEW")
      && (forall m :: m in r.modules ==> IsKnownModule(m))
      && !(r.ipset != [] && StartsWith(r.ipset[0], "runic_"))
  {
    assert forall m :: Supported(m) <==> IsKnownModule(m);
  }

  /** A record counts as one of the compiler's own when it accepts loopback, related ICMP or established and
      related traffic, drops invalid packets or mentions one of its sets, and only then. */
  lemma StandardIff(chain: string, r: Parsed)
    ensures Classify(chain, r) == Standard <==>
      || (r.target == "ACCEPT" && ("lo" == r.inInterface || "lo" == r.outInterface))
      || (r.target == "ACCEPT" && "RELATED" in r.states && (r.protocol == "icmp" || "ESTABLISHED" in r.states))
      || (r.target == "DROP" && "INVALID" in r.states)
      || (r.ipset != [] && StartsWith(r.ipset[0], "runic_"))
  {
  }

  /** The reason a line is set aside is the first that applies. */
  lemma ReasonsInOrder(chain: string, r: Parsed)
    requires Classify(chain, r) != Standard
    ensures Classify(chain, r) == Interface <==>
      r.inInterface != "" || (r.outInterface != "" && (chain != "DOCKER-USER" || r.outInterface != "docker0"))
    ensures Classify(chain, r) == Target ==> r.inInterface == "" && r.target != "ACCEPT" && r.target != "DROP"
    ensures Classify(chain, r) == States ==>
      r.inInterface == "" && (r.target == "ACCEPT" || r.target == "DROP") && exists s :: s in r.states && s != "NEW"
    ensures Classify(chain, r) == UnknownModule ==>
      && (forall s :: s in r.states ==> s == "NEW")
      && exists m :: m in r.modules && !IsKnownModule(m)
  {
    assert forall m :: Supported(m) <==> IsKnownModule(m);
  }
}
