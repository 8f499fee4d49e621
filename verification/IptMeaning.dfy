/** What a parsed record says about an arbitrary line. The line is read the way iptables reads it:
    every flag with its values is a test, `!` negates the next one, and anything else is a test the
    record cannot hold. `IptRegular` says exactly when the parser's record means the same. */
module IptMeaning {
  import opened Wrappers
  import opened PortText
  import opened IptParse

  datatype Field = Proto | SrcAddr | DstAddr | Sport | Dport | In | Out | Verdict | State | Remark | Frame | Set

  function FieldOf(k: TokenKind): Option<Field> {
    match k
    case Protocol => Some(Proto)
    case Source => Some(SrcAddr)
    case Dest => Some(DstAddr)
    case SourcePort => Some(Sport)
    case SourcePorts => Some(Sport)
    case DestPort => Some(Dport)
    case DestPorts => Some(Dport)
    case InIface => Some(In)
    case OutIface => Some(Out)
    case Jump => Some(Verdict)
    case CtState => Some(State)
    case Comment => Some(Remark)
    case PktType => Some(Frame)
    case MatchSet => Some(Set)
    case Module => None
    case Other => None
  }

  /** How many values a flag takes. */
  function Arity(k: TokenKind): nat { if k == MatchSet then 2 else 1 }

  predicate IsFlagHere(ts: seq<Token>) { ts != [] && FieldOf(ts[0].kind).Some? }

  predicate HasValues(ts: seq<Token>) { ts != [] && |ts| > Arity(ts[0].kind) }

  function Values(ts: seq<Token>): seq<string>
    requires HasValues(ts)
  {
    if ts[0].kind == MatchSet then [ts[1].text, ts[2].text] else [ts[1].text]
  }

  function TestOf(ts: seq<Token>): Test
    requires IsFlagHere(ts) && HasValues(ts)
  {
    Test(false, FieldOf(ts[0].kind).value, Values(ts))
  }

  /** The line after the flag at its head. */
  function Rest1(ts: seq<Token>): seq<Token>
    requires HasValues(ts)
  {
    ts[1 + Arity(ts[0].kind)..]
  }

  // ----- the line's own reading -----

  const BANG := "!"

  datatype Test = Test(negated: bool, field: Field, values: seq<string>) | Unread(text: string)

  function ReadLine(ts: seq<Token>): seq<Test>
    decreases |ts|
  {
    if ts == [] then []
    else if IsFlagHere(ts) then
      if HasValues(ts) then [TestOf(ts)] + ReadLine(Rest1(ts))
      else [Unread(ts[0].text)]
    else if ts[0].kind == Module then
      (if |ts| >= 2 then ReadLine(ts[2..]) else [Unread(ts[0].text)])
    else if ts[0].text == BANG && IsFlagHere(ts[1..]) && HasValues(ts[1..]) then
      [Test(true, FieldOf(ts[1].kind).value, Values(ts[1..]))] + ReadLine(ts[2 + Arity(ts[1].kind)..])
    else [Unread(ts[0].text)] + ReadLine(ts[1..])
  }

  predicate IsPlain(t: Test) { t.Test? && !t.negated }

  predicate AllPlain(tests: seq<Test>) { forall t :: t in tests ==> IsPlain(t) }

  // ----- the record's reading -----

  function Given(s: string): seq<string> { if s == "" then [] else [s] }

  /** The value the record holds in a field, [] if none. */
  function Get(r: Parsed, f: Field): seq<string> {
    match f
    case Proto => Given(r.protocol)
    case SrcAddr => Given(r.sourceIp)
    case DstAddr => Given(r.destIp)
    case Sport => Given(r.sourcePort)
    case Dport => Given(r.destPort)
    case In => Given(r.inInterface)
    case Out => Given(r.outInterface)
    case Verdict => Given(r.target)
    case State => r.states
    case Remark => Given(r.comment)
    case Frame => Given(r.pktType)
    case Set => r.ipset
  }

  /** What a field should hold for these values. */
  function Stored(f: Field, values: seq<string>): seq<string> {
    if values == [] then []
    else
      match f
      case State => NonEmpty(Split(values[0], ','))
      case Remark => Given(TrimQuotes(values[0]))
      case Set => values
      case _ => Given(values[0])
  }

  function Content(t: Test): seq<string> { if t.Test? then Stored(t.field, t.values) else [] }

  function Elements(s: seq<string>): set<string> { set x | x in s }

  /** Connection states are a set of alternatives, anything else is a text. */
  predicate SameContent(f: Field, a: seq<string>, b: seq<string>) {
    if f == State then Elements(a) == Elements(b) else a == b
  }

  predicate Of(t: Test, f: Field) { t.Test? && t.field == f }

  predicate Speaks(tests: seq<Test>, f: Field) { exists t :: t in tests && Of(t, f) }

  /** The record says what the line says: every test is one it can hold, it holds each of them, and it
      holds nothing else. */
  ghost predicate Means(r: Parsed, tests: seq<Test>) {
    && AllPlain(tests)
    && (forall t :: t in tests && t.Test? ==> SameContent(t.field, Get(r, t.field), Content(t)))
    && (forall f :: Get(r, f) != [] ==> Speaks(tests, f))
  }

  /** No field is given twice with different contents. */
  predicate Consistent(tests: seq<Test>) {
    forall t, u :: t in tests && u in tests && t.Test? && Of(u, t.field) ==>
        SameContent(t.field, Content(t), Content(u))
  }

  /** No field is given twice at all. */
  predicate NoRepeats(tests: seq<Test>) {
    forall i, j :: 0 <= i < j < |tests| && tests[i].Test? && tests[j].Test? ==> tests[i].field != tests[j].field
  }

  // ----- what the parser takes -----

  /** The parser takes the flag at the head of the line: in the main loop the plain flags, in a block the
      flags of its module, and the plain flags that end the block. */
  predicate TakesHere(ts: seq<Token>, h: Handlers) {
    && ts != [] && ts[0].kind != Module
    && (EndsBlock(ts[0].kind) || if h == NoHandlers then IsPlainFlag(ts[0].kind) else Handles(h, ts[0].kind))
  }

  function Inside(ts: seq<Token>, h: Handlers): Handlers
    requires ts != []
  {
    if EndsBlock(ts[0].kind) then NoHandlers else h
  }

  /** The tests the parser takes, in order. */
  function Taken(ts: seq<Token>, h: Handlers): seq<Test>
    decreases |ts|
  {
    if ts == [] then []
    else if ts[0].kind == Module then (if |ts| >= 2 then Taken(ts[2..], HandlersOf(ts[1].text)) else [])
    else if TakesHere(ts, h) then
      (if HasValues(ts) then [TestOf(ts)] + Taken(Rest1(ts), Inside(ts, h)) else [])
    else Taken(ts[1..], h)
  }

  /** Every flag stands where the parser takes it, complete, and there is no other token: no `!`, no
      unknown option, and no flag inside the block of a module that does not own it. */
  predicate Regular(ts: seq<Token>, h: Handlers)
    decreases |ts|
  {
    if ts == [] then true
    else if ts[0].kind == Module then |ts| >= 2 && Regular(ts[2..], HandlersOf(ts[1].text))
    else TakesHere(ts, h) && HasValues(ts) && Regular(Rest1(ts), Inside(ts, h))
  }

  /** The values of a flag that is not taken do not themselves look like flags. */
  predicate Proper(ts: seq<Token>, h: Handlers)
    decreases |ts|
  {
    if ts == [] then true
    else if ts[0].kind == Module then |ts| >= 2 ==> Proper(ts[2..], HandlersOf(ts[1].text))
    else if TakesHere(ts, h) then HasValues(ts) ==> Proper(Rest1(ts), Inside(ts, h))
    else if IsFlagHere(ts) then
      HasValues(ts) ==>
        ts[1].kind == Other && (ts[0].kind == MatchSet ==> ts[2].kind == Other) && Proper(Rest1(ts), h)
    else Proper(ts[1..], h)
  }

  // ----- the parser, one flag at a time -----

  /** Parsing from inside the block of `h`, or from the main loop. */
  function From(ts: seq<Token>, h: Handlers, r: Parsed): Parsed {
    if h == NoHandlers then ParseTokens(ts, r) else var out := Block(ts, h, r); ParseTokens(out.0, out.1)
  }

  lemma FromEnds(ts: seq<Token>, h: Handlers, r: Parsed)
    requires ts == [] || EndsBlock(ts[0].kind)
    ensures From(ts, h, r) == ParseTokens(ts, r)
  {
  }

  lemma FromModule(ts: seq<Token>, h: Handlers, r: Parsed)
    requires ts != [] && ts[0].kind == Module
    ensures |ts| >= 2 ==> From(ts, h, r) == From(ts[2..], HandlersOf(ts[1].text), WithModule(r, ts[1].text))
    ensures |ts| < 2 ==> From(ts, h, r) == r
  {
    FromEnds(ts, h, r);
  }

  /** What the parser writes for a flag with its values. */
  function Recorded(r: Parsed, ts: seq<Token>): Parsed
    requires HasValues(ts)
  {
    if ts[0].kind == MatchSet then r.(ipset := [ts[1].text, ts[2].text]) else Assign(r, ts[0].kind, ts[1].text)
  }

  lemma FromPlain(ts: seq<Token>, h: Handlers, r: Parsed)
    requires ts != [] && IsPlainFlag(ts[0].kind) && (h == NoHandlers || EndsBlock(ts[0].kind))
    ensures HasValues(ts) ==> From(ts, h, r) == From(Rest1(ts), NoHandlers, Recorded(r, ts))
    ensures !HasValues(ts) ==> From(ts, h, r) == r
  {
    if EndsBlock(ts[0].kind) { FromEnds(ts, h, r); }
  }

  lemma FromHandled(ts: seq<Token>, h: Handlers, r: Parsed)
    requires ts != [] && h != NoHandlers && Handles(h, ts[0].kind)
    ensures HasValues(ts) ==> From(ts, h, r) == From(Rest1(ts), h, Recorded(r, ts))
    ensures !HasValues(ts) ==> From(ts, h, r) == r
  {
  }

  lemma FromTaken(ts: seq<Token>, h: Handlers, r: Parsed)
    requires TakesHere(ts, h)
    ensures HasValues(ts) ==> From(ts, h, r) == From(Rest1(ts), Inside(ts, h), Recorded(r, ts))
    ensures !HasValues(ts) ==> From(ts, h, r) == r
  {
    if h == NoHandlers || EndsBlock(ts[0].kind) { FromPlain(ts, h, r); } else { FromHandled(ts, h, r); }
  }

  /** A token that is not taken costs a warning in the main loop and nothing inside a block. */
  lemma FromLost(ts: seq<Token>, h: Handlers, r: Parsed)
    requires ts != [] && ts[0].kind != Module && !TakesHere(ts, h)
    ensures h == NoHandlers ==>
      From(ts, h, r) == From(ts[1..], h, Warned(r, "unrecognized token: " + ts[0].text))
    ensures h != NoHandlers ==> From(ts, h, r) == From(ts[1..], h, r)
  {
  }

  // ----- the record is what was taken -----

  /** A later value replaces an earlier one; states accumulate. */
  function Put(f: Field, old_: seq<string>, new_: seq<string>): seq<string> {
    if f == State then old_ + new_ else new_
  }

  function Folded(tests: seq<Test>, f: Field, start: seq<string>): seq<string> {
    if tests == [] then start
    else Folded(tests[1..], f, if Of(tests[0], f) then Put(f, start, Content(tests[0])) else start)
  }

  lemma FoldedCons(t: Test, tests: seq<Test>, f: Field, start: seq<string>)
    ensures Folded([t] + tests, f, start) == Folded(tests, f, if Of(t, f) then Put(f, start, Content(t)) else start)
  {
    assert ([t] + tests)[1..] == tests;
  }

  /** Writing one flag changes its own field only. */
  lemma RecordedPuts(r: Parsed, ts: seq<Token>, f: Field)
    requires IsFlagHere(ts) && HasValues(ts)
    ensures Get(Recorded(r, ts), f) == if Of(TestOf(ts), f) then Put(f, Get(r, f), Content(TestOf(ts))) else Get(r, f)
  {
  }

  lemma SameFields(r: Parsed, m: string, w: string, f: Field)
    ensures Get(WithModule(r, m), f) == Get(r, f) && Get(Warned(r, w), f) == Get(r, f)
  {
  }

  lemma TakenIsFlag(ts: seq<Token>, h: Handlers)
    requires TakesHere(ts, h)
    ensures IsFlagHere(ts)
  {
  }

  /** On every line, the record holds exactly the tests the parser took, folded in order. */
  lemma {:induction false} RecordIsTaken(ts: seq<Token>, h: Handlers, r: Parsed, f: Field)
    ensures Get(From(ts, h, r), f) == Folded(Taken(ts, h), f, Get(r, f))
    decreases |ts|
  {
    if ts == [] {
      FromEnds(ts, h, r);
    } else if ts[0].kind == Module {
      FromModule(ts, h, r);
      if |ts| >= 2 {
        SameFields(r, ts[1].text, "", f);
        RecordIsTaken(ts[2..], HandlersOf(ts[1].text), WithModule(r, ts[1].text), f);
      }
    } else if TakesHere(ts, h) {
      FromTaken(ts, h, r);
      if HasValues(ts) {
        TakenIsFlag(ts, h);
        RecordedPuts(r, ts, f);
        RecordIsTaken(Rest1(ts), Inside(ts, h), Recorded(r, ts), f);
        FoldedCons(TestOf(ts), Taken(Rest1(ts), Inside(ts, h)), f, Get(r, f));
      }
    } else {
      FromLost(ts, h, r);
      var warned := Warned(r, "unrecognized token: " + ts[0].text);
      SameFields(r, "", "unrecognized token: " + ts[0].text, f);
      RecordIsTaken(ts[1..], h, if h == NoHandlers then warned else r, f);
    }
  }
}
