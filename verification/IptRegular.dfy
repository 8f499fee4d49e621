/** Exactly when a parsed record means its line. */
module IptRegular {
  import opened PortText
  import opened IptParse
  import opened IptMeaning

  // ----- what is taken is read -----

  /** A line of plain tests begins with a module or a complete flag. */
  lemma {:induction false} PlainShape(ts: seq<Token>)
    requires ts != [] && AllPlain(ReadLine(ts))
    ensures ts[0].kind == Module ==> |ts| >= 2 && ReadLine(ts) == ReadLine(ts[2..])
    ensures ts[0].kind != Module ==>
      IsFlagHere(ts) && HasValues(ts) && ReadLine(ts) == [TestOf(ts)] + ReadLine(Rest1(ts))
          && AllPlain(ReadLine(Rest1(ts)))
  {
    if ReadLine(ts) != [] { assert ReadLine(ts)[0] in ReadLine(ts); }
    if IsFlagHere(ts) && HasValues(ts) {
      assert forall t :: t in ReadLine(Rest1(ts)) ==> t in ReadLine(ts);
    }
  }

  /** A flag that is not taken is lost together with its values. */
  lemma LostFlag(ts: seq<Token>, h: Handlers)
    requires IsFlagHere(ts) && HasValues(ts) && !TakesHere(ts, h)
    requires ts[1].kind == Other && (ts[0].kind == MatchSet ==> ts[2].kind == Other)
    ensures Taken(ts, h) == Taken(Rest1(ts), h)
  {
    var one := ts[1..];
    assert one[0] == ts[1] && one[1..] == ts[2..];
    assert Taken(one, h) == Taken(ts[2..], h);
    if ts[0].kind == MatchSet {
      var two := ts[2..];
      assert two[0] == ts[2] && two[1..] == ts[3..];
      assert Taken(two, h) == Taken(ts[3..], h);
    }
  }

  lemma {:induction false} TakenAreRead(ts: seq<Token>, h: Handlers, t: Test)
    requires Proper(ts, h) && AllPlain(ReadLine(ts)) && t in Taken(ts, h)
    ensures t in ReadLine(ts)
    decreases |ts|
  {
    PlainShape(ts);
    if ts[0].kind == Module {
      TakenAreRead(ts[2..], HandlersOf(ts[1].text), t);
    } else if TakesHere(ts, h) {
      if t != TestOf(ts) { TakenAreRead(Rest1(ts), Inside(ts, h), t); }
    } else {
      LostFlag(ts, h);
      TakenAreRead(Rest1(ts), h, t);
    }
  }

  // ----- contents -----

  lemma SameTransitive(f: Field, a: seq<string>, b: seq<string>, c: seq<string>)
    requires SameContent(f, a, b) && SameContent(f, b, c)
    ensures SameContent(f, a, c) && SameContent(f, b, a)
  {
  }

  lemma PutSame(f: Field, old_: seq<string>, new_: seq<string>, c: seq<string>)
    requires SameContent(f, new_, c) && (old_ == [] || SameContent(f, old_, c))
    ensures SameContent(f, Put(f, old_, new_), c)
  {
    if f == State {
      assert Elements(old_ + new_) == Elements(old_) + Elements(new_);
      assert old_ == [] ==> Elements(old_) == {};
    }
  }

  /** If all tests of a field agree, folding them gives what they agree on. */
  lemma {:induction false} FoldedSame(tests: seq<Test>, f: Field, start: seq<string>, c: seq<string>)
    requires forall t :: t in tests && Of(t, f) ==> SameContent(f, Content(t), c)
    requires SameContent(f, start, c) || (start == [] && Speaks(tests, f))
    ensures SameContent(f, Folded(tests, f, start), c)
  {
    if tests != [] {
      var t, rest := tests[0], tests[1..];
      assert tests == [t] + rest;
      if Of(t, f) {
        PutSame(f, start, Content(t), c);
        FoldedSame(rest, f, Put(f, start, Content(t)), c);
      } else {
        FoldedSame(rest, f, start, c);
      }
    }
  }

  lemma {:induction false} FoldedSilent(tests: seq<Test>, f: Field, start: seq<string>)
    requires !Speaks(tests, f)
    ensures Folded(tests, f, start) == start
  {
    if tests != [] {
      assert tests[0] in tests;
      FoldedSilent(tests[1..], f, start);
    }
  }

  lemma EmptyContent(f: Field, a: seq<string>, b: seq<string>)
    requires SameContent(f, a, b)
    ensures a == [] <==> b == []
  {
    if f == State {
      assert a != [] ==> a[0] in Elements(a);
      assert b != [] ==> b[0] in Elements(b);
    }
  }

  // ----- the exact condition -----

  /** Every field the line speaks of is given at a place where the parser takes it. */
  predicate Covered(tests: seq<Test>, taken: seq<Test>) {
    forall t :: t in tests && t.Test? && Content(t) != [] ==> Speaks(taken, t.field)
  }

  /** Caller-checkable: no negation and no unknown option, no field given twice with different contents,
      and no field whose every flag stands where the parser does not take it. */
  predicate Readable(ts: seq<Token>) {
    AllPlain(ReadLine(ts)) && Consistent(ReadLine(ts)) && Covered(ReadLine(ts), Taken(ts, NoHandlers))
  }

  /** The tests of a line, by iptables' own reading. */
  function LineTokens(line: string,
        chain: string): seq<Token> { Tokenize(Fields(TrimPrefix(line, ChainPrefix(chain)))) }

  lemma BlankHoldsNothing(f: Field)
    ensures Get(BLANK, f) == []
  {
  }

  lemma RecordHolds(ts: seq<Token>, f: Field)
    ensures Get(Checked(ParseTokens(ts, BLANK)), f) == Folded(Taken(ts, NoHandlers), f, [])
  {
    RecordIsTaken(ts, NoHandlers, BLANK, f);
    BlankHoldsNothing(f);
    var r := ParseTokens(ts, BLANK);
    SameFields(r, "", "rule missing target (-j)", f);
    SameFields(r, "", "rule has no match criteria \U{2014} possibly truncated", f);
  }

  /** What the record holds in a field agrees with every test of the line on that field. */
  lemma ReadableHolds(ts: seq<Token>, t: Test)
    requires Proper(ts, NoHandlers) && Readable(ts) && t in ReadLine(ts) && t.Test?
    ensures SameContent(t.field, Folded(Taken(ts, NoHandlers), t.field, []), Content(t))
  {
    var taken := Taken(ts, NoHandlers);
    forall u | u in taken && Of(u, t.field) ensures SameContent(t.field, Content(u), Content(t)) {
      TakenAreRead(ts, NoHandlers, u);
    }
    if Speaks(taken, t.field) {
      FoldedSame(taken, t.field, [], Content(t));
    } else {
      FoldedSilent(taken, t.field, []);
    }
  }

  lemma ReadableMeans(ts: seq<Token>, r: Parsed)
    requires Proper(ts, NoHandlers) && Readable(ts) && r == Checked(ParseTokens(ts, BLANK))
    ensures Means(r, ReadLine(ts))
  {
    forall t | t in ReadLine(ts) && t.Test? ensures SameContent(t.field, Get(r, t.field), Content(t)) {
      RecordHolds(ts, t.field);
      ReadableHolds(ts, t);
    }
    forall f | Get(r, f) != [] ensures Speaks(ReadLine(ts), f) {
      RecordHolds(ts, f);
      if !Speaks(Taken(ts, NoHandlers), f) { FoldedSilent(Taken(ts, NoHandlers), f, []); }
      var t :| t in Taken(ts, NoHandlers) && Of(t, f);
      TakenAreRead(ts, NoHandlers, t);
    }
  }

  lemma MeansReadable(ts: seq<Token>, r: Parsed)
    requires Means(r, ReadLine(ts)) && r == Checked(ParseTokens(ts, BLANK))
    ensures Readable(ts)
  {
    var tests := ReadLine(ts);
    forall t, u | t in tests && u in tests && t.Test? && Of(u, t.field)
      ensures SameContent(t.field, Content(t), Content(u))
    {
      assert SameContent(t.field, Get(r, t.field), Content(t)) && SameContent(t.field, Get(r, t.field), Content(u));
    }
    forall t | t in tests && t.Test? && Content(t) != [] ensures Speaks(Taken(ts, NoHandlers), t.field) {
      RecordHolds(ts, t.field);
      EmptyContent(t.field, Get(r, t.field), Content(t));
      if !Speaks(Taken(ts, NoHandlers), t.field) { FoldedSilent(Taken(ts, NoHandlers), t.field, []); }
    }
  }

  /** On every line, a record that means the line is one of a readable line; and unless a flag that is not
      taken has a value that is itself a flag, every readable line is meant by its record. */
  lemma RecordMeansLineIff(line: string, chain: string)
    ensures var ts := LineTokens(line, chain); Means(ParseLine(line, chain), ReadLine(ts)) ==> Readable(ts)
    ensures var ts := LineTokens(line, chain);
      Proper(ts, NoHandlers) ==> (Means(ParseLine(line, chain), ReadLine(ts)) <==> Readable(ts))
  {
    var ts, r := LineTokens(line, chain), ParseLine(line, chain);
    if Proper(ts, NoHandlers) && Readable(ts) { ReadableMeans(ts, r); }
    if Means(r, ReadLine(ts)) { MeansReadable(ts, r); }
  }

  // ----- regular lines -----

  /** On a regular line every test is plain and taken, so only repeated fields can be read wrongly. */
  lemma {:induction false} RegularIsTaken(ts: seq<Token>, h: Handlers)
    requires Regular(ts, h)
    ensures Proper(ts, h) && AllPlain(ReadLine(ts)) && Taken(ts, h) == ReadLine(ts)
    decreases |ts|
  {
    if ts != [] {
      if ts[0].kind == Module {
        RegularIsTaken(ts[2..], HandlersOf(ts[1].text));
      } else {
        TakenIsFlag(ts, h);
        RegularIsTaken(Rest1(ts), Inside(ts, h));
      }
    }
  }

  lemma RegularMeans(line: string, chain: string)
    requires Regular(LineTokens(line, chain), NoHandlers)
    ensures Means(ParseLine(line, chain), ReadLine(LineTokens(line, chain))) <==>
      Consistent(ReadLine(LineTokens(line, chain)))
  {
    var ts := LineTokens(line, chain);
    RegularIsTaken(ts, NoHandlers);
    RecordMeansLineIff(line, chain);
  }

  lemma NoRepeatsTail(t: Test, tests: seq<Test>)
    requires NoRepeats([t] + tests) && t.Test?
    ensures NoRepeats(tests)
    ensures forall u :: u in tests && u.Test? ==> u.field != t.field
  {
    var all := [t] + tests;
    forall i, j | 0 <= i < j < |tests| && tests[i].Test? && tests[j].Test? ensures tests[i].field != tests[j].field {
      assert all[i + 1] == tests[i] && all[j + 1] == tests[j];
    }
    forall u | u in tests && u.Test? ensures u.field != t.field {
      var i :| 0 <= i < |tests| && tests[i] == u;
      assert all[0] == t && all[i + 1] == u;
    }
  }

  /** A line of plain tests that is not regular loses a field, unless it gives it twice. */
  lemma {:induction false} IrregularLoses(ts: seq<Token>, h: Handlers) returns (t: Test)
    requires Proper(ts, h) && AllPlain(ReadLine(ts)) && NoRepeats(ReadLine(ts)) && !Regular(ts, h)
    ensures t in ReadLine(ts) && t.Test? && !Speaks(Taken(ts, h), t.field)
    decreases |ts|
  {
    PlainShape(ts);
    if ts[0].kind == Module {
      t := IrregularLoses(ts[2..], HandlersOf(ts[1].text));
    } else {
      NoRepeatsTail(TestOf(ts), ReadLine(Rest1(ts)));
      if TakesHere(ts, h) {
        t := IrregularLoses(Rest1(ts), Inside(ts, h));
      } else {
        t := TestOf(ts);
        LostFlag(ts, h);
        forall u | u in Taken(ts, h) ensures !Of(u, t.field) { TakenAreRead(Rest1(ts), h, u); }
      }
    }
  }

  /** On lines that give no field twice and none emptily, readable and regular are the same. */
  lemma ReadableIffRegular(ts: seq<Token>)
    requires Proper(ts, NoHandlers) && NoRepeats(ReadLine(ts))
    requires forall t :: t in ReadLine(ts) && t.Test? ==> Content(t) != []
    ensures Readable(ts) <==> Regular(ts, NoHandlers)
  {
    if Regular(ts, NoHandlers) {
      RegularIsTaken(ts, NoHandlers);
      NoRepeatsConsistent(ReadLine(ts));
    } else if Readable(ts) {
      var t := IrregularLoses(ts, NoHandlers);
    }
  }

  lemma NoRepeatsConsistent(tests: seq<Test>)
    requires NoRepeats(tests)
    ensures Consistent(tests)
  {
    forall t, u | t in tests && u in tests && t.Test? && Of(u, t.field) ensures t == u {
      var i :| 0 <= i < |tests| && tests[i] == t;
      var j :| 0 <= j < |tests| && tests[j] == u;
    }
  }

  // ----- lines that are offered for import and read wrongly -----

  /** The classification does not notice: a negated source is offered for import as if it were plain. */
  lemma NegationIsClean(chain: string, cidr: string, ts: seq<Token>)
    requires |ts| == 5 && ts[0] == Token(Other, BANG) && ts[1] == Token(Source, "-s") && ts[2] == Token(Other, cidr)
    requires ts[3] == Token(Jump, "-j") && ts[4] == Token(Other, "ACCEPT") && cidr != ""
    ensures ReadLine(ts) != [] && ReadLine(ts)[0] == Test(true, SrcAddr, [cidr])
    ensures var r := Checked(ParseTokens(ts, BLANK)); Classify(chain, r) == Clean && r.sourceIp == cidr
  {
    NegationRead(ts);
    NegationParsed(ts[0], ts[1], ts[2], ts[3], ts[4]);
    assert ts == [ts[0], ts[1], ts[2], ts[3], ts[4]];
    var r := Assign(Assign(Warned(BLANK, "unrecognized token: " + ts[0].text), Source, cidr), Jump, ts[4].text);
    BareAcceptIsClean(chain, Checked(r));
  }

  lemma NegationRead(ts: seq<Token>)
    requires |ts| >= 3 && ts[0].kind == Other && ts[0].text == BANG && ts[1].kind == Source
    ensures ReadLine(ts) != [] && ReadLine(ts)[0] == Test(true, SrcAddr, [ts[2].text])
  {
    assert ts[1..][0] == ts[1] && ts[1..][1] == ts[2];
  }

  lemma NegationParsed(bang: Token, source: Token, cidr: Token, jump: Token, target: Token)
    requires bang.kind == Other && source.kind == Source && jump.kind == Jump
    ensures ParseTokens([bang, source, cidr, jump, target], BLANK)
         == Assign(Assign(Warned(BLANK, "unrecognized token: " + bang.text), Source, cidr.text), Jump, target.text)
  {
    var ts := [bang, source, cidr, jump, target];
    var r1 := Warned(BLANK, "unrecognized token: " + bang.text);
    assert ts[1..] == [source, cidr, jump, target] && [source, cidr, jump, target][2..] == [jump, target];
    assert [jump, target][2..] == [];
    FromLost(ts, NoHandlers, BLANK);
    FromPlain([source, cidr, jump, target], NoHandlers, r1);
    FromPlain([jump, target], NoHandlers, Assign(r1, Source, cidr.text));
  }

  lemma BareAcceptIsClean(chain: string, r: Parsed)
    requires r.target == "ACCEPT" && r.inInterface == "" && r.outInterface == ""
    requires r.ipset == [] && r.states == [] && r.modules == []
    ensures Classify(chain, r) == Clean
  {
  }

  function SetTokens(name: string, dir: string): seq<Token> {
    [Token(Module, "-m"), Token(Other, "set"), Token(MatchSet, "--match-set"), Token(Other, name), Token(Other, dir)]
  }

  /** Two set matches in a row, as iptables-save prints them. */
  function DoubleSet(a: string, b: string): seq<Token> {
    SetTokens(a, "src") + (SetTokens(b, "dst") + [Token(Jump, "-j"), Token(Other, "ACCEPT")])
  }

  lemma SetStep(a: string, dir: string, ts: seq<Token>, h: Handlers, r: Parsed)
    requires ts != [] && EndsBlock(ts[0].kind)
    ensures var all := SetTokens(a, dir) + ts;
      && From(all, h, r) == From(ts, OfSet, WithModule(r, "set").(ipset := [a, dir]))
      && ReadLine(all) == [Test(false, Set, [a, dir])] + ReadLine(ts)
      && (Regular(ts, OfSet) ==> Regular(all, h))
  {
    var all := SetTokens(a, dir) + ts;
    var inner := all[2..];
    assert inner[0].kind == MatchSet && inner[1].text == a && inner[2].text == dir && inner[3..] == ts;
    assert HandlersOf("set") == OfSet;
    FromModule(all, h, r);
    FromHandled(inner, OfSet, WithModule(r, "set"));
  }

  lemma JumpStep(target: string, h: Handlers, r: Parsed)
    ensures var ts := [Token(Jump, "-j"), Token(Other, target)];
      && From(ts, h, r) == r.(target := target) && ReadLine(ts) == [Test(false, Verdict, [target])] && Regular(ts, h)
  {
    var ts := [Token(Jump, "-j"), Token(Other, target)];
    assert ts[2..] == [] && Rest1(ts) == [];
    FromPlain(ts, h, r);
  }

  /** How the parser and the line itself read it. */
  lemma DoubleSetRead(a: string, b: string)
    ensures var ts := DoubleSet(a, b);
      && Regular(ts, NoHandlers)
      && ReadLine(ts) == [Test(false, Set, [a, "src"])]
         + ([Test(false, Set, [b, "dst"])] + [Test(false, Verdict, ["ACCEPT"])])
      && ParseTokens(ts, BLANK) == BLANK.(ipset := [b, "dst"], modules := ["set", "set"], target := "ACCEPT")
  {
    var jump := [Token(Jump, "-j"), Token(Other, "ACCEPT")];
    var r1 := WithModule(BLANK, "set").(ipset := [a, "src"]);
    var r2 := WithModule(r1, "set").(ipset := [b, "dst"]);
    SetStep(a, "src", SetTokens(b, "dst") + jump, NoHandlers, BLANK);
    SetStep(b, "dst", jump, OfSet, r1);
    JumpStep("ACCEPT", OfSet, r2);
    assert [] + ["set"] + ["set"] == ["set", "set"];
  }

  lemma DifferentContents(t: Test, u: Test, tests: seq<Test>)
    requires t in tests && u in tests && t.Test? && Of(u, t.field) && !SameContent(t.field, Content(t), Content(u))
    ensures !Consistent(tests)
  {
  }

  /** Only the second set survives. The line is regular, draws no warning and is offered for import, which
      widens the rule. */
  lemma DoubleSetIsMisread(a: string, b: string, chain: string)
    requires a != b && !StartsWith(b, "runic_")
    ensures var ts := DoubleSet(a, b); var r := Checked(ParseTokens(ts, BLANK));
      && Regular(ts, NoHandlers) && !Consistent(ReadLine(ts)) && !Means(r, ReadLine(ts))
      && r.ipset == [b, "dst"] && r.warnings == [] && Classify(chain, r) == Clean
  {
    var ts := DoubleSet(a, b);
    DoubleSetRead(a, b);
    var r := ParseTokens(ts, BLANK);
    DoubleSetClean(chain, r, b);
    var t, u := Test(false, Set, [a, "src"]), Test(false, Set, [b, "dst"]);
    assert [a, "src"][0] == a && [b, "dst"][0] == b;
    DifferentContents(t, u, ReadLine(ts));
    if Means(r, ReadLine(ts)) { MeansReadable(ts, r); }
  }

  lemma DoubleSetClean(chain: string, r: Parsed, b: string)
    requires r == BLANK.(ipset := [b, "dst"], modules := ["set", "set"], target := "ACCEPT") && !StartsWith(b, "runic_")
    ensures Checked(r) == r && Classify(chain, r) == Clean
  {
    assert HandlersOf("set") == OfSet;
  }
}
