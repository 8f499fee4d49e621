/** What a port list means: decimal numbers, ranges and unions of them. */
module PortMeaning {
  import opened PortText
  import opened IptParse

  /** The usual decimal text of a number. */
  function Decimal(n: nat): (s: string)
    ensures s != "" && forall i :: 0 <= i < |s| ==> IsDigit(s[i])
  {
    var digit := [('0' as nat + n % 10) as char];
    if n < 10 then digit else Decimal(n / 10) + digit
  }

  lemma {:induction false} NumberOfDecimal(n: nat)
    ensures Number(Decimal(n)) == n
  {
    var s := Decimal(n);
    var last := |s| - 1;
    assert s[last] as nat - '0' as nat == n % 10;
    if n < 10 {
      assert s[..last] == "";
    } else {
      NumberOfDecimal(n / 10);
      assert s[..last] == Decimal(n / 10);
    }
  }

  lemma DecimalIsPlain(n: nat)
    ensures ',' !in Decimal(n) && ':' !in Decimal(n)
  {
    forall i | 0 <= i < |Decimal(n)| ensures Decimal(n)[i] != ',' && Decimal(n)[i] != ':' {
      assert IsDigit(Decimal(n)[i]);
    }
  }

  lemma CoversSegment(seg: string, port: nat)
    requires ',' !in seg
    ensures Covers(seg, port) <==> Low(seg) <= port <= High(seg)
  {
    SplitPlain(seg, ',');
    assert seg in [seg];
  }

  /** A number covers itself. */
  lemma CoversNumber(n: nat, port: nat)
    ensures Covers(Decimal(n), port) <==> port == n
  {
    DecimalIsPlain(n);
    NumberOfDecimal(n);
    SplitPlain(Decimal(n), ':');
    CoversSegment(Decimal(n), port);
  }

  lemma {:induction false} SplitOnce(a: string, sep: char, b: string)
    requires sep !in a
    ensures Split(a + [sep] + b, sep) == [a] + Split(b, sep)
  {
    var s := a + [sep] + b;
    if a == "" {
      assert s[0] == sep && s[1..] == b;
    } else {
      assert s[0] == a[0] && s[1..] == a[1..] + [sep] + b;
      SplitOnce(a[1..], sep, b);
      assert [a[0]] + a[1..] == a;
    }
  }

  /** A range covers what lies between its ends. */
  lemma CoversRange(lo: nat, hi: nat, port: nat)
    ensures Covers(Decimal(lo) + [':'] + Decimal(hi), port) <==> lo <= port <= hi
  {
    var seg := Decimal(lo) + [':'] + Decimal(hi);
    DecimalIsPlain(lo);
    DecimalIsPlain(hi);
    SplitOnce(Decimal(lo), ':', Decimal(hi));
    SplitPlain(Decimal(hi), ':');
    NumberOfDecimal(lo);
    NumberOfDecimal(hi);
    CoversSegment(seg, port);
  }

  /** A list covers what its parts cover. */
  lemma CoversList(seg: string, list: string, port: nat)
    requires ',' !in seg
    ensures Covers(seg + [','] + list, port) <==> Covers(seg, port) || Covers(list, port)
  {
    var all := seg + [','] + list;
    SplitOnce(seg, ',', list);
    SplitPlain(seg, ',');
    assert Split(all, ',') == [seg] + Split(list, ',');
    assert seg in [seg];
    if s :| s in Split(list, ',') && Low(s) <= port <= High(s) { assert s in Split(all, ','); }
  }
}
