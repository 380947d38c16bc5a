/** Round trips of the switch tables: the text snmpwalk prints reads back as its rows, and a
    forwarding-table index decodes to the id and MAC address it was made from. */
module SwitchWalk {
  import opened Text
  import opened Wrappers
  import opened SwitchTable
  import TextLayout

  // ---- splitting what was joined ----

  lemma {:induction false} SplitFirst(a: string, c: char, b: string)
    requires c !in a
    ensures SplitAt(a + [c] + b, c) == [a] + SplitAt(b, c)
  {
    var s := a + [c] + b;
    if a == "" {
      assert s[1..] == b;
    } else {
      SplitFirst(a[1..], c, b);
      assert s[1..] == a[1..] + [c] + b && s[0] == a[0];
      assert [a[0]] + a[1..] == a;
    }
  }

  lemma {:induction false} SplitOne(a: string, c: char)
    requires c !in a
    ensures SplitAt(a, c) == [a]
  {
    if a != "" {
      SplitOne(a[1..], c);
      assert [a[0]] + a[1..] == a;
    }
  }

  lemma {:induction false} SplitJoin(parts: seq<string>, c: char)
    requires parts != [] && forall i :: 0 <= i < |parts| ==> c !in parts[i]
    ensures SplitAt(Join(parts, [c]), c) == parts
  {
    hide SplitAt;
    if |parts| == 1 {
      SplitOne(parts[0], c);
    } else {
      SplitJoin(parts[1..], c);
      SplitFirst(parts[0], c, Join(parts[1..], [c]));
      assert [parts[0]] + parts[1..] == parts;
    }
  }

  // ---- the index of dot1qTpFdbTable ----

  ghost predicate Octets(octets: seq<nat>) {
    |octets| == 6 && forall i :: 0 <= i < 6 ==> octets[i] < 256
  }

  function Decimals(octets: seq<nat>): (parts: seq<string>) {
    seq(|octets|, i requires 0 <= i < |octets| => Itoa(octets[i]))
  }

  /** The index: the forwarding database id, then the six octets of the MAC address. */
  function IndexText(id: nat, octets: seq<nat>): string {
    Join([Itoa(id)] + Decimals(octets), ".")
  }

  function HexTexts(octets: seq<nat>): seq<string>
    requires forall i :: 0 <= i < |octets| ==> octets[i] < 256
  {
    seq(|octets|, i requires 0 <= i < |octets| => Hex2(octets[i]))
  }

  function MacText(octets: seq<nat>): string
    requires Octets(octets)
  {
    Join(HexTexts(octets), ":")
  }

  lemma AtoiItoa(n: nat)
    requires n < INT_LIMIT
    ensures Atoi(Itoa(n)) == Some(n)
  {
    ValueItoa(n);
    assert IsDigit(Itoa(n)[0]);
  }

  lemma {:induction false} HexPartsDecimals(octets: seq<nat>)
    requires forall i :: 0 <= i < |octets| ==> octets[i] < 256
    ensures HexParts(Decimals(octets)) == Some(HexTexts(octets))
  {
    hide Atoi, Hex2, Itoa;
    if octets != [] {
      var n := |octets| - 1;
      HexPartsDecimals(octets[..n]);
      assert Decimals(octets)[..n] == Decimals(octets[..n]);
      assert HexTexts(octets) == HexTexts(octets[..n]) + [Hex2(octets[n])];
      AtoiItoa(octets[n]);
    }
  }

  lemma DigitsOnly(s: string, c: char)
    requires AllDigits(s) && !IsDigit(c)
    ensures c !in s
  {
  }

  /** Decoding a printed index gives back the id and the MAC address. */
  lemma IndexDecodes(id: nat, octets: seq<nat>)
    requires Octets(octets)
    ensures Decode(IndexText(id, octets)) == Some((MacText(octets), Itoa(id)))
  {
    hide Itoa, HexParts, HexTexts, SplitAt;
    var parts := [Itoa(id)] + Decimals(octets);
    forall i | 0 <= i < |parts| ensures '.' !in parts[i] {
      DigitsOnly(parts[i], '.');
    }
    SplitJoin(parts, '.');
    HexPartsDecimals(octets);
    assert parts[|parts| - 6..] == Decimals(octets);
    assert parts[..|parts| - 6] == [Itoa(id)];
  }

  lemma HexDigitsDiffer(a: nat, b: nat)
    requires a < 16 && b < 16 && HexDigit(a) == HexDigit(b)
    ensures a == b
  {
    HexDigitIs(a);
    HexDigitIs(b);
  }

  lemma HexDigitIs(a: nat)
    requires a < 16
    ensures HexDigit(a) as int == if a < 10 then '0' as int + a else 'a' as int + a - 10
  {
  }

  lemma HexTextDiffers(a: nat, b: nat)
    requires a < 256 && b < 256 && Hex2(a) == Hex2(b)
    ensures a == b
  {
    hide HexDigit;
    assert Hex2(a)[0] == Hex2(b)[0] && Hex2(a)[1] == Hex2(b)[1];
    HexDigitsDiffer(a / 16, b / 16);
    HexDigitsDiffer(a % 16, b % 16);
  }

  /** No two MAC addresses have the same text. */
  lemma MacTextDiffers(a: seq<nat>, b: seq<nat>)
    requires Octets(a) && Octets(b) && MacText(a) == MacText(b)
    ensures a == b
  {
    hide SplitAt, Join;
    NoColons(a);
    NoColons(b);
    SplitJoin(HexTexts(a), ':');
    SplitJoin(HexTexts(b), ':');
    forall i | 0 <= i < 6 ensures a[i] == b[i] {
      assert HexTexts(a)[i] == HexTexts(b)[i];
      HexTextDiffers(a[i], b[i]);
    }
  }

  lemma NoColons(a: seq<nat>)
    requires Octets(a)
    ensures forall i :: 0 <= i < 6 ==> ':' !in HexTexts(a)[i]
  {
    hide HexDigit;
    forall i | 0 <= i < 6 ensures ':' !in HexTexts(a)[i] {
      HexDigitIs(a[i] / 16);
      HexDigitIs(a[i] % 16);
    }
  }

  /** Different entries of the forwarding table give different places. */
  lemma IndexesDiffer(id: nat, octets: seq<nat>, id2: nat, octets2: seq<nat>)
    requires Octets(octets) && Octets(octets2) && Decode(IndexText(id, octets)) == Decode(IndexText(id2, octets2))
    ensures id == id2 && octets == octets2
  {
    hide Itoa, MacText, Decode;
    IndexDecodes(id, octets);
    IndexDecodes(id2, octets2);
    MacTextDiffers(octets, octets2);
    ValueItoa(id);
    ValueItoa(id2);
  }

  // ---- snmpwalk -On output ----

  datatype Row = Row(key: string, kind: string, value: string, quoted: bool)

  function Printed(row: Row): string {
    if row.quoted then ['"'] + row.value + ['"'] else row.value
  }

  function RowLine(base: string, row: Row): string {
    base + "." + row.key + " = " + (row.kind + ":" + (" " + Printed(row)))
  }

  function Walk(base: string, rows: seq<Row>): string {
    if rows == [] then "" else RowLine(base, rows[0]) + ['\n'] + Walk(base, rows[1..])
  }

  function RowsTable(rows: seq<Row>): map<string, string> {
    if rows == [] then map[] else RowsTable(rows[..|rows| - 1])[rows[|rows| - 1].key := rows[|rows| - 1].value]
  }

  /** A value whose ends are neither white space nor quotes, and which is not the agent's note that
      there is none. */
  ghost predicate PlainValue(v: string) {
    && v != "" && !TextLayout.IsSpace(v[0]) && !TextLayout.IsSpace(v[|v| - 1]) && v[0] != '"' && v[|v| - 1] != '"'
    && !HasPrefix(v, "No Such") && '\n' !in v
  }

  ghost predicate PlainRow(row: Row) {
    && ' ' !in row.key && '\n' !in row.key && ':' !in row.kind && '\n' !in row.kind && PlainValue(row.value)
  }

  ghost predicate PlainBase(base: string) {
    base != "" && !TextLayout.IsSpace(base[0]) && ' ' !in base && '\n' !in base
  }

  lemma CutSkips(s: string, sep: string)
    requires sep != "" && |s| >= |sep| && s[0] != sep[0] && CutAt(s[1..], sep).Some?
    ensures CutAt(s, sep) == Some(([s[0]] + CutAt(s[1..], sep).value.0, CutAt(s[1..], sep).value.1))
  {
    assert s[..|sep|][0] == s[0];
  }

  lemma {:induction false} CutFound(a: string, sep: string, b: string)
    requires sep != "" && sep[0] !in a
    ensures CutAt(a + sep + b, sep) == Some((a, b))
  {
    var s := a + sep + b;
    if a == "" {
      assert s[..|sep|] == sep && s[|sep|..] == b;
    } else {
      hide CutAt;
      CutFound(a[1..], sep, b);
      RegroupFirst(a, sep, b);
      CutSkips(s, sep);
    }
  }

  lemma RegroupFirst(a: string, sep: string, b: string)
    requires a != ""
    ensures var s := a + sep + b; |s| >= |sep| + 1 && s[0] == a[0] && s[1..] == a[1..] + sep + b && [a[0]] + a[1..] == a
  {
  }

  lemma {:induction false} ColonFound(a: string, b: string)
    requires ':' !in a
    ensures AfterColon(a + ":" + b) == b
  {
    var s := a + ":" + b;
    assert s[|a|] == ':';
    if a != "" {
      ColonFound(a[1..], b);
      assert s[1..] == a[1..] + ":" + b && s[0] == a[0];
      assert s[1..][|a| - 1] == ':';
    }
  }

  lemma BlankTrimmed(v: string)
    requires v != "" && !TextLayout.IsSpace(v[0]) && !TextLayout.IsSpace(v[|v| - 1])
    ensures TextLayout.TrimSpace(" " + v) == v
  {
    var s := " " + v;
    assert s[|s| - 1] == v[|v| - 1];
    assert TextLayout.TrimEnd(s) == s;
    assert s[1..] == v;
    assert TextLayout.TrimStart(v) == v;
  }

  lemma QuotesTrimmed(row: Row)
    requires PlainValue(row.value)
    ensures TrimQuotes(Printed(row)) == row.value
  {
    var v := row.value;
    assert QuotesEnd(v) == v && QuotesStart(v) == v;
    if row.quoted {
      var s := ['"'] + v + ['"'];
      assert s[..|s| - 1] == ['"'] + v;
      assert QuotesEnd(['"'] + v) == ['"'] + v by {
        assert (['"'] + v)[|v|] == v[|v| - 1];
      }
      assert (['"'] + v)[1..] == v;
    }
  }

  lemma LineEnds(base: string, row: Row)
    requires PlainBase(base) && PlainRow(row)
    ensures TextLayout.TrimSpace(RowLine(base, row)) == RowLine(base, row)
  {
    hide TextLayout.TrimSpace, HasPrefix;
    var line, shown := RowLine(base, row), Printed(row);
    assert shown != "" && line[|line| - 1] == shown[|shown| - 1] && line[0] == base[0];
    TextLayout.NothingToTrim(line);
  }

  lemma RegroupLine(base: string, key: string, rest: string)
    ensures var line := base + "." + key + " = " + rest;
            line == (base + "." + key) + " = " + rest && line[..|base| + 1] == base + "."
    ensures (base + "." + key)[..|base| + 1] == base + "." && (base + "." + key)[|base| + 1..] == key
  {
  }

  /** A printed row reads back. */
  lemma LineReads(base: string, row: Row)
    requires PlainBase(base) && PlainRow(row)
    ensures ParseLine(RowLine(base, row), base) == Some((row.key, row.value))
  {
    hide CutAt, AfterColon, TrimQuotes, TextLayout.TrimSpace;
    var shown := Printed(row);
    var rest := row.kind + ":" + (" " + shown);
    LineEnds(base, row);
    RegroupLine(base, row.key, rest);
    NoBlank(base, row.key);
    CutFound(base + "." + row.key, " = ", rest);
    ColonFound(row.kind, " " + shown);
    BlankTrimmed(shown);
    QuotesTrimmed(row);
  }

  lemma NoBlank(base: string, key: string)
    requires ' ' !in base && ' ' !in key
    ensures ' ' !in base + "." + key
  {
  }

  lemma NoNewline(base: string, row: Row)
    requires PlainBase(base) && PlainRow(row)
    ensures '\n' !in RowLine(base, row)
  {
    hide HasPrefix;
  }

  function Lines(base: string, rows: seq<Row>): seq<string> {
    seq(|rows|, i requires 0 <= i < |rows| => RowLine(base, rows[i]))
  }

  lemma {:induction false} WalkSplits(base: string, rows: seq<Row>)
    requires PlainBase(base) && forall i :: 0 <= i < |rows| ==> PlainRow(rows[i])
    ensures SplitAt(Walk(base, rows), '\n') == Lines(base, rows) + [""]
  {
    hide RowLine, PlainRow;
    if rows != [] {
      WalkSplits(base, rows[1..]);
      NoNewline(base, rows[0]);
      SplitFirst(RowLine(base, rows[0]), '\n', Walk(base, rows[1..]));
      assert [RowLine(base, rows[0])] + Lines(base, rows[1..]) == Lines(base, rows);
    }
  }

  lemma {:induction false} LinesRead(base: string, rows: seq<Row>)
    requires PlainBase(base) && forall i :: 0 <= i < |rows| ==> PlainRow(rows[i])
    ensures TableOf(Lines(base, rows), base) == RowsTable(rows)
  {
    hide RowLine, PlainRow, ParseLine;
    if rows != [] {
      var n := |rows| - 1;
      LinesRead(base, rows[..n]);
      LineReads(base, rows[n]);
      assert Lines(base, rows)[..n] == Lines(base, rows[..n]);
    }
  }

  /** parseSNMPTable reads back exactly the rows that were printed. */
  lemma WalkReads(base: string, rows: seq<Row>)
    requires PlainBase(base) && forall i :: 0 <= i < |rows| ==> PlainRow(rows[i])
    ensures TableOf(SplitAt(Walk(base, rows), '\n'), base) == RowsTable(rows)
  {
    hide RowLine, PlainRow, RowsTable, Lines;
    WalkSplits(base, rows);
    LinesRead(base, rows);
    EmptyLine(base);
    assert (Lines(base, rows) + [""])[..|Lines(base, rows)|] == Lines(base, rows);
  }

  lemma EmptyLine(base: string)
    ensures ParseLine("", base) == None
  {
  }

  /** A number keeps its text. */
  lemma FirstNumberKeeps(s: string)
    requires s != "" && AllDigits(s)
    ensures FirstNumber(s) == s
  {
    hide Atoi;
    assert TextLayout.TrimStart(s) == s && TextLayout.TrimStart("") == "";
    TextLayout.NothingToTrim(s);
    assert TextLayout.WordEnd(s) == |s|;
    assert s[|s|..] == "" && s[..|s|] == s;
    assert TextLayout.Fields(s) == [s] + TextLayout.Fields("") && TextLayout.Fields("") == [];
    assert [s][1..] == [] && FirstAmong([s], s) == s;
  }

  const FDB_BASE := ".1.3.6.1.2.1.17.7.1.2.2.1.2"
  const PORT_BASE := ".1.3.6.1.2.1.17.1.4.1.2"
  const NAME_BASE := ".1.3.6.1.2.1.31.1.1.1.1"

  lemma BasesPlain()
    ensures PlainBase(FDB_BASE) && PlainBase(PORT_BASE) && PlainBase(NAME_BASE)
  {
  }

  /** From the text of three walks to the place of one learned address. */
  lemma WalkLocates(id: nat, octets: seq<nat>, fdbRows: seq<Row>, portRows: seq<Row>, nameRows: seq<Row>)
    requires Octets(octets) && IndexText(id, octets) in RowsTable(fdbRows)
    requires forall i :: 0 <= i < |fdbRows| ==> PlainRow(fdbRows[i])
    requires forall i :: 0 <= i < |portRows| ==> PlainRow(portRows[i])
    requires forall i :: 0 <= i < |nameRows| ==> PlainRow(nameRows[i])
    ensures var fdb := TableOf(SplitAt(Walk(FDB_BASE, fdbRows), '\n'), FDB_BASE);
            var ports := TableOf(SplitAt(Walk(PORT_BASE, portRows), '\n'), PORT_BASE);
            var names := TableOf(SplitAt(Walk(NAME_BASE, nameRows), '\n'), NAME_BASE);
            var index := IndexText(id, octets);
            var port := FirstNumber(RowsTable(fdbRows)[index]);
            var ifIndex := FirstNumber(Lookup(RowsTable(portRows), port));
      && index in fdb
      && Locate(index, fdb[index], ports, names)
         == Some(Location(MacText(octets), Itoa(id), port, ifIndex, Lookup(RowsTable(nameRows), ifIndex)))
  {
    hide Walk, TableOf, SplitAt, RowsTable, IndexText, Decode, FirstNumber, Lookup, MacText, Itoa, PlainBase, PlainRow;
    hide FDB_BASE, PORT_BASE, NAME_BASE;
    BasesPlain();
    WalkReads(FDB_BASE, fdbRows);
    WalkReads(PORT_BASE, portRows);
    WalkReads(NAME_BASE, nameRows);
    IndexDecodes(id, octets);
  }
}
