/** Reading back what the serializer wrote gives the pages it was given. */
module PdfProof {
  import opened Text
  import opened Wrappers
  import opened PdfFile
  import opened PdfReader

  lemma Split(f: string, i: nat, s: string, t: string)
    requires HasAt(f, i, s + t)
    ensures HasAt(f, i, s) && HasAt(f, i + |s|, t)
  {
    assert s == (s + t)[..|s|] && t == (s + t)[|s|..];
  }

  lemma Within(f: string, i: nat, s: string, j: nat, t: string)
    requires HasAt(f, i, s) && HasAt(s, j, t)
    ensures HasAt(f, i + j, t)
  {
    forall k | 0 <= k < |t| ensures f[i + j + k] == t[k] {
      assert f[i + j + k] == f[i..i + |s|][j + k] && t[k] == s[j..j + |t|][k];
    }
  }

  lemma ExpectReads(f: string, i: nat, s: string, t: string)
    requires HasAt(f, i, s + t)
    ensures Expect(f, i, s) == Some(i + |s|) && HasAt(f, i + |s|, t)
  {
    Split(f, i, s, t);
  }

  lemma Middle(a: string, b: string, c: string)
    ensures HasAt(a + b + c, |a|, b)
  {
  }

  lemma {:induction false} DigitsStop(f: string, i: nat, s: string)
    requires HasAt(f, i, s) && AllDigits(s)
    requires i + |s| < |f| && !IsDigit(f[i + |s|])
    ensures DigitsEnd(f, i) == i + |s|
    decreases |s|
  {
    if s != [] {
      assert s == [s[0]] + s[1..] && f[i] == s[0];
      Split(f, i, [s[0]], s[1..]);
      DigitsStop(f, i + 1, s[1..]);
    }
  }

  /** A printed number followed by a literal that starts with no digit is read back. */
  lemma NatReads(f: string, i: nat, n: nat, t: string)
    requires HasAt(f, i, Itoa(n) + t) && t != [] && !IsDigit(t[0])
    ensures ReadNat(f, i) == Some((n, i + |Itoa(n)|)) && HasAt(f, i + |Itoa(n)|, t)
  {
    Split(f, i, Itoa(n), t);
    assert f[i + |Itoa(n)|] == t[0];
    DigitsStop(f, i, Itoa(n));
    ValueItoa(n);
  }

  lemma RefReads(f: string, i: nat, n: nat, t: string)
    requires HasAt(f, i, Ref(n) + t)
    ensures ReadRef(f, i) == Some((n, i + |Ref(n)|)) && HasAt(f, i + |Ref(n)|, t)
  {
    assert Ref(n) + t == Itoa(n) + (" 0 R" + t);
    NatReads(f, i, n, " 0 R" + t);
    Split(f, i + |Itoa(n)|, " 0 R", t);
  }

  lemma {:induction false} DigitsStartStops(f: string, i: nat, s: string)
    requires |s| < i <= |f| && f[i - |s|..i] == s && AllDigits(s) && !IsDigit(f[i - |s| - 1])
    ensures DigitsStart(f, i) == i - |s|
    decreases |s|
  {
    if s != [] {
      assert f[i - 1] == s[|s| - 1];
      assert f[i - |s|..i - 1] == s[..|s| - 1];
      DigitsStartStops(f, i - 1, s[..|s| - 1]);
    }
  }

  lemma {:induction false} EntriesLength(objects: seq<string>, n: nat)
    requires n <= |objects| && Addressable(objects)
    ensures |Entries(objects, n)| == 20 * n
  {
    hide Entry, Offset;
    if n > 0 {
      EntriesLength(objects, n - 1);
      EntryWidth(Offset(objects, n - 1));
    }
  }

  lemma {:induction false} EntryAt(objects: seq<string>, n: nat, k: nat)
    requires k < n <= |objects| && Addressable(objects)
    ensures HasAt(Entries(objects, n), 20 * k, Entry(Offset(objects, k)))
  {
    hide Entry, Addressable, HasAt;
    EntriesLength(objects, n - 1);
    var front, last := Entries(objects, n - 1), Entry(Offset(objects, n - 1));
    Begins(front, last);
    EndsWith(front, last);
    if k < n - 1 {
      EntryAt(objects, n - 1, k);
      Within(Entries(objects, n), 0, Entries(objects, n - 1), 20 * k, Entry(Offset(objects, k)));
    }
  }

  lemma {:induction false} ObjectAt(objects: seq<string>, k: nat)
    requires k < |objects|
    ensures HasAt(HEADER + Body(objects), Offset(objects, k), Indirect(k + 1, objects[k]))
  {
    var front := objects[..|objects| - 1];
    if k < |front| {
      ObjectAt(front, k);
      assert front[..k] == objects[..k];
      Within(HEADER + Body(objects), 0, HEADER + Body(front), Offset(objects, k), Indirect(k + 1, objects[k]));
    } else {
      assert objects[..k] == front;
    }
  }

  /** Where the writer puts the rows of the table. */
  function TableOf(objects: seq<string>): Table {
    Table(|objects| + 1, Offset(objects, |objects|) + |"xref\n0 "| + |Itoa(|objects| + 1)| + 1)
  }

  lemma XrefAt(objects: seq<string>)
    ensures HasAt(FileOf(objects), Offset(objects, |objects|), Xref(objects)
            + Trailer(|objects| + 1, Offset(objects, |objects|)))
  {
    assert objects[..|objects|] == objects;
    Middle(HEADER + Body(objects), Xref(objects) + Trailer(|objects| + 1, Offset(objects, |objects|)), "");
    assert FileOf(objects) == FileOf(objects) + "";
  }

  lemma LastByte(f: string, i: nat, s: string)
    requires HasAt(f, i, s) && s != []
    ensures f[i + |s| - 1] == s[|s| - 1]
  {
    assert f[i..i + |s|][|s| - 1] == f[i + |s| - 1];
  }

  lemma StartXrefReads(f: string, front: string, x: nat)
    requires f == front + ("startxref\n" + (Itoa(x) + "\n%%EOF\n"))
    ensures StartXref(f) == Some(x)
  {
    hide HasAt, Itoa, Value, DigitsStart;
    var i := |front|;
    EndsWith(front, "startxref\n" + (Itoa(x) + "\n%%EOF\n"));
    Split(f, i, "startxref\n", Itoa(x) + "\n%%EOF\n");
    Split(f, i + 10, Itoa(x), "\n%%EOF\n");
    LastByte(f, i, "startxref\n");
    NameTaken(f, i + 10, Itoa(x), "\n%%EOF\n");
    DigitsStartStops(f, |f| - 7, Itoa(x));
    ValueItoa(x);
  }

  /** Section 7.5.5: startxref holds the offset of the keyword xref. */
  lemma StartXrefFound(objects: seq<string>)
    ensures StartXref(FileOf(objects)) == Some(Offset(objects, |objects|))
  {
    var x := Offset(objects, |objects|);
    TrailerSplits(|objects| + 1, x);
    var lead := "trailer\n<< /Size " + (Itoa(|objects| + 1) + " /Root 1 0 R >>\n");
    var tail := "startxref\n" + (Itoa(x) + "\n%%EOF\n");
    var a, b := HEADER + Body(objects), Xref(objects);
    assert a + (b + (lead + tail)) == a + (b + lead) + tail;
    StartXrefReads(FileOf(objects), a + (b + lead), x);
  }

  lemma TrailerLiterals()
    ensures " /Root 1 0 R >>\nstartxref\n" == " /Root 1 0 R >>\n" + "startxref\n"
    ensures " /Root 1 0 R >>\nstartxref\n" == " /Root " + ("1 0 R" + " >>\nstartxref\n")
  {
  }

  lemma TrailerSplits(n: nat, x: nat)
    ensures Trailer(n, x) == "trailer\n<< /Size " + (Itoa(n) + " /Root 1 0 R >>\n")
            + ("startxref\n" + (Itoa(x) + "\n%%EOF\n"))
    ensures Trailer(n, x) == "trailer\n<< /Size "
            + (Itoa(n) + (" /Root " + (Ref(1) + (" >>\nstartxref\n" + (Itoa(x) + "\n%%EOF\n")))))
  {
    assert Ref(1) == "1 0 R";
    hide Itoa, Ref;
    var a, b := Itoa(n), Itoa(x) + "\n%%EOF\n";
    TrailerLiterals();
    TrailerRegroups("trailer\n<< /Size ", a, " /Root 1 0 R >>\n", "startxref\n", b);
    TrailerRegroups2(" /Root ", "1 0 R", " >>\nstartxref\n", b);
  }

  lemma Regroup(a: string, b: string, c: string, d: string, t: string)
    ensures a + (b + (c + d)) + t == a + (b + (c + (d + t)))
  {
  }

  lemma TrailerRegroups(a: string, b: string, c: string, d: string, e: string)
    ensures a + (b + (c + d + e)) == a + (b + c) + (d + e)
  {
  }

  lemma TrailerRegroups2(a: string, b: string, c: string, d: string)
    ensures a + (b + c) + d == a + (b + (c + d))
  {
  }

  lemma TableReads(f: string, x: nat, n: nat, rows: string)
    requires StartXref(f) == Some(x) && HasAt(f, x, "xref\n0 " + (Itoa(n) + ("\n" + rows)))
    ensures ReadTable(f) == Some(Table(n, x + 7 + |Itoa(n)| + 1))
    ensures HasAt(f, x + 7 + |Itoa(n)| + 1, rows)
  {
    hide HasAt, Itoa, ReadNat, StartXref;
    var j := FieldReads(f, x, "xref\n0 ", n, "\n" + rows);
    ExpectReads(f, j, "\n", rows);
  }

  function Rows(objects: seq<string>): string {
    FREE_ENTRY + Entries(objects, |objects|)
  }

  lemma TableFound(objects: seq<string>)
    ensures ReadTable(FileOf(objects)) == Some(TableOf(objects))
    ensures HasAt(FileOf(objects), TableOf(objects).start, Rows(objects)
            + Trailer(|objects| + 1, Offset(objects, |objects|)))
  {
    hide HasAt, Itoa, Trailer, Body, Entries, FileOf;
    var x, n := Offset(objects, |objects|), |objects| + 1;
    var t := Trailer(n, x);
    StartXrefFound(objects);
    XrefAt(objects);
    Regroup("xref\n0 ", Itoa(n), "\n", Rows(objects), t);
    TableReads(FileOf(objects), x, n, Rows(objects) + t);
  }

  /** A literal, a number, and what follows them. */
  lemma FieldReads(f: string, i: nat, literal: string, n: nat, t: string) returns (next: nat)
    requires HasAt(f, i, literal + (Itoa(n) + t)) && t != [] && !IsDigit(t[0])
    ensures Expect(f, i, literal) == Some(i + |literal|)
    ensures ReadNat(f, i + |literal|) == Some((n, next)) && next == i + |literal| + |Itoa(n)|
    ensures HasAt(f, next, t)
  {
    ExpectReads(f, i, literal, Itoa(n) + t);
    NatReads(f, i + |literal|, n, t);
    next := i + |literal| + |Itoa(n)|;
  }

  /** A literal, a reference, and what follows them. */
  lemma RefFieldReads(f: string, i: nat, literal: string, n: nat, t: string) returns (next: nat)
    requires HasAt(f, i, literal + (Ref(n) + t))
    ensures Expect(f, i, literal) == Some(i + |literal|)
    ensures ReadRef(f, i + |literal|) == Some((n, next))
    ensures HasAt(f, next, t)
  {
    ExpectReads(f, i, literal, Ref(n) + t);
    RefReads(f, i + |literal|, n, t);
    next := i + |literal| + |Ref(n)|;
  }

  lemma RootReads(f: string, table: Table, i: nat, end: string)
    requires i == table.start + 20 * table.size
    requires HasAt(f, i, "trailer\n<< /Size "
            + (Itoa(table.size) + (" /Root " + (Ref(1) + (" >>\nstartxref\n" + end)))))
    ensures ReadRoot(f, table) == Some(1)
  {
    hide HasAt, Itoa, Ref, Expect, ReadRef, ReadNat;
    var j := FieldReads(f, i, "trailer\n<< /Size ", table.size, " /Root " + (Ref(1) + (" >>\nstartxref\n" + end)));
    var k := RefFieldReads(f, j, " /Root ", 1, " >>\nstartxref\n" + end);
    ExpectReads(f, k, " >>\nstartxref\n", end);
  }

  lemma RowsFound(objects: seq<string>)
    requires Addressable(objects)
    ensures |Rows(objects)| == 20 * (|objects| + 1)
    ensures HasAt(FileOf(objects), TableOf(objects).start, Rows(objects))
    ensures HasAt(FileOf(objects), TableOf(objects).start + 20 * (|objects| + 1),
            Trailer(|objects| + 1, Offset(objects, |objects|)))
  {
    hide HasAt, FileOf, Trailer, Entries, Itoa, Body, Addressable;
    EntriesLength(objects, |objects|);
    TableFound(objects);
    Split(FileOf(objects), TableOf(objects).start, Rows(objects), Trailer(|objects| + 1, Offset(objects, |objects|)));
  }

  lemma RootFound(objects: seq<string>)
    requires Addressable(objects)
    ensures ReadRoot(FileOf(objects), TableOf(objects)) == Some(1)
  {
    hide HasAt, FileOf, Itoa, Ref, Rows, ReadRoot, Addressable;
    RowsFound(objects);
    var table := TableOf(objects);
    TrailerSplits(table.size, Offset(objects, |objects|));
    RootReads(FileOf(objects), table, table.start + 20 * table.size, Itoa(Offset(objects, |objects|)) + "\n%%EOF\n");
  }

  lemma LocateReads(f: string, table: Table, number: nat, offset: nat, content: string)
    requires 1 <= number < table.size && offset < TEN_DIGITS
    requires HasAt(f, table.start + 20 * number, Entry(offset))
    requires HasAt(f, offset, Indirect(number, content))
    ensures Locate(f, table, number) == Some(offset + |Itoa(number)| + 7)
    ensures HasAt(f, offset + |Itoa(number)| + 7, content + "\nendobj\n")
  {
    hide HasAt, Itoa, Value, Pad;
    var row := table.start + 20 * number;
    EntryWidth(offset);
    ExpectReads(f, row, Pad(offset, 10), " 00000 n \n");
    assert " 00000 n \n" + "" == " 00000 n \n";
    ExpectReads(f, row + 10, " 00000 n \n", "");
    NameTaken(f, row, Pad(offset, 10), " 00000 n \n");
    ValuePad(offset, 10);
    assert Indirect(number, content) == Itoa(number) + " 0 obj\n" + (content + "\nendobj\n");
    ExpectReads(f, offset, Itoa(number) + " 0 obj\n", content + "\nendobj\n");
  }

  lemma EndsWith(a: string, b: string)
    ensures HasAt(a + b, |a|, b)
  {
  }

  lemma Begins(a: string, b: string)
    ensures HasAt(a + b, 0, a)
  {
  }

  lemma Prefixes(objects: seq<string>)
    ensures HasAt(Rows(objects), 20, Entries(objects, |objects|))
    ensures HasAt(FileOf(objects), 0, HEADER + Body(objects))
  {
    EndsWith(FREE_ENTRY, Entries(objects, |objects|));
    Begins(HEADER + Body(objects), Xref(objects) + Trailer(|objects| + 1, Offset(objects, |objects|)));
  }

  function ContentAt(objects: seq<string>, number: nat): nat
    requires 1 <= number <= |objects|
  {
    Offset(objects, number - 1) + |Itoa(number)| + 7
  }

  /** Section 7.5.4: row k leads exactly to the bytes of object k. */
  lemma ObjectFound(objects: seq<string>, number: nat)
    requires Addressable(objects) && 1 <= number <= |objects|
    ensures Locate(FileOf(objects), TableOf(objects), number) == Some(ContentAt(objects, number))
    ensures HasAt(FileOf(objects), ContentAt(objects, number), objects[number - 1] + "\nendobj\n")
  {
    hide HasAt, Itoa, Body, Entries, FileOf, Entry, Offset, Locate;
    var f, table, offset := FileOf(objects), TableOf(objects), Offset(objects, number - 1);
    RowsFound(objects);
    Prefixes(objects);
    EntryAt(objects, |objects|, number - 1);
    Within(Rows(objects), 20, Entries(objects, |objects|), 20 * (number - 1), Entry(offset));
    Within(f, table.start, Rows(objects), 20 * number, Entry(offset));
    ObjectAt(objects, number - 1);
    Within(f, 0, HEADER + Body(objects), offset, Indirect(number, objects[number - 1]));
    LocateReads(f, table, number, offset, objects[number - 1]);
  }

  lemma KidsJoin(kids: seq<string>, t: string)
    requires kids != []
    ensures Join(kids, " ") + t == kids[0] + ((if |kids| == 1 then "" else " " + Join(kids[1..], " ")) + t)
  {
    hide Join;
    JoinUnfolds(kids);
    if |kids| == 1 {
      assert "" + t == t;
    } else {
      Regroup3(kids[0], " ", Join(kids[1..], " "), t);
    }
  }

  lemma JoinUnfolds(kids: seq<string>)
    requires kids != []
    ensures Join(kids, " ") == if |kids| == 1 then kids[0] else kids[0] + " " + Join(kids[1..], " ")
  {
  }

  lemma Regroup3(a: string, b: string, c: string, t: string)
    ensures a + b + c + t == a + (b + c + t)
  {
  }

  /** The references of the page tree, from the one of page k on. */
  lemma {:induction false} RefsRead(f: string, i: nat, count: nat, k: nat, t: string)
    requires k < count && HasAt(f, i, Join(Kids(count)[k..], " ") + ("]" + t))
    ensures ReadRefs(f, i).Some? && ReadRefs(f, i).value.0 == seq(count - k, j requires 0 <= j => PageNumber(k + j))
    ensures HasAt(f, ReadRefs(f, i).value.1, t)
    decreases count - k
  {
    hide HasAt, Itoa, Ref, Expect, ReadRef;
    var kids := Kids(count)[k..];
    assert kids[0] == Ref(PageNumber(k)) && kids[1..] == Kids(count)[k + 1..];
    KidsJoin(kids, "]" + t);
    if |kids| == 1 {
      var rest := "" + ("]" + t);
      RefReads(f, i, PageNumber(k), rest);
      NotBracket(f, i, PageNumber(k), rest);
      assert rest == "]" + t;
      LastRef(f, i + |Ref(PageNumber(k))|, t);
    } else {
      var rest := " " + Join(kids[1..], " ") + ("]" + t);
      RefReads(f, i, PageNumber(k), rest);
      NotBracket(f, i, PageNumber(k), rest);
      assert rest == " " + (Join(kids[1..], " ") + ("]" + t));
      ExpectReads(f, i + |Ref(PageNumber(k))|, " ", Join(kids[1..], " ") + ("]" + t));
      Split(f, i + |Ref(PageNumber(k))|, " ", Join(kids[1..], " ") + ("]" + t));
      RefsRead(f, i + |Ref(PageNumber(k))| + 1, count, k + 1, t);
    }
    assert [PageNumber(k)] + seq(count - k - 1, j requires 0 <= j => PageNumber(k + 1 + j))
        == seq(count - k, j requires 0 <= j => PageNumber(k + j));
  }

  lemma NotBracket(f: string, i: nat, n: nat, t: string)
    requires HasAt(f, i, Ref(n) + t)
    ensures !HasAt(f, i, "]")
  {
    Split(f, i, Ref(n), t);
    assert f[i] == Ref(n)[0] && IsDigit(Ref(n)[0]);
    assert f[i..i + 1] == [f[i]];
  }

  lemma LastRef(f: string, i: nat, t: string)
    requires HasAt(f, i, "]" + t)
    ensures !HasAt(f, i, " ") && HasAt(f, i, "]") && HasAt(f, i + 1, t)
    ensures ReadRefs(f, i) == Some(([], i + 1))
  {
    Split(f, i, "]", t);
    assert f[i..i + 1][0] == ']';
  }

  /** The font entries from entry k on: /F1 and its object, /F2 and its object, and so on. */
  function FontRefs(first: nat, count: nat, k: nat): seq<(nat, nat)>
    requires k <= count
  {
    seq(count - k, j requires 0 <= j => (k + j + 1, first + k + j))
  }

  /** The fonts from font k on, under their names. */
  function Numbered(fonts: seq<string>, k: nat): seq<Font>
    requires k <= |fonts|
  {
    seq(|fonts| - k, j requires 0 <= j < |fonts| - k => Font(k + j + 1, fonts[k + j]))
  }

  lemma {:induction false} FontsRead(f: string, i: nat, first: nat, count: nat, k: nat, t: string)
    requires k <= count && HasAt(f, i, FontEntries(first, count, k) + (">> >> " + t))
    ensures ReadFonts(f, i).Some? && ReadFonts(f, i).value.0 == FontRefs(first, count, k)
    ensures HasAt(f, ReadFonts(f, i).value.1, t)
    decreases count - k
  {
    hide HasAt, Itoa, Ref, Expect, ReadRef, ReadNat;
    if k == count {
      assert "" + (">> >> " + t) == ">> >> " + t;
      Split(f, i, ">> >> ", t);
      assert FontRefs(first, count, k) == [];
    } else {
      var rest := FontEntries(first, count, k + 1) + (">> >> " + t);
      RegroupFont("/F", Itoa(k + 1), " ", Ref(first + k), FontEntries(first, count, k + 1), ">> >> " + t);
      NotClosing(f, i, Itoa(k + 1) + (" " + (Ref(first + k) + (" " + rest))));
      var a := FieldReads(f, i, "/F", k + 1, " " + (Ref(first + k) + (" " + rest)));
      var b := RefFieldReads(f, a, " ", first + k, " " + rest);
      ExpectReads(f, b, " ", rest);
      FontsRead(f, b + |" "|, first, count, k + 1, t);
      assert [(k + 1, first + k)] + FontRefs(first, count, k + 1) == FontRefs(first, count, k);
    }
  }

  lemma RegroupFont(a: string, b: string, c: string, d: string, e: string, t: string)
    ensures a + (b + (c + (d + (c + e)))) + t == a + (b + (c + (d + (c + (e + t)))))
  {
  }

  lemma NotClosing(f: string, i: nat, t: string)
    requires HasAt(f, i, "/F" + t)
    ensures !HasAt(f, i, ">> >> ")
  {
    Split(f, i, "/F", t);
    assert f[i] == "/F"[0];
    if i + 6 <= |f| {
      assert f[i..i + 6][0] == f[i];
    }
  }

  lemma {:induction false} NameStops(f: string, i: nat, name: string, t: string)
    requires HasAt(f, i, name + (" " + t)) && ' ' !in name
    ensures NameEnd(f, i) == i + |name|
    decreases |name|
  {
    if name != [] {
      assert name + (" " + t) == [name[0]] + (name[1..] + (" " + t));
      Split(f, i, [name[0]], name[1..] + (" " + t));
      assert f[i] == name[0];
      NameStops(f, i + 1, name[1..], t);
    } else {
      assert f[i] == (name + (" " + t))[0];
    }
  }

  lemma FontLiterals()
    ensures " >>" + "\nendobj\n" == " >>\nendobj\n" && " " + ">>\nendobj\n" == " >>\nendobj\n"
            && " >>\nendobj\n" + "" == " >>\nendobj\n"
  {
  }

  lemma RegroupName(a: string, b: string, c: string, d: string)
    ensures a + (b + c) + d == a + (b + (c + d))
  {
  }

  lemma FontReads(f: string, table: Table, number: nat, i: nat, name: string)
    requires Locate(f, table, number) == Some(i) && HasAt(f, i, FontObject(name) + "\nendobj\n") && ' ' !in name
    ensures ReadFont(f, table, number) == Some(name)
  {
    hide HasAt, Expect, Locate;
    var lead := "<< /Type /Font /Subtype /Type1 /BaseFont /";
    FontLiterals();
    RegroupName(lead, name, " >>", "\nendobj\n");
    ExpectReads(f, i, lead, name + (" " + ">>\nendobj\n"));
    NameStops(f, i + |lead|, name, ">>\nendobj\n");
    ExpectReads(f, i + |lead|, name, " >>\nendobj\n");
    ExpectReads(f, i + |lead| + |name|, " >>\nendobj\n", "");
    NameTaken(f, i + |lead|, name, " >>\nendobj\n");
  }

  lemma NameTaken(f: string, i: nat, name: string, t: string)
    requires HasAt(f, i, name + t)
    ensures f[i..i + |name|] == name
  {
    Split(f, i, name, t);
  }

  /** Section 7.3.8: the Length written is the number of bytes read back, whatever they are. */
  lemma StreamReads(f: string, table: Table, number: nat, i: nat, stream: string)
    requires Locate(f, table, number) == Some(i) && HasAt(f, i, StreamObject(stream) + "\nendobj\n")
    ensures ReadStream(f, table, number) == Some(stream)
  {
    hide HasAt, Itoa, Expect, Locate, ReadNat;
    RegroupStream("<< /Length ", Itoa(|stream|), " >>\nstream\n", stream, "\nendstream", "\nendobj\n");
    assert "\nendstream" + "\nendobj\n" == "\nendstream\nendobj\n";
    var rest := stream + "\nendstream\nendobj\n";
    var j := FieldReads(f, i, "<< /Length ", |stream|, " >>\nstream\n" + rest);
    ExpectReads(f, j, " >>\nstream\n", rest);
    var start := j + |" >>\nstream\n"|;
    ExpectReads(f, start, stream, "\nendstream\nendobj\n");
    ExpectReads(f, start + |stream|, "\nendstream\nendobj\n", "");
    NameTaken(f, start, stream, "\nendstream\nendobj\n");
  }

  lemma RegroupStream(a: string, b: string, c: string, d: string, e: string, t: string)
    ensures a + (b + (c + (d + e))) + t == a + (b + (c + (d + (e + t))))
  {
  }

  lemma {:induction false} PageObjectsAt(pages: seq<string>, fontCount: nat, n: nat, i: nat)
    requires i < n <= |pages|
    ensures PageObjects(pages, fontCount, n)[2 * i] == PageObject(3 + |pages| * 2, fontCount, PageNumber(i) + 1)
    ensures PageObjects(pages, fontCount, n)[2 * i + 1] == StreamObject(pages[i])
  {
    hide PageObject, StreamObject;
    if i < n - 1 {
      PageObjectsAt(pages, fontCount, n - 1, i);
    }
  }

  lemma ObjectsAt(pages: seq<string>, fonts: seq<string>)
    ensures Objects(pages, fonts)[0] == CATALOG && Objects(pages, fonts)[1] == PageTree(|pages|)
  {
  }

  lemma PageAt(pages: seq<string>, fonts: seq<string>, i: nat)
    requires i < |pages|
    ensures Objects(pages, fonts)[2 * i + 2] == PageObject(3 + |pages| * 2, |fonts|, PageNumber(i) + 1)
    ensures Objects(pages, fonts)[2 * i + 3] == StreamObject(pages[i])
  {
    hide PageObject, StreamObject, FontObject, PageTree, PageObjects;
    PageObjectsAt(pages, |fonts|, |pages|, i);
    var a, b := [CATALOG, PageTree(|pages|)], PageObjects(pages, |fonts|, |pages|);
    assert (a + b)[2 * i + 2] == b[2 * i] && (a + b)[2 * i + 3] == b[2 * i + 1];
  }

  lemma FontAt(pages: seq<string>, fonts: seq<string>, j: nat)
    requires j < |fonts|
    ensures Objects(pages, fonts)[2 + 2 * |pages| + j] == FontObject(fonts[j])
  {
    hide FontObject, PageTree, PageObjects;
  }

  lemma {:induction false} FontNamesRead(pages: seq<string>, fonts: seq<string>, k: nat)
    requires Addressable(Objects(pages, fonts)) && k <= |fonts|
    requires forall j :: 0 <= j < |fonts| ==> ' ' !in fonts[j]
    ensures var entries := FontRefs(3 + |pages| * 2, |fonts|, k);
            ReadFontNames(FileOf(Objects(pages, fonts)), TableOf(Objects(pages, fonts)), entries)
            == Some(Numbered(fonts, k))
    decreases |fonts| - k
  {
    hide FileOf, TableOf, Locate, HasAt, ReadFont, ContentAt, FontObject, Addressable, PageObjects, PageTree;
    var entries := FontRefs(3 + |pages| * 2, |fonts|, k);
    if k < |fonts| {
      var objects := Objects(pages, fonts);
      FontAt(pages, fonts, k);
      var number := 3 + |pages| * 2 + k;
      assert entries[0] == (k + 1, number);
      ObjectFound(objects, number);
      FontReads(FileOf(objects), TableOf(objects), number, ContentAt(objects, number), fonts[k]);
      FontNamesRead(pages, fonts, k + 1);
      assert entries[1..] == FontRefs(3 + |pages| * 2, |fonts|, k + 1);
      assert Numbered(fonts, k) == [Font(k + 1, fonts[k])] + Numbered(fonts, k + 1);
    } else {
      assert entries == [] && Numbered(fonts, k) == [];
    }
  }

  lemma PageFieldsRead(f: string, i: nat, first: nat, count: nat, content: nat)
    returns (fonts: nat, contents: nat)
    requires HasAt(f, i, PageObject(first, count, content) + "\nendobj\n")
    ensures var lead := i + |"<< /Type /Page /Parent "|;
            var box := " /MediaBox [0 0 595 842] /Resources << /Font << ";
            Expect(f, i, "<< /Type /Page /Parent ") == Some(lead)
            && ReadRef(f, lead) == Some((2, fonts - |box|)) && fonts >= |box|
                && Expect(f, fonts - |box|, box) == Some(fonts)
    ensures ReadFonts(f, fonts).Some? && ReadFonts(f, fonts).value.0 == FontRefs(first, count, 0)
    ensures Expect(f, ReadFonts(f, fonts).value.1, "/Contents ") == Some(contents)
    ensures ReadRef(f, contents).Some? && ReadRef(f, contents).value.0 == content
    ensures Expect(f, ReadRef(f, contents).value.1, " >>\nendobj\n").Some?
  {
    hide HasAt, Itoa, Ref, Expect, ReadRef, ReadFonts, FontEntries;
    var box := " /MediaBox [0 0 595 842] /Resources << /Font << ";
    var tail := Ref(content) + " >>\nendobj\n";
    PageObjectSplits(first, count, content);
    var j := RefFieldReads(f, i, "<< /Type /Page /Parent ", 2,
                           box + (FontEntries(first, count, 0) + (">> >> " + ("/Contents " + tail))));
    ExpectReads(f, j, box, FontEntries(first, count, 0) + (">> >> " + ("/Contents " + tail)));
    fonts := j + |box|;
    FontsRead(f, fonts, first, count, 0, "/Contents " + tail);
    var next := RefFieldReads(f, ReadFonts(f, fonts).value.1, "/Contents ", content, " >>\nendobj\n");
    contents := ReadFonts(f, fonts).value.1 + |"/Contents "|;
    assert " >>\nendobj\n" + "" == " >>\nendobj\n";
    ExpectReads(f, next, " >>\nendobj\n", "");
  }

  lemma PageObjectSplits(first: nat, count: nat, content: nat)
    ensures PageObject(first, count, content) + "\nendobj\n"
         == "<< /Type /Page /Parent " + (Ref(2) + (" /MediaBox [0 0 595 842] /Resources << /Font << " +
            (FontEntries(first, count, 0) + (">> >> " + ("/Contents " + (Ref(content) + " >>\nendobj\n"))))))
  {
    hide FontEntries, Ref;
    assert " >>\nendobj\n" == " >>" + "\nendobj\n";
    Reassociate("<< /Type /Page /Parent ", Ref(2), " /MediaBox [0 0 595 842] /Resources << /Font << ",
                FontEntries(first, count, 0), ">> >> ", "/Contents ", Ref(content), " >>", "\nendobj\n");
  }

  lemma Reassociate(a: string, b: string, c: string, d: string, e: string, g: string, h: string, k: string, l: string)
    ensures a + (b + (c + (d + (e + (g + (h + k)))))) + l == a + (b + (c + (d + (e + (g + (h + (k + l)))))))
  {
  }

  lemma PageReads(pages: seq<string>, fonts: seq<string>, i: nat)
    requires Addressable(Objects(pages, fonts)) && i < |pages|
    requires forall j :: 0 <= j < |fonts| ==> ' ' !in fonts[j]
    ensures ReadPage(FileOf(Objects(pages, fonts)), TableOf(Objects(pages, fonts)), 2, PageNumber(i))
         == Some(Page(pages[i], Numbered(fonts, 0)))
  {
    hide FileOf, TableOf, Objects, Locate, HasAt, ReadFonts, ReadRef, ContentAt, Expect, ReadStream, ReadFontNames,
      PageObject, StreamObject, Addressable;
    var objects := Objects(pages, fonts);
    var f, table := FileOf(objects), TableOf(objects);
    PageAt(pages, fonts, i);
    ObjectFound(objects, PageNumber(i));
    ObjectFound(objects, PageNumber(i) + 1);
    var first := 3 + |pages| * 2;
    var start, contents := PageFieldsRead(f, ContentAt(objects, PageNumber(i)), first, |fonts|, PageNumber(i) + 1);
    StreamReads(f, table, PageNumber(i) + 1, ContentAt(objects, PageNumber(i) + 1), pages[i]);
    FontNamesRead(pages, fonts, 0);
  }

  function PagesFrom(pages: seq<string>, fonts: seq<string>, k: nat): seq<Page>
    requires k <= |pages|
  {
    seq(|pages| - k, j requires 0 <= j < |pages| - k => Page(pages[k + j], Numbered(fonts, 0)))
  }

  lemma {:induction false} PagesRead(pages: seq<string>, fonts: seq<string>, k: nat)
    requires Addressable(Objects(pages, fonts)) && k <= |pages|
    requires forall j :: 0 <= j < |fonts| ==> ' ' !in fonts[j]
    ensures var numbers := seq(|pages| - k, j requires 0 <= j => PageNumber(k + j));
            ReadPages(FileOf(Objects(pages, fonts)), TableOf(Objects(pages, fonts)), 2, numbers)
            == Some(PagesFrom(pages, fonts, k))
    decreases |pages| - k
  {
    hide FileOf, TableOf, Objects, ReadPage, Addressable;
    var numbers := seq(|pages| - k, j requires 0 <= j => PageNumber(k + j));
    if k < |pages| {
      PageReads(pages, fonts, k);
      PagesRead(pages, fonts, k + 1);
      assert numbers[0] == PageNumber(k);
      assert numbers[1..] == seq(|pages| - (k + 1), j requires 0 <= j => PageNumber(k + 1 + j));
      assert PagesFrom(pages, fonts, k) == [Page(pages[k], Numbered(fonts, 0))] + PagesFrom(pages, fonts, k + 1);
    }
  }

  lemma KidsRead(f: string, i: nat, count: nat, t: string)
    requires HasAt(f, i, Join(Kids(count), " ") + ("]" + t))
    ensures ReadRefs(f, i).Some? && ReadRefs(f, i).value.0 == seq(count, j requires 0 <= j => PageNumber(j))
    ensures HasAt(f, ReadRefs(f, i).value.1, t)
  {
    hide HasAt, ReadRefs, Join;
    if count == 0 {
      NoKids(Join(Kids(count), " "), "]" + t);
      LastRef(f, i, t);
      assert seq(count, j requires 0 <= j => PageNumber(j)) == [];
    } else {
      assert Kids(count)[0..] == Kids(count);
      RefsRead(f, i, count, 0, t);
      assert seq(count - 0, j requires 0 <= j => PageNumber(0 + j)) == seq(count, j requires 0 <= j => PageNumber(j));
    }
  }

  lemma TreeLiterals()
    ensures " >>\nendobj\n" == " >>" + "\nendobj\n" && "] /Count " == "]" + " /Count "
            && " >>\nendobj\n" + "" == " >>\nendobj\n"
  {
  }

  lemma TreeReads(f: string, i: nat, count: nat)
    requires HasAt(f, i, PageTree(count) + "\nendobj\n")
    ensures var lead := i + |"<< /Type /Pages /Kids ["|;
            Expect(f, i, "<< /Type /Pages /Kids [") == Some(lead)
            && ReadRefs(f, lead).Some? && ReadRefs(f, lead).value.0 == seq(count, j requires 0 <= j => PageNumber(j))
            && var c := ReadRefs(f, lead).value.1;
               Expect(f, c, " /Count ") == Some(c + 8)
               && ReadNat(f, c + 8).Some? && ReadNat(f, c + 8).value.0 == count
               && Expect(f, ReadNat(f, c + 8).value.1, " >>\nendobj\n").Some?
  {
    hide HasAt, Itoa, Expect, ReadNat, ReadRefs, Join, Kids;
    var tail := " /Count " + (Itoa(count) + " >>\nendobj\n");
    var joined := Join(Kids(count), " ");
    TreeLiterals();
    RegroupTree("<< /Type /Pages /Kids [", joined, "]", " /Count ", Itoa(count), " >>", "\nendobj\n");
    ExpectReads(f, i, "<< /Type /Pages /Kids [", joined + ("]" + tail));
    KidsRead(f, i + |"<< /Type /Pages /Kids ["|, count, tail);
    var next := FieldReads(f, ReadRefs(f, i + |"<< /Type /Pages /Kids ["|).value.1, " /Count ", count, " >>\nendobj\n");
    ExpectReads(f, next, " >>\nendobj\n", "");
  }

  lemma NoKids(joined: string, t: string)
    requires joined == Join(Kids(0), " ")
    ensures joined + t == t
  {
    assert Kids(0) == [];
  }

  lemma RegroupTree(a: string, b: string, c: string, d: string, e: string, g: string, h: string)
    ensures a + (b + (c + d + (e + g))) + h == a + (b + (c + (d + (e + (g + h)))))
  {
  }

  lemma CatalogReads(f: string, i: nat)
    requires HasAt(f, i, CATALOG + "\nendobj\n")
    ensures var lead := i + |"<< /Type /Catalog /Pages "|;
            Expect(f, i, "<< /Type /Catalog /Pages ") == Some(lead)
            && ReadRef(f, lead).Some? && ReadRef(f, lead).value.0 == 2
            && Expect(f, ReadRef(f, lead).value.1, " >>\nendobj\n").Some?
  {
    hide HasAt, Expect, ReadRef;
    assert Ref(2) == "2 0 R";
    assert CATALOG + "\nendobj\n" == "<< /Type /Catalog /Pages " + ("2 0 R" + " >>\nendobj\n");
    var next := RefFieldReads(f, i, "<< /Type /Catalog /Pages ", 2, " >>\nendobj\n");
    assert " >>\nendobj\n" + "" == " >>\nendobj\n";
    ExpectReads(f, next, " >>\nendobj\n", "");
  }

  /** The whole file reads back: the reader that starts at startxref and follows every offset,
      reference, count and length finds exactly the written pages, each with its fonts. */
  lemma FileReadsBack(pages: seq<string>, fonts: seq<string>)
    requires Addressable(Objects(pages, fonts))
    requires forall j :: 0 <= j < |fonts| ==> ' ' !in fonts[j]
    ensures ReadPdf(FileOf(Objects(pages, fonts))) ==
            Some(seq(|pages|, i requires 0 <= i < |pages| => Page(pages[i], Numbered(fonts, 0))))
  {
    hide FileOf, TableOf, Locate, HasAt, ContentAt, Expect, ReadRefs, ReadRef, ReadNat, ReadTable, ReadRoot, ReadPages,
      PageObjects, FontObject, Addressable, PageTree;
    var objects := Objects(pages, fonts);
    var f, table := FileOf(objects), TableOf(objects);
    HeaderAt(objects);
    TableFound(objects);
    RootFound(objects);
    ObjectsAt(pages, fonts);
    ObjectFound(objects, 1);
    CatalogReads(f, ContentAt(objects, 1));
    ObjectFound(objects, 2);
    TreeReads(f, ContentAt(objects, 2), |pages|);
    PagesRead(pages, fonts, 0);
    assert seq(|pages| - 0, j requires 0 <= j => PageNumber(0 + j)) == seq(|pages|, j requires 0 <= j => PageNumber(j));
    assert PagesFrom(pages, fonts, 0) == seq(|pages|,
        i requires 0 <= i < |pages| => Page(pages[i], Numbered(fonts, 0)));
  }

  lemma HeaderAt(objects: seq<string>)
    ensures HasAt(FileOf(objects), 0, "%PDF-1.")
  {
    Prefixes(objects);
    Split(FileOf(objects), 0, HEADER, Body(objects));
    assert HEADER == "%PDF-1." + "4\n";
    Split(FileOf(objects), 0, "%PDF-1.", "4\n");
  }
}
