/** A reader that starts at the end of the file and follows offsets, references, counts and lengths
    wherever they lead. It expects dictionaries to have the entries a page needs in one fixed order
    and spacing, and takes every number in them from the file. */
module PdfReader {
  import opened Text
  import opened Wrappers

  /** A font resource: the n of its name /Fn, and the base font it names. */
  datatype Font = Font(index: nat, name: string)

  datatype Page = Page(stream: string, fonts: seq<Font>)

  /** Where the objects are: number of table rows, and the byte where row 0 starts. */
  datatype Table = Table(size: nat, start: nat)

  function Expect(f: string, i: nat, literal: string): Option<nat> {
    if HasAt(f, i, literal) then Some(i + |literal|) else None
  }

  function DigitsEnd(f: string, i: nat): (j: nat)
    requires i <= |f|
    ensures i <= j <= |f| && AllDigits(f[i..j])
    decreases |f| - i
  {
    if i < |f| && IsDigit(f[i]) then DigitsEnd(f, i + 1) else i
  }

  function DigitsStart(f: string, i: nat): (j: nat)
    requires i <= |f|
    ensures j <= i && AllDigits(f[j..i])
  {
    if i > 0 && IsDigit(f[i - 1]) then
      var j := DigitsStart(f, i - 1);
      assert f[j..i] == f[j..i - 1] + [f[i - 1]];
      j
    else i
  }

  /** A number and the position after it. */
  function ReadNat(f: string, i: nat): (r: Option<(nat, nat)>)
    ensures r.Some? ==> i < r.value.1 <= |f|
  {
    if i > |f| || DigitsEnd(f, i) == i then None
    else Some((Value(f[i..DigitsEnd(f, i)]), DigitsEnd(f, i)))
  }

  function ReadRef(f: string, i: nat): (r: Option<(nat, nat)>)
    ensures r.Some? ==> i < r.value.1 <= |f|
  {
    var number :- ReadNat(f, i);
    var next :- Expect(f, number.1, " 0 R");
    Some((number.0, next))
  }

  /** Section 7.5.5: the last lines hold startxref, the table's offset and the end marker. */
  function StartXref(f: string): Option<nat> {
    if |f| < 7 || !HasAt(f, |f| - 7, "\n%%EOF\n") then None
    else
      var first := DigitsStart(f, |f| - 7);
      if first < 10 || first == |f| - 7 || !HasAt(f, first - 10, "startxref\n") then None
      else Some(Value(f[first..|f| - 7]))
  }

  /** Section 7.5.4: a single section of rows from object 0, each 20 bytes. */
  function ReadTable(f: string): Option<Table> {
    var x :- StartXref(f);
    var i :- Expect(f, x, "xref\n0 ");
    var size :- ReadNat(f, i);
    var start :- Expect(f, size.1, "\n");
    Some(Table(size.0, start))
  }

  /** The root reference from the trailer dictionary that follows the rows. */
  function ReadRoot(f: string, table: Table): Option<nat> {
    var i :- Expect(f, table.start + 20 * table.size, "trailer\n<< /Size ");
    var size :- ReadNat(f, i);
    if size.0 != table.size then None else
    var j :- Expect(f, size.1, " /Root ");
    var root :- ReadRef(f, j);
    var _ :- Expect(f, root.1, " >>\nstartxref\n");
    Some(root.0)
  }

  /** Position of the content of an object in use, reached through its table row. */
  function Locate(f: string, table: Table, number: nat): Option<nat> {
    if !(1 <= number < table.size) then None else
    var row := table.start + 20 * number;
    var _ :- Expect(f, row + 10, " 00000 n \n");
    if !AllDigits(f[row..row + 10]) then None else
    Expect(f, Value(f[row..row + 10]), Itoa(number) + " 0 obj\n")
  }

  /** References up to the closing bracket. */
  function ReadRefs(f: string, i: nat): Option<(seq<nat>, nat)>
    decreases if i <= |f| then |f| - i else 0
  {
    if HasAt(f, i, "]") then Some(([], i + 1)) else
    var ref :- ReadRef(f, i);
    var rest :- ReadRefs(f, if HasAt(f, ref.1, " ") then ref.1 + 1 else ref.1);
    Some(([ref.0] + rest.0, rest.1))
  }

  /** Font entries of a resource dictionary, up to its closing marks. */
  function ReadFonts(f: string, i: nat): Option<(seq<(nat, nat)>, nat)>
    decreases if i <= |f| then |f| - i else 0
  {
    if HasAt(f, i, ">> >> ") then Some(([], i + 6)) else
    var key :- Expect(f, i, "/F");
    var index :- ReadNat(f, key);
    var value :- Expect(f, index.1, " ");
    var ref :- ReadRef(f, value);
    var next :- Expect(f, ref.1, " ");
    var rest :- ReadFonts(f, next);
    Some(([(index.0, ref.0)] + rest.0, rest.1))
  }

  function NameEnd(f: string, i: nat): (j: nat)
    requires i <= |f|
    ensures i <= j <= |f|
    decreases |f| - i
  {
    if i < |f| && f[i] != ' ' then NameEnd(f, i + 1) else i
  }

  function ReadFont(f: string, table: Table, number: nat): Option<string> {
    var i :- Locate(f, table, number);
    var name :- Expect(f, i, "<< /Type /Font /Subtype /Type1 /BaseFont /");
    var end := NameEnd(f, name);
    var _ :- Expect(f, end, " >>\nendobj\n");
    Some(f[name..end])
  }

  function ReadFontNames(f: string, table: Table, entries: seq<(nat, nat)>): Option<seq<Font>> {
    if entries == [] then Some([]) else
    var name :- ReadFont(f, table, entries[0].1);
    var rest :- ReadFontNames(f, table, entries[1..]);
    Some([Font(entries[0].0, name)] + rest)
  }

  /** Section 7.3.8: the stream is the Length bytes after the keyword's end of line. */
  function ReadStream(f: string, table: Table, number: nat): Option<string> {
    var i :- Locate(f, table, number);
    var length :- Expect(f, i, "<< /Length ");
    var count :- ReadNat(f, length);
    var start :- Expect(f, count.1, " >>\nstream\n");
    var _ :- Expect(f, start + count.0, "\nendstream\nendobj\n");
    Some(f[start..start + count.0])
  }

  function ReadPage(f: string, table: Table, parent: nat, number: nat): Option<Page> {
    var i :- Locate(f, table, number);
    var up :- Expect(f, i, "<< /Type /Page /Parent ");
    var owner :- ReadRef(f, up);
    if owner.0 != parent then None else
    var res :- Expect(f, owner.1, " /MediaBox [0 0 595 842] /Resources << /Font << ");
    var fonts :- ReadFonts(f, res);
    var contents :- Expect(f, fonts.1, "/Contents ");
    var stream :- ReadRef(f, contents);
    var _ :- Expect(f, stream.1, " >>\nendobj\n");
    var names :- ReadFontNames(f, table, fonts.0);
    var data :- ReadStream(f, table, stream.0);
    Some(Page(data, names))
  }

  function ReadPages(f: string, table: Table, parent: nat, numbers: seq<nat>): Option<seq<Page>> {
    if numbers == [] then Some([]) else
    var page :- ReadPage(f, table, parent, numbers[0]);
    var rest :- ReadPages(f, table, parent, numbers[1..]);
    Some([page] + rest)
  }

  /** All pages of a file, in order. */
  function ReadPdf(f: string): Option<seq<Page>> {
    if !HasAt(f, 0, "%PDF-1.") then None else
    var table :- ReadTable(f);
    var root :- ReadRoot(f, table);
    var i :- Locate(f, table, root);
    var tree :- Expect(f, i, "<< /Type /Catalog /Pages ");
    var parent :- ReadRef(f, tree);
    var _ :- Expect(f, parent.1, " >>\nendobj\n");
    var j :- Locate(f, table, parent.0);
    var list :- Expect(f, j, "<< /Type /Pages /Kids [");
    var kids :- ReadRefs(f, list);
    var c :- Expect(f, kids.1, " /Count ");
    var count :- ReadNat(f, c);
    var _ :- Expect(f, count.1, " >>\nendobj\n");
    if count.0 != |kids.0| then None else ReadPages(f, table, parent.0, kids.0)
  }
}
