/** The hand-written PDF serializer: numbered objects, byte offsets, cross-reference table and
    trailer, as laid out by ISO 32000-1:2008, sections 7.3.8, 7.5.4 and 7.5.5. */
module PdfFile {
  import opened Text

  const HEADER := "%PDF-1.4\n"
  const CATALOG := "<< /Type /Catalog /Pages 2 0 R >>"
  const FREE_ENTRY := "0000000000 65535 f \n"
  const TEN_DIGITS: nat := 10_000_000_000

  function Ref(n: nat): string {
    Itoa(n) + " 0 R"
  }

  function PageNumber(i: nat): nat {
    3 + i * 2
  }

  function Kids(count: nat): seq<string> {
    seq(count, i requires 0 <= i => Ref(PageNumber(i)))
  }

  function PageTree(count: nat): string {
    "<< /Type /Pages /Kids [" + (Join(Kids(count), " ") + ("] /Count " + (Itoa(count) + " >>")))
  }

  /** The entries "/F1 a 0 R /F2 b 0 R ... " of a font dictionary, from entry k on. */
  function FontEntries(first: nat, count: nat, k: nat): string
    requires k <= count
    decreases count - k
  {
    if k == count then ""
    else "/F" + (Itoa(k + 1) + (" " + (Ref(first + k) + (" " + FontEntries(first, count, k + 1)))))
  }

  function PageObject(firstFont: nat, fontCount: nat, content: nat): string {
    "<< /Type /Page /Parent " + (Ref(2) + (" /MediaBox [0 0 595 842] /Resources << /Font << " +
      (FontEntries(firstFont, fontCount, 0) + (">> >> " + ("/Contents " + (Ref(content) + " >>"))))))
  }

  function StreamObject(stream: string): string {
    "<< /Length " + (Itoa(|stream|) + (" >>\nstream\n" + (stream + "\nendstream")))
  }

  function FontObject(name: string): string {
    "<< /Type /Font /Subtype /Type1 /BaseFont /" + (name + " >>")
  }

  /** Page and content objects of the first n pages, two by two. */
  function PageObjects(pages: seq<string>, fontCount: nat, n: nat): (objects: seq<string>)
    requires n <= |pages|
    ensures |objects| == 2 * n
  {
    if n == 0 then []
    else PageObjects(pages, fontCount, n - 1) +
         [PageObject(3 + |pages| * 2, fontCount, PageNumber(n - 1) + 1), StreamObject(pages[n - 1])]
  }

  function Objects(pages: seq<string>, fonts: seq<string>): (objects: seq<string>)
    ensures |objects| == 2 + 2 * |pages| + |fonts|
  {
    [CATALOG, PageTree(|pages|)] + PageObjects(pages, |fonts|, |pages|) +
    seq(|fonts|, j requires 0 <= j < |fonts| => FontObject(fonts[j]))
  }

  function Indirect(number: nat, content: string): string {
    Itoa(number) + (" 0 obj\n" + (content + "\nendobj\n"))
  }

  function Body(objects: seq<string>): string {
    if objects == [] then ""
    else Body(objects[..|objects| - 1]) + Indirect(|objects|, objects[|objects| - 1])
  }

  /** Byte offset of object k + 1. */
  function Offset(objects: seq<string>, k: nat): nat
    requires k <= |objects|
  {
    |HEADER| + |Body(objects[..k])|
  }

  /** One row of the table: ten digits, five digits, the keyword and a two-byte end of line. */
  function Entry(offset: nat): string {
    Pad(offset, 10) + " 00000 n \n"
  }

  function Entries(objects: seq<string>, n: nat): string
    requires n <= |objects|
  {
    if n == 0 then "" else Entries(objects, n - 1) + Entry(Offset(objects, n - 1))
  }

  function Trailer(size: nat, xref: nat): string {
    "trailer\n<< /Size " + (Itoa(size) + (" /Root 1 0 R >>\nstartxref\n" + (Itoa(xref) + "\n%%EOF\n")))
  }

  function Xref(objects: seq<string>): string {
    "xref\n0 " + (Itoa(|objects| + 1) + ("\n" + (FREE_ENTRY + Entries(objects, |objects|))))
  }

  function FileOf(objects: seq<string>): string {
    HEADER + Body(objects) + (Xref(objects) + Trailer(|objects| + 1, Offset(objects, |objects|)))
  }

  /** A table row has its 20 bytes exactly when the offset fits ten digits. */
  lemma EntryWidth(offset: nat)
    ensures |Entry(offset)| == 20 <==> offset < TEN_DIGITS
  {
    assert Pow10(10) == TEN_DIGITS by {
      assert Pow10(5) == 100_000;
    }
    PadLength(offset, 10);
  }

  ghost predicate Addressable(objects: seq<string>) {
    forall k :: 0 <= k < |objects| ==> Offset(objects, k) < TEN_DIGITS
  }
}
