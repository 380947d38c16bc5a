/** The two PDF producers of the report package and what a reader gets back from them. */
module PdfWriter {
  import opened Text
  import opened Wrappers
  import opened PdfFile
  import opened PdfReader
  import opened PdfProof
  import opened PdfString
  import TextLayout

  const RENDERER_FONTS: seq<string> := ["Helvetica", "Helvetica-Bold"]
  const SIMPLE_FONTS: seq<string> := ["Helvetica"]
  const LINE_WIDTH: nat := 92
  const PAGE_LINES: nat := 48

  /** The catalog, the page tree, page and content objects two by two, and the fonts. */
  method BuildObjects(pages: seq<string>, fonts: seq<string>) returns (objects: seq<string>)
    ensures objects == Objects(pages, fonts)
  {
    hide PageObject, StreamObject, FontObject, PageTree;
    objects := [CATALOG];
    var kids: seq<string> := [];
    for i := 0 to |pages|
      invariant kids == Kids(|pages|)[..i]
    {
      kids := kids + [Ref(PageNumber(i))];
    }
    objects := objects + [PageTree(|pages|)];
    for i := 0 to |pages|
      invariant objects == [CATALOG, PageTree(|pages|)] + PageObjects(pages, |fonts|, i)
    {
      var contentNumber := PageNumber(i) + 1;
      objects := objects + [PageObject(3 + |pages| * 2, |fonts|, contentNumber)];
      objects := objects + [StreamObject(pages[i])];
    }
    ghost var all := seq(|fonts|, j requires 0 <= j < |fonts| => FontObject(fonts[j]));
    ghost var before := objects;
    for i := 0 to |fonts|
      invariant objects == before + all[..i]
    {
      objects := objects + [FontObject(fonts[i])];
    }
    assert all[..|fonts|] == all;
  }

  /** Writes the objects, remembering where each begins, then the table and the trailer. */
  method Serialize(objects: seq<string>) returns (buf: string)
    ensures buf == FileOf(objects)
  {
    hide Indirect, Trailer, Entry, Itoa, Body, Offset, Entries;
    buf := HEADER;
    var offsets: seq<nat> := [0];
    NothingWritten(objects);
    for i := 0 to |objects|
      invariant buf == HEADER + Body(objects[..i])
      invariant |offsets| == i + 1
      invariant forall k :: 0 <= k < i ==> offsets[k + 1] == Offset(objects, k)
    {
      BodyNext(objects, i);
      offsets := offsets + [|buf|];
      buf := buf + Indirect(i + 1, objects[i]);
    }
    assert objects[..|objects|] == objects;
    var xref := |buf|;
    ghost var front := buf;
    var lead := "xref\n0 " + (Itoa(|objects| + 1) + ("\n" + FREE_ENTRY));
    buf := buf + lead;
    assert front + lead == front + lead + "";
    for i := 1 to |offsets|
      invariant buf == front + lead + Entries(objects, i - 1)
    {
      EntryNext(objects, i);
      EntryAppended(front + lead, Entries(objects, i - 1), Entry(offsets[i]));
      buf := buf + Entry(offsets[i]);
    }
    buf := buf + Trailer(|objects| + 1, xref);
    BodyNext(objects, |objects|);
    XrefJoins("xref\n0 ", Itoa(|objects| + 1), "\n", FREE_ENTRY, Entries(objects, |objects|), front,
              Trailer(|objects| + 1, xref));
  }

  lemma NothingWritten(objects: seq<string>)
    ensures HEADER == HEADER + Body(objects[..0]) && Entries(objects, 0) == ""
  {
  }

  /** The offset of the next object is the length of what is written, and writing it extends the body. */
  lemma BodyNext(objects: seq<string>, i: nat)
    requires i <= |objects|
    ensures Offset(objects, i) == |HEADER + Body(objects[..i])|
    ensures i < |objects| ==>
      HEADER + Body(objects[..i]) + Indirect(i + 1, objects[i]) == HEADER + Body(objects[..i + 1])
  {
    hide Indirect;
    if i < |objects| {
      assert objects[..i + 1][..i] == objects[..i];
      EntryAppended(HEADER, Body(objects[..i]), Indirect(i + 1, objects[i]));
    }
  }

  lemma EntryNext(objects: seq<string>, i: nat)
    requires 1 <= i <= |objects|
    ensures Entries(objects, i) == Entries(objects, i - 1) + Entry(Offset(objects, i - 1))
  {
  }

  lemma EntryAppended(a: string, b: string, c: string)
    ensures a + b + c == a + (b + c)
  {
  }

  lemma XrefJoins(a: string, b: string, c: string, d: string, e: string, front: string, t: string)
    ensures front + (a + (b + (c + d))) + e + t == front + ((a + (b + (c + (d + e)))) + t)
  {
  }

  /** The file a reader finds: the pages in order, each with every font under its name. */
  function AsRead(pages: seq<string>, fonts: seq<string>): seq<Page> {
    seq(|pages|, i requires 0 <= i < |pages| => Page(pages[i], Numbered(fonts, 0)))
  }

  /** The renderer's files read back to its pages, each with both fonts. */
  lemma RenderedReadsBack(pages: seq<string>)
    requires Addressable(Objects(pages, RENDERER_FONTS))
    ensures ReadPdf(FileOf(Objects(pages, RENDERER_FONTS))) == Some(AsRead(pages, ["Helvetica", "Helvetica-Bold"]))
  {
    hide FileOf, ReadPdf, Objects, Addressable;
    FileReadsBack(pages, RENDERER_FONTS);
  }

  class PdfRenderer {
    var pages: seq<string>
    var buf: string

    constructor ()
      ensures pages == [] && buf == ""
    {
      pages := [];
      buf := "";
    }

    /** Drawing appends operators to the current page. */
    method Write(text: string)
      modifies this`buf
      ensures buf == old(buf) + text
    {
      buf := buf + text;
    }

    /** All non-empty pages so far, the unfinished one included. */
    ghost function Content(): seq<string>
      reads this
    {
      if buf == "" then pages else pages + [buf]
    }

    method FinishPage()
      modifies this
      ensures pages == old(Content()) && buf == ""
    {
      if |buf| == 0 {
        return;
      }
      pages := pages + [buf];
      buf := "";
    }

    method NewPage()
      modifies this
      ensures pages == old(Content()) && buf == ""
    {
      if |buf| > 0 {
        FinishPage();
      }
      buf := "";
    }

    /** Nothing drawn is lost: a reader of the returned file gets every page drawn on. */
    method Bytes() returns (out: string)
      modifies this
      ensures pages == old(Content()) && buf == ""
      ensures out == FileOf(Objects(pages, RENDERER_FONTS))
      ensures Addressable(Objects(pages, RENDERER_FONTS)) ==>
              ReadPdf(out) == Some(AsRead(old(Content()), RENDERER_FONTS))
    {
      hide Addressable, ReadPdf, FileOf, Objects, AsRead;
      if |buf| > 0 {
        FinishPage();
      }
      var objects := BuildObjects(pages, RENDERER_FONTS);
      out := Serialize(objects);
      if Addressable(Objects(pages, RENDERER_FONTS)) {
        RenderedReadsBack(pages);
      }
    }
  }

  /** The wrapped and paged lines of a plain report. */
  function Layout(lines: seq<string>): seq<seq<string>> {
    TextLayout.Pages(TextLayout.WrapAll(lines, LINE_WIDTH), PAGE_LINES)
  }

  function Streams(pages: seq<seq<string>>): seq<string> {
    seq(|pages|, k requires 0 <= k < |pages| => TextStream(pages[k]))
  }

  method SimplePdf(lines: seq<string>) returns (out: string)
    ensures out == FileOf(Objects(Streams(Layout(lines)), SIMPLE_FONTS))
  {
    hide TextStream, FileOf, Objects;
    var wrapped := TextLayout.WrapLines(lines, LINE_WIDTH);
    var pages := TextLayout.Paginate(wrapped, PAGE_LINES);
    var streams: seq<string> := [];
    for i := 0 to |pages|
      invariant streams == Streams(pages)[..i]
    {
      var stream := PdfTextStream(pages[i]);
      streams := streams + [stream];
    }
    assert streams == Streams(pages);
    var objects := BuildObjects(streams, SIMPLE_FONTS);
    out := Serialize(objects);
  }

  /** What a reader of a plain report sees on each page. */
  function ReadText(file: string): Option<seq<seq<string>>> {
    var pages :- ReadPdf(file);
    ReadAll(pages)
  }

  function ReadAll(pages: seq<Page>): Option<seq<seq<string>>> {
    if pages == [] then Some([]) else
    var first :- ReadShows(pages[0].stream, |STREAM_START|);
    var rest :- ReadAll(pages[1..]);
    Some([first] + rest)
  }

  function ShownPages(pages: seq<seq<string>>): seq<seq<string>> {
    seq(|pages|, k requires 0 <= k < |pages| => ShownLines(pages[k]))
  }

  lemma {:induction false} AllRead(pages: seq<seq<string>>)
    ensures ReadAll(AsRead(Streams(pages), SIMPLE_FONTS)) == Some(ShownPages(pages))
  {
    if pages == [] {
      assert ShownPages(pages) == [];
    } else {
      hide TextStream, ReadShows, ShownLines, ReadAll;
      AllRead(pages[1..]);
      TextStreamReads(pages[0]);
      StreamsShift(pages);
      FirstRead(AsRead(Streams(pages), SIMPLE_FONTS));
      assert ShownPages(pages) == [ShownLines(pages[0])] + ShownPages(pages[1..]);
    }
  }

  lemma StreamsShift(pages: seq<seq<string>>)
    requires pages != []
    ensures var read := AsRead(Streams(pages), SIMPLE_FONTS);
      read != [] && read[0].stream == TextStream(pages[0]) && read[1..] == AsRead(Streams(pages[1..]), SIMPLE_FONTS)
  {
    hide TextStream, Numbered;
  }

  lemma FirstRead(pages: seq<Page>)
    requires pages != [] && ReadShows(pages[0].stream, |STREAM_START|).Some? && ReadAll(pages[1..]).Some?
    ensures ReadAll(pages) == Some([ReadShows(pages[0].stream, |STREAM_START|).value] + ReadAll(pages[1..]).value)
  {
    hide ReadShows;
  }

  /** Lines are wrapped at 92 characters and 48 of them make a page. */
  lemma LayoutIs(lines: seq<string>)
    ensures Layout(lines) == TextLayout.Pages(TextLayout.WrapAll(lines, 92), 48)
  {
  }

  /** From report lines to a file and back: a reader of the file recovers, page by page, the
      wrapped lines as they are shown. */
  lemma SimpleReadsBack(lines: seq<string>)
    requires Addressable(Objects(Streams(Layout(lines)), SIMPLE_FONTS))
    ensures var file := FileOf(Objects(Streams(Layout(lines)), ["Helvetica"]));
      ReadText(file) == Some(ShownPages(TextLayout.Pages(TextLayout.WrapAll(lines, 92), 48)))
  {
    LayoutIs(lines);
    hide Layout, Streams, FileOf, ReadPdf, ReadAll, Objects, Addressable;
    var streams := Streams(Layout(lines));
    FileReadsBack(streams, SIMPLE_FONTS);
    AllRead(Layout(lines));
  }
}
