/** Literal strings: what pdfEscape writes and what section 7.3.4.2 of ISO 32000-1:2008 reads. */
module PdfString {
  import opened Text
  import opened Wrappers
  import opened PdfReader
  import opened PdfProof

  /** A rune asciiPDF keeps; every other becomes a question mark. */
  predicate Kept(c: char) {
    c == '\n' || c == '\r' || c == '\t' || ' ' <= c <= '~'
  }

  function Ascii(s: string): string {
    seq(|s|, i requires 0 <= i < |s| => if Kept(s[i]) then s[i] else '?')
  }

  /** Line ends, tabs and the printable characters from blank to tilde are kept, each other character is a
      question mark. */
  lemma AsciiExactly(s: string, i: nat)
    requires i < |s|
    ensures |Ascii(s)| == |s|
    ensures var n := s[i] as int;
      Ascii(s)[i] == if n == 9 || n == 10 || n == 13 || 32 <= n <= 126 then s[i] else '?'
  {
  }

  method AsciiPdf(s: string) returns (b: string)
    ensures b == Ascii(s)
  {
    b := "";
    for i := 0 to |s|
      invariant b == Ascii(s)[..i]
    {
      if Kept(s[i]) {
        b := b + [s[i]];
        continue;
      }
      b := b + ['?'];
    }
  }

  function EscapeChar(c: char): string {
    if c == '\\' then "\\\\" else if c == '(' then "\\(" else if c == ')' then "\\)"
    else if c == '\t' then "    " else [c]
  }

  /** The replacer of pdfEscape, byte by byte. */
  function Replace(s: string): string {
    if s == "" then "" else EscapeChar(s[0]) + Replace(s[1..])
  }

  function Escape(s: string): string {
    Replace(Ascii(s))
  }

  predicate IsOctal(c: char) {
    '0' <= c <= '7'
  }

  function OctalEnd(f: string, i: nat, most: nat): (j: nat)
    requires i <= |f|
    ensures i <= j <= |f|
    decreases most
  {
    if most > 0 && i < |f| && IsOctal(f[i]) then OctalEnd(f, i + 1, most - 1) else i
  }

  function OctalValue(s: string): nat
    requires forall k :: 0 <= k < |s| ==> IsOctal(s[k])
  {
    if s == "" then 0
    else
      assert IsOctal(s[|s| - 1]);
      8 * OctalValue(s[..|s| - 1]) + (s[|s| - 1] as int - '0' as int)
  }

  lemma {:induction false} OctalDigits(f: string, i: nat, most: nat)
    requires i <= |f|
    ensures forall k :: i <= k < OctalEnd(f, i, most) ==> IsOctal(f[k])
    ensures OctalEnd(f, i, most) <= i + most
    decreases most
  {
    if most > 0 && i < |f| && IsOctal(f[i]) {
      OctalDigits(f, i + 1, most - 1);
    }
  }

  /** After a backslash at i - 1: the characters meant, and the position after the sequence. */
  function ReadEscape(f: string, i: nat): (r: (string, nat))
    requires i < |f|
    ensures i < r.1 <= |f|
  {
    var c := f[i];
    if c == 'n' then ("\n", i + 1) else if c == 'r' then ("\r", i + 1)
    else if c == 't' then ("\t", i + 1) else if c == 'b' then ([8 as char], i + 1)
    else if c == 'f' then ([12 as char], i + 1)
    else if IsOctal(c) then
      var j := OctalEnd(f, i, 3);
      OctalDigits(f, i, 3);
      ([(OctalValue(f[i..j]) % 256) as char], j)
    else if c == '\r' then ("", if i + 1 < |f| && f[i + 1] == '\n' then i + 2 else i + 1)
    else if c == '\n' then ("", i + 1)
    else ([c], i + 1)
  }

  /** The characters of a literal string from position i inside it, and the position after its
      closing parenthesis. Balanced parentheses need no backslash; every end-of-line reads as LF. */
  function ReadString(f: string, i: nat, depth: nat): Option<(string, nat)>
    decreases if i <= |f| then |f| - i else 0
  {
    if i >= |f| then None
    else if f[i] == ')' && depth == 0 then Some(("", i + 1))
    else
      var step :=
        if f[i] == '\\' then (if i + 1 < |f| then ReadEscape(f, i + 1) else ("", i + 1))
        else if f[i] == '\r' then ("\n", if i + 1 < |f| && f[i + 1] == '\n' then i + 2 else i + 1)
        else ([f[i]], i + 1);
      var inner := if f[i] == '(' then depth + 1 else if f[i] == ')' then depth - 1 else depth;
      var rest :- ReadString(f, step.1, inner);
      Some((step.0 + rest.0, rest.1))
  }

  /** What a reader sees of a text: unprintable runes as '?', a tab as four blanks, and CR or
      CR LF as LF. */
  function Shown(s: string): string {
    if s == "" then ""
    else if s[0] == '\r' then "\n" + Shown(if |s| > 1 && s[1] == '\n' then s[2..] else s[1..])
    else (if s[0] == '\t' then "    " else if Kept(s[0]) then [s[0]] else "?") + Shown(s[1..])
  }

  lemma AsciiCons(s: string)
    requires s != ""
    ensures Escape(s) == EscapeChar(if Kept(s[0]) then s[0] else '?') + Escape(s[1..])
  {
    assert Ascii(s)[1..] == Ascii(s[1..]);
  }

  lemma ByteAt(f: string, i: nat, s: string, k: nat)
    requires HasAt(f, i, s) && k < |s|
    ensures f[i + k] == s[k]
  {
    assert f[i..i + |s|][k] == f[i + k];
  }

  lemma BlanksRead(f: string, i: nat, t: string)
    requires HasAt(f, i, "    " + t) && t != "" && ReadString(f, i + 4, 0).Some?
    ensures ReadString(f, i, 0) == Some(("    " + ReadString(f, i + 4, 0).value.0, ReadString(f, i + 4, 0).value.1))
  {
    ByteAt(f, i, "    " + t, 0);
    ByteAt(f, i, "    " + t, 1);
    ByteAt(f, i, "    " + t, 2);
    ByteAt(f, i, "    " + t, 3);
    var rest := ReadString(f, i + 4, 0).value;
    assert ReadString(f, i + 3, 0) == Some((" " + rest.0, rest.1));
    assert ReadString(f, i + 2, 0) == Some((" " + (" " + rest.0), rest.1));
    assert ReadString(f, i + 1, 0) == Some((" " + (" " + (" " + rest.0)), rest.1));
    assert " " + (" " + (" " + (" " + rest.0))) == "    " + rest.0;
  }

  /** One written character is read as the same character, one position or escape further. */
  lemma CharRead(f: string, i: nat, c: char, t: string)
    requires Kept(c) && c != '\r' && c != '\t' && HasAt(f, i, EscapeChar(c) + t)
    requires ReadString(f, i + |EscapeChar(c)|, 0).Some?
    ensures var rest := ReadString(f, i + |EscapeChar(c)|, 0).value;
            ReadString(f, i, 0) == Some(([c] + rest.0, rest.1))
  {
    ByteAt(f, i, EscapeChar(c) + t, 0);
    if |EscapeChar(c)| == 2 {
      ByteAt(f, i, EscapeChar(c) + t, 1);
    }
  }

  lemma FirstWritten(s: string, t: string)
    requires s != ""
    ensures (Escape(s) + t)[0] == '\n' <==> s[0] == '\n'
  {
    AsciiCons(s);
  }

  /** Section 7.3.4.2: the reader stops exactly at the closing parenthesis and sees the text,
      whatever parentheses, backslashes and line ends it holds. */
  lemma {:induction false} EscapeReads(f: string, i: nat, s: string, t: string)
    requires HasAt(f, i, Escape(s) + (")" + t))
    ensures ReadString(f, i, 0) == Some((Shown(s), i + |Escape(s)| + 1))
    ensures HasAt(f, i + |Escape(s)| + 1, t)
    decreases |s|
  {
    hide Escape, Ascii, HasAt, ReadString, Replace;
    var close := ")" + t;
    if s == "" {
      EscapeNothing(close);
      CloseRead(f, i, t);
    } else {
      AsciiCons(s);
      var c := if Kept(s[0]) then s[0] else '?';
      var w := EscapeChar(c);
      assert w + Escape(s[1..]) + close == w + (Escape(s[1..]) + close);
      Split(f, i, w, Escape(s[1..]) + close);
      EscapeReads(f, i + |w|, s[1..], t);
      if c == '\t' {
        BlanksRead(f, i, Escape(s[1..]) + close);
      } else if c != '\r' {
        CharRead(f, i, c, Escape(s[1..]) + close);
      } else if |s| > 1 && s[1] == '\n' {
        LineEndWritten(f, i, s, close);
        EscapeReads(f, i + 2, s[2..], t);
        ReturnRead(f, i, "\n" + (Escape(s[2..]) + close));
      } else {
        if |s| > 1 {
          FirstWritten(s[1..], close);
        } else {
          EscapeNothing(close);
        }
        ReturnRead(f, i, Escape(s[1..]) + close);
      }
    }
  }

  lemma LineEndWritten(f: string, i: nat, s: string, close: string)
    requires |s| > 1 && s[0] == '\r' && s[1] == '\n' && HasAt(f, i, Escape(s) + close)
    ensures HasAt(f, i, "\r" + ("\n" + (Escape(s[2..]) + close))) && HasAt(f, i + 2, Escape(s[2..]) + close)
    ensures |Escape(s)| == 2 + |Escape(s[2..])|
  {
    hide Escape, HasAt;
    AsciiCons(s);
    AsciiCons(s[1..]);
    assert s[1..][1..] == s[2..];
    assert "\r" + ("\n" + Escape(s[2..])) + close == "\r" + ("\n" + (Escape(s[2..]) + close));
    Split(f, i, "\r", "\n" + (Escape(s[2..]) + close));
    Split(f, i + 1, "\n", Escape(s[2..]) + close);
  }

  /** A written CR, with the LF after it if there is one, is read as LF. */
  lemma ReturnRead(f: string, i: nat, t: string)
    requires HasAt(f, i, "\r" + t) && t != ""
    ensures var next := if t[0] == '\n' then i + 2 else i + 1;
            ReadString(f, next, 0).Some? ==>
            ReadString(f, i, 0) == Some(("\n" + ReadString(f, next, 0).value.0, ReadString(f, next, 0).value.1))
  {
    ByteAt(f, i, "\r" + t, 0);
    ByteAt(f, i, "\r" + t, 1);
  }

  lemma CloseRead(f: string, i: nat, t: string)
    requires HasAt(f, i, ")" + t)
    ensures ReadString(f, i, 0) == Some(("", i + 1)) && HasAt(f, i + 1, t)
  {
    ByteAt(f, i, ")" + t, 0);
    Split(f, i, ")", t);
  }

  lemma EscapeNothing(close: string)
    ensures Escape("") == "" && Escape("") + close == close
  {
  }

  const STREAM_START := "BT /F1 10 Tf 40 806 Td 14 TL\n"

  function Shows(lines: seq<string>): string {
    if lines == [] then "" else Shows(lines[..|lines| - 1]) + ("(" + (Escape(lines[|lines| - 1]) + ") Tj T*\n"))
  }

  function TextStream(lines: seq<string>): string {
    STREAM_START + Shows(lines) + "ET"
  }

  /** A text object of section 9.4 of ISO 32000-1: it selects the page's first font at 10 points and a line
      distance of 14, starts at the top left, and ends after the lines. */
  lemma StreamFramed(lines: seq<string>)
    ensures TextStream(lines) == "BT /F1 10 Tf 40 806 Td 14 TL\n" + Shows(lines) + "ET"
  {
  }

  lemma ShowsNext(lines: seq<string>, i: nat)
    requires i < |lines|
    ensures Shows(lines[..i + 1]) == Shows(lines[..i]) + ("(" + (Replace(Ascii(lines[i])) + ") Tj T*\n"))
  {
    hide Replace, Ascii;
    assert lines[..i + 1][..i] == lines[..i];
  }

  lemma ShowAppended(a: string, b: string, c: string, d: string, e: string)
    ensures a + b + c + d + e == a + (b + (c + (d + e)))
  {
  }

  method PdfTextStream(lines: seq<string>) returns (b: string)
    ensures b == TextStream(lines)
  {
    hide Ascii, Replace, Shows;
    b := STREAM_START;
    NoShows();
    for i := 0 to |lines|
      invariant b == STREAM_START + Shows(lines[..i])
    {
      ShowsNext(lines, i);
      var ascii := AsciiPdf(lines[i]);
      b := b + "(";
      b := b + Replace(ascii);
      b := b + ") Tj T*\n";
      ShowAppended(STREAM_START, Shows(lines[..i]), "(", Replace(ascii), ") Tj T*\n");
    }
    assert lines[..|lines|] == lines;
    b := b + "ET";
  }

  /** The strings a text stream shows, one per line. */
  function ReadShows(f: string, i: nat): Option<seq<string>>
    decreases if i <= |f| then |f| - i else 0
  {
    if HasAt(f, i, "ET") then Some([]) else
    var open :- Expect(f, i, "(");
    var text :- ReadString(f, open, 0);
    var next :- Expect(f, text.1, " Tj T*\n");
    if next <= i then None else
    var rest :- ReadShows(f, next);
    Some([text.0] + rest)
  }

  function ShownLines(lines: seq<string>): seq<string> {
    seq(|lines|, k requires 0 <= k < |lines| => Shown(lines[k]))
  }

  /** The written stream from line k on. */
  function ShowsFrom(lines: seq<string>): string {
    if lines == [] then "ET" else "(" + (Escape(lines[0]) + (")" + (" Tj T*\n" + ShowsFrom(lines[1..]))))
  }

  lemma {:induction false} ShowsForward(lines: seq<string>, k: nat)
    requires k <= |lines|
    ensures Shows(lines) + "ET" == Shows(lines[..k]) + ShowsFrom(lines[k..])
    decreases |lines| - k
  {
    hide Escape, Ascii, Replace;
    if k < |lines| {
      ShowsForward(lines, k + 1);
      assert lines[..k + 1][..k] == lines[..k] && lines[k..][1..] == lines[k + 1..];
      assert ") Tj T*\n" == ")" + " Tj T*\n";
      RegroupShow(Shows(lines[..k]), "(", Escape(lines[k]), ")", " Tj T*\n", ShowsFrom(lines[k + 1..]));
    } else {
      assert lines[..k] == lines && lines[k..] == [];
    }
  }

  lemma RegroupShow(a: string, b: string, c: string, d: string, e: string, t: string)
    ensures a + (b + (c + (d + e))) + t == a + (b + (c + (d + (e + t))))
  {
  }

  lemma {:induction false} ShowsRead(f: string, i: nat, lines: seq<string>)
    requires HasAt(f, i, ShowsFrom(lines))
    ensures ReadShows(f, i) == Some(ShownLines(lines))
    decreases |lines|
  {
    hide HasAt, Escape, Shown, ReadString, Expect;
    if lines != [] {
      var rest := " Tj T*\n" + ShowsFrom(lines[1..]);
      NotEnd(f, i, Escape(lines[0]) + (")" + rest));
      ExpectReads(f, i, "(", Escape(lines[0]) + (")" + rest));
      EscapeReads(f, i + 1, lines[0], rest);
      var j := i + 1 + |Escape(lines[0])| + 1;
      ExpectReads(f, j, " Tj T*\n", ShowsFrom(lines[1..]));
      ShowsRead(f, j + |" Tj T*\n"|, lines[1..]);
      assert ShownLines(lines) == [Shown(lines[0])] + ShownLines(lines[1..]);
    } else {
      assert ShownLines(lines) == [];
    }
  }

  lemma NotEnd(f: string, i: nat, t: string)
    requires HasAt(f, i, "(" + t)
    ensures !HasAt(f, i, "ET")
  {
    ByteAt(f, i, "(" + t, 0);
    if i + 2 <= |f| {
      assert f[i..i + 2][0] == f[i];
    }
  }

  /** A page's text stream shows exactly the page's lines. */
  lemma TextStreamReads(lines: seq<string>)
    ensures ReadShows(TextStream(lines), |STREAM_START|) == Some(ShownLines(lines))
  {
    hide Escape, Shows, ShowsFrom, ReadShows, ShownLines;
    ShowsForward(lines, 0);
    assert lines[0..] == lines && lines[..0] == [];
    assert Shows([]) == "" by {
      NoShows();
    }
    assert STREAM_START + Shows(lines) + "ET" == STREAM_START + ("" + ShowsFrom(lines));
    assert "" + ShowsFrom(lines) == ShowsFrom(lines);
    Middle(STREAM_START, ShowsFrom(lines), "");
    assert TextStream(lines) + "" == TextStream(lines);
    ShowsRead(TextStream(lines), |STREAM_START|, lines);
  }

  lemma NoShows()
    ensures Shows([]) == ""
  {
  }
}
