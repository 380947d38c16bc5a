/** Wrapping, truncating and paging of report text. One char per byte; white space is ASCII. */
module TextLayout {
  import opened Text

  predicate IsSpace(c: char) {
    c in {'\t', '\n', 11 as char, 12 as char, '\r', ' '}
  }

  /** The text without its white space. */
  function Solid(s: string): string {
    if s == [] then [] else Solid(s[..|s| - 1]) + (if IsSpace(s[|s| - 1]) then [] else [s[|s| - 1]])
  }

  function Concat<T>(parts: seq<seq<T>>): seq<T> {
    if parts == [] then [] else Concat(parts[..|parts| - 1]) + parts[|parts| - 1]
  }

  lemma {:induction false} SolidAppend(a: string, b: string)
    ensures Solid(a + b) == Solid(a) + Solid(b)
  {
    if b == [] {
      assert a + b == a;
    } else {
      SolidAppend(a, b[..|b| - 1]);
      assert (a + b)[..|a + b| - 1] == a + b[..|b| - 1];
    }
  }

  lemma {:induction false} ConcatAppend<T>(a: seq<seq<T>>, b: seq<seq<T>>)
    ensures Concat(a + b) == Concat(a) + Concat(b)
  {
    if b == [] {
      assert a + b == a;
    } else {
      ConcatAppend(a, b[..|b| - 1]);
      assert (a + b)[..|a + b| - 1] == a + b[..|b| - 1];
    }
  }

  lemma ConcatOne<T>(part: seq<T>)
    ensures Concat([part]) == part
  {
    assert [part][..0] == [] && [] + part == part;
  }

  /** strings.TrimRight with a single cut character. */
  function TrimBlanks(s: string): (r: string)
    ensures |r| <= |s|
  {
    if s != [] && s[|s| - 1] == ' ' then TrimBlanks(s[..|s| - 1]) else s
  }

  function TrimEnd(s: string): (r: string)
    ensures |r| <= |s| && Solid(r) == Solid(s)
    ensures r != [] ==> !IsSpace(r[|r| - 1])
    ensures r != [] ==> r[0] == s[0]
  {
    if s != [] && IsSpace(s[|s| - 1]) then TrimEnd(s[..|s| - 1]) else s
  }

  function TrimStart(s: string): (r: string)
    ensures |r| <= |s| && Solid(r) == Solid(s)
    ensures r != [] ==> !IsSpace(r[0])
    ensures r != [] ==> r[|r| - 1] == s[|s| - 1]
  {
    if s != [] && IsSpace(s[0]) then
      assert Solid(s) == Solid(s[1..]) by {
        SolidAppend([s[0]], s[1..]);
        assert [s[0]] + s[1..] == s;
        assert [s[0]][..0] == [];
      }
      TrimStart(s[1..])
    else s
  }

  /** strings.TrimSpace. */
  function TrimSpace(s: string): (r: string)
    ensures |r| <= |s| && Solid(r) == Solid(s)
    ensures r != [] ==> !IsSpace(r[0]) && !IsSpace(r[|r| - 1])
  {
    TrimStart(TrimEnd(s))
  }

  lemma NothingToTrim(s: string)
    requires s != "" && !IsSpace(s[0]) && !IsSpace(s[|s| - 1])
    ensures TrimSpace(s) == s
  {
  }

  /** strings.LastIndex(s, " "). */
  function LastBlank(s: string): (i: int)
    ensures -1 <= i < |s| && (i >= 0 ==> s[i] == ' ')
    ensures forall k :: i < k < |s| ==> s[k] != ' '
  {
    if s == [] then -1
    else if s[|s| - 1] == ' ' then |s| - 1 else LastBlank(s[..|s| - 1])
  }

  /** Where a line longer than the width is cut: at the last blank unless that leaves too little. */
  function Cut(line: string, width: nat, least: nat): (cut: nat)
    requires 0 < width < |line|
    ensures cut <= width && (cut == width || (least <= cut < width && line[cut] == ' '))
    ensures least > 0 ==> cut > 0
  {
    var blank := LastBlank(line[..width]);
    if blank < least then width else blank
  }

  function WrapLine(line: string, width: nat): seq<string>
    requires width > 0
    decreases |line|
  {
    if |line| <= width then [line]
    else
      var cut := Cut(line, width, 35);
      [line[..cut]] + WrapLine(TrimSpace(line[cut..]), width)
  }

  function WrapAll(lines: seq<string>, width: nat): seq<string>
    requires width > 0
  {
    if lines == [] then []
    else WrapAll(lines[..|lines| - 1], width) + WrapLine(TrimBlanks(lines[|lines| - 1]), width)
  }

  method WrapLines(lines: seq<string>, width: nat) returns (out: seq<string>)
    requires width > 0
    ensures out == WrapAll(lines, width)
  {
    out := [];
    for i := 0 to |lines|
      invariant out == WrapAll(lines[..i], width)
    {
      assert lines[..i + 1][..i] == lines[..i];
      var line := TrimBlanks(lines[i]);
      if line == "" {
        out := out + [""];
        continue;
      }
      while |line| > width
        invariant out + WrapLine(line, width) == WrapAll(lines[..i + 1], width)
        decreases |line|
      {
        var cut := LastBlank(line[..width]);
        if cut < 35 {
          cut := width;
        }
        CutIsBlank(line, width, 35);
        CellStep(out, line[..cut], WrapLine(TrimSpace(line[cut..]), width));
        out := out + [line[..cut]];
        line := TrimSpace(line[cut..]);
      }
      out := out + [line];
    }
    assert lines[..|lines|] == lines;
  }

  lemma {:induction false} WrapLineFits(line: string, width: nat)
    requires width > 0
    ensures forall k :: 0 <= k < |WrapLine(line, width)| ==> |WrapLine(line, width)[k]| <= width
    ensures Solid(Concat(WrapLine(line, width))) == Solid(line)
    ensures WrapLine(line, width) != []
    decreases |line|
  {
    hide Solid, Concat, Cut, TrimSpace;
    if |line| <= width {
      ConcatOne(line);
    } else {
      var cut := Cut(line, width, 35);
      var rest := TrimSpace(line[cut..]);
      WrapLineFits(rest, width);
      ConcatAppend([line[..cut]], WrapLine(rest, width));
      ConcatOne(line[..cut]);
      SolidAppend(line[..cut], Concat(WrapLine(rest, width)));
      SolidAppend(line[..cut], line[cut..]);
      assert line[..cut] + line[cut..] == line;
    }
  }

  lemma {:induction false} TrimBlanksKeeps(s: string)
    ensures Solid(TrimBlanks(s)) == Solid(s)
  {
    if s != [] && s[|s| - 1] == ' ' {
      TrimBlanksKeeps(s[..|s| - 1]);
    }
  }

  /** Every wrapped line fits, and the lines together carry the same text in the same order. */
  lemma {:induction false} WrapAllFits(lines: seq<string>, width: nat)
    requires width > 0
    ensures forall k :: 0 <= k < |WrapAll(lines, width)| ==> |WrapAll(lines, width)[k]| <= width
    ensures Solid(Concat(WrapAll(lines, width))) == Solid(Concat(lines))
    ensures |WrapAll(lines, width)| >= |lines|
  {
    if lines != [] {
      var front, last := lines[..|lines| - 1], TrimBlanks(lines[|lines| - 1]);
      WrapAllFits(front, width);
      WrapLineFits(last, width);
      ConcatAppend(WrapAll(front, width), WrapLine(last, width));
      SolidAppend(Concat(WrapAll(front, width)), Concat(WrapLine(last, width)));
      SolidAppend(Concat(front), lines[|lines| - 1]);
      TrimBlanksKeeps(lines[|lines| - 1]);
    }
  }

  const PLACEHOLDER := "Infracheck report"

  function Split(lines: seq<string>, perPage: nat): seq<seq<string>>
    requires perPage > 0
  {
    if lines == [] then []
    else if |lines| <= perPage then [lines]
    else [lines[..perPage]] + Split(lines[perPage..], perPage)
  }

  /** Pages of perPage lines; a placeholder when there is nothing to say. */
  function Pages(lines: seq<string>, perPage: nat): seq<seq<string>>
    requires perPage > 0
  {
    if lines == [] then [[PLACEHOLDER]] else Split(lines, perPage)
  }

  lemma FirstPage(pages: seq<seq<string>>, rest: seq<string>, perPage: nat)
    requires perPage > 0 && rest != []
    ensures var n := if |rest| < perPage then |rest| else perPage;
            pages + Split(rest, perPage) == pages + [rest[..n]] + Split(rest[n..], perPage)
  {
    if |rest| <= perPage {
      assert rest[..|rest|] == rest && rest[|rest|..] == [];
    }
  }

  method Paginate(lines: seq<string>, perPage: nat) returns (pages: seq<seq<string>>)
    requires perPage > 0
    ensures pages == Pages(lines, perPage)
  {
    var rest := lines;
    pages := [];
    assert [] + Split(lines, perPage) == Split(lines, perPage);
    while |rest| > 0
      invariant pages + Split(rest, perPage) == Split(lines, perPage)
      decreases |rest|
    {
      var n := perPage;
      if |rest| < n {
        n := |rest|;
      }
      FirstPage(pages, rest, perPage);
      pages := pages + [rest[..n]];
      rest := rest[n..];
    }
    if |pages| == 0 {
      pages := pages + [[PLACEHOLDER]];
    }
  }

  /** The pages are the lines in order, every page but the last is full, and none is empty. */
  lemma {:induction false} PagesTile(lines: seq<string>, perPage: nat)
    requires perPage > 0 && lines != []
    ensures var pages := Pages(lines, perPage);
      && Concat(pages) == lines && pages != []
      && (forall k :: 0 <= k < |pages| - 1 ==> |pages[k]| == perPage)
      && 0 < |pages[|pages| - 1]| <= perPage
    decreases |lines|
  {
    hide Concat;
    if |lines| <= perPage {
      ConcatOne(lines);
    } else {
      var rest := Split(lines[perPage..], perPage);
      PagesTile(lines[perPage..], perPage);
      ConcatOne(lines[..perPage]);
      ConcatAppend([lines[..perPage]], rest);
      assert Split(lines, perPage) == [lines[..perPage]] + rest;
    }
  }

  /** The first word of a text that starts with one, and the number of its bytes. */
  function WordEnd(s: string): (n: nat)
    ensures n <= |s| && (s != [] && !IsSpace(s[0]) ==> n > 0)
    ensures n < |s| ==> IsSpace(s[n])
    ensures forall k :: 0 <= k < n ==> !IsSpace(s[k])
  {
    if s == [] || IsSpace(s[0]) then 0 else 1 + WordEnd(s[1..])
  }

  /** strings.Fields. */
  function Fields(s: string): (words: seq<string>)
    decreases |s|
  {
    var t := TrimStart(s);
    if t == [] then [] else [t[..WordEnd(t)]] + Fields(t[WordEnd(t)..])
  }

  function Collapse(s: string): string {
    Join(Fields(s), " ")
  }

  lemma {:induction false} SolidWord(s: string)
    requires forall k :: 0 <= k < |s| ==> !IsSpace(s[k])
    ensures Solid(s) == s
  {
    if s != [] {
      SolidWord(s[..|s| - 1]);
    }
  }

  lemma FieldsSplit(s: string) returns (word: string, rest: string)
    requires TrimStart(s) != []
    ensures word != [] && word + rest == TrimStart(s) && Fields(s) == [word] + Fields(rest)
    ensures rest != [] ==> IsSpace(rest[0])
    ensures Solid(word) == word
  {
    var t := TrimStart(s);
    word, rest := t[..WordEnd(t)], t[WordEnd(t)..];
    SolidWord(word);
  }

  /** Collapsing white space never lengthens a text and keeps everything else. */
  lemma {:induction false} CollapseKeeps(s: string)
    ensures |Collapse(s)| <= |s| && Solid(Collapse(s)) == Solid(s)
    ensures TrimStart(s) != [] ==> Collapse(s) != []
    ensures s != [] && IsSpace(s[0]) ==> |Collapse(s)| < |s|
    decreases |s|
  {
    hide WordEnd, Fields, Solid, Join;
    JoinNone();
    if s != [] && IsSpace(s[0]) {
      SkipsBlank(s);
      CollapseKeeps(s[1..]);
    } else if s == [] {
      CollapseEmpty();
    } else {
      var word, rest := FieldsSplit(s);
      CollapseKeeps(rest);
      NoFields();
      JoinCons(word, Fields(rest));
      if Fields(rest) == [] {
        SolidAppend(word, rest);
        SolidBlank();
      } else {
        SolidThenBlank(word);
        CollapseStep(s, word, rest, word + " ", Collapse(rest));
      }
    }
  }

  lemma CollapseEmpty()
    ensures Collapse("") == ""
  {
  }

  lemma SkipsBlank(s: string)
    requires s != [] && IsSpace(s[0])
    ensures Collapse(s) == Collapse(s[1..]) && TrimStart(s) == TrimStart(s[1..]) && Solid(s) == Solid(s[1..])
  {
    assert Fields(s) == Fields(s[1..]);
    SolidAppend([s[0]], s[1..]);
    assert [s[0]] + s[1..] == s && [s[0]][..0] == [];
  }

  lemma CollapseStep(s: string, word: string, rest: string, spaced: string, more: string)
    requires word + rest == s && |spaced| <= |word| + 1 && Solid(spaced) == Solid(word)
    requires Solid(more) == Solid(rest) && |more| < |rest|
    ensures |spaced + more| <= |s| && Solid(spaced + more) == Solid(s)
  {
    hide Solid;
    SolidAppend(word, rest);
    SolidAppend(spaced, more);
  }

  lemma SolidThenBlank(word: string)
    ensures Solid(word + " ") == Solid(word)
  {
    assert (word + " ")[..|word|] == word;
  }

  lemma JoinCons(word: string, words: seq<string>)
    ensures Join([word] + words, " ") == if words == [] then word else word + " " + Join(words, " ")
  {
    assert ([word] + words)[1..] == words;
  }

  lemma JoinNone()
    ensures Join([], " ") == ""
  {
  }

  lemma SolidBlank()
    ensures Solid(" ") == "" && Solid("") == ""
  {
    assert " "[..0] == [];
  }

  lemma NoFields()
    ensures Fields("") == []
  {
  }

  /** report.truncate. */
  function Truncate(value: string, maxLen: nat): string {
    var text := Collapse(value);
    if maxLen <= 3 || |text| <= maxLen then text else text[..maxLen - 3] + "..."
  }

  function CellLines(value: string, width: nat, maxLines: nat): seq<string>
    requires width >= 8 && maxLines >= 1
    decreases maxLines
  {
    if |value| <= width || maxLines == 1 then [Truncate(value, width)]
    else
      var cut := Cut(value, width, 8);
      [TrimSpace(value[..cut])] + CellLines(TrimSpace(value[cut..]), width, maxLines - 1)
  }

  function Cell(value: string, width: int, maxLines: int): seq<string> {
    var text := TrimSpace(value);
    if text == "" then ["-"]
    else CellLines(text, if width < 8 then 8 else width, if maxLines < 1 then 1 else maxLines)
  }

  lemma CellStep(lines: seq<string>, head: string, rest: seq<string>)
    ensures lines + ([head] + rest) == lines + [head] + rest
  {
  }

  lemma CellStarts(input: string, width: int, maxLines: int)
    ensures var text := TrimSpace(input);
            Cell(input, width, maxLines) == if text == "" then ["-"]
              else [] + CellLines(text, if width < 8 then 8 else width, if maxLines < 1 then 1 else maxLines)
  {
  }

  lemma CellUnfold(value: string, width: nat, maxLines: nat)
    requires width >= 8 && maxLines >= 1
    ensures |value| <= width || maxLines == 1 ==> CellLines(value, width, maxLines) == [Truncate(value, width)]
    ensures !(|value| <= width || maxLines == 1) ==>
      var cut := Cut(value, width, 8);
      CellLines(value, width, maxLines) == [TrimSpace(value[..cut])]
          + CellLines(TrimSpace(value[cut..]), width, maxLines - 1)
  {
  }

  method WrapCell(input: string, widthIn: int, maxLinesIn: int) returns (lines: seq<string>)
    ensures lines == Cell(input, widthIn, maxLinesIn)
  {
    hide *;
    CellStarts(input, widthIn, maxLinesIn);
    var value := TrimSpace(input);
    if value == "" {
      return ["-"];
    }
    var width, maxLines := widthIn, maxLinesIn;
    if width < 8 {
      width := 8;
    }
    if maxLines < 1 {
      maxLines := 1;
    }
    lines := [];
    while |value| > width && |lines| < maxLines - 1
      invariant |lines| < maxLines && width >= 8
      invariant lines + CellLines(value, width, maxLines - |lines|) == Cell(input, widthIn, maxLinesIn)
      decreases |value|
    {
      CellUnfold(value, width, maxLines - |lines|);
      var cut := LastBlank(value[..width]);
      if cut < 8 {
        cut := width;
      }
      CutIsBlank(value, width, 8);
      var head, tail := TrimSpace(value[..cut]), TrimSpace(value[cut..]);
      CellStep(lines, head, CellLines(tail, width, maxLines - |lines| - 1));
      lines := lines + [head];
      value := tail;
    }
    CellUnfold(value, width, maxLines - |lines|);
    lines := lines + [Truncate(value, width)];
  }

  lemma CutIsBlank(line: string, width: nat, least: nat)
    requires 0 < width < |line|
    ensures Cut(line, width, least) == (if LastBlank(line[..width]) < least then width else LastBlank(line[..width]))
  {
  }

  lemma {:induction false} SolidNonBlank(s: string)
    requires s != [] && !IsSpace(s[0])
    ensures Solid(s) != []
  {
    if |s| > 1 {
      SolidNonBlank(s[..|s| - 1]);
    }
  }

  lemma {:induction false} SolidNonBlankEnd(s: string)
    requires s != [] && !IsSpace(s[|s| - 1])
    ensures Solid(s) != []
  {
  }

  /** A limit of at most three is ignored; every other one is kept. Whatever the limit, the result is
      the whole text with its blanks collapsed, or a beginning of it and an ellipsis. */
  lemma TruncateFits(value: string, width: nat)
    ensures |Truncate(value, width)| <= width <==> width > 3 || |Collapse(value)| <= width
    ensures TrimStart(value) != [] ==> Truncate(value, width) != []
    ensures TellsAll([Truncate(value, width)], value)
  {
    hide Solid, Collapse, TrimStart;
    CollapseKeeps(value);
    ConcatOne(Truncate(value, width));
    var text := Collapse(value);
    if width > 3 && |text| > width {
      var kept := text[..width - 3];
      assert Truncate(value, width)[..width - 3] == kept && Truncate(value, width)[width - 3..] == "...";
      SolidAppend(kept, text[width - 3..]);
      assert kept + text[width - 3..] == text;
      ConcatNone();
      assert [] + kept == kept;
    }
  }

  lemma TruncateShort(value: string, width: nat)
    requires width >= 8 && value != [] && !IsSpace(value[0])
    ensures Truncate(value, width) != [] && |Truncate(value, width)| <= width
    ensures TellsAll([Truncate(value, width)], value)
  {
    hide Truncate, TellsAll;
    TruncateFits(value, width);
  }

  lemma ConcatNone()
    ensures Concat<char>([]) == []
  {
  }

  /** The lines carry the whole text, or they end in an ellipsis after a beginning of it. */
  ghost predicate TellsAll(lines: seq<string>, text: string)
    requires lines != []
  {
    var last := lines[|lines| - 1];
    Solid(Concat(lines)) == Solid(text)
    || (|last| >= 3 && last[|last| - 3..] == "..."
        && Prefix(Solid(Concat(lines[..|lines| - 1]) + last[..|last| - 3]), Solid(text)))
  }

  lemma {:induction false} CellLinesFit(value: string, width: nat, maxLines: nat)
    requires width >= 8 && maxLines >= 1
    requires value != [] && !IsSpace(value[0]) && !IsSpace(value[|value| - 1])
    ensures var lines := CellLines(value, width, maxLines);
      && 1 <= |lines| <= maxLines && TellsAll(lines, value)
      && forall k :: 0 <= k < |lines| ==> lines[k] != [] && |lines[k]| <= width
    decreases maxLines
  {
    hide Solid, Truncate, Concat;
    if |value| <= width || maxLines == 1 {
      TruncateShort(value, width);
    } else {
      var cut := Cut(value, width, 8);
      var head, tail := TrimSpace(value[..cut]), TrimSpace(value[cut..]);
      assert value == value[..cut] + value[cut..];
      SolidAppend(value[..cut], value[cut..]);
      assert head != [] by {
        SolidNonBlank(value[..cut]);
        SolidBlank();
      }
      assert tail != [] by {
        SolidNonBlankEnd(value[cut..]);
        SolidBlank();
      }
      CellLinesFit(tail, width, maxLines - 1);
      CellJoins(head, CellLines(tail, width, maxLines - 1), tail, value);
    }
  }

  lemma CellJoins(head: string, lines: seq<string>, tail: string, value: string)
    requires lines != [] && TellsAll(lines, tail) && Solid(value) == Solid(head) + Solid(tail)
    ensures TellsAll([head] + lines, value)
  {
    hide Solid, Concat, TellsAll;
    if Solid(Concat(lines)) == Solid(tail) {
      CellJoinsWhole(head, lines, tail, value);
    } else {
      CellJoinsCut(head, lines, tail, value);
    }
  }

  lemma CellJoinsWhole(head: string, lines: seq<string>, tail: string, value: string)
    requires lines != [] && Solid(value) == Solid(head) + Solid(tail)
    requires Solid(Concat(lines)) == Solid(tail)
    ensures TellsAll([head] + lines, value)
  {
    hide Solid, Concat;
    ConcatOne(head);
    ConcatAppend([head], lines);
    SolidAppend(head, Concat(lines));
  }

  lemma CellJoinsCut(head: string, lines: seq<string>, tail: string, value: string)
    requires lines != [] && Solid(value) == Solid(head) + Solid(tail)
    requires TellsAll(lines, tail) && Solid(Concat(lines)) != Solid(tail)
    ensures TellsAll([head] + lines, value)
  {
    hide Solid, Concat;
    var front, last := lines[..|lines| - 1], lines[|lines| - 1];
    ConcatOne(head);
    ConcatAppend([head], front);
    assert ([head] + lines)[..|lines|] == [head] + front;
    var kept := last[..|last| - 3];
    assert head + Concat(front) + kept == head + (Concat(front) + kept);
    SolidAppend(head, Concat(front) + kept);
    LongerPrefix(Solid(head), Solid(Concat(front) + kept), Solid(tail));
  }

  lemma LongerPrefix(a: string, b: string, c: string)
    requires Prefix(b, c)
    ensures Prefix(a + b, a + c)
  {
  }

  /** A table cell gets between one and maxLines non-empty lines within its width, and they
      tell the whole text or say by an ellipsis that they do not. */
  lemma CellFits(value: string, width: int, maxLines: int)
    ensures var lines := Cell(value, width, maxLines);
      && 1 <= |lines| <= (if maxLines < 1 then 1 else maxLines)
      && (forall k :: 0 <= k < |lines| ==> lines[k] != [] && |lines[k]| <= if width < 8 then 8 else width)
      && (Solid(value) != [] ==> TellsAll(lines, value))
      && (Solid(value) == [] ==> lines == ["-"])
  {
    var text := TrimSpace(value);
    if text != "" {
      SolidNonBlank(text);
      CellLinesFit(text, if width < 8 then 8 else width, if maxLines < 1 then 1 else maxLines);
    }
  }
}
