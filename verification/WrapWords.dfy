/** Where wrapped lines are cut, and that words stay whole. */
module WrapWords {
  import opened TextLayout

  /** White space is the tab, the line ends, the two separators between them and the blank. */
  lemma SpacesAre(c: char)
    ensures IsSpace(c) <==> 9 <= c as int <= 13 || c as int == 32
  {
  }

  ghost predicate AllSpace(s: string) {
    forall k :: 0 <= k < |s| ==> IsSpace(s[k])
  }

  lemma {:induction false} EndTrimmed(s: string) returns (after: string)
    ensures s == TrimEnd(s) + after && AllSpace(after)
  {
    hide IsSpace;
    after := "";
    if s != "" && IsSpace(s[|s| - 1]) {
      var less := EndTrimmed(s[..|s| - 1]);
      after := less + [s[|s| - 1]];
      assert s == s[..|s| - 1] + [s[|s| - 1]];
    }
  }

  lemma {:induction false} StartTrimmed(s: string) returns (before: string)
    ensures s == before + TrimStart(s) && AllSpace(before)
  {
    hide IsSpace;
    before := "";
    if s != "" && IsSpace(s[0]) {
      var less := StartTrimmed(s[1..]);
      before := [s[0]] + less;
      assert s == [s[0]] + s[1..];
    }
  }

  /** Trimming takes white space from both ends and nothing else, and all of it. */
  lemma TrimExactly(s: string) returns (before: string, after: string)
    ensures s == before + TrimSpace(s) + after && AllSpace(before) && AllSpace(after)
    ensures TrimSpace(s) != "" ==> !IsSpace(TrimSpace(s)[0]) && !IsSpace(TrimSpace(s)[|TrimSpace(s)| - 1])
  {
    hide IsSpace, TrimStart, TrimEnd;
    after := EndTrimmed(s);
    before := StartTrimmed(TrimEnd(s));
  }

  /** Trailing blanks, and only these, are taken from a line before it is wrapped. */
  lemma {:induction false} BlanksTrimmed(s: string) returns (after: string)
    ensures s == TrimBlanks(s) + after && forall k :: 0 <= k < |after| ==> after[k] == ' '
    ensures TrimBlanks(s) != "" ==> TrimBlanks(s)[|TrimBlanks(s)| - 1] != ' '
  {
    after := "";
    if s != "" && s[|s| - 1] == ' ' {
      var less := BlanksTrimmed(s[..|s| - 1]);
      after := less + " ";
      assert s == s[..|s| - 1] + [s[|s| - 1]];
    }
  }

  /** Without lines there is one page, with the placeholder. */
  lemma NoLines(perPage: nat)
    requires perPage > 0
    ensures Pages([], perPage) == [["Infracheck report"]]
  {
  }

  /** A line longer than the width is cut at its last blank within the width, unless that would leave less
      than the least length, and then at the width. */
  lemma CutExactly(line: string, width: nat, least: nat)
    requires 0 < width < |line|
    ensures var cut := Cut(line, width, least);
      && cut <= width
      && (cut < width ==> least <= cut && line[cut] == ' ' && forall k :: cut < k < width ==> line[k] != ' ')
      && (cut == width ==> forall k :: least <= k < width ==> line[k] != ' ')
  {
  }

  // ---- words ----

  /** A word ends where it did when white space follows it. */
  lemma {:induction false} WordEndAppend(a: string, b: string)
    requires b == "" || IsSpace(b[0])
    ensures WordEnd(a + b) == WordEnd(a)
  {
    hide IsSpace;
    if a == "" {
      assert a + b == b;
    } else {
      WordEndAppend(a[1..], b);
      assert (a + b)[1..] == a[1..] + b;
    }
  }

  lemma SkipSpace(s: string)
    requires s != "" && IsSpace(s[0])
    ensures Fields(s) == Fields(s[1..])
  {
  }

  lemma NextWord(s: string)
    requires s != "" && !IsSpace(s[0])
    ensures Fields(s) == [s[..WordEnd(s)]] + Fields(s[WordEnd(s)..]) && WordEnd(s) > 0
  {
  }

  /** The words of two texts, the second of which starts with white space. */
  lemma {:induction false} FieldsAppend(a: string, b: string)
    requires b == "" || IsSpace(b[0])
    ensures Fields(a + b) == Fields(a) + Fields(b)
    decreases |a|
  {
    hide IsSpace, Fields, WordEnd;
    if a == "" {
      NoFields();
      assert a + b == b;
    } else if IsSpace(a[0]) {
      SkipSpace(a);
      SkipSpace(a + b);
      assert (a + b)[1..] == a[1..] + b;
      FieldsAppend(a[1..], b);
    } else {
      var n := WordEnd(a);
      WordEndAppend(a, b);
      NextWord(a);
      NextWord(a + b);
      assert (a + b)[..n] == a[..n] && (a + b)[n..] == a[n..] + b;
      FieldsAppend(a[n..], b);
    }
  }

  lemma {:induction false} SpaceFields(s: string)
    requires AllSpace(s)
    ensures Fields(s) == []
  {
    hide IsSpace, Fields;
    if s == "" {
      NoFields();
    } else {
      SkipSpace(s);
      SpaceFields(s[1..]);
    }
  }

  lemma {:induction false} SpaceAhead(s: string, t: string)
    requires AllSpace(s)
    ensures Fields(s + t) == Fields(t)
  {
    hide IsSpace, Fields;
    if s == "" {
      assert s + t == t;
    } else {
      SkipSpace(s + t);
      assert (s + t)[1..] == s[1..] + t;
      SpaceAhead(s[1..], t);
    }
  }

  lemma FieldsTrimmed(s: string)
    ensures Fields(TrimSpace(s)) == Fields(s)
  {
    hide Fields, TrimSpace;
    var before, after := TrimExactly(s);
    assert s == before + (TrimSpace(s) + after);
    SpaceAhead(before, TrimSpace(s) + after);
    FieldsAppend(TrimSpace(s), after);
    SpaceFields(after);
  }

  /** Every n characters in a row hold a blank. */
  ghost predicate Loose(s: string, n: nat) {
    forall i :: 0 <= i <= |s| - n ==> BlankIn(s, i, n)
  }

  ghost predicate BlankIn(s: string, i: nat, n: nat)
    requires i + n <= |s|
  {
    exists k :: i <= k < i + n && s[k] == ' '
  }

  lemma LoosePart(s: string, before: string, part: string, after: string, n: nat)
    requires Loose(s, n) && s == before + part + after
    ensures Loose(part, n)
  {
    forall i | 0 <= i <= |part| - n ensures BlankIn(part, i, n) {
      assert BlankIn(s, |before| + i, n);
      var k :| |before| + i <= k < |before| + i + n && s[k] == ' ';
      assert part[k - |before|] == s[k];
    }
  }

  /** The words of all lines, in order. */
  function LineFields(lines: seq<string>): seq<string> {
    if lines == [] then [] else LineFields(lines[..|lines| - 1]) + Fields(lines[|lines| - 1])
  }

  lemma {:induction false} LineFieldsAppend(a: seq<string>, b: seq<string>)
    ensures LineFields(a + b) == LineFields(a) + LineFields(b)
  {
    hide Fields;
    if b == [] {
      assert a + b == a;
    } else {
      LineFieldsAppend(a, b[..|b| - 1]);
      assert (a + b)[..|a + b| - 1] == a + b[..|b| - 1];
    }
  }

  lemma LineFieldsOne(line: string)
    ensures LineFields([line]) == Fields(line)
  {
    assert [line][..0] == [];
  }

  /** Where no word is too long to be moved to the next line as a whole, none is cut: the lines hold the
      words of the text, in order. */
  lemma {:induction false} WordsWhole(line: string, width: nat)
    requires width > 35 && Loose(line, width - 35)
    ensures LineFields(WrapLine(line, width)) == Fields(line)
    decreases |line|
  {
    hide Fields, LineFields, TrimSpace, Loose, BlankIn, Cut;
    if |line| <= width {
      LineFieldsOne(line);
    } else {
      var cut := Cut(line, width, 35);
      CutExactly(line, width, 35);
      LooseCut(line, width, cut);
      var rest := TrimSpace(line[cut..]);
      var before, after := TrimExactly(line[cut..]);
      assert line == line[..cut] + line[cut..];
      assert line == (line[..cut] + before) + rest + after;
      LoosePart(line, line[..cut] + before, rest, after, width - 35);
      WordsWhole(rest, width);
      FieldsTrimmed(line[cut..]);
      FieldsAppend(line[..cut], line[cut..]);
      LineFieldsOne(line[..cut]);
      LineFieldsAppend([line[..cut]], WrapLine(rest, width));
    }
  }

  lemma LooseCut(line: string, width: nat, cut: nat)
    requires 35 < width < |line| && Loose(line, width - 35)
    requires cut < width ==> line[cut] == ' '
    requires cut == width ==> forall k :: 35 <= k < width ==> line[k] != ' '
    requires cut <= width
    ensures cut < width && IsSpace(line[cut])
  {
    assert BlankIn(line, 35, width - 35);
  }

  /** So the wrapped text has the words of the text. */
  lemma {:induction false} AllWordsWhole(lines: seq<string>, width: nat)
    requires width > 35 && forall k :: 0 <= k < |lines| ==> Loose(lines[k], width - 35)
    ensures LineFields(WrapAll(lines, width)) == LineFields(lines)
  {
    hide Fields, WrapLine, TrimBlanks, Loose;
    if lines != [] {
      var front, last := lines[..|lines| - 1], lines[|lines| - 1];
      AllWordsWhole(front, width);
      var after := BlanksTrimmed(last);
      assert last == "" + TrimBlanks(last) + after;
      LoosePart(last, "", TrimBlanks(last), after, width - 35);
      WordsWhole(TrimBlanks(last), width);
      LineFieldsAppend(WrapAll(front, width), WrapLine(TrimBlanks(last), width));
      BlanksAreSpace(after);
      FieldsAppend(TrimBlanks(last), after);
      SpaceFields(after);
    }
  }

  lemma BlanksAreSpace(s: string)
    requires forall k :: 0 <= k < |s| ==> s[k] == ' '
    ensures AllSpace(s)
  {
  }
}
