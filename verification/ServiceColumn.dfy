/** The services column as a JSON list of strings: a reader after sections 5 and 7 of RFC 8259, and that it
    gets back every list the program writes. */
module ServiceColumn {
  import opened Classifier
  import opened Text
  import opened Wrappers

  /** The value of a hexadecimal digit. */
  function HexValue(c: char): Option<nat> {
    if '0' <= c <= '9' then Some(c as int - '0' as int)
    else if 'a' <= c <= 'f' then Some(c as int - 'a' as int + 10)
    else if 'A' <= c <= 'F' then Some(c as int - 'A' as int + 10)
    else None
  }

  /** The character after a backslash that stands for one by itself. */
  function Escaped(c: char): Option<char> {
    if c == '"' || c == '\\' || c == '/' then Some(c)
    else if c == 'b' then Some(8 as char) else if c == 'f' then Some(12 as char)
    else if c == 'n' then Some(10 as char) else if c == 'r' then Some(13 as char) else if c == 't' then Some(9 as char)
    else None
  }

  /** One character of a string, and where the next begins; only code points below 256 are read. */
  function ReadChar(s: string, i: nat): (r: Option<(char, nat)>)
    ensures r.Some? ==> i < r.value.1 <= |s|
  {
    if i >= |s| || s[i] == '"' || s[i] < ' ' then None
    else if s[i] != '\\' then Some((s[i], i + 1))
    else if i + 1 >= |s| then None
    else if s[i + 1] == 'u' then
      if i + 6 > |s| || s[i + 2] != '0' || s[i + 3] != '0' then None
      else
        var high :- HexValue(s[i + 4]);
        var low :- HexValue(s[i + 5]);
        Some(((16 * high + low) as char, i + 6))
    else
      var c :- Escaped(s[i + 1]);
      Some((c, i + 2))
  }

  /** The rest of a string up to its closing quote, and where the text goes on after that. */
  function ReadBody(s: string, i: nat): (r: Option<(string, nat)>)
    ensures r.Some? ==> i < r.value.1 <= |s|
    decreases |s| - i
  {
    if i < |s| && s[i] == '"' then Some(("", i + 1))
    else
      var c :- ReadChar(s, i);
      var rest :- ReadBody(s, c.1);
      Some(([c.0] + rest.0, rest.1))
  }

  function ReadElements(s: string, i: nat): (r: Option<(seq<string>, nat)>)
    decreases |s| - i
  {
    if i >= |s| || s[i] != '"' then None
    else
      var one :- ReadBody(s, i + 1);
      if one.1 < |s| && s[one.1] == ',' then
        var rest :- ReadElements(s, one.1 + 1);
        Some(([one.0] + rest.0, rest.1))
      else Some(([one.0], one.1))
  }

  /** A list of strings without white space between its parts. */
  function ReadList(s: string): Option<seq<string>> {
    if s == "" || s[0] != '[' then None
    else if s == "[]" then Some([])
    else
      var all :- ReadElements(s, 1);
      if all.1 + 1 == |s| && s[all.1] == ']' then Some(all.0) else None
  }

  lemma AtSplit(s: string, i: nat, a: string, b: string)
    requires HasAt(s, i, a + b)
    ensures HasAt(s, i, a) && HasAt(s, i + |a|, b)
  {
    assert (a + b)[..|a|] == a && (a + b)[|a|..] == b;
    assert s[i..i + |a + b|][..|a|] == s[i..i + |a|];
    assert s[i..i + |a + b|][|a|..] == s[i + |a|..i + |a| + |b|];
  }

  lemma HexRead(n: nat)
    requires n < 16
    ensures HexValue(HexDigit(n)) == Some(n)
  {
  }

  /** A written character is read back as itself. */
  lemma CharReads(s: string, i: nat, c: char)
    requires HasAt(s, i, JsonChar(c))
    ensures ReadChar(s, i) == Some((c, i + |JsonChar(c)|))
    ensures JsonChar(c) != "" && JsonChar(c)[0] != '"'
  {
    var t := JsonChar(c);
    CharAt(s, i, t, 0);
    if |t| >= 2 {
      CharAt(s, i, t, 1);
    }
    if |t| == 6 {
      CharAt(s, i, t, 2);
      CharAt(s, i, t, 3);
      CharAt(s, i, t, 4);
      CharAt(s, i, t, 5);
      HexRead(c as int / 16);
      HexRead(c as int % 16);
      assert 16 * (c as int / 16) + c as int % 16 == c as int;
    }
  }

  lemma CharAt(s: string, i: nat, t: string, k: nat)
    requires HasAt(s, i, t) && k < |t|
    ensures s[i + k] == t[k]
  {
    assert s[i..i + |t|][k] == s[i + k];
  }

  /** The characters written as a backslash and one more. */
  const SHORT: map<char, char> := map['"' := '"', '\\' := '\\', '\n' := 'n', '\r' := 'r', '\t' := 't', 8 as char := 'b',
                                      12 as char := 'f']

  /** How a character is written: short where it has a short form, as a code point where it is another
      control character or one that matters in HTML, and as itself otherwise. */
  lemma CharWritten(c: char)
    ensures JsonChar(c) ==
      if c in SHORT then ['\\', SHORT[c]]
      else if c as int < 32 || c == '<' || c == '>' || c == '&'
      then ['\\', 'u', '0', '0', HexDigit(c as int / 16), HexDigit(c as int % 16)]
      else [c]
  {
    assert "\\u00" == ['\\', 'u', '0', '0'];
  }

  lemma {:induction false} BodyReads(s: string, i: nat, text: string)
    requires HasAt(s, i, JsonBody(text) + ['"'])
    ensures ReadBody(s, i) == Some((text, i + |JsonBody(text)| + 1))
    decreases |text|
  {
    hide JsonChar, ReadChar;
    if text == "" {
      assert s[i] == s[i..i + 1][0];
    } else {
      var first, rest := JsonChar(text[0]), JsonBody(text[1..]);
      assert JsonBody(text) + ['"'] == first + (rest + ['"']);
      AtSplit(s, i, first, rest + ['"']);
      CharReads(s, i, text[0]);
      assert s[i] == s[i..i + |first|][0];
      BodyReads(s, i + |first|, text[1..]);
      assert [text[0]] + text[1..] == text;
    }
  }

  function Quoted(text: string): string {
    ['"'] + (JsonBody(text) + ['"'])
  }

  lemma QuotedParts(s: string, i: nat, text: string)
    requires HasAt(s, i, Quoted(text))
    ensures HasAt(s, i, ['"']) && HasAt(s, i + 1, JsonBody(text) + ['"']) && |Quoted(text)| == |JsonBody(text)| + 2
  {
    hide JsonBody;
    AtSplit(s, i, ['"'], JsonBody(text) + ['"']);
  }

  lemma QuotedReads(s: string, i: nat, text: string)
    requires HasAt(s, i, Quoted(text))
    ensures i < |s| && s[i] == '"' && ReadBody(s, i + 1) == Some((text, i + |Quoted(text)|))
  {
    hide Quoted, JsonBody, ReadBody;
    QuotedParts(s, i, text);
    CharAt(s, i, ['"'], 0);
    BodyReads(s, i + 1, text);
  }

  lemma Regroup(a: string, b: string, c: string, d: string)
    ensures a + b + c == a + (b + c) && a + b + c + d == (a + (b + c)) + d && a + b + c == (a + (b + c)) + ""
  {
  }

  lemma ElementsStep(list: seq<string>)
    requires list != []
    ensures Elements(list) == Quoted(list[0]) + if |list| == 1 then "" else [','] + Elements(list[1..])
  {
    hide JsonBody;
    Regroup(['"'], JsonBody(list[0]), ['"'], [','] + Elements(list[1..]));
  }

  lemma {:induction false} ElementsRead(s: string, i: nat, list: seq<string>)
    requires list != [] && HasAt(s, i, Elements(list)) && i + |Elements(list)| < |s| && s[i + |Elements(list)|] == ']'
    ensures ReadElements(s, i) == Some((list, i + |Elements(list)|))
    decreases |list|
  {
    hide Quoted, Elements, ReadBody, HasAt;
    ElementsStep(list);
    var one := Quoted(list[0]);
    if |list| == 1 {
      assert one + "" == one;
      QuotedReads(s, i, list[0]);
      assert [list[0]] == list;
    } else {
      var rest := Elements(list[1..]);
      AtSplit(s, i, one, [','] + rest);
      AtSplit(s, i + |one|, [','], rest);
      CharAt(s, i + |one|, [','], 0);
      QuotedReads(s, i, list[0]);
      ElementsRead(s, i + |one| + 1, list[1..]);
      assert [list[0]] + list[1..] == list;
    }
  }

  /** The column a scan writes reads back as the list of services it stored, whatever these hold. */
  lemma ColumnReads(list: seq<string>)
    ensures ReadList(Column(Some(list))) == Some(list)
  {
    hide ReadElements, Elements;
    var s := Column(Some(list));
    var all := Elements(list);
    assert s == ['['] + all + [']'] && s[0] == '[';
    if list == [] {
      NoElements();
      assert s == "[]";
    } else {
      assert s[1..1 + |all|] == all;
      SomeElements(list);
      CharAt(s, 1, all, 0);
      ElementsRead(s, 1, list);
    }
  }

  lemma NoElements()
    ensures Elements([]) == ""
  {
  }

  lemma SomeElements(list: seq<string>)
    requires list != []
    ensures Elements(list) != "" && Elements(list)[0] == '"'
  {
  }

  /** So two lists written the same are the same. */
  lemma ColumnsDiffer(a: seq<string>, b: seq<string>)
    requires Column(Some(a)) == Column(Some(b))
    ensures a == b
  {
    ColumnReads(a);
    ColumnReads(b);
  }
}
