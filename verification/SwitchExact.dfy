/** What any line of a walk and any row of a forwarding table give, well formed or not. */
module SwitchExact {
  import opened SwitchTable
  import opened Text
  import opened Wrappers
  import TextLayout

  // ---- numbers and fields ----

  /** A decimal number with an optional sign is read as its value if that fits 64 bits. */
  lemma AtoiExactly(digits: string)
    requires digits != "" && AllDigits(digits)
    ensures var v := Value(digits);
      && Atoi(digits) == (if v <= 0x7fff_ffff_ffff_ffff then Some(v as int) else None)
      && Atoi("+" + digits) == (if v <= 0x7fff_ffff_ffff_ffff then Some(v as int) else None)
      && Atoi("-" + digits) == (if v <= 0x8000_0000_0000_0000 then Some(-(v as int)) else None)
  {
    hide Value;
    assert ("+" + digits)[1..] == digits && ("-" + digits)[1..] == digits;
    assert IsDigit(digits[0]);
  }

  /** No other text is a number. */
  lemma AtoiNothing(s: string)
    requires var digits := if s != "" && s[0] in "+-" then s[1..] else s; digits == "" || !AllDigits(digits)
    ensures Atoi(s) == None
  {
  }

  /** The number of a text: its first field that is one, or the trimmed text when none is. */
  lemma {:induction false} FirstAmongExactly(fields: seq<string>, otherwise: string, k: nat)
    requires k <= |fields| && forall j :: 0 <= j < k ==> Atoi(fields[j]).None?
    requires k < |fields| ==> Atoi(fields[k]).Some?
    ensures FirstAmong(fields, otherwise) == if k < |fields| then fields[k] else otherwise
  {
    hide Atoi;
    if k > 0 {
      FirstAmongExactly(fields[1..], otherwise, k - 1);
    }
  }

  lemma FirstNumberExactly(text: string, k: nat)
    requires var fields := TextLayout.Fields(text);
             k <= |fields| && (forall j :: 0 <= j < k ==> Atoi(fields[j]).None?)
             && (k < |fields| ==> Atoi(fields[k]).Some?)
    ensures var fields := TextLayout.Fields(text);
      FirstNumber(text) == if k < |fields| then fields[k] else TextLayout.TrimSpace(text)
  {
    hide Atoi;
    FirstAmongExactly(TextLayout.Fields(text), TextLayout.TrimSpace(text), k);
  }

  // ---- lines ----

  ghost predicate Quotes(s: string) {
    forall k :: 0 <= k < |s| ==> s[k] == '"'
  }

  /** Quotes are taken from both ends, and nothing else. */
  lemma QuotesExactly(s: string) returns (before: string, after: string)
    ensures s == before + TrimQuotes(s) + after && Quotes(before) && Quotes(after)
    ensures var t := TrimQuotes(s); t != "" ==> t[0] != '"' && t[|t| - 1] != '"'
  {
    hide QuotesStart, QuotesEnd;
    after := EndQuotes(s);
    before := StartQuotes(QuotesEnd(s));
  }

  lemma {:induction false} EndQuotes(s: string) returns (after: string)
    ensures s == QuotesEnd(s) + after && Quotes(after)
    ensures QuotesEnd(s) != "" ==> QuotesEnd(s)[|QuotesEnd(s)| - 1] != '"'
  {
    after := "";
    if s != "" && s[|s| - 1] == '"' {
      var less := EndQuotes(s[..|s| - 1]);
      after := less + ['"'];
      assert s == s[..|s| - 1] + [s[|s| - 1]];
    }
  }

  lemma {:induction false} StartQuotes(s: string) returns (before: string)
    ensures s == before + QuotesStart(s) && Quotes(before)
    ensures QuotesStart(s) != "" ==> QuotesStart(s)[0] != '"' && QuotesStart(s)[|QuotesStart(s)| - 1] == s[|s| - 1]
  {
    before := "";
    if s != "" && s[0] == '"' {
      var less := StartQuotes(s[1..]);
      before := ['"'] + less;
      assert s == [s[0]] + s[1..];
    }
  }

  /** A text is cut at the first place the separator occurs. */
  lemma {:induction false} CutExactly(s: string, sep: string, i: nat)
    requires sep != "" && i <= |s| && forall j :: 0 <= j < i ==> !HasAt(s, j, sep)
    requires HasAt(s, i, sep) || i == |s|
    ensures CutAt(s, sep) == if HasAt(s, i, sep) then Some((s[..i], s[i + |sep|..])) else None
  {
    if i == 0 {
      assert s[0..0 + |s|] == s;
    } else {
      assert !HasAt(s, 0, sep);
      forall j | 0 <= j < i - 1 ensures !HasAt(s[1..], j, sep) {
        ShiftAt(s, j, sep);
      }
      ShiftAt(s, i - 1, sep);
      CutExactly(s[1..], sep, i - 1);
      assert |s| >= |sep| ==> s[..|sep|] == s[0..0 + |sep|];
      assert [s[0]] + s[1..][..i - 1] == s[..i];
    }
  }

  lemma ShiftAt(s: string, j: nat, t: string)
    requires s != ""
    ensures HasAt(s[1..], j, t) <==> HasAt(s, j + 1, t)
  {
    if j + |t| <= |s| - 1 {
      assert s[1..][j..j + |t|] == s[j + 1..j + 1 + |t|];
    }
  }

  lemma {:induction false} ColonExactly(s: string, i: nat)
    requires i <= |s| && (forall j :: 0 <= j < i ==> s[j] != ':') && (i < |s| ==> s[i] == ':')
    ensures AfterColon(s) == if i < |s| then s[i + 1..] else s
  {
    if i < |s| {
      assert ':' in s;
      if i > 0 {
        ColonExactly(s[1..], i - 1);
      }
    }
  }

  /** What any line of a walk gives: nothing unless, trimmed, it begins with the base and a dot and holds an
      equals sign between blanks; else the key is what stands before the first of these, and the value what
      follows the next colon, or all that follows when there is none, without white space and quotes around
      it; and nothing if that is empty or begins with the words for a missing object. */
  lemma LineExactly(raw: string, base: string, i: nat, c: nat)
    requires var line := TextLayout.TrimSpace(raw);
             i <= |line| && (HasAt(line, i, " = ") || i == |line|) && forall j :: 0 <= j < i ==> !HasAt(line, j, " = ")
    requires var line := TextLayout.TrimSpace(raw);
             i + 3 <= c && (forall j :: i + 3 <= j < c && j < |line| ==> line[j] != ':')
             && (c < |line| ==> line[c] == ':') && (i + 3 <= |line| ==> c <= |line|)
    ensures var line := TextLayout.TrimSpace(raw);
            if !(base + "." <= line) || !HasAt(line, i, " = ") then ParseLine(raw, base) == None
            else
              var value := TrimQuotes(TextLayout.TrimSpace(if c < |line| then line[c + 1..] else line[i + 3..]));
              if value == "" || "No Such" <= value then ParseLine(raw, base) == None
              else
                var key := if base + "." <= line[..i] then line[|base| + 1..i] else line[..i];
                ParseLine(raw, base) == Some((key, value))
  {
    hide CutAt, AfterColon, TrimQuotes, TextLayout.TrimSpace;
    var line := TextLayout.TrimSpace(raw);
    CutExactly(line, " = ", i);
    if HasAt(line, i, " = ") {
      var rest := line[i + 3..];
      ColonExactly(rest, c - i - 3);
      assert c < |line| ==> rest[c - i - 3 + 1..] == line[c + 1..];
      if base + "." <= line[..i] {
        assert line[..i][|base + "."|..] == line[|base| + 1..i];
      }
    }
  }

  /** A walk's table: the last line that gives a key decides its value. */
  lemma {:induction false} LastLineDecides(lines: seq<string>, base: string, key: string, k: nat)
    requires k <= |lines|
    requires forall j :: k < j < |lines| ==> !Gives(lines[j], base, key)
    requires k < |lines| ==> Gives(lines[k], base, key)
    requires k == |lines| ==> forall j :: 0 <= j < |lines| ==> !Gives(lines[j], base, key)
    ensures key in TableOf(lines, base) <==> k < |lines|
    ensures k < |lines| ==> TableOf(lines, base)[key] == ParseLine(lines[k], base).value.1
  {
    hide ParseLine;
    if lines != [] {
      var n := |lines| - 1;
      if k < n {
        LastLineDecides(lines[..n], base, key, k);
      } else if k > n {
        LastLineDecides(lines[..n], base, key, n);
      }
    }
  }

  ghost predicate Gives(raw: string, base: string, key: string) {
    ParseLine(raw, base).Some? && ParseLine(raw, base).value.0 == key
  }

  // ---- places ----

  lemma JoinEmpty(rest: seq<string>, sep: string)
    requires rest != []
    ensures Join([""] + rest, sep) == sep + Join(rest, sep)
  {
    assert ([""] + rest)[1..] == rest;
  }

  lemma JoinLonger(x: char, rest: seq<string>, sep: string)
    requires rest != []
    ensures Join([[x] + rest[0]] + rest[1..], sep) == [x] + Join(rest, sep)
  {
    var parts := [[x] + rest[0]] + rest[1..];
    assert parts[1..] == rest[1..];
    if |rest| > 1 {
      Regrouped([x], rest[0], sep, Join(rest[1..], sep));
    }
  }

  lemma Regrouped(a: string, b: string, c: string, d: string)
    ensures a + b + c + d == a + (b + c + d)
  {
  }

  lemma {:induction false} JoinSplit(s: string, c: char)
    ensures Join(SplitAt(s, c), [c]) == s
  {
    hide Join;
    if s == "" {
      JoinOne("", [c]);
    } else {
      var rest := SplitAt(s[1..], c);
      JoinSplit(s[1..], c);
      JoinEmpty(rest, [c]);
      JoinLonger(s[0], rest, [c]);
      assert [s[0]] + s[1..] == s;
    }
  }

  lemma JoinOne(part: string, sep: string)
    ensures Join([part], sep) == part
  {
  }

  lemma {:induction false} JoinAppend(a: seq<string>, b: seq<string>, sep: string)
    requires a != [] && b != []
    ensures Join(a + b, sep) == Join(a, sep) + sep + Join(b, sep)
  {
    if |a| == 1 {
      assert (a + b)[1..] == b;
    } else {
      assert (a + b)[1..] == a[1..] + b;
      JoinAppend(a[1..], b, sep);
    }
  }

  /** What any key gives: the id is the text before its last six parts, and these are the octets of the
      address in decimal, each written with two hexadecimal digits. */
  lemma DecodeExactly(key: string)
    requires Decode(key).Some?
    ensures var at, parts := Decode(key).value, SplitAt(key, '.');
      |parts| >= 7
      && var last := parts[|parts| - 6..];
      && key == at.1 + "." + Join(last, ".")
      && forall i :: 0 <= i < 6 ==>
           Atoi(last[i]).Some? && 0 <= Atoi(last[i]).value <= 255
           && |at.0| == 17 && at.0[3 * i..3 * i + 2] == Hex2(Atoi(last[i]).value) && (i < 5 ==> at.0[3 * i + 2] == ':')
  {
    hide Atoi, Hex2, SplitAt;
    var parts := SplitAt(key, '.');
    var front, last := parts[..|parts| - 6], parts[|parts| - 6..];
    HexPartsMeans(last);
    JoinSplit(key, '.');
    assert parts == front + last;
    JoinAppend(front, last, ".");
    var mac := HexParts(last).value;
    forall i | 0 <= i < 6 ensures |mac[i]| == 2 && mac[i] == Hex2(Atoi(last[i]).value) {
      TwoDigits(Octet(last[i]).value);
    }
    SixJoined(mac);
  }

  lemma TwoDigits(v: nat)
    requires v < 256
    ensures |Hex2(v)| == 2
  {
  }

  lemma SixJoined(parts: seq<string>)
    requires |parts| == 6 && forall i :: 0 <= i < 6 ==> |parts[i]| == 2
    ensures var s := Join(parts, ":");
      |s| == 17 && forall i :: 0 <= i < 6 ==> s[3 * i..3 * i + 2] == parts[i] && (i < 5 ==> s[3 * i + 2] == ':')
  {
    SixthJoined(parts, 6);
  }

  lemma {:induction false} SixthJoined(parts: seq<string>, n: nat)
    requires |parts| == n > 0 && forall i :: 0 <= i < n ==> |parts[i]| == 2
    ensures var s := Join(parts, ":");
      |s| == 3 * n - 1
      && forall i :: 0 <= i < n ==> s[3 * i..3 * i + 2] == parts[i] && (i < n - 1 ==> s[3 * i + 2] == ':')
  {
    if n > 1 {
      SixthJoined(parts[1..], n - 1);
      var s, rest := Join(parts, ":"), Join(parts[1..], ":");
      assert s == parts[0] + ":" + rest;
      forall i | 0 <= i < n
        ensures s[3 * i..3 * i + 2] == parts[i] && (i < n - 1 ==> s[3 * i + 2] == ':')
      {
        if i > 0 {
          assert parts[1..][i - 1] == parts[i];
          assert s[3..] == rest;
          assert s[3 * i..3 * i + 2] == rest[3 * (i - 1)..3 * (i - 1) + 2];
          assert i < n - 1 ==> s[3 * i + 2] == rest[3 * (i - 1) + 2];
        } else {
          assert s[0..2] == parts[0];
        }
      }
    } else {
      assert parts[0][0..2] == parts[0];
    }
  }

  /** The place of a row: the bridge port is the number in its value, the interface the number the bridge
      port maps to, and the name that of the interface; what is missing in a table is empty. */
  lemma PlaceExactly(key: string, port: string, bridgePorts: map<string, string>, ifNames: map<string, string>)
    requires Decode(key).Some?
    ensures var p := FirstNumber(port);
            var index := if p in bridgePorts then FirstNumber(bridgePorts[p]) else "";
            var name := if index in ifNames then ifNames[index] else "";
      Locate(key, port, bridgePorts, ifNames)
      == Some(Location(Decode(key).value.0, Decode(key).value.1, p, index, name))
  {
    hide Decode, Atoi;
    NoNumber();
  }

  lemma NoNumber()
    ensures FirstNumber("") == ""
  {
  }
}
