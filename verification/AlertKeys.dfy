/** Which alerts are about the same thing: the words of a text, and the table of topics that give a key. */
module AlertKeys {
  import opened AlertDedupe
  import opened Text
  import TextLayout

  // ---- words ----

  predicate Alnum(c: char) {
    'a' <= c <= 'z' || 'A' <= c <= 'Z' || '0' <= c <= '9'
  }

  /** How many letters and digits a text starts with. */
  function RunEnd(s: string): (n: nat)
    ensures n <= |s| && (s != "" && Alnum(s[0]) ==> n > 0)
    ensures forall k :: 0 <= k < n ==> Alnum(s[k])
    ensures n < |s| ==> !Alnum(s[n])
  {
    if s == "" || !Alnum(s[0]) then 0 else 1 + RunEnd(s[1..])
  }

  /** The longest runs of letters and digits, in lower case. */
  function Words(s: string): seq<string>
    decreases |s|
  {
    if s == "" then []
    else if !Alnum(s[0]) then Words(s[1..])
    else [Lower(s[..RunEnd(s)])] + Words(s[RunEnd(s)..])
  }

  /** normalizeAlertText's text before its blanks are collapsed. */
  function Blanked(s: string): string {
    seq(|s|, i requires 0 <= i < |s| => WordChar(LowerChar(s[i])))
  }

  lemma LetterBlanked(c: char)
    ensures TextLayout.IsSpace(WordChar(LowerChar(c))) <==> !Alnum(c)
    ensures Alnum(c) ==> WordChar(LowerChar(c)) == LowerChar(c)
  {
  }

  lemma RunBlanked(s: string)
    ensures TextLayout.WordEnd(Blanked(s)) == RunEnd(s)
    ensures Blanked(s)[..RunEnd(s)] == Lower(s[..RunEnd(s)])
  {
    hide WordChar, LowerChar, Alnum;
    forall k | 0 <= k < |s|
      ensures TextLayout.IsSpace(Blanked(s)[k]) <==> !Alnum(s[k])
      ensures Alnum(s[k]) ==> Blanked(s)[k] == LowerChar(s[k])
    {
      LetterBlanked(s[k]);
    }
    var n, e := RunEnd(s), TextLayout.WordEnd(Blanked(s));
    assert e < |s| ==> !Alnum(s[e]);
    assert n < |s| ==> TextLayout.IsSpace(Blanked(s)[n]);
    WordStarts(Blanked(s));
  }

  lemma WordStarts(t: string)
    ensures TextLayout.WordEnd(t) > 0 <==> t != "" && !TextLayout.IsSpace(t[0])
  {
  }

  lemma {:induction false} FieldsAreWords(s: string)
    ensures TextLayout.Fields(Blanked(s)) == Words(s)
    decreases |s|
  {
    hide WordChar, LowerChar, Alnum, TextLayout.IsSpace, TextLayout.WordEnd;
    var t := Blanked(s);
    if s == "" {
      assert t == "";
    } else {
      LetterBlanked(s[0]);
      if !Alnum(s[0]) {
        assert t[1..] == Blanked(s[1..]);
        FieldsAreWords(s[1..]);
      } else {
        var n := RunEnd(s);
        RunBlanked(s);
        assert t[n..] == Blanked(s[n..]);
        FieldsAreWords(s[n..]);
      }
    }
  }

  /** A normalized text is the words of the text, one blank apart. */
  lemma NormalizedWords(s: string)
    ensures Normalized(s) == Join(Words(s), " ")
  {
    hide Words;
    FieldsAreWords(s);
    var lower := Lower(s);
    assert Blanked(s) == seq(|lower|, i requires 0 <= i < |lower| => WordChar(lower[i]));
  }

  predicate Wordy(words: seq<string>) {
    forall k :: 0 <= k < |words| ==>
      words[k] != "" && forall i :: 0 <= i < |words[k]| ==> !TextLayout.IsSpace(words[k][i])
  }

  lemma {:induction false} WordsWordy(s: string)
    ensures Wordy(Words(s))
    decreases |s|
  {
    hide LowerChar, Alnum, TextLayout.IsSpace;
    if s != "" {
      if !Alnum(s[0]) {
        WordsWordy(s[1..]);
      } else {
        var n := RunEnd(s);
        WordsWordy(s[n..]);
        forall i | 0 <= i < n ensures !TextLayout.IsSpace(LowerChar(s[i])) {
          LowerSolid(s[i]);
        }
      }
    }
  }

  lemma LowerSolid(c: char)
    requires Alnum(c)
    ensures !TextLayout.IsSpace(LowerChar(c))
  {
  }

  lemma {:induction false} WordAhead(word: string, rest: string)
    requires word != "" && forall i :: 0 <= i < |word| ==> !TextLayout.IsSpace(word[i])
    requires rest == "" || TextLayout.IsSpace(rest[0])
    ensures TextLayout.WordEnd(word + rest) == |word|
  {
    hide TextLayout.IsSpace;
    if |word| > 1 {
      WordAhead(word[1..], rest);
      assert (word + rest)[1..] == word[1..] + rest;
    } else {
      assert (word + rest)[1..] == rest;
    }
  }

  /** Words joined by blanks are the fields of the joined text. */
  lemma {:induction false} FieldsJoined(words: seq<string>)
    requires Wordy(words)
    ensures TextLayout.Fields(Join(words, " ")) == words
  {
    hide TextLayout.IsSpace, TextLayout.WordEnd;
    if words != [] {
      var word := words[0];
      if |words| == 1 {
        WordAhead(word, "");
        assert word + "" == word && word[|word|..] == "";
        NoField();
        assert words == [word];
      } else {
        var rest := Join(words[1..], " ");
        FieldsJoined(words[1..]);
        SpaceIs();
        WordAhead(word, " " + rest);
        var all := word + (" " + rest);
        assert Join(words, " ") == all;
        assert all[|word|..] == " " + rest;
        BlankFields(rest);
        assert words == [word] + words[1..];
      }
    }
  }

  lemma SpaceIs()
    ensures TextLayout.IsSpace(' ')
  {
  }

  lemma NoField()
    ensures TextLayout.Fields("") == []
  {
  }

  lemma BlankFields(rest: string)
    ensures TextLayout.Fields(" " + rest) == TextLayout.Fields(rest)
  {
    assert (" " + rest)[1..] == rest;
  }

  /** The first word of a text, or unknown. */
  lemma FirstTokenWord(s: string)
    ensures FirstToken(s) == if Words(s) == [] then "unknown" else Words(s)[0]
  {
    hide Words, Normalized;
    NormalizedWords(s);
    WordsWordy(s);
    FieldsJoined(Words(s));
  }

  // ---- topics ----

  /** A topic: one of each list of phrases must occur; named topics tell the first word of the title. */
  datatype Topic = Topic(needs: seq<seq<string>>, key: string, named: bool)

  const TOPICS: seq<Topic> := [
    Topic([["lan", "device", "inventory"], ["missing", "not seen"]], "inventory:device-missing", false),
    Topic([["lan", "device", "inventory"], ["new", "first seen"]], "inventory:device-new", false),
    Topic([["wan"], ["speed"]], "wan:speed", false),
    Topic([["ping"], ["gateway"]], "ping:gateway", false),
    Topic([["ping"], ["target down", "unreachable"]], "ping:target-down", false),
    Topic([["http", "tls"]], "service:", true),
    Topic([["dns"]], "dns:", true)]

  /** All the words of an alert's category, title, summary, labels and annotations. */
  function Spoken(a: Alert): string {
    Join(Words(a.category + " " + a.title + " " + a.summary + " " + a.labels + " " + a.annotations), " ")
  }

  ghost predicate OneOf(text: string, phrases: seq<string>) {
    exists p :: p in phrases && Contains(text, p)
  }

  ghost predicate About(a: Alert, t: Topic) {
    forall phrases :: phrases in t.needs ==> OneOf(Spoken(a), phrases)
  }

  lemma Three(text: string, x: string, y: string, z: string)
    ensures OneOf(text, [x, y, z]) <==> Contains(text, x) || Contains(text, y) || Contains(text, z)
    ensures OneOf(text, [x, y]) <==> Contains(text, x) || Contains(text, y)
    ensures OneOf(text, [x]) <==> Contains(text, x)
  {
    hide Contains;
    assert x in [x, y, z] && y in [x, y, z] && z in [x, y, z] && x in [x, y] && y in [x, y] && x in [x];
  }

  lemma Needs(a: Alert, p: seq<string>, q: seq<string>, key: string, named: bool)
    ensures About(a, Topic([p, q], key, named)) <==> OneOf(Spoken(a), p) && OneOf(Spoken(a), q)
    ensures About(a, Topic([p], key, named)) <==> OneOf(Spoken(a), p)
  {
    hide OneOf, Spoken;
    assert p in [p, q] && q in [p, q] && p in [p];
  }

  lemma TopicsMean(a: Alert)
    ensures var t := Spoken(a);
            var known := Contains(t, "lan") || Contains(t, "device") || Contains(t, "inventory");
      && (About(a, TOPICS[0]) <==> known && (Contains(t, "missing") || Contains(t, "not seen")))
      && (About(a, TOPICS[1]) <==> known && (Contains(t, "new") || Contains(t, "first seen")))
      && (About(a, TOPICS[2]) <==> Contains(t, "wan") && Contains(t, "speed"))
      && (About(a, TOPICS[3]) <==> Contains(t, "ping") && Contains(t, "gateway"))
      && (About(a, TOPICS[4]) <==> Contains(t, "ping") && (Contains(t, "target down") || Contains(t, "unreachable")))
      && (About(a, TOPICS[5]) <==> Contains(t, "http") || Contains(t, "tls"))
      && (About(a, TOPICS[6]) <==> Contains(t, "dns"))
  {
    hide Contains, Spoken, OneOf, About;
    var t := Spoken(a);
    Needs(a, ["lan", "device", "inventory"], ["missing", "not seen"], "inventory:device-missing", false);
    Needs(a, ["lan", "device", "inventory"], ["new", "first seen"], "inventory:device-new", false);
    Needs(a, ["wan"], ["speed"], "wan:speed", false);
    Needs(a, ["ping"], ["gateway"], "ping:gateway", false);
    Needs(a, ["ping"], ["target down", "unreachable"], "ping:target-down", false);
    Needs(a, ["http", "tls"], [], "service:", true);
    Needs(a, ["dns"], [], "dns:", true);
    Three(t, "lan", "device", "inventory");
    Three(t, "missing", "not seen", "");
    Three(t, "new", "first seen", "");
    Three(t, "wan", "", "");
    Three(t, "speed", "", "");
    Three(t, "ping", "", "");
    Three(t, "gateway", "", "");
    Three(t, "target down", "unreachable", "");
    Three(t, "http", "tls", "");
    Three(t, "dns", "", "");
  }

  /** The key of an alert: that of the first topic it is about, with the first word of its title where the
      topic is named; without a topic the words of category and title, if it has both; else none, and the
      alert is its own group. */
  lemma KeyExactly(a: Alert, k: nat)
    requires k <= |TOPICS| && forall j :: 0 <= j < k ==> !About(a, TOPICS[j])
    requires k < |TOPICS| ==> About(a, TOPICS[k])
    ensures var first := if Words(a.title) == [] then "unknown" else Words(a.title)[0];
            var words := Join(Words(a.category + ":" + a.title), " ");
      Group(a) == if k < |TOPICS| then TOPICS[k].key + (if TOPICS[k].named then first else "")
                  else if a.category != "" && a.title != "" && words != "" then words
                  else "fingerprint:" + a.fingerprint
  {
    hide About, Words, Normalized, FirstToken, Contains;
    NormalizedWords(a.category + " " + a.title + " " + a.summary + " " + a.labels + " " + a.annotations);
    NormalizedWords(a.category + ":" + a.title);
    FirstTokenWord(a.title);
    TopicsMean(a);
    Whole(a, k);
  }

  lemma Whole(a: Alert, k: nat)
    ensures k < |TOPICS| ==> TOPICS[k].key + "" == TOPICS[k].key
  {
  }

  /** The rank of an alert: internal ones above others, then those with more evidence, then those that say
      more. */
  lemma RankExactly(a: Alert, b: Alert)
    ensures var more := |b.summary| + |b.recommendation| > |a.summary| + |a.recommendation|;
      Better(a, b) ==
        if a.source == "internal" && b.source != "internal" then a
        else if a.source != "internal" && b.source == "internal" then b
        else if |a.evidence| > |b.evidence| then a
        else if |a.evidence| < |b.evidence| then b
        else if more then b else a
  {
  }
}
