/** Showing one alert for each group of alerts about the same thing. */
module AlertDedupe {
  import opened Permutations
  import opened Text
  import TextLayout

  datatype Alert = Alert(fingerprint: string, source: string, category: string, title: string, summary: string,
                         recommendation: string, evidence: seq<string>, labels: string, annotations: string)

  // ---- the group an alert belongs to ----

  function WordChar(c: char): char {
    if 'a' <= c <= 'z' || '0' <= c <= '9' then c else ' '
  }

  /** normalizeAlertText: lower-case words of letters and digits, one blank apart. */
  function Normalized(value: string): string {
    var lower := Lower(value);
    TextLayout.Collapse(seq(|lower|, i requires 0 <= i < |lower| => WordChar(lower[i])))
  }

  function FirstToken(value: string): string {
    var words := TextLayout.Fields(Normalized(value));
    if words == [] then "unknown" else words[0]
  }

  function DedupeKey(a: Alert): string {
    var combined := Normalized(a.category + " " + a.title + " " + a.summary + " " + a.labels + " " + a.annotations);
    var inventory := Contains(combined, "lan") || Contains(combined, "device") || Contains(combined, "inventory");
    if inventory && (Contains(combined, "missing") || Contains(combined, "not seen")) then "inventory:device-missing"
    else if inventory && (Contains(combined, "new") || Contains(combined, "first seen")) then "inventory:device-new"
    else if Contains(combined, "wan") && Contains(combined, "speed") then "wan:speed"
    else if Contains(combined, "ping") && Contains(combined, "gateway") then "ping:gateway"
    else if Contains(combined, "ping") && (Contains(combined, "target down") || Contains(combined, "unreachable")) then
      "ping:target-down"
    else if Contains(combined, "http") || Contains(combined, "tls") then "service:" + FirstToken(a.title)
    else if Contains(combined, "dns") then "dns:" + FirstToken(a.title)
    else if a.category != "" && a.title != "" then Normalized(a.category + ":" + a.title)
    else ""
  }

  function Group(a: Alert): string {
    if DedupeKey(a) == "" then "fingerprint:" + a.fingerprint else DedupeKey(a)
  }

  lemma {:induction false} SolidHas(s: string, c: char)
    requires !TextLayout.IsSpace(c)
    ensures c in TextLayout.Solid(s) <==> c in s
  {
    if s != [] {
      SolidHas(s[..|s| - 1], c);
      assert s == s[..|s| - 1] + [s[|s| - 1]];
    }
  }

  lemma NoColon(value: string)
    ensures ':' !in Normalized(value)
  {
    var lower := Lower(value);
    var words := seq(|lower|, i requires 0 <= i < |lower| => WordChar(lower[i]));
    TextLayout.CollapseKeeps(words);
    SolidHas(words, ':');
    SolidHas(TextLayout.Collapse(words), ':');
  }

  lemma KeyStart(a: Alert)
    ensures ':' !in DedupeKey(a) || DedupeKey(a)[0] != 'f'
  {
    hide Contains, Normalized, FirstToken;
    NoColon(a.category + ":" + a.title);
  }

  /** An alert without a key of its own is grouped only with alerts of the same fingerprint. */
  lemma FingerprintAlone(a: Alert, b: Alert)
    requires DedupeKey(a) == "" && Group(b) == Group(a)
    ensures DedupeKey(b) == "" && b.fingerprint == a.fingerprint
  {
    hide DedupeKey;
    KeyStart(b);
    var prefix := "fingerprint:";
    assert Group(a)[0] == 'f' && Group(a)[11] == ':';
    assert Group(a)[|prefix|..] == a.fingerprint;
    if DedupeKey(b) == "" {
      assert Group(b)[|prefix|..] == b.fingerprint;
    }
  }

  // ---- which alert of a group is shown ----

  datatype Rank = Rank(own: nat, evidence: nat, words: nat)

  function RankOf(a: Alert): Rank {
    Rank(if a.source == "internal" then 1 else 0, |a.evidence|, |a.summary| + |a.recommendation|)
  }

  predicate Below(a: Rank, b: Rank) {
    a.own < b.own || (a.own == b.own && (a.evidence < b.evidence || (a.evidence == b.evidence && a.words < b.words)))
  }

  /** betterAlertRecord. */
  function Better(a: Alert, b: Alert): (r: Alert)
    ensures r == if Below(RankOf(a), RankOf(b)) then b else a
  {
    if a.source != b.source && b.source == "internal" then b
    else if a.source != b.source && a.source == "internal" then a
    else if |b.evidence| != |a.evidence| then (if |b.evidence| > |a.evidence| then b else a)
    else if |b.summary| + |b.recommendation| > |a.summary| + |a.recommendation| then b
    else a
  }

  /** The groups in the order in which they first occur. */
  function Groups(alerts: seq<Alert>): seq<string> {
    hide Group;
    if alerts == [] then []
    else
      var front, last := Groups(alerts[..|alerts| - 1]), Group(alerts[|alerts| - 1]);
      if last in front then front else front + [last]
  }

  /** What the fold over the alerts of group k keeps. */
  function Winner(alerts: seq<Alert>, k: string): Alert
    requires alerts != []
  {
    hide Group, Better;
    var front, last := alerts[..|alerts| - 1], alerts[|alerts| - 1];
    if front == [] || k !in Groups(front) then last
    else if Group(last) == k then Better(Winner(front, k), last) else Winner(front, k)
  }

  function Deduped(alerts: seq<Alert>): seq<Alert> {
    hide Group, Groups, Winner;
    if alerts == [] then []
    else seq(|Groups(alerts)|, i requires 0 <= i < |Groups(alerts)| => Winner(alerts, Groups(alerts)[i]))
  }

  lemma GroupsNext(front: seq<Alert>, last: Alert)
    ensures Groups(front + [last]) == if Group(last) in Groups(front) then Groups(front)
            else Groups(front) + [Group(last)]
    ensures forall k :: k in Groups(front + [last]) ==>
      Winner(front + [last], k) == if front == [] || k !in Groups(front) then last
                                   else if Group(last) == k then Better(Winner(front, k), last) else Winner(front, k)
  {
    hide Group, Better;
    assert (front + [last])[..|front|] == front;
  }

  lemma {:induction false} GroupsAre(alerts: seq<Alert>)
    ensures forall k :: k in Groups(alerts) <==> exists a :: a in alerts && Group(a) == k
    ensures forall i, j :: 0 <= i < j < |Groups(alerts)| ==> Groups(alerts)[i] != Groups(alerts)[j]
  {
    hide Group;
    if alerts != [] {
      var front, last := alerts[..|alerts| - 1], alerts[|alerts| - 1];
      GroupsAre(front);
      assert alerts == front + [last];
    }
  }

  method DedupeAlertRecords(records: seq<Alert>) returns (out: seq<Alert>)
    ensures out == Deduped(records)
  {
    hide Group, Better, Groups, Winner, Deduped;
    var byKey: map<string, Alert> := map[];
    var order: seq<string> := [];
    NoGroups();
    for i := 0 to |records|
      invariant order == Groups(records[..i]) && byKey.Keys == set k | k in order
      invariant forall k :: k in byKey ==> byKey[k] == Winner(records[..i], k)
    {
      var record := records[i];
      GroupsNext(records[..i], record);
      assert records[..i] + [record] == records[..i + 1];
      var key := Group(record);
      if key !in byKey {
        byKey := byKey[key := record];
        order := order + [key];
        continue;
      }
      byKey := byKey[key := Better(byKey[key], record)];
    }
    assert records[..|records|] == records;
    out := [];
    for i := 0 to |order|
      invariant |out| == i && forall j :: 0 <= j < i ==> out[j] == byKey[order[j]]
    {
      out := out + [byKey[order[i]]];
    }
    DedupedIs(records, out);
  }

  lemma DedupedIs(alerts: seq<Alert>, out: seq<Alert>)
    requires |out| == |Groups(alerts)| && (alerts == [] ==> Groups(alerts) == [])
    requires alerts != [] ==> forall i :: 0 <= i < |out| ==> out[i] == Winner(alerts, Groups(alerts)[i])
    ensures out == Deduped(alerts)
  {
    hide Group, Groups, Winner;
  }

  lemma NoGroups()
    ensures Groups([]) == []
  {
  }

  // ---- what is shown ----

  /** The alert at index i comes first in its group's ranking: above all before it, and not below
      any after it. */
  ghost predicate FirstBest(alerts: seq<Alert>, i: nat) {
    && i < |alerts|
    && (forall j :: 0 <= j < i && Group(alerts[j]) == Group(alerts[i]) ==> Below(RankOf(alerts[j]), RankOf(alerts[i])))
    && (forall j :: i < j < |alerts| && Group(alerts[j]) == Group(alerts[i]) ==>
        !Below(RankOf(alerts[i]), RankOf(alerts[j])))
  }

  lemma BestNext(front: seq<Alert>, i: nat, last: Alert)
    requires FirstBest(front, i)
    ensures Group(last) != Group(front[i]) || !Below(RankOf(front[i]), RankOf(last)) ==> FirstBest(front + [last], i)
    ensures Group(last) == Group(front[i]) && Below(RankOf(front[i]), RankOf(last)) ==>
            FirstBest(front + [last], |front|)
  {
    hide Group;
    var alerts := front + [last];
    assert forall j :: 0 <= j < |front| ==> alerts[j] == front[j];
  }

  /** Each group is shown by the first of its alerts with the highest rank. */
  lemma {:induction false} WinnerFirstBest(alerts: seq<Alert>, k: string) returns (i: nat)
    requires k in Groups(alerts)
    ensures FirstBest(alerts, i) && alerts != [] && alerts[i] == Winner(alerts, k) && Group(alerts[i]) == k
  {
    hide Group, Better, RankOf, Below;
    var n := |alerts| - 1;
    var front, last := alerts[..n], alerts[n];
    assert front + [last] == alerts;
    GroupsNext(front, last);
    if front == [] || k !in Groups(front) {
      i := n;
      Alone(alerts, k);
    } else {
      hide FirstBest;
      i := WinnerFirstBest(front, k);
      BestInRange(front, i);
      BestNext(front, i, last);
      if Group(last) == k && Below(RankOf(front[i]), RankOf(last)) {
        i := n;
      }
    }
  }

  lemma BestInRange(alerts: seq<Alert>, i: nat)
    requires FirstBest(alerts, i)
    ensures i < |alerts|
  {
    hide Group;
  }

  lemma Others(front: seq<Alert>, k: string)
    requires k !in Groups(front)
    ensures forall j :: 0 <= j < |front| ==> Group(front[j]) != k
  {
    hide Group, Groups;
    GroupsAre(front);
    forall j | 0 <= j < |front| ensures Group(front[j]) != k {
      assert front[j] in front;
    }
  }

  /** A group that first occurs at the end has no other alert. */
  lemma Alone(alerts: seq<Alert>, k: string)
    requires alerts != [] && k in Groups(alerts) && k !in Groups(alerts[..|alerts| - 1])
    ensures Group(alerts[|alerts| - 1]) == k && FirstBest(alerts, |alerts| - 1)
  {
    hide Group, Below, RankOf, Groups;
    var front := alerts[..|alerts| - 1];
    assert front + [alerts[|alerts| - 1]] == alerts;
    GroupsNext(front, alerts[|alerts| - 1]);
    Others(front, k);
    assert forall j :: 0 <= j < |front| ==> alerts[j] == front[j];
  }

  /** Only one alert of a group is its first best. */
  lemma FirstBestUnique(alerts: seq<Alert>, i: nat, j: nat)
    requires FirstBest(alerts, i) && FirstBest(alerts, j) && Group(alerts[i]) == Group(alerts[j])
    ensures i == j
  {
    hide Group;
  }

  /** The index at which a group first occurs. */
  function First(alerts: seq<Alert>, k: string): (i: nat)
    requires alerts != []
    ensures i < |alerts|
  {
    hide Group;
    var front := alerts[..|alerts| - 1];
    if front != [] && k in Groups(front) then First(front, k) else |front|
  }

  lemma {:induction false} FirstIs(alerts: seq<Alert>, k: string)
    requires k in Groups(alerts)
    ensures alerts != [] && Group(alerts[First(alerts, k)]) == k
    ensures forall j :: 0 <= j < First(alerts, k) ==> Group(alerts[j]) != k
  {
    hide Group, FirstBest;
    var front, last := alerts[..|alerts| - 1], alerts[|alerts| - 1];
    assert front + [last] == alerts;
    if k in Groups(front) {
      FirstIs(front, k);
    } else {
      Alone(alerts, k);
      Others(front, k);
      assert forall j :: 0 <= j < |front| ==> alerts[j] == front[j];
    }
  }

  lemma {:induction false} FirstInOrder(alerts: seq<Alert>, i: nat, j: nat)
    requires i < j < |Groups(alerts)|
    ensures First(alerts, Groups(alerts)[i]) < First(alerts, Groups(alerts)[j])
  {
    hide Group;
    var n := |alerts| - 1;
    var front, last := alerts[..n], alerts[n];
    assert front + [last] == alerts;
    GroupsNext(front, last);
    if j < |Groups(front)| {
      FirstInOrder(front, i, j);
    }
  }

  /** One alert for each group that occurs, in the order of first occurrence, and each the first
      of highest rank in its group. */
  lemma ShownAlerts(alerts: seq<Alert>)
    ensures var out := Deduped(alerts);
      && (forall a :: a in alerts ==> Shown(out, Group(a)))
      && (forall i, j :: 0 <= i < j < |out| ==>
            Group(out[i]) != Group(out[j]) && First(alerts, Group(out[i])) < First(alerts, Group(out[j])))
      && (forall i :: 0 <= i < |out| ==> BestOf(alerts, out[i]))
  {
    hide Group, FirstBest, First, Winner;
    var out, order := Deduped(alerts), Groups(alerts);
    GroupsAre(alerts);
    forall i | 0 <= i < |out| ensures Group(out[i]) == order[i] && BestOf(alerts, out[i]) {
      var k := WinnerFirstBest(alerts, order[i]);
    }
    forall a | a in alerts ensures Shown(out, Group(a)) {
      assert Group(a) in order;
      var i :| 0 <= i < |order| && order[i] == Group(a);
      assert Group(out[i]) == Group(a);
    }
    forall i, j | 0 <= i < j < |out|
      ensures Group(out[i]) != Group(out[j]) && First(alerts, Group(out[i])) < First(alerts, Group(out[j]))
    {
      FirstInOrder(alerts, i, j);
    }
  }

  ghost predicate Shown(out: seq<Alert>, k: string) {
    exists i :: 0 <= i < |out| && Group(out[i]) == k
  }

  ghost predicate BestOf(alerts: seq<Alert>, a: Alert) {
    exists i: nat :: FirstBest(alerts, i) && alerts[i] == a
  }

  lemma {:induction false} DistinctStay(alerts: seq<Alert>)
    requires forall i, j :: 0 <= i < j < |alerts| ==> Group(alerts[i]) != Group(alerts[j])
    ensures |Groups(alerts)| == |alerts|
    ensures forall i :: 0 <= i < |alerts| ==>
            Groups(alerts)[i] == Group(alerts[i]) && Winner(alerts, Groups(alerts)[i]) == alerts[i]
  {
    hide Group, Better;
    if alerts != [] {
      var n := |alerts| - 1;
      var front, last := alerts[..n], alerts[n];
      assert front + [last] == alerts;
      DistinctStay(front);
      GroupsNext(front, last);
      forall i | 0 <= i < |Groups(front)| ensures Groups(front)[i] != Group(last) {
        assert Group(alerts[i]) != Group(alerts[n]);
      }
    }
  }

  /** Deduplicating a second time changes nothing. */
  lemma DedupeTwice(alerts: seq<Alert>)
    ensures Deduped(Deduped(alerts)) == Deduped(alerts)
  {
    hide Group, Winner, Groups;
    ShownAlerts(alerts);
    DistinctStay(Deduped(alerts));
  }

  lemma SameGroups(a: seq<Alert>, b: seq<Alert>)
    requires multiset(a) == multiset(b)
    ensures forall k :: k in Groups(a) <==> k in Groups(b)
  {
    hide Group, Groups;
    GroupsAre(a);
    GroupsAre(b);
    SameElements(a, b);
  }

  lemma WinnerTops(alerts: seq<Alert>, k: string, x: Alert)
    requires alerts != [] && k in Groups(alerts) && x in alerts && Group(x) == k
    ensures !Below(RankOf(Winner(alerts, k)), RankOf(x))
  {
    hide Group, Groups, Winner;
    var i := WinnerFirstBest(alerts, k);
    var j :| 0 <= j < |alerts| && alerts[j] == x;
  }

  /** Reordering the alerts keeps the groups, and can change who is shown only among alerts of
      exactly equal rank. */
  lemma OrderBreaksTiesOnly(a: seq<Alert>, b: seq<Alert>, k: string)
    requires multiset(a) == multiset(b) && a != [] && b != [] && k in Groups(a)
    ensures k in Groups(b) && RankOf(Winner(a, k)) == RankOf(Winner(b, k))
    ensures (forall x :: x in a && Group(x) == k && RankOf(x) == RankOf(Winner(a, k)) ==> x == Winner(a, k))
            ==> Winner(b, k) == Winner(a, k)
  {
    hide Group, Groups, Winner;
    SameGroups(a, b);
    var i := WinnerFirstBest(a, k);
    var j := WinnerFirstBest(b, k);
    var x, y := Winner(a, k), Winner(b, k);
    assert x in a && y in b;
    assert x in multiset(a) && y in multiset(b);
    WinnerTops(a, k, y);
    WinnerTops(b, k, x);
  }
}
