/** Clearing by absence beyond a thousand visible alerts: which unmentioned alerts are cleared, which
    may be missed, and which starve. */
module AlertClearing {
  import opened Text
  import opened TimeText
  import opened AlertStore
  import opened AlertRuns

  // ---- which rows a limited query lists ----

  /** The other chosen rows that do not sort after f: they can come before it on a page. */
  function Ahead(rows: Rows, chosen: set<string>, f: string): set<string>
    requires chosen <= rows.Keys && f in chosen
  {
    set g | g in chosen && g != f && !Before(rows[f], rows[g])
  }

  /** The chosen rows that sort before f: they come before it on every page. */
  function StrictlyAhead(rows: Rows, chosen: set<string>, f: string): set<string>
    requires chosen <= rows.Keys && f in chosen
  {
    set g | g in chosen && Before(rows[g], rows[f])
  }

  lemma BeforeIrreflexive(a: Row)
    ensures !Before(a, a)
  {
    TextLessTrichotomy(a.firstSeen, a.firstSeen);
  }

  lemma OnEveryPage(rows: Rows, chosen: set<string>, limit: nat, page: seq<string>, f: string)
    requires chosen <= rows.Keys && f in chosen && IsPage(rows, chosen, limit, page)
    requires |Ahead(rows, chosen, f)| < limit
    ensures f in page
  {
    hide Before;
    if |chosen| <= limit {
      FullPage(rows, chosen, limit, page);
      assert f in Keys(page);
    } else {
      KeysCount(page);
      assert f !in page ==> Keys(page) <= Ahead(rows, chosen, f);
      if Keys(page) <= Ahead(rows, chosen, f) {
        FewerKeys(Keys(page), Ahead(rows, chosen, f));
      }
    }
  }

  lemma OnNoPage(rows: Rows, chosen: set<string>, limit: nat, page: seq<string>, f: string)
    requires chosen <= rows.Keys && f in chosen && IsPage(rows, chosen, limit, page)
    requires |StrictlyAhead(rows, chosen, f)| >= limit
    ensures f !in page
  {
    BeforeIrreflexive(rows[f]);
    hide Before;
    KeysCount(page);
    var ahead := StrictlyAhead(rows, chosen, f);
    assert |ahead + {f}| == |ahead| + 1;
    assert f in page ==> ahead + {f} <= Keys(page);
    if ahead + {f} <= Keys(page) {
      FewerKeys(ahead + {f}, Keys(page));
    }
  }

  lemma PageGrows(rows: Rows, chosen: set<string>, limit: nat, g: string, rest: seq<string>)
    requires chosen <= rows.Keys && g in chosen && limit > 0 && IsPage(rows, chosen - {g}, limit - 1, rest)
    requires forall h :: h in chosen ==> !Before(rows[h], rows[g])
    ensures IsPage(rows, chosen, limit, [g] + rest)
  {
    hide Before;
    assert |chosen - {g}| == |chosen| - 1;
    var page := [g] + rest;
    assert forall i :: 0 < i < |page| ==> page[i] == rest[i - 1];
    forall i, f | 0 <= i < |page| && f in chosen && f !in page ensures !Before(rows[f], rows[page[i]]) {
      assert f != page[0] && f !in rest;
      assert i > 0 ==> page[i] == rest[i - 1];
    }
  }

  /** When as many rows as the limit can come before f, some page leaves f out. */
  lemma {:induction false} SomePageWithout(rows: Rows, chosen: set<string>, limit: nat,
                                           f: string) returns (page: seq<string>)
    requires chosen <= rows.Keys && f in chosen && |Ahead(rows, chosen, f)| >= limit
    ensures IsPage(rows, chosen, limit, page) && f !in page
    decreases limit
  {
    page := [];
    if limit > 0 {
      var ahead := Ahead(rows, chosen, f);
      assert ahead != {};
      var other :| other in ahead;
      var g := FirstExists(rows, chosen - {f});
      BeforeWeak(rows[g], rows[other], rows[f]);
      hide Before;
      assert forall h :: h in chosen ==> h == f || h in chosen - {f};
      assert g in ahead;
      assert Ahead(rows, chosen - {g}, f) == ahead - {g};
      var rest := SomePageWithout(rows, chosen - {g}, limit - 1, f);
      PageGrows(rows, chosen, limit, g, rest);
      page := [g] + rest;
    }
  }

  lemma {:induction false} PageExists(rows: Rows, chosen: set<string>, limit: nat) returns (page: seq<string>)
    requires chosen <= rows.Keys
    ensures IsPage(rows, chosen, limit, page)
    decreases limit
  {
    page := [];
    if limit > 0 && chosen != {} {
      var g := FirstExists(rows, chosen);
      hide Before;
      var rest := PageExists(rows, chosen - {g}, limit - 1);
      PageGrows(rows, chosen, limit, g, rest);
      page := [g] + rest;
    }
  }

  /** Every call has an outcome. */
  lemma OutcomeExists(rows: Rows, batch: seq<Report>, now: Instant, read: Instant) returns (after: Rows)
    ensures Reconciled(rows, batch, now, read, after)
  {
    hide Format, IsPage, UpsertAll;
    if batch == [] {
      after := ClearRows(rows, ActiveKeys(rows), Format(now));
    } else {
      var stored := UpsertAll(rows, batch, Format(now));
      var page := PageExists(stored, VisibleKeys(stored, Format(read)), CLEARING_LIMIT);
      after := ClearRows(stored, Keys(page) - Fingerprints(batch), Format(now));
      assert ClearedBy(rows, batch, now, read, page, after);
    }
  }

  // ---- when reconciliation is exact ----

  /** What shows at the query's time is what was reported and shows by the table before the call. */
  ghost predicate ExactRead(rows: Rows, batch: seq<Report>, now: Instant, read: Instant, after: Rows) {
    VisibleKeys(after, Format(read)) == Shown(rows, batch, Format(now), Format(read))
  }

  /** What stays visible is what was reported and is not suppressed. */
  ghost predicate Exact(after: Rows, batch: seq<Report>, now: Instant) {
    Fingerprints(batch) <= after.Keys && VisibleKeys(after, Format(now)) == Reported(after, batch, Format(now))
  }

  /** With one clock reading the two are the same. */
  lemma ExactOnce(rows: Rows, batch: seq<Report>, now: Instant, after: Rows)
    requires batch != [] && Reconciled(rows, batch, now, now, after)
    ensures ExactRead(rows, batch, now, now, after) <==> Exact(after, batch, now)
  {
    hide Format, UpsertAll, IsPage, VisibleKeys, Reported, Shown, Held;
    var page :| ClearedBy(rows, batch, now, now, page, after);
    ReportedVisible(rows, batch, now, page, after);
    MentionedVisible(rows, batch, Format(now), Format(now));
  }

  /** Every visible alert the batch does not mention has fewer than a thousand others that do not
      sort after it, acknowledged last and newest first. */
  ghost predicate AllReached(rows: Rows, batch: seq<Report>, now: Instant, read: Instant) {
    var stored := UpsertAll(rows, batch, Format(now));
    var visible := VisibleKeys(stored, Format(read));
    forall f :: f in visible && f !in Fingerprints(batch) ==> |Ahead(stored, visible, f)| < CLEARING_LIMIT
  }

  /** For any table, any non-empty batch and any two clock readings: every outcome of the call is
      exact if and only if all unmentioned alerts are within reach of the limited query. */
  lemma ReconcileExactWhen(rows: Rows, batch: seq<Report>, now: Instant, read: Instant)
    requires batch != []
    ensures (forall after :: Reconciled(rows, batch, now, read, after) ==> ExactRead(rows, batch, now, read, after))
            <==> AllReached(rows, batch, now, read)
  {
    hide Format, UpsertAll, IsPage, VisibleKeys, Shown, Ahead, Held;
    var stored := UpsertAll(rows, batch, Format(now));
    var visible := VisibleKeys(stored, Format(read));
    if AllReached(rows, batch, now, read) {
      forall after | Reconciled(rows, batch, now, read, after) ensures ExactRead(rows, batch, now, read, after) {
        var page :| ClearedBy(rows, batch, now, read, page, after);
        ExactOnPage(rows, batch, now, read, page, after);
        forall f | f in visible ensures f in Keys(page) + Fingerprints(batch) {
          if f !in Fingerprints(batch) {
            OnEveryPage(stored, visible, CLEARING_LIMIT, page, f);
          }
        }
      }
    } else {
      var f :| f in visible && f !in Fingerprints(batch) && |Ahead(stored, visible, f)| >= CLEARING_LIMIT;
      var page := SomePageWithout(stored, visible, CLEARING_LIMIT, f);
      var after := ClearRows(stored, Keys(page) - Fingerprints(batch), Format(now));
      assert ClearedBy(rows, batch, now, read, page, after);
      ExactOnPage(rows, batch, now, read, page, after);
      assert f !in Keys(page) + Fingerprints(batch);
      assert Reconciled(rows, batch, now, read, after) && !ExactRead(rows, batch, now, read, after);
    }
  }

  /** Within reach of the query, repeating a batch at the same clock reading changes nothing. */
  lemma RepeatWithinReach(rows: Rows, batch: seq<Report>, now: Instant, once: Rows, twice: Rows)
    requires batch != [] && AllReached(rows, batch, now, now)
    requires Reconciled(rows, batch, now, now, once) && Reconciled(once, batch, now, now, twice)
    ensures twice == once
  {
    hide AllReached, Reconciled, VisibleKeys, Reported;
    ReconcileExactWhen(rows, batch, now, now);
    ExactOnce(rows, batch, now, once);
    assert Exact(once, batch, now);
    RepeatAfterExact(rows, batch, now, once, twice);
  }

  /** One visible alert the batch does not mention is cleared by every outcome when fewer than a
      thousand others do not sort after it, and by none when a thousand sort before it. */
  lemma ClearedOrMissed(rows: Rows, batch: seq<Report>, now: Instant, read: Instant, after: Rows, f: string)
    requires batch != [] && Reconciled(rows, batch, now, read, after)
    requires f in VisibleKeys(rows, Format(read)) && f !in Fingerprints(batch)
    ensures var stored := UpsertAll(rows, batch, Format(now));
            var visible := VisibleKeys(stored, Format(read));
      && f in visible && f in after
      && (|Ahead(stored, visible, f)| < CLEARING_LIMIT ==> after[f] == Clear(rows[f], Format(now)))
      && (|StrictlyAhead(stored, visible, f)| >= CLEARING_LIMIT ==> after[f] == rows[f])
  {
    hide Format, UpsertAll, IsPage, Ahead, StrictlyAhead, Held;
    var stored := UpsertAll(rows, batch, Format(now));
    var visible := VisibleKeys(stored, Format(read));
    UpsertAllSettles(rows, batch, Format(now));
    assert f in visible;
    var page :| ClearedBy(rows, batch, now, read, page, after);
    if |Ahead(stored, visible, f)| < CLEARING_LIMIT {
      OnEveryPage(stored, visible, CLEARING_LIMIT, page, f);
    }
    if |StrictlyAhead(stored, visible, f)| >= CLEARING_LIMIT {
      OnNoPage(stored, visible, CLEARING_LIMIT, page, f);
    }
  }

  // ---- starvation ----

  /** Never suppressed, not acknowledged, and first seen later than f. */
  ghost predicate Newer(rows: Rows, crowd: set<string>, f: string) {
    f in rows && forall g :: g in crowd ==>
      g in rows && !rows[g].acknowledged && rows[g].suppressedUntil == ""
          && TextLess(rows[f].firstSeen, rows[g].firstSeen)
  }

  lemma {:induction false} CrowdStored(rows: Rows, batch: seq<Report>, now: string, g: string)
    requires g in rows && !rows[g].acknowledged && rows[g].suppressedUntil == ""
    ensures var stored := UpsertAll(rows, batch, now);
      && g in stored && !stored[g].acknowledged && stored[g].suppressedUntil == ""
          && stored[g].firstSeen == rows[g].firstSeen
      && (g in Fingerprints(batch) ==> stored[g].active)
  {
    hide TextLess;
    if batch != [] {
      CrowdStored(rows, batch[..|batch| - 1], now, g);
      FingerprintsFront(batch);
    }
  }

  lemma CrowdAhead(rows: Rows, batch: seq<Report>, now: Instant, read: Instant, crowd: set<string>, f: string)
    requires Newer(rows, crowd, f) && crowd <= Fingerprints(batch) && f !in Fingerprints(batch)
    requires rows[f].active && rows[f].suppressedUntil == ""
    ensures var stored := UpsertAll(rows, batch, Format(now));
            var visible := VisibleKeys(stored, Format(read));
      f in visible && crowd <= StrictlyAhead(stored, visible, f) && Newer(stored, crowd, f)
  {
    hide Format, TextLess, UpsertAll;
    UpsertAllSettles(rows, batch, Format(now));
    forall g | g in crowd
      ensures var stored := UpsertAll(rows, batch, Format(now));
        g in stored && !stored[g].acknowledged && stored[g].suppressedUntil == "" && stored[g].active
        && stored[g].firstSeen == rows[g].firstSeen
    {
      CrowdStored(rows, batch, Format(now), g);
    }
  }

  lemma StarvedStep(rows: Rows, batch: seq<Report>, now: Instant, read: Instant, after: Rows, crowd: set<string>,
                    f: string)
    requires Newer(rows, crowd, f) && |crowd| >= CLEARING_LIMIT && rows[f].active && rows[f].suppressedUntil == ""
    requires batch != [] && Reconciled(rows, batch, now, read, after)
    requires crowd <= Fingerprints(batch) && f !in Fingerprints(batch)
    ensures f in after && after[f] == rows[f] && Newer(after, crowd, f)
  {
    hide Format, TextLess, UpsertAll, IsPage, Ahead, StrictlyAhead;
    var stored := UpsertAll(rows, batch, Format(now));
    var visible := VisibleKeys(stored, Format(read));
    CrowdAhead(rows, batch, now, read, crowd, f);
    FewerKeys(crowd, StrictlyAhead(stored, visible, f));
    ClearedOrMissed(rows, batch, now, read, after, f);
    var page :| ClearedBy(rows, batch, now, read, page, after);
    assert forall g :: g in crowd ==> after[g] == stored[g];
  }

  /** An alert that is no longer reported stays active, untouched, through every run of batches in
      which a thousand newer unacknowledged alerts keep being reported. */
  lemma {:induction false} StarvedForGood(states: seq<Rows>, ops: seq<Op>, crowd: set<string>, f: string, i: nat)
    requires Run(states, ops) && i < |states|
    requires Newer(states[0], crowd, f) && |crowd| >= CLEARING_LIMIT
    requires states[0][f].active && states[0][f].suppressedUntil == ""
    requires forall k :: 0 <= k < i ==> ops[k].Upsert? && ops[k].batch != []
                                        && crowd <= Fingerprints(ops[k].batch) && f !in Fingerprints(ops[k].batch)
    ensures f in states[i] && states[i][f] == states[0][f] && Newer(states[i], crowd, f)
  {
    hide Reconciled, Fingerprints, TextLess;
    if i > 0 {
      StarvedForGood(states, ops, crowd, f, i - 1);
      var op := ops[i - 1];
      StarvedStep(states[i - 1], op.batch, op.now, op.read, states[i], crowd, f);
    }
  }

  // ---- a table on which clearing fails ----

  const ANY: Body := Body("internal", "warning", "active", "wan", "Ping target down", "", "", [], "", "")

  function Numbers(n: nat): set<string> {
    set k | 0 <= k < n :: Itoa(k)
  }

  lemma {:induction false} NumbersCount(n: nat)
    ensures |Numbers(n)| == n
  {
    hide Itoa;
    if n > 0 {
      NumbersCount(n - 1);
      forall k | 0 <= k < n - 1 ensures Itoa(k) != Itoa(n - 1) {
        ValueItoa(k);
        ValueItoa(n - 1);
      }
      assert Numbers(n) == Numbers(n - 1) + {Itoa(n - 1)};
    } else {
      assert Numbers(0) == {};
    }
  }

  function Crowded(names: set<string>, older: string, newer: string): Rows {
    (map g | g in names :: Fresh(ANY, newer))["old" := Fresh(ANY, older)]
  }

  lemma CrowdedNewer(names: set<string>, older: string, newer: string)
    requires "old" !in names && TextLess(older, newer)
    ensures var rows := Crowded(names, older, newer);
            Newer(rows, names, "old") && rows["old"].active && rows["old"].suppressedUntil == ""
  {
    hide TextLess;
  }

  function CrowdBatch(): seq<Report> {
    seq(1000, k requires 0 <= k < 1000 => Report(Itoa(k), ANY))
  }

  lemma CrowdReported()
    ensures Fingerprints(CrowdBatch()) == Numbers(1000) && "old" !in Numbers(1000) && CrowdBatch() != []
  {
    hide Itoa;
    var batch := CrowdBatch();
    forall g | g in Numbers(1000) ensures g in Fingerprints(batch) {
      var k :| 0 <= k < 1000 && g == Itoa(k);
      assert batch[k] in batch && batch[k].fingerprint == g;
    }
    assert "old"[0] == 'o';
  }

  /** A table with an alert named old and a thousand first seen a second or more after it: when these
      are reported and the old one is not, no outcome clears it. */
  lemma OldAlertMissed(older: Instant, newer: Instant, now: Instant, after: Rows)
    requires newer - older >= NANOS
    requires Reconciled(Crowded(Numbers(1000), Format(older), Format(newer)), CrowdBatch(), now, now, after)
    ensures "old" in after && after["old"].active && !Exact(after, CrowdBatch(), now)
  {
    hide Format, TextLess, Crowded, Numbers, CrowdBatch, Reconciled, Exact;
    SecondsNeverMisordered(older, newer);
    CrowdReported();
    NumbersCount(1000);
    CrowdedMissed(Numbers(1000), Format(older), Format(newer), CrowdBatch(), now, after);
  }

  lemma CrowdedMissed(names: set<string>, older: string, newer: string, batch: seq<Report>, now: Instant, after: Rows)
    requires "old" !in names && TextLess(older, newer) && |names| >= CLEARING_LIMIT
    requires batch != [] && Fingerprints(batch) == names
            && Reconciled(Crowded(names, older, newer), batch, now, now, after)
    ensures "old" in after && after["old"].active && !Exact(after, batch, now)
  {
    hide Format, TextLess, UpsertAll, Crowded, Reconciled, Fingerprints, Reported;
    var rows := Crowded(names, older, newer);
    CrowdedNewer(names, older, newer);
    StarvedStep(rows, batch, now, now, after, names, "old");
    assert "old" in VisibleKeys(after, Format(now));
    OnlyReported(after, batch, now, "old");
  }

  lemma OnlyReported(after: Rows, batch: seq<Report>, now: Instant, f: string)
    requires f !in Fingerprints(batch) && f in VisibleKeys(after, Format(now))
    ensures !Exact(after, batch, now)
  {
  }

  function OldAlone(older: string): Rows {
    map["old" := Fresh(ANY, older)]
  }

  lemma CrowdGrows(names: set<string>, name: string, older: string, newer: string)
    requires name != "old"
    ensures UpsertOne(Crowded(names, older, newer), Report(name, ANY), newer) == Crowded(names + {name}, older, newer)
  {
    hide TextLess;
  }

  lemma NumbersNext(k: nat)
    requires k < 1000
    ensures Numbers(0) == {} && Numbers(k + 1) == Numbers(k) + {Itoa(k)} && Itoa(k) in Numbers(1000)
    ensures var batch := CrowdBatch();
      |batch| == 1000 && batch[..k + 1][..k] == batch[..k] && batch[..k + 1][k] == Report(Itoa(k), ANY)
  {
    hide Itoa;
  }

  lemma CrowdStarts(older: string, newer: string)
    ensures Crowded({}, older, newer) == OldAlone(older)
  {
  }

  lemma {:induction false} CrowdArrives(k: nat, older: string, newer: string)
    requires k <= 1000
    ensures UpsertAll(OldAlone(older), CrowdBatch()[..k], newer) == Crowded(Numbers(k), older, newer)
  {
    hide Itoa, TextLess, Numbers, CrowdBatch, Crowded, OldAlone, UpsertOne;
    if k == 0 {
      NumbersNext(0);
      CrowdStarts(older, newer);
      assert CrowdBatch()[..0] == [];
    } else {
      CrowdArrives(k - 1, older, newer);
      NumbersNext(k - 1);
      CrowdReported();
      CrowdGrows(Numbers(k - 1), Itoa(k - 1), older, newer);
    }
  }

  lemma CrowdVisible(names: set<string>, older: string, newer: string, now: string)
    requires "old" !in names && TextLess(older, newer)
    ensures var rows := Crowded(names, older, newer);
            var visible := VisibleKeys(rows, now);
      visible == names + {"old"} && names <= StrictlyAhead(rows, visible, "old")
  {
    hide TextLess;
  }

  /** The table comes about: with the old alert alone in the table, every outcome of a batch of a
      thousand others, stored a second or more later, is that table. */
  lemma CrowdBuilt(older: Instant, newer: Instant, read: Instant, after: Rows)
    requires newer - older >= NANOS
    requires Reconciled(OldAlone(Format(older)), CrowdBatch(), newer, read, after)
    ensures after == Crowded(Numbers(1000), Format(older), Format(newer))
  {
    hide Format, TextLess, Crowded, Numbers, CrowdBatch, OldAlone, UpsertAll, IsPage, VisibleKeys, StrictlyAhead,
      Fingerprints;
    var batch, names := CrowdBatch(), Numbers(1000);
    SecondsNeverMisordered(older, newer);
    CrowdReported();
    NumbersCount(1000);
    WholeBatch();
    CrowdArrives(1000, Format(older), Format(newer));
    var stored := Crowded(names, Format(older), Format(newer));
    var visible := VisibleKeys(stored, Format(read));
    CrowdVisible(names, Format(older), Format(newer), Format(read));
    FewerKeys(names, StrictlyAhead(stored, visible, "old"));
    var page :| ClearedBy(OldAlone(Format(older)), batch, newer, read, page, after);
    OnNoPage(stored, visible, CLEARING_LIMIT, page, "old");
    PageChosen(stored, visible, CLEARING_LIMIT, page);
    assert Keys(page) - Fingerprints(batch) == {};
  }

  lemma WholeBatch()
    ensures CrowdBatch()[..1000] == CrowdBatch()
  {
  }

  lemma PageChosen(rows: Rows, chosen: set<string>, limit: nat, page: seq<string>)
    requires chosen <= rows.Keys && IsPage(rows, chosen, limit, page)
    ensures Keys(page) <= chosen
  {
  }

  lemma OldArrives(older: Instant, read: Instant, after: Rows)
    requires Reconciled(map[], [Report("old", ANY)], older, read, after)
    ensures after == OldAlone(Format(older))
  {
    hide Format, TextLess, IsPage, VisibleKeys;
    var batch := [Report("old", ANY)];
    var stored := UpsertAll(map[], batch, Format(older));
    assert stored == OldAlone(Format(older)) by {
      assert batch[..0] == [] && UpsertAll(map[], [], Format(older)) == map[];
      assert stored == UpsertOne(map[], batch[0], Format(older));
    }
    assert batch[0] in batch;
    var page :| ClearedBy(map[], batch, older, read, page, after);
    PageChosen(stored, VisibleKeys(stored, Format(read)), CLEARING_LIMIT, page);
    assert "old" in Fingerprints(batch);
    assert Keys(page) - Fingerprints(batch) == {};
  }

  lemma RunStep(states: seq<Rows>, ops: seq<Op>, i: nat)
    requires Run(states, ops) && i < |ops| && ops[i].Upsert?
    ensures Reconciled(states[i], ops[i].batch, ops[i].now, ops[i].read, states[i + 1])
  {
    hide Reconciled;
    assert Step(states[i], ops[i], states[i + 1]);
  }

  lemma OldIsFresh(names: set<string>, older: string, newer: string)
    ensures Crowded(names, older, newer)["old"] == Fresh(ANY, older)
  {
  }

  /** A run from an empty table: the old alert is reported once, then a thousand others are, again and
      again. The old one stays active for as long as the run lasts. */
  lemma OldAlertStarves(states: seq<Rows>, ops: seq<Op>, i: nat)
    requires Run(states, ops) && states[0] == map[] && |ops| >= 2 && 2 <= i < |states|
    requires forall k :: 0 <= k < i ==> ops[k].Upsert?
    requires ops[0].batch == [Report("old", ANY)] && ops[1].now - ops[0].now >= NANOS
    requires forall k :: 1 <= k < i ==> ops[k].batch == CrowdBatch()
    ensures "old" in states[i] && states[i]["old"] == Fresh(ANY, Format(ops[0].now))
  {
    hide Step, Reconciled, Numbers, CrowdBatch, OldAlone, Crowded, Format, TextLess;
    var older, names := ops[0].now, Numbers(1000);
    RunStep(states, ops, 0);
    OldArrives(older, ops[0].read, states[1]);
    RunStep(states, ops, 1);
    CrowdBuilt(older, ops[1].now, ops[1].read, states[2]);
    SecondsNeverMisordered(older, ops[1].now);
    CrowdReported();
    NumbersCount(1000);
    CrowdedNewer(names, Format(older), Format(ops[1].now));
    assert Run(states[2..], ops[2..]);
    StarvedForGood(states[2..], ops[2..], names, "old", i - 2);
    OldIsFresh(names, Format(older), Format(ops[1].now));
  }
}
