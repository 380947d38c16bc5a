/** What the alert store keeps over whole runs of its operations. */
module AlertRuns {
  import opened Text
  import opened TimeText
  import opened AlertStore
  import opened Wrappers

  datatype Op =
    | Upsert(batch: seq<Report>, now: Instant, read: Instant)
    | Ack(fingerprint: string, now: Instant)
    | Suppression(fingerprint: string, until: Instant, now: Instant)
    | Closing(fingerprint: string, now: Instant)
    | Retention(cutoff: Instant)

  ghost predicate Step(rows: Rows, op: Op, after: Rows) {
    match op
    case Upsert(batch, now, read) => Reconciled(rows, batch, now, read, after)
    case Ack(f, now) => after == if f in rows then rows[f := Acknowledge(rows[f], Format(now))] else rows
    case Suppression(f, until, now) =>
      after == if f in rows then rows[f := Suppress(rows[f], Format(until), Format(now))] else rows
    case Closing(f, now) => after == if f in rows then rows[f := Close(rows[f], Format(now))] else rows
    case Retention(cutoff) => after == Retain(rows, Format(cutoff))
  }

  /** A run: any operations, any clock readings. */
  ghost predicate Run(states: seq<Rows>, ops: seq<Op>) {
    |states| == |ops| + 1 && forall i :: 0 <= i < |ops| ==> Step(states[i], ops[i], states[i + 1])
  }

  predicate SoundRow(row: Row) {
    (row.active <==> row.clearedAt == "") && (row.acknowledged <==> row.acknowledgedAt != "")
  }

  ghost predicate Sound(rows: Rows) {
    forall f :: f in rows ==> SoundRow(rows[f])
  }

  lemma {:induction false} UpsertAllSound(rows: Rows, batch: seq<Report>, now: Instant)
    requires Sound(rows)
    ensures Sound(UpsertAll(rows, batch, Format(now)))
  {
    hide Format, Held;
    FormatNotEmpty(now);
    if batch != [] {
      var front := UpsertAll(rows, batch[..|batch| - 1], Format(now));
      UpsertAllSound(rows, batch[..|batch| - 1], now);
      assert Sound(UpsertOne(front, batch[|batch| - 1], Format(now)));
    }
  }

  lemma StepSound(rows: Rows, op: Op, after: Rows)
    requires Sound(rows) && Step(rows, op, after)
    ensures Sound(after)
  {
    hide Format;
    match op
    case Upsert(batch, now, read) =>
      FormatNotEmpty(now);
      UpsertAllSound(rows, batch, now);
    case Ack(f, now) => FormatNotEmpty(now);
    case Suppression(f, until, now) => FormatNotEmpty(now);
    case Closing(f, now) => FormatNotEmpty(now);
    case Retention(cutoff) =>
  }

  /** In every reachable state an alert is active exactly when it has no clearing time, and
      acknowledged exactly when it has an acknowledgement time. */
  lemma {:induction false} RunSound(states: seq<Rows>, ops: seq<Op>, i: nat)
    requires Run(states, ops) && Sound(states[0]) && i < |states|
    ensures Sound(states[i])
  {
    hide Step, Sound;
    if i > 0 {
      RunSound(states, ops, i - 1);
      StepSound(states[i - 1], ops[i - 1], states[i]);
    }
  }

  // ---- reconciliation ----

  /** The last body the batch gives a fingerprint. */
  function LastBody(batch: seq<Report>, f: string): Body
    requires f in Fingerprints(batch)
  {
    if batch[|batch| - 1].fingerprint == f then batch[|batch| - 1].body
    else
      LastInFront(batch, f);
      LastBody(batch[..|batch| - 1], f)
  }

  lemma LastInFront(batch: seq<Report>, f: string)
    requires f in Fingerprints(batch) && batch[|batch| - 1].fingerprint != f
    ensures f in Fingerprints(batch[..|batch| - 1])
  {
    var r :| r in batch && r.fingerprint == f;
    assert r in batch[..|batch| - 1];
  }

  lemma FingerprintsFront(batch: seq<Report>)
    requires batch != []
    ensures Fingerprints(batch) == Fingerprints(batch[..|batch| - 1]) + {batch[|batch| - 1].fingerprint}
  {
    UpsertNext(map[], batch, |batch| - 1, "");
    assert batch[..|batch|] == batch;
  }

  /** A row a batch at this time has already touched. */
  predicate Settled(row: Row, now: string) {
    && row.lastSeen == now
    && (!Held(row, now) ==> row.active && row.clearedAt == "")
    && (!row.active ==> !row.acknowledged && row.acknowledgedAt == "")
  }

  lemma MergeSettled(row: Row, body: Body, now: string)
    ensures Settled(Merge(row, body, now), now) && Settled(Fresh(body, now), now)
    ensures Merge(row, body, now).body == body && Fresh(body, now).body == body
  {
    hide TextLess;
  }

  /** After a batch: its alerts are stored with their last reports and settled, suppression
      times and all other rows are as before. */
  lemma {:induction false} UpsertAllSettles(rows: Rows, batch: seq<Report>, now: string)
    ensures var stored := UpsertAll(rows, batch, now);
      && stored.Keys == rows.Keys + Fingerprints(batch)
      && (forall f :: f in Fingerprints(batch) ==> Settled(stored[f], now) && stored[f].body == LastBody(batch, f))
      && (forall f :: f in rows && f !in Fingerprints(batch) ==> stored[f] == rows[f])
  {
    hide Settled, Merge, Fresh;
    if batch == [] {
      assert Fingerprints(batch) == {};
    } else {
      var front, last := batch[..|batch| - 1], batch[|batch| - 1];
      UpsertAllSettles(rows, front, now);
      FingerprintsFront(batch);
      var stored := UpsertAll(rows, front, now);
      if last.fingerprint in stored {
        MergeSettled(stored[last.fingerprint], last.body, now);
      } else {
        MergeSettled(Fresh(last.body, now), last.body, now);
      }
    }
  }

  lemma {:induction false} SettledAgain(rows: Rows, batch: seq<Report>, now: string)
    requires forall f :: f in Fingerprints(batch) ==> f in rows && Settled(rows[f], now)
    ensures UpsertAll(rows, batch, now) ==
            map f | f in rows :: if f in Fingerprints(batch) then rows[f].(body := LastBody(batch, f)) else rows[f]
  {
    hide TextLess;
    if batch == [] {
      assert Fingerprints(batch) == {};
    } else {
      FingerprintsFront(batch);
      SettledAgain(rows, batch[..|batch| - 1], now);
    }
  }

  /** The reported alerts that are not suppressed at the batch's time. */
  function Reported(stored: Rows, batch: seq<Report>, now: string): set<string>
    requires Fingerprints(batch) <= stored.Keys
  {
    set f | f in Fingerprints(batch) && !Held(stored[f], now)
  }

  /** After a non-empty batch, stored at one clock reading and cleared by a query at another, the
      visible alerts are the mentioned ones the batch left visible, together with those the clearing
      query's page did not reach. */
  lemma VisibleAfter(rows: Rows, batch: seq<Report>, now: Instant, read: Instant, page: seq<string>, after: Rows)
    requires batch != [] && ClearedBy(rows, batch, now, read, page, after)
    ensures var stored := UpsertAll(rows, batch, Format(now));
            var visible := VisibleKeys(stored, Format(read));
      && Fingerprints(batch) <= after.Keys && after.Keys == stored.Keys
      && VisibleKeys(after, Format(read)) ==
         visible * Fingerprints(batch) + (visible - Keys(page) - Fingerprints(batch))
  {
    hide Format, Held, IsPage;
    UpsertAllSettles(rows, batch, Format(now));
    var stored := UpsertAll(rows, batch, Format(now));
    var visible := VisibleKeys(stored, Format(read));
    forall f | f in after
      ensures Visible(after[f], Format(read)) <==>
              f in visible * Fingerprints(batch) + (visible - Keys(page) - Fingerprints(batch))
    {
      HeldKept(stored[f], Format(read));
    }
  }

  /** With one clock reading, the mentioned alerts left visible are those that are not suppressed. */
  lemma ReportedVisible(rows: Rows, batch: seq<Report>, now: Instant, page: seq<string>, after: Rows)
    requires batch != [] && ClearedBy(rows, batch, now, now, page, after)
    ensures Fingerprints(batch) <= after.Keys
    ensures VisibleKeys(UpsertAll(rows, batch, Format(now)), Format(now)) * Fingerprints(batch)
            == Reported(after, batch, Format(now))
  {
    hide Format, Held, IsPage;
    UpsertAllSettles(rows, batch, Format(now));
    var stored := UpsertAll(rows, batch, Format(now));
    assert forall f :: f in Fingerprints(batch) ==> after[f] == stored[f];
  }

  lemma HeldKept(row: Row, now: string)
    ensures Held(Clear(row, now), now) == Held(row, now)
  {
  }

  /** A page of fewer rows than the limit holds every chosen row. */
  lemma {:induction false} FullPage(rows: Rows, chosen: set<string>, limit: nat, page: seq<string>)
    requires chosen <= rows.Keys && |chosen| <= limit && IsPage(rows, chosen, limit, page)
    ensures Keys(page) == chosen
  {
    hide Before;
    KeysCount(page);
    SameSize(Keys(page), chosen);
  }

  lemma {:induction false} SameSize(a: set<string>, b: set<string>)
    requires a <= b && |a| == |b|
    ensures a == b
  {
    if a != {} {
      var x :| x in a;
      SameSize(a - {x}, b - {x});
    } else {
      assert b == {};
    }
  }

  /** With at most a thousand visible rows, reconciliation is exact: what stays visible is what
      was reported and is not suppressed. */
  lemma ReconcileExact(rows: Rows, batch: seq<Report>, now: Instant, after: Rows)
    requires batch != [] && Reconciled(rows, batch, now, now, after)
    requires |VisibleKeys(UpsertAll(rows, batch, Format(now)), Format(now))| <= CLEARING_LIMIT
    ensures Fingerprints(batch) <= after.Keys
    ensures VisibleKeys(after, Format(now)) == Reported(after, batch, Format(now))
  {
    hide Format, UpsertAll, IsPage, VisibleKeys, Reported;
    var page :| ClearedBy(rows, batch, now, now, page, after);
    VisibleAfter(rows, batch, now, now, page, after);
    ReportedVisible(rows, batch, now, page, after);
    var stored := UpsertAll(rows, batch, Format(now));
    FullPage(stored, VisibleKeys(stored, Format(now)), CLEARING_LIMIT, page);
  }

  /** The mentioned alerts that show at the query's time: those that are new, and those whose
      suppression is over by then and which were active or no longer suppressed when stored. */
  function Shown(rows: Rows, batch: seq<Report>, now: string, read: string): set<string> {
    set f | f in Fingerprints(batch)
            && (f in rows ==> (rows[f].active || !Held(rows[f], now)) && !Held(rows[f], read))
  }

  lemma {:induction false} StoredState(rows: Rows, batch: seq<Report>, now: string, f: string)
    requires f in Fingerprints(batch)
    ensures var stored := UpsertAll(rows, batch, now);
      && f in stored
      && stored[f].suppressedUntil == (if f in rows then rows[f].suppressedUntil else "")
      && (stored[f].active <==> (f in rows ==> rows[f].active || !Held(rows[f], now)))
  {
    hide TextLess;
    var front, last := batch[..|batch| - 1], batch[|batch| - 1];
    FingerprintsFront(batch);
    if f in Fingerprints(front) {
      StoredState(rows, front, now, f);
    } else {
      UpsertAllSettles(rows, front, now);
    }
  }

  /** The rows a batch leaves visible among those it mentions, told from the table before it. */
  lemma MentionedVisible(rows: Rows, batch: seq<Report>, now: string, read: string)
    ensures VisibleKeys(UpsertAll(rows, batch, now), read) * Fingerprints(batch) == Shown(rows, batch, now, read)
  {
    hide UpsertAll, Fingerprints, TextLess;
    var stored := UpsertAll(rows, batch, now);
    forall f | f in Fingerprints(batch)
      ensures f in stored && (Visible(stored[f], read) <==> f in Shown(rows, batch, now, read))
    {
      StoredState(rows, batch, now, f);
    }
  }

  /** With two clock readings, as the program takes them, and at most a thousand rows visible at the
      second: what shows at the second is told from the table before the call alone. An inactive
      alert suppressed at the first reading stays inactive, even if its suppression is over at the
      second. */
  lemma ReconcileExactRead(rows: Rows, batch: seq<Report>, now: Instant, read: Instant, after: Rows)
    requires batch != [] && Reconciled(rows, batch, now, read, after)
    requires |VisibleKeys(UpsertAll(rows, batch, Format(now)), Format(read))| <= CLEARING_LIMIT
    ensures VisibleKeys(after, Format(read)) == Shown(rows, batch, Format(now), Format(read))
  {
    hide Format, UpsertAll, IsPage, VisibleKeys, Shown;
    var page :| ClearedBy(rows, batch, now, read, page, after);
    VisibleAfter(rows, batch, now, read, page, after);
    MentionedVisible(rows, batch, Format(now), Format(read));
    var stored := UpsertAll(rows, batch, Format(now));
    FullPage(stored, VisibleKeys(stored, Format(read)), CLEARING_LIMIT, page);
  }

  /** What one page of the clearing query decides. */
  lemma ExactOnPage(rows: Rows, batch: seq<Report>, now: Instant, read: Instant, page: seq<string>, after: Rows)
    requires batch != [] && ClearedBy(rows, batch, now, read, page, after)
    ensures VisibleKeys(after, Format(read)) == Shown(rows, batch, Format(now), Format(read)) <==>
            VisibleKeys(UpsertAll(rows, batch, Format(now)), Format(read)) <= Keys(page) + Fingerprints(batch)
  {
    hide Format, UpsertAll, IsPage, VisibleKeys, Shown, Held;
    VisibleAfter(rows, batch, now, read, page, after);
    MentionedVisible(rows, batch, Format(now), Format(read));
    var visible := VisibleKeys(UpsertAll(rows, batch, Format(now)), Format(read));
    var missed := visible - Keys(page) - Fingerprints(batch);
    if missed == {} {
      forall f | f in visible ensures f in Keys(page) + Fingerprints(batch) {
        assert f !in missed;
      }
    }
    assert missed !! visible * Fingerprints(batch);
  }

  /** An empty batch clears every active alert, suppressed ones too; a non-empty one leaves
      the suppressed alerts it does not mention alone. */
  lemma SuppressedRows(rows: Rows, batch: seq<Report>, now: Instant, after: Rows, f: string)
    requires Reconciled(rows, batch, now, now, after)
    requires f in rows && Held(rows[f], Format(now)) && f !in Fingerprints(batch)
    ensures f in after
    ensures batch == [] ==> !after[f].active && (rows[f].active ==> after[f] == Clear(rows[f], Format(now)))
    ensures batch != [] ==> after[f] == rows[f]
  {
    hide Format, Held, UpsertAll;
    if batch != [] {
      var page :| ClearedBy(rows, batch, now, now, page, after);
      UpsertAllSettles(rows, batch, Format(now));
      var stored := UpsertAll(rows, batch, Format(now));
      assert f !in VisibleKeys(stored, Format(now));
    }
  }

  /** Repeating a batch at the same clock reading changes nothing. */
  lemma RepeatChangesNothing(rows: Rows, batch: seq<Report>, now: Instant, once: Rows, twice: Rows)
    requires batch != [] && Reconciled(rows, batch, now, now, once) && Reconciled(once, batch, now, now, twice)
    requires |VisibleKeys(UpsertAll(rows, batch, Format(now)), Format(now))| <= CLEARING_LIMIT
    ensures twice == once
  {
    ReconcileExact(rows, batch, now, once);
    RepeatAfterExact(rows, batch, now, once, twice);
  }

  /** So does repeating one that left exactly the reported alerts visible. */
  lemma RepeatAfterExact(rows: Rows, batch: seq<Report>, now: Instant, once: Rows, twice: Rows)
    requires batch != [] && Reconciled(rows, batch, now, now, once) && Reconciled(once, batch, now, now, twice)
    requires Fingerprints(batch) <= once.Keys && VisibleKeys(once, Format(now)) == Reported(once, batch, Format(now))
    ensures twice == once
  {
    hide Format, Held, UpsertAll, IsPage, LastBody, VisibleKeys;
    var text := Format(now);
    var page :| ClearedBy(rows, batch, now, now, page, once);
    UpsertAllSettles(rows, batch, text);
    var stored := UpsertAll(rows, batch, text);
    assert forall f :: f in Fingerprints(batch) ==> once[f] == stored[f];
    SettledAgain(once, batch, text);
    var again := UpsertAll(once, batch, text);
    assert again == once;
    var page2 :| ClearedBy(once, batch, now, now, page2, twice);
    PageVisible(again, text, page2);
    assert Keys(page2) - Fingerprints(batch) == {};
    assert twice == ClearRows(once, {}, text) == once;
  }

  lemma PageVisible(rows: Rows, now: string, page: seq<string>)
    requires IsPage(rows, VisibleKeys(rows, now), CLEARING_LIMIT, page)
    ensures Keys(page) <= VisibleKeys(rows, now)
  {
  }

  // ---- closing ----

  /** The state of an alert after CloseAlert. */
  predicate ClosedAt(row: Row, clearedAt: string) {
    !row.active && row.clearedAt == clearedAt && row.suppressedUntil == Format(ClosedInstant())
  }

  /** The operations a closed alert withstands. */
  ghost predicate Withstands(rows: Rows, op: Op, f: string)
    requires f in rows
  {
    match op
    case Upsert(batch, now, read) => f in Fingerprints(batch) ==> now != ClosedInstant()
    case Suppression(g, until, now) => g == f ==> until == ClosedInstant()
    case Retention(cutoff) => !TextLess(rows[f].clearedAt, Format(cutoff))
    case _ => true
  }

  /** The closing text is above every other stored time, the last second of 9999 included,
      because its text carries no fraction. */
  lemma HeldForever(now: Instant)
    ensures TextLess(Format(now), Format(ClosedInstant())) <==> now != ClosedInstant()
  {
    hide Format, TextLess, Fraction, ClosedInstant;
    var closed := ClosedInstant();
    FormatOrder(now, closed);
    FractionZero();
    LastSecond(now, closed, DaysBeforeYear(10000) * DAY_SECONDS);
  }

  lemma LastSecond(t: int, closed: int, seconds: int)
    requires closed == (seconds - 1) * NANOS && t < seconds * NANOS
    ensures closed % NANOS == 0 && closed / NANOS == seconds - 1
    ensures t < closed ==> t / NANOS < seconds - 1
    ensures t >= closed ==> t / NANOS == seconds - 1
  {
  }

  lemma CloseCloses(rows: Rows, f: string, now: Instant, after: Rows)
    requires Sound(rows) && f in rows && Step(rows, Closing(f, now), after)
    ensures f in after && ClosedAt(after[f], if rows[f].active then Format(now) else rows[f].clearedAt)
  {
  }

  /** A closed row that is reported while held keeps its activity and clearing time, though it
      takes the reported state text and loses its acknowledgement. */
  lemma {:induction false} UpsertKeepsClosed(rows: Rows, batch: seq<Report>, now: Instant, f: string)
    requires f in rows && !rows[f].active && Held(rows[f], Format(now))
    ensures var stored := UpsertAll(rows, batch, Format(now));
      && f in stored && !stored[f].active && stored[f].clearedAt == rows[f].clearedAt
      && stored[f].suppressedUntil == rows[f].suppressedUntil
      && (f in Fingerprints(batch) ==> !stored[f].acknowledged && stored[f].body == LastBody(batch, f))
      && (f !in Fingerprints(batch) ==> stored[f] == rows[f])
  {
    hide Format, TextLess;
    if batch == [] {
      assert Fingerprints(batch) == {};
    } else {
      FingerprintsFront(batch);
      UpsertKeepsClosed(rows, batch[..|batch| - 1], now, f);
    }
  }

  /** The first time a batch reports a row that is not held, the row becomes active. */
  lemma {:induction false} UpsertActivates(rows: Rows, batch: seq<Report>, now: string, f: string)
    requires f in rows && !Held(rows[f], now) && f in Fingerprints(batch)
    ensures f in UpsertAll(rows, batch, now) && UpsertAll(rows, batch, now)[f].active
    ensures UpsertAll(rows, batch, now)[f].suppressedUntil == rows[f].suppressedUntil
  {
    hide TextLess;
    var front := batch[..|batch| - 1];
    FingerprintsFront(batch);
    if f in Fingerprints(front) {
      UpsertActivates(rows, front, now, f);
    } else {
      UpsertAllSettles(rows, front, now);
    }
  }

  lemma ClosedUpsert(rows: Rows, batch: seq<Report>, now: Instant, read: Instant, after: Rows, f: string)
    requires Reconciled(rows, batch, now, read, after) && f in rows && ClosedAt(rows[f], rows[f].clearedAt)
    ensures f in after && (ClosedAt(after[f], rows[f].clearedAt) <==>
            (f in Fingerprints(batch) ==> now != ClosedInstant()))
  {
    hide Format, TextLess, Reconciled, UpsertAll, ClosedInstant;
    HeldForever(now);
    FormatNotEmpty(ClosedInstant());
    if batch == [] {
      EmptyBatch(rows, now, read, after);
    } else {
      var page := PageOf(rows, batch, now, read, after);
      if now != ClosedInstant() {
        UpsertKeepsClosed(rows, batch, now, f);
      } else if f in Fingerprints(batch) {
        UpsertActivates(rows, batch, Format(now), f);
      } else {
        UpsertAllSettles(rows, batch, Format(now));
      }
    }
  }

  lemma EmptyBatch(rows: Rows, now: Instant, read: Instant, after: Rows)
    requires Reconciled(rows, [], now, read, after)
    ensures after == ClearRows(rows, ActiveKeys(rows), Format(now)) && Fingerprints([]) == {}
  {
  }

  lemma PageOf(rows: Rows, batch: seq<Report>, now: Instant, read: Instant, after: Rows) returns (page: seq<string>)
    requires batch != [] && Reconciled(rows, batch, now, read, after)
    ensures ClearedBy(rows, batch, now, read, page, after)
    ensures after == ClearRows(UpsertAll(rows, batch, Format(now)), Keys(page) - Fingerprints(batch), Format(now))
    ensures forall f :: f in Keys(page) ==>
            f in UpsertAll(rows, batch, Format(now)) && UpsertAll(rows, batch, Format(now))[f].active
  {
    hide Format, UpsertAll, ClearRows, Held;
    page :| ClearedBy(rows, batch, now, read, page, after);
  }

  /** Exactly which operations end a closure: a report at the one instant the closing text
      does not exceed, a new suppression of this alert, or its retention delete. */
  lemma ClosedStep(rows: Rows, op: Op, after: Rows, f: string)
    requires Sound(rows) && Step(rows, op, after) && f in rows && ClosedAt(rows[f], rows[f].clearedAt)
    ensures (f in after && ClosedAt(after[f], rows[f].clearedAt)) <==> Withstands(rows, op, f)
  {
    hide Format, TextLess, Reconciled, ClosedInstant;
    match op
    case Upsert(batch, now, read) => ClosedUpsert(rows, batch, now, read, after, f);
    case Suppression(g, until, now) => FormatInjective(until, ClosedInstant());
    case _ =>
  }

  /** Once closed, an alert stays inactive with its clearing time through every run that does
      not suppress it anew or delete it; reports of it at any other instant change nothing. */
  lemma {:induction false} ClosedForGood(states: seq<Rows>, ops: seq<Op>, f: string, i: nat)
    requires Run(states, ops) && Sound(states[0]) && i < |states|
    requires f in states[0] && ClosedAt(states[0][f], states[0][f].clearedAt)
    requires forall k :: 0 <= k < i && f in states[k] ==> Withstands(states[k], ops[k], f)
    ensures f in states[i] && ClosedAt(states[i][f], states[0][f].clearedAt)
  {
    hide Step, Sound, ClosedAt, Withstands;
    if i > 0 {
      ClosedForGood(states, ops, f, i - 1);
      RunSound(states, ops, i - 1);
      SameClearing(states[i - 1][f], states[0][f].clearedAt);
      ClosedStep(states[i - 1], ops[i - 1], states[i], f);
    }
  }

  lemma SameClearing(row: Row, clearedAt: string)
    requires ClosedAt(row, clearedAt)
    ensures row.clearedAt == clearedAt
  {
  }

  // ---- acknowledgement ----

  /** A reset is an upsert that finds the row inactive. */
  ghost predicate Resets(rows: Rows, op: Op, f: string)
    requires f in rows
  {
    op.Upsert? && f in Fingerprints(op.batch) && !rows[f].active
  }

  ghost predicate Deletes(rows: Rows, op: Op, f: string)
    requires f in rows
  {
    op.Retention? && Expired(rows[f], Format(op.cutoff))
  }

  lemma {:induction false} UpsertAck(rows: Rows, batch: seq<Report>, now: string, f: string)
    requires f in rows && f in Fingerprints(batch)
    ensures var stored := UpsertAll(rows, batch, now);
      && f in stored
      && (rows[f].active ==> stored[f].acknowledgedAt == rows[f].acknowledgedAt && stored[f].active)
      && (!rows[f].active ==> stored[f].acknowledgedAt == "")
  {
    hide Held;
    var front := batch[..|batch| - 1];
    FingerprintsFront(batch);
    if f in Fingerprints(front) {
      UpsertAck(rows, front, now, f);
    } else {
      UpsertAllSettles(rows, front, now);
    }
  }

  /** An acknowledged alert keeps its acknowledgement time exactly when the operation is
      neither a reset nor its deletion. */
  lemma AckStep(rows: Rows, op: Op, after: Rows, f: string)
    requires Sound(rows) && Step(rows, op, after) && f in rows && rows[f].acknowledged
    ensures (f in after && after[f].acknowledgedAt == rows[f].acknowledgedAt) <==>
            !Resets(rows, op, f) && !Deletes(rows, op, f)
    ensures Resets(rows, op, f) ==> f in after && !after[f].acknowledged
    ensures Deletes(rows, op, f) ==> f !in after && !rows[f].active
  {
    hide Format, Held, Reconciled, Fingerprints, UpsertAll;
    StepSound(rows, op, after);
    match op
    case Upsert(batch, now, read) =>
      if batch == [] {
        EmptyBatch(rows, now, read, after);
      } else {
        var page := PageOf(rows, batch, now, read, after);
        UpsertAllSettles(rows, batch, Format(now));
        if f in Fingerprints(batch) {
          UpsertAck(rows, batch, Format(now), f);
        }
      }
    case _ =>
  }

  /** Over a run: the time of an acknowledgement survives until a reset or deletion. */
  lemma {:induction false} AckForGood(states: seq<Rows>, ops: seq<Op>, f: string, i: nat)
    requires Run(states, ops) && Sound(states[0]) && i < |states|
    requires f in states[0] && states[0][f].acknowledged
    requires forall k :: 0 <= k < i && f in states[k] ==>
            !Resets(states[k], ops[k], f) && !Deletes(states[k], ops[k], f)
    ensures f in states[i] && states[i][f].acknowledged && states[i][f].acknowledgedAt == states[0][f].acknowledgedAt
  {
    hide Step, Resets, Deletes;
    RunSound(states, ops, i);
    RunSound(states, ops, 0);
    if i > 0 {
      AckForGood(states, ops, f, i - 1);
      RunSound(states, ops, i - 1);
      AckStep(states[i - 1], ops[i - 1], states[i], f);
    }
  }

  /** The operations that acknowledge an alert: a suppression and a closing do, too. */
  predicate Acknowledges(op: Op, f: string) {
    (op.Ack? || op.Suppression? || op.Closing?) && op.fingerprint == f
  }

  /** Such an operation marks the alert, keeps the time of an earlier mark or else takes its own, and
      changes nothing else of it but what a suppression and a closing are for; all other alerts stay. */
  lemma AckSets(rows: Rows, op: Op, after: Rows, f: string)
    requires Step(rows, op, after) && f in rows && Acknowledges(op, f)
    ensures after.Keys == rows.Keys && forall g :: g in rows && g != f ==> after[g] == rows[g]
    ensures var was, row := rows[f], after[f];
            var marked := was.(acknowledged := true,
                               acknowledgedAt := if was.acknowledgedAt != "" then was.acknowledgedAt
                                                 else Format(op.now));
      && (op.Ack? ==> row == marked)
      && (op.Suppression? ==> row == marked.(suppressedUntil := Format(op.until)))
      && (op.Closing? ==>
            row == marked.(body := was.body.(state := "closed"), active := false,
                           clearedAt := if was.clearedAt != "" then was.clearedAt else Format(op.now),
                           suppressedUntil := Format(LIMIT - NANOS)))
  {
    hide Format;
  }

  /** An alert a batch brings in is stored as its last report says, active, first and last seen at the
      batch's time, with no other mark. */
  lemma {:induction false} UpsertNew(rows: Rows, batch: seq<Report>, now: string, f: string)
    requires f !in rows && f in Fingerprints(batch)
    ensures var stored := UpsertAll(rows, batch, now);
            f in stored && stored[f] == Row(LastBody(batch, f), true, false, "", now, now, "", "")
  {
    var front := batch[..|batch| - 1];
    FingerprintsFront(batch);
    if f in Fingerprints(front) {
      UpsertNew(rows, front, now, f);
    } else {
      UpsertAllSettles(rows, front, now);
    }
  }

  /** An alert a batch does not mention stays as it is, or was active and is cleared at its time. */
  lemma UnmentionedStep(rows: Rows, batch: seq<Report>, now: Instant, read: Instant, after: Rows, f: string)
    requires Sound(rows) && Reconciled(rows, batch, now, read, after) && f !in Fingerprints(batch)
    ensures f in after <==> f in rows
    ensures f in rows ==>
              after[f] == rows[f]
              || (rows[f].active
                  && after[f] == rows[f].(active := false, lastSeen := Format(now), clearedAt := Format(now)))
  {
    hide Format, Held, Reconciled, UpsertAll, Fingerprints;
    if batch == [] {
      EmptyBatch(rows, now, read, after);
    } else {
      var page := PageOf(rows, batch, now, read, after);
      UpsertAllSettles(rows, batch, Format(now));
    }
  }

  /** An alert a batch mentions is stored and not cleared. */
  lemma MentionedStep(rows: Rows, batch: seq<Report>, now: Instant, read: Instant, after: Rows, f: string)
    requires Reconciled(rows, batch, now, read, after) && f in Fingerprints(batch)
    ensures f in after && f in UpsertAll(rows, batch, Format(now)) && after[f] == UpsertAll(rows, batch, Format(now))[f]
  {
    hide Format, Held, Reconciled, UpsertAll, Fingerprints;
    if batch == [] {
      EmptyBatch(rows, now, read, after);
    } else {
      var page := PageOf(rows, batch, now, read, after);
      UpsertAllSettles(rows, batch, Format(now));
    }
  }

  /** An alert no operation has acknowledged is not acknowledged. */
  lemma NoAckStep(rows: Rows, op: Op, after: Rows, f: string)
    requires Sound(rows) && Step(rows, op, after) && f in after && !Acknowledges(op, f)
    requires f in rows ==> !rows[f].acknowledged
    ensures !after[f].acknowledged
  {
    hide Format, Held, Reconciled, Fingerprints, UpsertAll, LastBody;
    StepSound(rows, op, after);
    if op.Upsert? && f in Fingerprints(op.batch) {
      MentionedStep(rows, op.batch, op.now, op.read, after, f);
      if f in rows {
        UpsertAck(rows, op.batch, Format(op.now), f);
      } else {
        UpsertNew(rows, op.batch, Format(op.now), f);
      }
    } else if op.Upsert? {
      UnmentionedStep(rows, op.batch, op.now, op.read, after, f);
    }
  }

  /** When an alert was acknowledged, told from the operations: by the first of them that acknowledges
      it since it was last reset or deleted. */
  ghost function AckedBy(states: seq<Rows>, ops: seq<Op>, f: string, i: nat): Option<Instant>
    requires Run(states, ops) && i < |states|
  {
    if i == 0 then None
    else
      var rows, op, earlier := states[i - 1], ops[i - 1], AckedBy(states, ops, f, i - 1);
      if f !in rows || Resets(rows, op, f) || Deletes(rows, op, f) then None
      else if Acknowledges(op, f) && earlier.None? then Some(op.now)
      else earlier
  }

  /** Over every run from an empty table: an alert is acknowledged exactly when some operation
      acknowledged it since its last reset, and shows the time of the first that did. */
  lemma {:induction false} AckedExactly(states: seq<Rows>, ops: seq<Op>, f: string, i: nat)
    requires Run(states, ops) && states[0] == map[] && i < |states| && f in states[i]
    ensures states[i][f].acknowledged <==> AckedBy(states, ops, f, i).Some?
    ensures states[i][f].acknowledged ==> states[i][f].acknowledgedAt == Format(AckedBy(states, ops, f, i).value)
  {
    hide Step, Resets, Deletes, Format, Sound;
    if i > 0 {
      var rows, op := states[i - 1], ops[i - 1];
      EmptySound();
      RunSound(states, ops, i - 1);
      if f in rows {
        AckedExactly(states, ops, f, i - 1);
        AckedNext(rows, op, states[i], f);
      } else {
        NotThere(rows, op, f);
        NoAckStep(rows, op, states[i], f);
      }
    }
  }

  lemma EmptySound()
    ensures Sound(map[])
  {
  }

  lemma NotThere(rows: Rows, op: Op, f: string)
    requires f !in rows
    ensures forall after :: Step(rows, op, after) && f in after ==> !Acknowledges(op, f)
  {
    hide Format, Reconciled;
  }

  lemma AckedNext(rows: Rows, op: Op, after: Rows, f: string)
    requires Sound(rows) && Step(rows, op, after) && f in rows && f in after
    ensures Acknowledges(op, f) ==>
              after[f].acknowledged && !Resets(rows, op, f) && !Deletes(rows, op, f)
              && after[f].acknowledgedAt == (if rows[f].acknowledged then rows[f].acknowledgedAt else Format(op.now))
    ensures !Acknowledges(op, f) && (Resets(rows, op, f) || !rows[f].acknowledged) ==> !after[f].acknowledged
    ensures !Acknowledges(op, f) && !Resets(rows, op, f) && rows[f].acknowledged ==>
              after[f].acknowledged && after[f].acknowledgedAt == rows[f].acknowledgedAt
    ensures !Deletes(rows, op, f)
  {
    hide Step, Format;
    StepSound(rows, op, after);
    StillThere(rows, op, after, f);
    if Acknowledges(op, f) {
      AckSets(rows, op, after, f);
    } else if rows[f].acknowledged {
      AckStep(rows, op, after, f);
    } else {
      NoAckStep(rows, op, after, f);
    }
  }

  lemma StillThere(rows: Rows, op: Op, after: Rows, f: string)
    requires Step(rows, op, after) && f in rows && f in after
    ensures !Deletes(rows, op, f)
  {
    hide Format, Reconciled, TextLess;
  }

  // ---- a row over a run ----

  /** What a batch leaves of an alert it mentions, however often, told from the row before it. */
  lemma {:induction false} UpsertKnown(rows: Rows, batch: seq<Report>, now: string, f: string)
    requires f in rows && f in Fingerprints(batch)
    ensures var was := rows[f];
            var held := was.suppressedUntil != "" && TextLess(now, was.suppressedUntil);
            var stored := UpsertAll(rows, batch, now);
      f in stored
      && stored[f] == Row(LastBody(batch, f), was.active || !held, was.active && was.acknowledged,
                          if was.active then was.acknowledgedAt else "", was.firstSeen, now,
                          if held then was.clearedAt else "", was.suppressedUntil)
  {
    hide TextLess;
    var front := batch[..|batch| - 1];
    FingerprintsFront(batch);
    if f in Fingerprints(front) {
      UpsertKnown(rows, front, now, f);
    } else {
      UpsertAllSettles(rows, front, now);
    }
  }

  /** What an alert is suppressed until, told from the operations: the latest suppression or closing
      of it since it came in. */
  ghost function HeldBy(states: seq<Rows>, ops: seq<Op>, f: string, i: nat): string
    requires Run(states, ops) && i < |states|
  {
    if i == 0 || f !in states[i - 1] then ""
    else
      var op := ops[i - 1];
      if op.Suppression? && op.fingerprint == f then Format(op.until)
      else if op.Closing? && op.fingerprint == f then Format(LIMIT - NANOS)
      else HeldBy(states, ops, f, i - 1)
  }

  /** What one operation leaves of the two columns no report changes. */
  lemma ColumnsStep(rows: Rows, op: Op, after: Rows, f: string)
    requires Sound(rows) && Step(rows, op, after) && f in rows && f in after
    ensures after[f].firstSeen == rows[f].firstSeen
    ensures after[f].suppressedUntil == if op.Suppression? && op.fingerprint == f then Format(op.until)
                                        else if op.Closing? && op.fingerprint == f then Format(LIMIT - NANOS)
                                        else rows[f].suppressedUntil
  {
    hide Format, TextLess, Reconciled, Fingerprints, UpsertAll, LastBody;
    if op.Upsert? && f in Fingerprints(op.batch) {
      MentionedStep(rows, op.batch, op.now, op.read, after, f);
      UpsertKnown(rows, op.batch, Format(op.now), f);
    } else if op.Upsert? {
      UnmentionedStep(rows, op.batch, op.now, op.read, after, f);
    } else if Acknowledges(op, f) {
      AckSets(rows, op, after, f);
    }
  }

  /** An operation that brings an alert in is a batch that mentions it. */
  lemma BornStep(rows: Rows, op: Op, after: Rows, f: string)
    requires Sound(rows) && Step(rows, op, after) && f !in rows && f in after
    ensures op.Upsert? && f in Fingerprints(op.batch)
    ensures after[f] == Row(LastBody(op.batch, f), true, false, "", Format(op.now), Format(op.now), "", "")
  {
    hide Format, Reconciled, Fingerprints, UpsertAll, LastBody;
    if op.Upsert? {
      if f !in Fingerprints(op.batch) {
        UnmentionedStep(rows, op.batch, op.now, op.read, after, f);
        assert false;
      } else {
        MentionedStep(rows, op.batch, op.now, op.read, after, f);
        UpsertNew(rows, op.batch, Format(op.now), f);
      }
    }
  }

  /** Over every run from an empty table: an alert shows as first seen the time of the batch that
      brought it in, and as suppressed what the latest suppression or closing since then says. */
  lemma {:induction false} HistoryShown(states: seq<Rows>, ops: seq<Op>, f: string, i: nat) returns (k: nat)
    requires Run(states, ops) && states[0] == map[] && i < |states| && f in states[i]
    ensures k < i && f !in states[k] && forall j :: k < j <= i ==> f in states[j]
    ensures ops[k].Upsert? && f in Fingerprints(ops[k].batch)
    ensures states[i][f].firstSeen == Format(ops[k].now)
    ensures states[i][f].suppressedUntil == HeldBy(states, ops, f, i)
  {
    hide Step, Format, Sound, Fingerprints, LastBody;
    var rows, op := states[i - 1], ops[i - 1];
    EmptySound();
    RunSound(states, ops, i - 1);
    if f in rows {
      k := HistoryShown(states, ops, f, i - 1);
      ColumnsStep(rows, op, states[i], f);
    } else {
      k := i - 1;
      BornStep(rows, op, states[i], f);
    }
  }

  // ---- retention ----

  /** Every clearing time is a time the store formatted. */
  ghost predicate Timed(rows: Rows) {
    forall f :: f in rows && rows[f].clearedAt != "" ==> TimeOf(rows[f].clearedAt)
  }

  ghost predicate TimeOf(text: string) {
    exists t: Instant :: text == Format(t)
  }

  lemma {:induction false} UpsertAllTimed(rows: Rows, batch: seq<Report>, now: string)
    requires Timed(rows)
    ensures Timed(UpsertAll(rows, batch, now))
  {
    hide TimeOf, Held;
    if batch != [] {
      UpsertAllTimed(rows, batch[..|batch| - 1], now);
    }
  }

  lemma StepTimed(rows: Rows, op: Op, after: Rows)
    requires Timed(rows) && Step(rows, op, after)
    ensures Timed(after)
  {
    hide Format, Held, UpsertAll, IsPage;
    match op
    case Upsert(batch, now, read) =>
      UpsertAllTimed(rows, batch, Format(now));
      assert TimeOf(Format(now));
    case Closing(f, now) => assert TimeOf(Format(now));
    case _ =>
  }

  /** In every state a run reaches each clearing time is the text of an instant. */
  lemma {:induction false} RunTimed(states: seq<Rows>, ops: seq<Op>, i: nat)
    requires Run(states, ops) && Timed(states[0]) && i < |states|
    ensures Timed(states[i])
  {
    hide Step, Timed;
    if i > 0 {
      RunTimed(states, ops, i - 1);
      StepTimed(states[i - 1], ops[i - 1], states[i]);
    }
  }

  /** Exactly which alerts a retention run deletes: the inactive ones cleared before the cutoff,
      except within one second where the texts are misordered. So it deletes none cleared a second
      or more after the cutoff, and every one cleared a second or more before it. */
  lemma RetentionExact(rows: Rows, cutoff: Instant, after: Rows, f: string, cleared: Instant)
    requires Sound(rows) && Step(rows, Retention(cutoff), after) && f in rows
    requires rows[f].active || rows[f].clearedAt == Format(cleared)
    ensures f !in after <==>
            !rows[f].active && ((cleared < cutoff && !Misordered(cleared, cutoff)) || Misordered(cutoff, cleared))
    ensures f in after ==> after[f] == rows[f]
    ensures !rows[f].active && f !in after ==> cleared < cutoff + NANOS
    ensures !rows[f].active && cleared + NANOS <= cutoff ==> f !in after
  {
    hide Format, TextLess, Misordered;
    FormatOrder(cleared, cutoff);
    SecondsNeverMisordered(cleared, cutoff);
    SecondsNeverMisordered(cutoff, cleared);
    FormatNotEmpty(cleared);
  }

  /** The same over runs from an empty table: every inactive alert has such a clearing time. */
  lemma RetentionOverRuns(states: seq<Rows>, ops: seq<Op>, i: nat, f: string) returns (cleared: Instant)
    requires Run(states, ops) && states[0] == map[] && i < |ops| && ops[i].Retention? && f in states[i]
    ensures states[i][f].active || states[i][f].clearedAt == Format(cleared)
    ensures var cutoff := ops[i].cutoff;
            var below := (cleared < cutoff && !Misordered(cleared, cutoff)) || Misordered(cutoff, cleared);
            f !in states[i + 1] <==> (!states[i][f].active && below)
  {
    hide Format, Misordered, Step;
    RunSound(states, ops, i);
    RunTimed(states, ops, i);
    cleared := 0;
    if !states[i][f].active {
      cleared :| states[i][f].clearedAt == Format(cleared);
    }
    RetentionExact(states[i], ops[i].cutoff, states[i + 1], f, cleared);
  }
}
