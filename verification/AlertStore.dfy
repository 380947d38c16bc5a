/** The alert_records table: its SQL statements as functions on rows, and the store whose
    methods run them. Every time column holds a text of TimeText or is empty. */
module AlertStore {
  import opened Text
  import opened TimeText

  /** What a report says about an alert; the stored copy is replaced by every new report. */
  datatype Body = Body(source: string, severity: string, state: string, category: string, title: string,
                       summary: string, recommendation: string, evidence: seq<string>,
                       labels: string, annotations: string)

  datatype Report = Report(fingerprint: string, body: Body)

  datatype Row = Row(body: Body, active: bool, acknowledged: bool, acknowledgedAt: string,
                     firstSeen: string, lastSeen: string, clearedAt: string, suppressedUntil: string)

  type Rows = map<string, Row>

  /** CloseAlert suppresses until the last second of year 9999. */
  const CLOSED_UNTIL: Civil := Civil(9999, 12, 31, 23, 59, 59, 0)

  function ClosedInstant(): (t: Instant)
    ensures t == LIMIT - NANOS
  {
    CivilUnique(CLOSED_UNTIL);
    LastSecondOfAll();
    InstantOf(CLOSED_UNTIL)
  }

  lemma LastSecondOfAll()
    ensures InstantOf(CLOSED_UNTIL) == LIMIT - NANOS
  {
    YearLength(9999);
    var days := DaysBeforeYear(10000);
    assert DaysBeforeMonth(9999, 13) == DaysBeforeMonth(9999, 12) + 31;
    assert DayNumber(9999, 12, 31) == days - 1 by {
      assert DaysBeforeYear(10000) == DaysBeforeYear(9999) + 365;
    }
    hide DaysBeforeYear, DayNumber, DaysBeforeMonth, MonthLength;
    assert Seconds(CLOSED_UNTIL) == (days - 1) * DAY_SECONDS + 86_399;
  }

  /** suppressed_until != '' AND suppressed_until > now */
  predicate Held(row: Row, now: string) {
    row.suppressedUntil != "" && TextLess(now, row.suppressedUntil)
  }

  function Fresh(body: Body, now: string): Row {
    Row(body, true, false, "", now, now, "", "")
  }

  /** The ON CONFLICT branch: right-hand sides see the row before the update. */
  function Merge(row: Row, body: Body, now: string): Row {
    Row(body,
        if Held(row, now) then row.active else true,
        if row.active then row.acknowledged else false,
        if row.active then row.acknowledgedAt else "",
        row.firstSeen, now,
        if Held(row, now) then row.clearedAt else "",
        row.suppressedUntil)
  }

  function UpsertOne(rows: Rows, report: Report, now: string): Rows {
    var f := report.fingerprint;
    rows[f := if f in rows then Merge(rows[f], report.body, now) else Fresh(report.body, now)]
  }

  function UpsertAll(rows: Rows, batch: seq<Report>, now: string): Rows {
    if batch == [] then rows
    else UpsertOne(UpsertAll(rows, batch[..|batch| - 1], now), batch[|batch| - 1], now)
  }

  function Fingerprints(batch: seq<Report>): set<string> {
    set r | r in batch :: r.fingerprint
  }

  function Clear(row: Row, now: string): Row {
    row.(active := false, lastSeen := now, clearedAt := if row.clearedAt == "" then now else row.clearedAt)
  }

  function ClearRows(rows: Rows, gone: set<string>, now: string): Rows {
    map f | f in rows :: if f in gone then Clear(rows[f], now) else rows[f]
  }

  predicate Visible(row: Row, now: string) {
    row.active && !Held(row, now)
  }

  function VisibleKeys(rows: Rows, now: string): (chosen: set<string>)
    ensures chosen <= rows.Keys
  {
    set f | f in rows && Visible(rows[f], now)
  }

  function ActiveKeys(rows: Rows): set<string> {
    set f | f in rows && rows[f].active
  }

  /** ORDER BY acknowledged ASC, first_seen DESC */
  predicate Before(a: Row, b: Row) {
    (!a.acknowledged && b.acknowledged) || (a.acknowledged == b.acknowledged && TextLess(b.firstSeen, a.firstSeen))
  }

  lemma BeforeWeak(a: Row, b: Row, c: Row)
    requires !Before(b, a) && !Before(c, b)
    ensures !Before(c, a)
  {
    if a.acknowledged == b.acknowledged == c.acknowledged {
      TextLessTransitive(c.firstSeen, b.firstSeen, a.firstSeen);
    }
  }

  /** A result of a query with ORDER BY and LIMIT: rows that tie may come in any order. */
  ghost predicate IsPage(rows: Rows, chosen: set<string>, limit: nat, page: seq<string>)
    requires chosen <= rows.Keys
  {
    && |page| == (if |chosen| < limit then |chosen| else limit)
    && (forall i :: 0 <= i < |page| ==> page[i] in chosen)
    && (forall i, j :: 0 <= i < j < |page| ==> page[i] != page[j] && !Before(rows[page[j]], rows[page[i]]))
    && (forall i, f :: 0 <= i < |page| && f in chosen && f !in page ==> !Before(rows[f], rows[page[i]]))
  }

  function Selected(rows: Rows, activeOnly: bool, includeAcknowledged: bool, now: string): (chosen: set<string>)
    ensures chosen <= rows.Keys
  {
    set f | f in rows && (activeOnly ==> Visible(rows[f], now)) && (!includeAcknowledged ==> !rows[f].acknowledged)
  }

  function Limit(limit: int): nat {
    if limit <= 0 || limit > 1000 then 200 else limit
  }

  const CLEARING_LIMIT: nat := 1000

  function Keys(page: seq<string>): set<string> {
    set f | f in page
  }

  /** One reconciliation: the reports are stored, then active alerts the batch no longer
      mentions are cleared, all of them for an empty batch, otherwise those on one page. */
  ghost predicate Reconciled(rows: Rows, batch: seq<Report>, now: Instant, read: Instant, after: Rows) {
    if batch == [] then
      after == ClearRows(rows, ActiveKeys(rows), Format(now))
    else
      exists page: seq<string> :: ClearedBy(rows, batch, now, read, page, after)
  }

  ghost predicate ClearedBy(rows: Rows, batch: seq<Report>, now: Instant, read: Instant, page: seq<string>,
                            after: Rows)
  {
    var stored := UpsertAll(rows, batch, Format(now));
    && IsPage(stored, VisibleKeys(stored, Format(read)), CLEARING_LIMIT, page)
    && after == ClearRows(stored, Keys(page) - Fingerprints(batch), Format(now))
  }

  function Acknowledge(row: Row, now: string): Row {
    row.(acknowledged := true, acknowledgedAt := if row.acknowledgedAt == "" then now else row.acknowledgedAt)
  }

  function Suppress(row: Row, until: string, now: string): Row {
    Acknowledge(row, now).(suppressedUntil := until)
  }

  function Close(row: Row, now: string): Row {
    var acknowledged := Acknowledge(row, now);
    acknowledged.(body := row.body.(state := "closed"), active := false,
                  clearedAt := if row.clearedAt == "" then now else row.clearedAt,
                  suppressedUntil := Format(ClosedInstant()))
  }

  /** The rows a retention run deletes. */
  predicate Expired(row: Row, cutoff: string) {
    !row.active && row.clearedAt != "" && TextLess(row.clearedAt, cutoff)
  }

  function Retain(rows: Rows, cutoff: string): Rows {
    map f | f in rows && !Expired(rows[f], cutoff) :: rows[f]
  }

  lemma {:induction false} FirstExists(rows: Rows, chosen: set<string>) returns (f: string)
    requires chosen != {} && chosen <= rows.Keys
    ensures f in chosen && forall g :: g in chosen ==> !Before(rows[g], rows[f])
    decreases |chosen|
  {
    var e :| e in chosen;
    TextLessTrichotomy(rows[e].firstSeen, rows[e].firstSeen);
    if chosen == {e} {
      f := e;
    } else {
      var best := FirstExists(rows, chosen - {e});
      assert forall g :: g in chosen ==> g == e || g in chosen - {e};
      TextLessTrichotomy(rows[e].firstSeen, rows[best].firstSeen);
      f := if Before(rows[e], rows[best]) then e else best;
      if f == e {
        forall g | g in chosen - {e} ensures !Before(rows[g], rows[e]) {
          BeforeWeak(rows[e], rows[best], rows[g]);
        }
      }
    }
  }

  method Query(rows: Rows, chosen: set<string>, limit: nat) returns (page: seq<string>)
    requires chosen <= rows.Keys
    ensures IsPage(rows, chosen, limit, page)
  {
    page := [];
    var rest := chosen;
    while rest != {} && |page| < limit
      invariant rest <= chosen && |page| + |rest| == |chosen| && |page| <= limit
      invariant forall i :: 0 <= i < |page| ==> page[i] in chosen && page[i] !in rest
      invariant forall f :: f in chosen ==> f in rest || f in page
      invariant forall i, j :: 0 <= i < j < |page| ==> page[i] != page[j] && !Before(rows[page[j]], rows[page[i]])
      invariant forall i, f :: 0 <= i < |page| && f in rest ==> !Before(rows[f], rows[page[i]])
    {
      ghost var witnessed := FirstExists(rows, rest);
      var f :| f in rest && forall g :: g in rest ==> !Before(rows[g], rows[f]);
      page := page + [f];
      rest := rest - {f};
    }
  }

  class Store {
    var rows: Rows

    constructor ()
      ensures rows == map[]
    {
      rows := map[];
    }

    /** AlertRecords: the fingerprints it lists, at the clock reading now. */
    method AlertRecords(activeOnly: bool, includeAcknowledged: bool, limit: int, now: Instant)
      returns (page: seq<string>)
      ensures IsPage(rows, Selected(rows, activeOnly, includeAcknowledged, Format(now)), Limit(limit), page)
    {
      page := Query(rows, Selected(rows, activeOnly, includeAcknowledged, Format(now)), Limit(limit));
    }

    /** now is the reading stamped on the rows, read the later one of the query in between. */
    method UpsertAlertRecords(records: seq<Report>, now: Instant, read: Instant)
      modifies this
      ensures Reconciled(old(rows), records, now, read, rows)
    {
      hide *;
      var stamp := Format(now);
      var seen: set<string> := {};
      UpsertNothing(rows, stamp);
      for i := 0 to |records|
        invariant seen == Fingerprints(records[..i])
        invariant rows == UpsertAll(old(rows), records[..i], stamp)
      {
        UpsertNext(old(rows), records, i, stamp);
        seen := seen + {records[i].fingerprint};
        rows := UpsertOne(rows, records[i], stamp);
      }
      assert records[..|records|] == records;
      ghost var stored := rows;
      NothingSeen(records);
      if |seen| == 0 {
        rows := ClearRows(rows, ActiveKeys(rows), stamp);
        ReconciledEmpty(old(rows), now, read, rows);
        return;
      }
      var active := AlertRecords(true, true, CLEARING_LIMIT, read);
      ClearNothing(rows, stamp);
      for i := 0 to |active|
        invariant rows == ClearRows(stored, Keys(active[..i]) - seen, stamp)
      {
        ClearNext(stored, active, i, seen, stamp);
        if active[i] !in seen && active[i] in rows {
          rows := rows[active[i] := Clear(rows[active[i]], stamp)];
        }
      }
      assert active[..|active|] == active;
      ReconciledPage(old(rows), records, now, read, active, rows);
    }

    method AcknowledgeAlert(fingerprint: string, now: Instant) returns (found: bool)
      modifies this
      ensures found == (fingerprint in old(rows))
      ensures rows == if found then old(rows)[fingerprint := Acknowledge(old(rows)[fingerprint], Format(now))]
              else old(rows)
    {
      found := fingerprint in rows;
      if found {
        rows := rows[fingerprint := Acknowledge(rows[fingerprint], Format(now))];
      }
    }

    method SuppressAlert(fingerprint: string, until: Instant, now: Instant) returns (found: bool)
      modifies this
      ensures found == (fingerprint in old(rows))
      ensures rows == if found
              then old(rows)[fingerprint := Suppress(old(rows)[fingerprint], Format(until), Format(now))]
              else old(rows)
    {
      found := fingerprint in rows;
      if found {
        rows := rows[fingerprint := Suppress(rows[fingerprint], Format(until), Format(now))];
      }
    }

    method CloseAlert(fingerprint: string, now: Instant) returns (found: bool)
      modifies this
      ensures found == (fingerprint in old(rows))
      ensures rows == if found then old(rows)[fingerprint := Close(old(rows)[fingerprint], Format(now))] else old(rows)
    {
      found := fingerprint in rows;
      if found {
        rows := rows[fingerprint := Close(rows[fingerprint], Format(now))];
      }
    }

    method DeleteClosedAlertsBefore(cutoff: Instant) returns (deleted: nat)
      modifies this
      ensures rows == Retain(old(rows), Format(cutoff)) && deleted == |old(rows)| - |rows|
    {
      var before := |rows|;
      ghost var was := rows;
      rows := Retain(rows, Format(cutoff));
      FewerKeys(rows.Keys, was.Keys);
      deleted := before - |rows|;
    }
  }

  /** The alerts a query asks for: the active ones not suppressed now, or all, and without the
      acknowledged ones if these are not wanted. */
  predicate Asked(row: Row, activeOnly: bool, includeAcknowledged: bool, now: string) {
    && (activeOnly ==> row.active && (row.suppressedUntil == "" || !TextLess(now, row.suppressedUntil)))
    && (row.acknowledged ==> includeAcknowledged)
  }

  /** What AlertRecords lists: alerts asked for, none twice, unacknowledged ones first, each kind newest
      first; as many as the limit, which is 200 outside 1 to 1000, and otherwise all that are asked for;
      and one left out comes before none that is listed. */
  lemma ListedAlerts(rows: Rows, activeOnly: bool, includeAcknowledged: bool, limit: int, now: string,
                     page: seq<string>)
    requires IsPage(rows, Selected(rows, activeOnly, includeAcknowledged, now), Limit(limit), page)
    ensures forall f :: f in page ==> f in rows && Asked(rows[f], activeOnly, includeAcknowledged, now)
    ensures forall i, j :: 0 <= i < j < |page| ==>
              && page[i] in rows && page[j] in rows && page[i] != page[j]
              && (rows[page[i]].acknowledged ==> rows[page[j]].acknowledged)
              && (rows[page[i]].acknowledged == rows[page[j]].acknowledged ==>
                    !TextLess(rows[page[i]].firstSeen, rows[page[j]].firstSeen))
    ensures var most := if 1 <= limit <= 1000 then limit else 200;
      && |page| <= most
      && forall f :: f in rows && Asked(rows[f], activeOnly, includeAcknowledged, now) && f !in page ==>
           |page| == most
           && forall g :: g in page ==>
                g in rows && (rows[g].acknowledged ==> rows[f].acknowledged)
                && (rows[g].acknowledged == rows[f].acknowledged ==> !TextLess(rows[g].firstSeen, rows[f].firstSeen))
  {
    hide TextLess;
    var chosen := Selected(rows, activeOnly, includeAcknowledged, now);
    assert forall f :: f in chosen <==> f in rows && Asked(rows[f], activeOnly, includeAcknowledged, now);
    hide Selected, Asked;
    if |page| == |chosen| {
      AllOnPage(chosen, page);
    }
  }

  lemma AllOnPage(chosen: set<string>, page: seq<string>)
    requires |page| == |chosen| && forall i :: 0 <= i < |page| ==> page[i] in chosen
    requires forall i, j :: 0 <= i < j < |page| ==> page[i] != page[j]
    ensures forall f :: f in chosen ==> f in page
  {
    KeysCount(page);
    assert chosen == Keys(page) + (chosen - Keys(page));
  }

  lemma {:induction false} KeysCount(page: seq<string>)
    requires forall i, j :: 0 <= i < j < |page| ==> page[i] != page[j]
    ensures |Keys(page)| == |page|
  {
    if page == [] {
      assert Keys(page) == {};
    } else {
      var front, last := page[..|page| - 1], page[|page| - 1];
      KeysCount(front);
      assert Keys(page) == Keys(front) + {last};
      assert last !in Keys(front);
    }
  }

  lemma {:induction false} FewerKeys(a: set<string>, b: set<string>)
    requires a <= b
    ensures |a| <= |b|
  {
    if a != {} {
      var x :| x in a;
      FewerKeys(a - {x}, b - {x});
    }
  }

  lemma UpsertNothing(rows: Rows, now: string)
    ensures UpsertAll(rows, [], now) == rows && Fingerprints([]) == {}
  {
  }

  lemma UpsertNext(rows: Rows, batch: seq<Report>, i: nat, now: string)
    requires i < |batch|
    ensures UpsertAll(rows, batch[..i + 1], now) == UpsertOne(UpsertAll(rows, batch[..i], now), batch[i], now)
    ensures Fingerprints(batch[..i + 1]) == Fingerprints(batch[..i]) + {batch[i].fingerprint}
  {
    assert batch[..i + 1] == batch[..i] + [batch[i]];
    assert batch[..i + 1][..i] == batch[..i];
  }

  lemma NothingSeen(batch: seq<Report>)
    ensures |Fingerprints(batch)| == 0 <==> batch == []
  {
    if batch != [] {
      assert batch[0] in batch && batch[0].fingerprint in Fingerprints(batch);
    } else {
      assert Fingerprints(batch) == {};
    }
  }

  lemma ReconciledEmpty(rows: Rows, now: Instant, read: Instant, after: Rows)
    requires after == ClearRows(rows, ActiveKeys(rows), Format(now))
    ensures Reconciled(rows, [], now, read, after)
  {
    hide ClearRows, Format;
  }

  lemma ReconciledPage(rows: Rows, batch: seq<Report>, now: Instant, read: Instant, page: seq<string>, after: Rows)
    requires batch != []
    requires var stored := UpsertAll(rows, batch, Format(now));
             IsPage(stored, Selected(stored, true, true, Format(read)), Limit(CLEARING_LIMIT), page)
             && after == ClearRows(stored, Keys(page) - Fingerprints(batch), Format(now))
    ensures Reconciled(rows, batch, now, read, after)
  {
    hide Format, UpsertAll, ClearRows, Visible, IsPage;
    var stored := UpsertAll(rows, batch, Format(now));
    assert Selected(stored, true, true, Format(read)) == VisibleKeys(stored, Format(read));
    assert ClearedBy(rows, batch, now, read, page, after);
  }

  lemma ClearNothing(rows: Rows, now: string)
    ensures forall seen: set<string> {:trigger Keys([]) - seen} :: ClearRows(rows, Keys([]) - seen, now) == rows
  {
    assert Keys([]) == {};
  }

  lemma ClearNext(rows: Rows, page: seq<string>, i: nat, seen: set<string>, now: string)
    requires i < |page|
    ensures var before := ClearRows(rows, Keys(page[..i]) - seen, now);
            var after := ClearRows(rows, Keys(page[..i + 1]) - seen, now);
            after == if page[i] !in seen && page[i] in before then before[page[i] := Clear(before[page[i]], now)]
                else before
  {
    assert page[..i + 1] == page[..i] + [page[i]];
    assert forall f :: f in Keys(page[..i + 1]) <==> f in Keys(page[..i]) || f == page[i];
    if page[i] in rows {
      assert Clear(Clear(rows[page[i]], now), now) == Clear(rows[page[i]], now);
    }
  }
}
