/** The device tables: rows in order of their AUTOINCREMENT ids, classifications, and the event
    log. No statement of the program deletes a device, so row k has id k + 1 for good. */
module Inventory {
  import opened Text
  import opened Wrappers

  datatype Observation = Observation(site: string, ip: string, mac: string, vendor: string, hostname: string,
                                     firstSeen: string, lastSeen: string, source: string)

  datatype Row = Row(site: string, ip: string, mac: string, vendor: string, hostname: string, firstSeen: string,
                     lastSeen: string, seenCount: nat, source: string, openPorts: string, services: string,
                     notes: string, monitorMissing: bool, knownAt: string)

  datatype Intelligence = Intelligence(category: string, confidence: string, evidence: seq<string>, risks: seq<string>,
                                       version: string, classifiedAt: string, portsObservedAt: string)

  datatype Kind = PortsChanged | CategoryChanged

  datatype Event = Event(at: string, site: string, device: nat, kind: Kind, before: string, after: string)

  datatype Tables = Tables(rows: seq<Row>, intelligence: map<nat, Intelligence>, events: seq<Event>)

  /** The key a device without a MAC address is stored under. */
  function StorageMac(o: Observation): string {
    if o.mac == "" && o.ip != "" then "ip:" + o.ip else o.mac
  }

  /** The row with a site and stored MAC, or the number of rows. */
  function Find(rows: seq<Row>, site: string, mac: string): (k: nat)
    ensures k <= |rows| && (k < |rows| ==> rows[k].site == site && rows[k].mac == mac)
    ensures k == |rows| ==> forall i :: 0 <= i < |rows| ==> !(rows[i].site == site && rows[i].mac == mac)
  {
    if rows == [] then 0
    else
      var front := rows[..|rows| - 1];
      var k := Find(front, site, mac);
      if k < |front| then k
      else if rows[|rows| - 1].site == site && rows[|rows| - 1].mac == mac then |rows| - 1
      else
        assert forall i :: 0 <= i < |rows| ==> (i < |front| && rows[i] == front[i]) || i == |rows| - 1;
        |rows|
  }

  function Seen(row: Row, o: Observation): Row {
    row.(ip := o.ip, vendor := if row.vendor == "" then o.vendor else row.vendor,
         hostname := if row.hostname == "" then o.hostname else row.hostname,
         lastSeen := o.lastSeen, seenCount := row.seenCount + 1, source := o.source)
  }

  function NewRow(o: Observation): Row {
    Row(o.site, o.ip, StorageMac(o), o.vendor, o.hostname, o.firstSeen, o.lastSeen, 1, o.source, "", "", "", false, "")
  }

  function UpsertOne(rows: seq<Row>, o: Observation): seq<Row> {
    if StorageMac(o) == "" then rows
    else
      var k := Find(rows, o.site, StorageMac(o));
      if k == |rows| then rows + [NewRow(o)] else rows[k := Seen(rows[k], o)]
  }

  function UpsertAll(rows: seq<Row>, batch: seq<Observation>): seq<Row> {
    if batch == [] then rows else UpsertOne(UpsertAll(rows, batch[..|batch| - 1]), batch[|batch| - 1])
  }

  function Identified(row: Row, hostname: string, vendor: string, source: string, now: string): Row {
    row.(hostname := if hostname != "" then hostname else row.hostname,
         vendor := if vendor != "" then vendor else row.vendor,
         source := if row.source == "" then source else if Contains(row.source, source) then row.source
                   else row.source + "," + source,
         lastSeen := now)
  }

  /** What marking all new devices of a site does to a row. */
  function KnownTo(row: Row, site: string, now: string): Row {
    if row.site == site && row.knownAt == "" then row.(knownAt := now) else row
  }

  /** What opening the database does to a row: an unknown device becomes known since it was first
      seen. */
  function Adopted(row: Row): Row {
    if row.knownAt == "" && row.firstSeen != "" then row.(knownAt := row.firstSeen) else row
  }

  datatype Op =
    | Upsert(batch: seq<Observation>)
    | Edit(site: string, id: nat, hostname: string, notes: string, monitorMissing: bool)
    | Know(site: string, id: nat, now: string)
    | KnowAll(site: string, now: string)
    | Identify(site: string, ip: string, hostname: string, vendor: string, source: string, now: string)
    | Classify(site: string, id: nat, openPorts: string, services: string, intelligence: Intelligence, now: string)
    | Migrate

  predicate HasDevice(t: Tables, site: string, id: nat) {
    1 <= id <= |t.rows| && t.rows[id - 1].site == site
  }

  /** The events a classification writes: a change of the ports, and a change of the category of a
      device that had one. */
  function Logged(t: Tables, site: string, id: nat, openPorts: string, i: Intelligence, now: string): seq<Event>
    requires HasDevice(t, site, id)
  {
    var row := t.rows[id - 1];
    var category := if id in t.intelligence then t.intelligence[id].category else "";
    (if row.openPorts != openPorts then [Event(now, site, id, PortsChanged, row.openPorts, openPorts)] else [])
    + (if category != "" && category != i.category
       then [Event(now, site, id, CategoryChanged, category, i.category)] else [])
  }

  function Classified(t: Tables, site: string, id: nat, openPorts: string, services: string, i: Intelligence,
                      now: string): Tables
    requires HasDevice(t, site, id)
  {
    Tables(t.rows[id - 1 := t.rows[id - 1].(openPorts := openPorts, services := services)],
           t.intelligence[id := i], t.events + Logged(t, site, id, openPorts, i, now))
  }

  function Next(t: Tables, op: Op): Tables {
    match op
    case Upsert(batch) => t.(rows := UpsertAll(t.rows, batch))
    case Edit(site, id, hostname, notes, monitor) =>
      if HasDevice(t, site, id)
      then t.(rows := t.rows[id - 1 := t.rows[id - 1].(hostname := hostname, notes := notes,
          monitorMissing := monitor)])
      else t
    case Know(site, id, now) =>
      if HasDevice(t, site, id) then t.(rows := t.rows[id - 1 := t.rows[id - 1].(knownAt := now)]) else t
    case KnowAll(site, now) =>
      t.(rows := seq(|t.rows|, k requires 0 <= k < |t.rows| =>
           KnownTo(t.rows[k], site, now)))
    case Identify(site, ip, hostname, vendor, source, now) =>
      t.(rows := seq(|t.rows|, k requires 0 <= k < |t.rows| =>
           if t.rows[k].site == site && t.rows[k].ip == ip
           then Identified(t.rows[k], hostname, vendor, source, now) else t.rows[k]))
    case Classify(site, id, openPorts, services, i, now) =>
      if HasDevice(t, site, id) then Classified(t, site, id, openPorts, services, i, now) else t
    case Migrate =>
      t.(rows := seq(|t.rows|, k requires 0 <= k < |t.rows| => Adopted(t.rows[k])))
  }

  class Store {
    var rows: seq<Row>
    var intelligence: map<nat, Intelligence>
    var events: seq<Event>

    function State(): Tables
      reads this
    {
      Tables(rows, intelligence, events)
    }

    constructor ()
      ensures State() == Tables([], map[], [])
    {
      rows, intelligence, events := [], map[], [];
    }

    method UpsertDevices(devices: seq<Observation>) returns (newCount: nat)
      modifies this
      ensures State() == Next(old(State()), Upsert(devices))
      ensures newCount == |rows| - |old(rows)|
    {
      newCount := 0;
      for i := 0 to |devices|
        invariant rows == UpsertAll(old(rows), devices[..i]) && newCount == |rows| - |old(rows)|
        invariant intelligence == old(intelligence) && events == old(events)
      {
        assert devices[..i + 1][..i] == devices[..i];
        var device := devices[i];
        var storageMac := device.mac;
        if storageMac == "" && device.ip != "" {
          storageMac := "ip:" + device.ip;
        }
        if storageMac == "" {
          continue;
        }
        var existing := Find(rows, device.site, storageMac);
        if existing == |rows| {
          rows := rows + [NewRow(device)];
          newCount := newCount + 1;
          continue;
        }
        rows := rows[existing := Seen(rows[existing], device)];
      }
      assert devices[..|devices|] == devices;
    }

    method MarkDeviceKnown(site: string, id: nat, now: string) returns (found: bool)
      modifies this
      ensures State() == Next(old(State()), Know(site, id, now)) && found == HasDevice(old(State()), site, id)
    {
      found := HasDevice(State(), site, id);
      if found {
        rows := rows[id - 1 := rows[id - 1].(knownAt := now)];
      }
    }

    /** The number returned is the rows affected. */
    method MarkAllNewDevicesKnown(site: string, now: string) returns (affected: nat)
      modifies this
      ensures State() == Next(old(State()), KnowAll(site, now))
      ensures affected == |set k | 0 <= k < |old(rows)| && old(rows)[k].site == site && old(rows)[k].knownAt == ""|
    {
      hide Next;
      affected := 0;
      ghost var hit: set<int> := {};
      for i := 0 to |rows|
        invariant |rows| == |old(rows)| && intelligence == old(intelligence) && events == old(events)
        invariant forall k :: 0 <= k < i ==> rows[k] == KnownTo(old(rows)[k], site, now)
        invariant forall k :: i <= k < |rows| ==> rows[k] == old(rows)[k]
        invariant hit == (set k | 0 <= k < i && old(rows)[k].site == site && old(rows)[k].knownAt == "")
                && affected == |hit|
      {
        if rows[i].site == site && rows[i].knownAt == "" {
          hit := hit + {i};
          rows := rows[i := rows[i].(knownAt := now)];
          affected := affected + 1;
        }
      }
      KnowAllRows(old(State()), site, now, rows);
    }

    method Migrate()
      modifies this
      ensures State() == Next(old(State()), Op.Migrate)
    {
      var devices := rows;
      rows := seq(|devices|, k requires 0 <= k < |devices| => Adopted(devices[k]));
    }

    method UpdateDeviceIntelligence(site: string, id: nat, openPorts: string, services: string, i: Intelligence,
                                    now: string)
      returns (found: bool)
      modifies this
      ensures State() == Next(old(State()), Classify(site, id, openPorts, services, i, now))
      ensures found == HasDevice(old(State()), site, id)
    {
      found := HasDevice(State(), site, id);
      if !found {
        return;
      }
      var device := rows[id - 1];
      var category := if id in intelligence then intelligence[id].category else "";
      rows := rows[id - 1 := device.(openPorts := openPorts, services := services)];
      intelligence := intelligence[id := i];
      if device.openPorts != rows[id - 1].openPorts {
        events := events + [Event(now, site, id, PortsChanged, device.openPorts, rows[id - 1].openPorts)];
      }
      if category != "" && category != i.category {
        events := events + [Event(now, site, id, CategoryChanged, category, i.category)];
      }
    }
  }

  lemma KnowAllRows(t: Tables, site: string, now: string, rows: seq<Row>)
    requires |rows| == |t.rows| && forall k :: 0 <= k < |rows| ==> rows[k] == KnownTo(t.rows[k], site, now)
    ensures Tables(rows, t.intelligence, t.events) == Next(t, KnowAll(site, now))
  {
    assert rows == Next(t, KnowAll(site, now)).rows;
  }

  // ---- counters ----

  function SeenTotal(rows: seq<Row>): nat {
    if rows == [] then 0 else SeenTotal(rows[..|rows| - 1]) + rows[|rows| - 1].seenCount
  }

  function Counted(batch: seq<Observation>): nat {
    if batch == [] then 0
    else Counted(batch[..|batch| - 1]) + (if StorageMac(batch[|batch| - 1]) == "" then 0 else 1)
  }

  lemma {:induction false} SeenUpdate(rows: seq<Row>, k: nat, row: Row)
    requires k < |rows|
    ensures SeenTotal(rows[k := row]) == SeenTotal(rows) - rows[k].seenCount + row.seenCount
  {
    var last := |rows| - 1;
    if k < last {
      SeenUpdate(rows[..last], k, row);
      assert rows[k := row][..last] == rows[..last][k := row];
    } else {
      assert rows[k := row][..last] == rows[..last];
    }
  }

  /** Every observation that is not skipped is counted once, in a new row or an old one. */
  lemma {:induction false} SeenConserved(rows: seq<Row>, batch: seq<Observation>)
    ensures SeenTotal(UpsertAll(rows, batch)) == SeenTotal(rows) + Counted(batch)
  {
    if batch != [] {
      var o := batch[|batch| - 1];
      var front := UpsertAll(rows, batch[..|batch| - 1]);
      SeenConserved(rows, batch[..|batch| - 1]);
      var k := Find(front, o.site, StorageMac(o));
      if StorageMac(o) != "" && k < |front| {
        SeenUpdate(front, k, Seen(front[k], o));
      } else if StorageMac(o) != "" {
        assert (front + [NewRow(o)])[..|front|] == front;
      }
    }
  }

  /** The last observation in a batch of a device that is not skipped. */
  function LastOf(batch: seq<Observation>, site: string, mac: string): Option<Observation> {
    if batch == [] then None
    else
      var o := batch[|batch| - 1];
      if o.site == site && StorageMac(o) == mac && mac != "" then Some(o) else LastOf(batch[..|batch| - 1], site, mac)
  }

  /** The first value a device ever had, or else the first one observed that is not empty. */
  function FirstName(first: string, batch: seq<Observation>, site: string, mac: string,
                     name: Observation -> string): string {
    if batch == [] then first
    else
      var front, o := FirstName(first, batch[..|batch| - 1], site, mac, name), batch[|batch| - 1];
      if front == "" && o.site == site && StorageMac(o) == mac then name(o) else front
  }

  function VendorOf(o: Observation): string { o.vendor }
  function HostnameOf(o: Observation): string { o.hostname }

  ghost predicate Stored(rows: seq<Row>, site: string, mac: string) {
    Find(rows, site, mac) < |rows|
  }

  lemma FindOther(rows: seq<Row>, k: nat, row: Row, site: string, mac: string)
    requires k < |rows| && row.site == rows[k].site && row.mac == rows[k].mac
    ensures Find(rows[k := row], site, mac) == Find(rows, site, mac)
  {
    var last := |rows| - 1;
    if k < last {
      FindOther(rows[..last], k, row, site, mac);
      assert rows[k := row][..last] == rows[..last][k := row];
    } else {
      assert rows[k := row][..last] == rows[..last];
    }
  }

  lemma FindAppended(rows: seq<Row>, row: Row, site: string, mac: string)
    ensures Find(rows + [row], site, mac) ==
      if Find(rows, site, mac) < |rows| then Find(rows, site, mac)
      else if row.site == site && row.mac == mac then |rows| else |rows| + 1
  {
    assert (rows + [row])[..|rows|] == rows;
  }

  /** Whether an observation is of a device. */
  predicate IsOf(o: Observation, site: string, mac: string) {
    o.site == site && mac == if o.mac != "" then o.mac else if o.ip != "" then "ip:" + o.ip else ""
  }

  /** How often a batch observes a device. */
  function TimesOf(batch: seq<Observation>, site: string, mac: string): nat {
    |set k | 0 <= k < |batch| && IsOf(batch[k], site, mac)|
  }

  lemma TimesNext(batch: seq<Observation>, site: string, mac: string)
    requires batch != []
    ensures var n := |batch| - 1;
      TimesOf(batch, site, mac) == TimesOf(batch[..n], site, mac) + if IsOf(batch[n], site, mac) then 1 else 0
  {
    hide IsOf;
    var n := |batch| - 1;
    var front := set k | 0 <= k < n && IsOf(batch[k], site, mac);
    assert front == set k | 0 <= k < |batch[..n]| && IsOf(batch[..n][k], site, mac);
    assert (set k | 0 <= k < |batch| && IsOf(batch[k], site, mac))
        == if IsOf(batch[n], site, mac) then front + {n} else front;
  }

  /** The first observation of a device in a batch. */
  function FirstOf(batch: seq<Observation>, site: string, mac: string): Option<Observation> {
    if batch == [] then None
    else
      var front := FirstOf(batch[..|batch| - 1], site, mac);
      if front.Some? then front
      else if IsOf(batch[|batch| - 1], site, mac) then Some(batch[|batch| - 1]) else None
  }

  /** What a batch leaves in the row of one device: IP, time and source of its last observation, the vendor
      and host name it had, or else the first observed that is not empty, one more count for each
      observation, and what it had otherwise; a new row was first seen when first observed. A device that
      was not observed keeps its row. */
  lemma {:induction false} UpsertContents(rows: seq<Row>, batch: seq<Observation>, site: string, mac: string)
    requires mac != ""
    ensures var after := UpsertAll(rows, batch);
            var last, first := LastOf(batch, site, mac), FirstOf(batch, site, mac);
            var before := if Stored(rows, site, mac) then rows[Find(rows, site, mac)] else Nobody(site, mac);
      && (first.Some? <==> last.Some?)
      && (Stored(after, site, mac) <==> Stored(rows, site, mac) || last.Some?)
      && (last.None? && Stored(rows, site, mac) ==> after[Find(after, site, mac)] == before)
      && (last.Some? ==>
            after[Find(after, site, mac)] ==
            Row(site, last.value.ip, mac, FirstName(before.vendor, batch, site, mac, VendorOf),
                FirstName(before.hostname, batch, site, mac, HostnameOf),
                if Stored(rows, site, mac) then before.firstSeen else first.value.firstSeen, last.value.lastSeen,
                before.seenCount + TimesOf(batch, site, mac), last.value.source, before.openPorts, before.services,
                before.notes, before.monitorMissing, before.knownAt))
      && (last.None? ==> TimesOf(batch, site, mac) == 0
                         && forall name, text :: FirstName(text, batch, site, mac, name) == text)
  {
    hide Find, TimesOf, IsOf;
    if batch == [] {
      NoTimes(site, mac);
    } else {
      var front, o := batch[..|batch| - 1], batch[|batch| - 1];
      UpsertContents(rows, front, site, mac);
      TimesNext(batch, site, mac);
      OfStored(o, site, mac);
      var mid := UpsertAll(rows, front);
      UpsertOneRow(mid, o, site, mac);
    }
  }

  lemma NoTimes(site: string, mac: string)
    ensures TimesOf([], site, mac) == 0
  {
  }

  lemma OfStored(o: Observation, site: string, mac: string)
    requires mac != ""
    ensures IsOf(o, site, mac) <==> o.site == site && StorageMac(o) == mac
  {
  }

  /** What one observation does to the row of one device. */
  lemma UpsertOneRow(rows: seq<Row>, o: Observation, site: string, mac: string)
    requires mac != ""
    ensures var after, mine := UpsertOne(rows, o), o.site == site && StorageMac(o) == mac;
      && (Stored(after, site, mac) <==> Stored(rows, site, mac) || mine)
      && (Stored(rows, site, mac) ==>
            after[Find(after, site, mac)] == var row := rows[Find(rows, site, mac)]; if mine then Seen(row, o) else row)
      && (!Stored(rows, site, mac) && mine ==> after[Find(after, site, mac)] == NewRow(o))
  {
    hide Find, StorageMac, Seen, NewRow;
    if StorageMac(o) != "" {
      var k := Find(rows, o.site, StorageMac(o));
      NewRowOf(o);
      if k == |rows| {
        FindAppended(rows, NewRow(o), site, mac);
      } else {
        SeenRowOf(rows[k], o);
        FindOther(rows, k, Seen(rows[k], o), site, mac);
      }
    }
  }

  lemma NewRowOf(o: Observation)
    ensures NewRow(o).site == o.site && NewRow(o).mac == StorageMac(o)
  {
  }

  lemma SeenRowOf(row: Row, o: Observation)
    ensures Seen(row, o).site == row.site && Seen(row, o).mac == row.mac
  {
  }

  /** The same of the whole tables: a batch stores its observations and nothing else. */
  lemma BatchStored(t: Tables, batch: seq<Observation>)
    ensures var after := Next(t, Upsert(batch));
      && after.intelligence == t.intelligence && after.events == t.events && after.rows == UpsertAll(t.rows, batch)
      && SeenTotal(after.rows) == SeenTotal(t.rows) + Counted(batch)
  {
    hide SeenTotal, Counted;
    SeenConserved(t.rows, batch);
  }

  /** A device without a row. */
  function Nobody(site: string, mac: string): Row {
    Row(site, "", mac, "", "", "", "", 0, "", "", "", "", false, "")
  }

  // ---- what every run keeps ----

  ghost predicate UniqueMacs(rows: seq<Row>) {
    forall i, j :: 0 <= i < j < |rows| ==> !(rows[i].site == rows[j].site && rows[i].mac == rows[j].mac)
  }

  /** A later table: every device is still there, under its id, with its site, stored MAC and
      first sighting, seen at least as often, and known if it was known. */
  ghost predicate Later(a: Tables, b: Tables) {
    && |a.rows| <= |b.rows| && |a.events| <= |b.events| && b.events[..|a.events|] == a.events
    && forall k :: 0 <= k < |a.rows| ==> LaterRow(a.rows[k], b.rows[k])
  }

  ghost predicate LaterRow(a: Row, b: Row) {
    && a.site == b.site && a.mac == b.mac && a.firstSeen == b.firstSeen
    && a.seenCount <= b.seenCount && (a.knownAt != "" ==> b.knownAt != "")
  }

  lemma UpsertOneLater(rows: seq<Row>, o: Observation)
    ensures var after := UpsertOne(rows, o);
      && |rows| <= |after|
      && (forall k :: 0 <= k < |rows| ==>
            LaterRow(rows[k], after[k]) && rows[k].openPorts == after[k].openPorts
            && rows[k].knownAt == after[k].knownAt)
      && (forall k :: |rows| <= k < |after| ==> after[k].openPorts == "" && after[k].knownAt == "")
      && (UniqueMacs(rows) ==> UniqueMacs(after))
  {
    hide StorageMac;
  }

  lemma {:induction false} UpsertLater(rows: seq<Row>, batch: seq<Observation>)
    ensures var after := UpsertAll(rows, batch);
      && |rows| <= |after|
      && (forall k :: 0 <= k < |rows| ==>
            LaterRow(rows[k], after[k]) && rows[k].openPorts == after[k].openPorts
            && rows[k].knownAt == after[k].knownAt)
      && (forall k :: |rows| <= k < |after| ==> after[k].openPorts == "" && after[k].knownAt == "")
      && (UniqueMacs(rows) ==> UniqueMacs(after))
  {
    hide UpsertOne, UniqueMacs;
    if batch != [] {
      var front := batch[..|batch| - 1];
      UpsertLater(rows, front);
      UpsertOneLater(UpsertAll(rows, front), batch[|batch| - 1]);
    }
  }

  /** What the program's callers pass: stamped times and categories are never empty. */
  ghost predicate Stamped(op: Op) {
    match op
    case Classify(_, _, _, _, i, _) => i.category != ""
    case Know(_, _, now) => now != ""
    case KnowAll(_, now) => now != ""
    case _ => true
  }

  lemma StepLater(t: Tables, op: Op)
    requires Stamped(op)
    ensures Later(t, Next(t, op)) && (UniqueMacs(t.rows) ==> UniqueMacs(Next(t, op).rows))
  {
    hide Contains, Find;
    if op.Upsert? {
      UpsertLater(t.rows, op.batch);
    }
  }

  ghost predicate Run(tables: seq<Tables>, ops: seq<Op>) {
    |tables| == |ops| + 1 && forall i :: 0 <= i < |ops| ==> Stamped(ops[i]) && tables[i + 1] == Next(tables[i], ops[i])
  }

  /** Over any run: (site, mac) stays unique, and each device keeps its identity, its first
      sighting, its counts and its known mark between any two moments. */
  lemma {:induction false} HistoryKept(tables: seq<Tables>, ops: seq<Op>, i: nat, j: nat)
    requires Run(tables, ops) && i <= j < |tables|
    ensures Later(tables[i], tables[j])
    ensures UniqueMacs(tables[i].rows) ==> UniqueMacs(tables[j].rows)
    decreases j - i
  {
    hide Next, Stamped, LaterRow;
    if i < j {
      HistoryKept(tables, ops, i, j - 1);
      StepLater(tables[j - 1], ops[j - 1]);
      LaterTwice(tables[i], tables[j - 1], tables[j]);
    } else {
      LaterSelf(tables[i]);
    }
  }

  lemma LaterSelf(a: Tables)
    ensures Later(a, a)
  {
  }

  lemma LaterTwice(a: Tables, b: Tables, c: Tables)
    requires Later(a, b) && Later(b, c)
    ensures Later(a, c)
  {
    assert c.events[..|a.events|] == b.events[..|a.events|];
  }

  // ---- what each operation does to the rows ----

  /** Only the row of a device changes, and that as given; classifications and log stay. */
  ghost predicate OnlyRow(t: Tables, after: Tables, id: nat, row: Row) {
    && after.intelligence == t.intelligence && after.events == t.events && |after.rows| == |t.rows|
    && 1 <= id <= |t.rows| && after.rows[id - 1] == row
    && forall k :: 0 <= k < |t.rows| && k != id - 1 ==> after.rows[k] == t.rows[k]
  }

  /** Marking one device known sets its mark, also over an older one; editing it sets its host name,
      notes and monitoring. Neither does anything for a device of another site. */
  lemma OneDevice(t: Tables, site: string, id: nat)
    ensures forall now :: var after := Next(t, Know(site, id, now));
              if 1 <= id <= |t.rows| && t.rows[id - 1].site == site
              then OnlyRow(t, after, id, t.rows[id - 1].(knownAt := now)) else after == t
    ensures forall hostname, notes, monitor :: var after := Next(t, Edit(site, id, hostname, notes, monitor));
              if 1 <= id <= |t.rows| && t.rows[id - 1].site == site
              then OnlyRow(t, after, id,
                           t.rows[id - 1].(hostname := hostname, notes := notes, monitorMissing := monitor))
              else after == t
  {
  }

  /** Identifying the devices at an IP of a site fills in a host name and a vendor that are given, adds the
      source unless it is in the sources already, and takes the time; a scan of a device sets its ports and
      services; marking all and opening the database set marks. All other rows stay. */
  lemma ManyDevices(t: Tables, k: nat)
    requires k < |t.rows|
    ensures var row := t.rows[k];
      && (forall site, ip, hostname, vendor, source, now ::
            var after := Next(t, Identify(site, ip, hostname, vendor, source, now));
            |after.rows| == |t.rows| && after.intelligence == t.intelligence && after.events == t.events
            && after.rows[k] ==
               if row.site != site || row.ip != ip then row
               else
                 row.(hostname := if hostname == "" then row.hostname else hostname,
                      vendor := if vendor == "" then row.vendor else vendor,
                      source := if row.source == "" then source else if Contains(row.source, source) then row.source
                                else row.source + "," + source,
                      lastSeen := now))
      && (forall site, now ::
            var after := Next(t, KnowAll(site, now));
            |after.rows| == |t.rows| && after.intelligence == t.intelligence && after.events == t.events
            && after.rows[k] == if row.site == site && row.knownAt == "" then row.(knownAt := now) else row)
      && (var after := Next(t, Migrate);
          |after.rows| == |t.rows| && after.intelligence == t.intelligence && after.events == t.events
          && after.rows[k] == if row.knownAt == "" then row.(knownAt := row.firstSeen) else row)
      && (forall site, id: nat, ports, services, i, now ::
            var after := Next(t, Classify(site, id, ports, services, i, now));
            var hit := 1 <= id <= |t.rows| && t.rows[id - 1].site == site;
            |after.rows| == |t.rows|
            && after.rows[k] == (if hit && id == k + 1 then row.(openPorts := ports, services := services) else row)
            && after.intelligence == if hit then t.intelligence[id := i] else t.intelligence)
  {
    hide Contains, Logged;
  }

  /** The operations that mark a device known. */
  predicate Marks(t: Tables, op: Op, d: nat)
    requires 1 <= d <= |t.rows|
  {
    match op
    case Know(site, id, _) => id == d && t.rows[d - 1].site == site
    case KnowAll(site, _) => t.rows[d - 1].site == site
    case Migrate => t.rows[d - 1].firstSeen != ""
    case _ => false
  }

  /** The mark a device shows, told from the operations: the latest one set for it alone, or else the
      first set for all of its site or by opening the database. */
  ghost function MarkBy(tables: seq<Tables>, ops: seq<Op>, d: nat, i: nat): string
    requires Run(tables, ops) && i < |tables| && d >= 1
  {
    if i == 0 || d > |tables[i - 1].rows| then ""
    else
      var t, op, earlier := tables[i - 1], ops[i - 1], MarkBy(tables, ops, d, i - 1);
      if !Marks(t, op, d) then earlier
      else if op.Know? then op.now
      else if earlier != "" then earlier
      else if op.KnowAll? then op.now
      else t.rows[d - 1].firstSeen
  }

  lemma MarkStep(t: Tables, op: Op, d: nat)
    requires Stamped(op) && 1 <= d <= |Next(t, op).rows|
    ensures var mark := Next(t, op).rows[d - 1].knownAt;
            if d > |t.rows| then mark == ""
            else
              var row := t.rows[d - 1];
              mark == if !Marks(t, op, d) then row.knownAt
                      else if op.Know? then op.now
                      else if row.knownAt != "" then row.knownAt
                      else if op.KnowAll? then op.now
                      else row.firstSeen
  {
    hide Find, Contains, StorageMac;
    if op.Upsert? {
      UpsertLater(t.rows, op.batch);
    }
  }

  /** Over every run from an empty database: a device shows exactly that mark, and is unknown exactly
      when none of these operations occurred since its row appeared. */
  lemma {:induction false} KnownExactly(tables: seq<Tables>, ops: seq<Op>, d: nat, i: nat)
    requires Run(tables, ops) && tables[0] == Tables([], map[], []) && i < |tables| && 1 <= d <= |tables[i].rows|
    ensures tables[i].rows[d - 1].knownAt == MarkBy(tables, ops, d, i)
    ensures tables[i].rows[d - 1].knownAt == "" <==>
            forall k :: 0 <= k < i && d <= |tables[k].rows| ==> !Marks(tables[k], ops[k], d)
  {
    hide Next, Stamped, Marks;
    if i > 0 {
      var t, op := tables[i - 1], ops[i - 1];
      MarkStep(t, op, d);
      MarkTexts(t, op, d);
      if d <= |t.rows| {
        KnownExactly(tables, ops, d, i - 1);
      } else {
        NotYet(tables, ops, d, i - 1);
      }
    }
  }

  lemma MarkTexts(t: Tables, op: Op, d: nat)
    requires Stamped(op) && 1 <= d
    ensures d <= |t.rows| && Marks(t, op, d) ==>
              op.Know? || op.KnowAll? || (op.Migrate? && t.rows[d - 1].firstSeen != "")
    ensures op.Know? || op.KnowAll? ==> op.now != ""
  {
  }

  lemma NotYet(tables: seq<Tables>, ops: seq<Op>, d: nat, i: nat)
    requires Run(tables, ops) && i < |tables| && d > |tables[i].rows|
    ensures forall k :: 0 <= k <= i ==> d > |tables[k].rows|
  {
    forall k | 0 <= k <= i ensures d > |tables[k].rows| {
      HistoryKept(tables, ops, k, i);
    }
  }

  // ---- the event log ----

  /** Replays one device's events of a kind from a value: each must begin where the previous
      one ended. None when the log does not fit together. */
  function Replay(events: seq<Event>, device: nat, kind: Kind, start: string): Option<string> {
    if events == [] then Some(start)
    else
      var value :- Replay(events[..|events| - 1], device, kind, start);
      var e := events[|events| - 1];
      if e.device != device || e.kind != kind then Some(value)
      else if e.before == value && e.after != value then Some(e.after) else None
  }

  /** What a table says of a device under a kind of event: its ports, or its category if it has one. */
  function Current(t: Tables, device: nat, kind: Kind): Option<string> {
    match kind
    case PortsChanged => if 1 <= device <= |t.rows| then Some(t.rows[device - 1].openPorts) else None
    case CategoryChanged =>
      if device in t.intelligence && t.intelligence[device].category != ""
      then Some(t.intelligence[device].category) else None
  }

  /** The events of an operation. */
  function NewEvents(t: Tables, op: Op): seq<Event> {
    if op.Classify? && HasDevice(t, op.site, op.id)
    then Logged(t, op.site, op.id, op.openPorts, op.intelligence, op.now)
    else []
  }

  /** Port events replay from the empty value to the current ports, and no event is older than the
      value it is about. */
  ghost predicate LogOk(t: Tables) {
    && (forall id :: 1 <= id <= |t.rows| ==> Replay(t.events, id, PortsChanged, "") == Some(t.rows[id - 1].openPorts))
    && (forall id :: id in t.intelligence ==> 1 <= id <= |t.rows| && t.intelligence[id].category != "")
    && (forall k :: 0 <= k < |t.events| ==> Current(t, t.events[k].device, t.events[k].kind).Some?)
  }

  lemma {:induction false} ReplaySkips(events: seq<Event>, device: nat, kind: Kind, start: string)
    requires forall k :: 0 <= k < |events| ==> events[k].device != device || events[k].kind != kind
    ensures Replay(events, device, kind, start) == Some(start)
  {
    if events != [] {
      ReplaySkips(events[..|events| - 1], device, kind, start);
    }
  }

  /** Replaying a log in two parts. */
  lemma {:induction false} ReplayAppend(a: seq<Event>, b: seq<Event>, device: nat, kind: Kind, start: string)
    ensures Replay(a + b, device, kind, start) ==
      var r := Replay(a, device, kind, start);
      if r.None? then None else Replay(b, device, kind, r.value)
  {
    if b == [] {
      assert a + b == a;
    } else {
      var front := b[..|b| - 1];
      ReplayAppend(a, front, device, kind, start);
      assert (a + b)[..|a + b| - 1] == a + front;
    }
  }

  /** Each operation logs exactly the changes it makes: its events replay from what the table said
      before it to what the table says after it. */
  lemma StepReplays(t: Tables, op: Op, d: nat, kind: Kind)
    requires Stamped(op) && Current(t, d, kind).Some?
    ensures Replay(NewEvents(t, op), d, kind, Current(t, d, kind).value) == Current(Next(t, op), d, kind)
  {
    hide Contains, Find, StorageMac;
    match op
    case Upsert(batch) =>
      UpsertLater(t.rows, batch);
    case Classify(site, id, openPorts, services, i, now) =>
      if HasDevice(t, site, id) {
        LoggedReplays(t, site, id, openPorts, i, now, d, kind);
      }
    case _ =>
  }

  lemma ReplayOne(e: Event, device: nat, kind: Kind, start: string)
    ensures Replay([], device, kind, start) == Some(start)
    ensures Replay([e], device, kind, start) ==
      if e.device != device || e.kind != kind then Some(start)
      else if e.before == start && e.after != start then Some(e.after) else None
  {
    assert [e][..0] == [];
  }

  lemma LoggedReplays(t: Tables, site: string, id: nat, openPorts: string, i: Intelligence, now: string, d: nat,
                      kind: Kind)
    requires HasDevice(t, site, id) && i.category != "" && Current(t, d, kind).Some?
    ensures Replay(Logged(t, site, id, openPorts, i, now), d, kind, Current(t, d, kind).value) ==
      if d != id then Current(t, d, kind) else Some(if kind.PortsChanged? then openPorts else i.category)
  {
    hide Replay;
    var start := Current(t, d, kind).value;
    var row := t.rows[id - 1];
    var category := if id in t.intelligence then t.intelligence[id].category else "";
    var e1 := Event(now, site, id, PortsChanged, row.openPorts, openPorts);
    var e2 := Event(now, site, id, CategoryChanged, category, i.category);
    var ports := if row.openPorts != openPorts then [e1] else [];
    var categories := if category != "" && category != i.category then [e2] else [];
    assert Logged(t, site, id, openPorts, i, now) == ports + categories;
    ReplayAppend(ports, categories, d, kind, start);
    ReplayOne(e1, d, kind, start);
    ReplayOne(e2, d, kind, start);
    ReplayOne(e2, d, kind, Replay(ports, d, kind, start).value);
  }

  /** What a table says of a device stays said, no event about it is logged before it is, and a
      device's ports begin empty. */
  lemma StepCurrent(t: Tables, op: Op, d: nat, kind: Kind)
    requires Stamped(op)
    ensures Current(t, d, kind).Some? ==> Current(Next(t, op), d, kind).Some?
    ensures Current(t, d, kind).None? ==>
              forall e :: e in NewEvents(t, op) ==> e.device != d || e.kind != kind
    ensures Current(t, d, kind).None? && Current(Next(t, op), d, kind).Some? && kind.PortsChanged?
            ==> Current(Next(t, op), d, kind) == Some("")
  {
    hide Contains, Find, StorageMac;
    if op.Upsert? {
      UpsertLater(t.rows, op.batch);
    }
  }

  lemma StepLogged(t: Tables, op: Op)
    requires LogOk(t) && Stamped(op)
    ensures LogOk(Next(t, op))
  {
    var after, added := Next(t, op), NewEvents(t, op);
    assert after.events == t.events + added by { hide Logged; }
    forall id | 1 <= id <= |after.rows|
      ensures Replay(after.events, id, PortsChanged, "") == Some(after.rows[id - 1].openPorts)
    {
      StepPorts(t, op, id);
    }
    forall k | 0 <= k < |after.events|
      ensures Current(after, after.events[k].device, after.events[k].kind).Some?
    {
      hide Next, NewEvents, Current, Replay;
      var e := after.events[k];
      StepCurrent(t, op, e.device, e.kind);
      if k >= |t.events| {
        assert e == added[k - |t.events|];
      }
    }
    StepClassified(t, op);
  }

  lemma StepPorts(t: Tables, op: Op, id: nat)
    requires LogOk(t) && Stamped(op) && 1 <= id <= |Next(t, op).rows|
    ensures Replay(t.events + NewEvents(t, op), id, PortsChanged, "") == Some(Next(t, op).rows[id - 1].openPorts)
  {
    hide Next, NewEvents, Replay;
    StepCurrent(t, op, id, PortsChanged);
    ReplayAppend(t.events, NewEvents(t, op), id, PortsChanged, "");
    if id <= |t.rows| {
      StepReplays(t, op, id, PortsChanged);
    } else {
      ReplaySkips(t.events, id, PortsChanged, "");
      ReplaySkips(NewEvents(t, op), id, PortsChanged, "");
    }
  }

  lemma StepClassified(t: Tables, op: Op)
    requires LogOk(t) && Stamped(op)
    ensures var after := Next(t, op);
      forall id :: id in after.intelligence ==> 1 <= id <= |after.rows| && after.intelligence[id].category != ""
  {
    hide Contains, Find, Replay, Current, Logged;
    if op.Upsert? {
      UpsertLater(t.rows, op.batch);
    }
  }

  /** In every state a run reaches, each device's port events fit together and replay from the
      empty value to its current ports, and nothing is logged of a device before it has a row, or of
      its category before it has one. */
  lemma {:induction false} LogReplays(tables: seq<Tables>, ops: seq<Op>, i: nat)
    requires Run(tables, ops) && tables[0] == Tables([], map[], []) && i < |tables|
    ensures LogOk(tables[i])
  {
    hide Next, Stamped, LogOk;
    if i > 0 {
      LogReplays(tables, ops, i - 1);
      StepLogged(tables[i - 1], ops[i - 1]);
    } else {
      EmptyLog();
    }
  }

  lemma EmptyLog()
    ensures LogOk(Tables([], map[], []))
  {
  }

  /** Over any run: the events between two moments replay a device's ports, and its category once
      it has one, from the value at the first moment to the value at the second. */
  lemma {:induction false} ChangesLogged(tables: seq<Tables>, ops: seq<Op>, i: nat, j: nat, d: nat, kind: Kind)
    requires Run(tables, ops) && i <= j < |tables| && Current(tables[i], d, kind).Some?
    ensures |tables[i].events| <= |tables[j].events| && tables[j].events[..|tables[i].events|] == tables[i].events
    ensures Current(tables[j], d, kind).Some?
    ensures Replay(tables[j].events[|tables[i].events|..], d, kind, Current(tables[i], d, kind).value)
            == Current(tables[j], d, kind)
    decreases j - i
  {
    hide Next, NewEvents, Current, Stamped, LaterRow;
    HistoryKept(tables, ops, i, j);
    var n := |tables[i].events|;
    if i == j {
      assert tables[j].events[n..] == [];
    } else {
      var t, op := tables[j - 1], ops[j - 1];
      ChangesLogged(tables, ops, i, j - 1, d, kind);
      NextEvents(t, op);
      assert tables[j].events[n..] == t.events[n..] + NewEvents(t, op);
      ReplayAppend(t.events[n..], NewEvents(t, op), d, kind, Current(tables[i], d, kind).value);
      StepCurrent(t, op, d, kind);
      StepReplays(t, op, d, kind);
    }
  }

  lemma NextEvents(t: Tables, op: Op)
    ensures Next(t, op).events == t.events + NewEvents(t, op)
  {
    hide Logged;
  }

  /** Over any run of a new database: from the step that gives a device its row, or its first
      category, the whole log replays that kind of event from the value given there, which for the
      ports is empty, to the current value. */
  lemma LoggedFromFirst(tables: seq<Tables>, ops: seq<Op>, i: nat, j: nat, d: nat, kind: Kind)
    requires Run(tables, ops) && tables[0] == Tables([], map[], []) && i < j < |tables|
    requires Current(tables[i], d, kind).None? && Current(tables[i + 1], d, kind).Some?
    ensures Current(tables[j], d, kind).Some?
    ensures Replay(tables[j].events, d, kind, Current(tables[i + 1], d, kind).value) == Current(tables[j], d, kind)
    ensures kind.PortsChanged? ==> Current(tables[i + 1], d, kind) == Some("")
  {
    hide Next, NewEvents, Current, Stamped, Replay;
    var t, op, first := tables[i], ops[i], tables[i + 1];
    assert first == Next(t, op);
    LogReplays(tables, ops, i);
    StepCurrent(t, op, d, kind);
    NextEvents(t, op);
    forall k | 0 <= k < |first.events| ensures first.events[k].device != d || first.events[k].kind != kind {
      if k >= |t.events| {
        assert first.events[k] == NewEvents(t, op)[k - |t.events|];
      }
    }
    var start := Current(first, d, kind).value;
    ReplaySkips(first.events, d, kind, start);
    ChangesLogged(tables, ops, i + 1, j, d, kind);
    var n := |first.events|;
    assert tables[j].events == first.events + tables[j].events[n..];
    ReplayAppend(first.events, tables[j].events[n..], d, kind, start);
  }
}
