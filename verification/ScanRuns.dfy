/** What a classification depends on, and what repeated scans leave in the device tables. */
module ScanRuns {
  import opened Text
  import opened Wrappers
  import opened SortedText
  import opened Classifier
  import opened Reclassify
  import Inventory

  // ---- independence of order ----

  lemma RiskStart(p: int)
    requires p in RISKY_PORTS
    ensures var text := RiskText(p);
      |text| > 1 && text[0] == (if p == 21 then 'F' else if p == 23 then 'T' else if p == 445 then 'S'
                                else if p == 3389 || p == 6379 then 'R' else if p == 5432 then 'P' else 'M')
      && (p == 3389 ==> text[1] == 'D') && (p == 6379 ==> text[1] == 'e')
      && (p == 3306 ==> text[1] == 'y') && (p == 27017 ==> text[1] == 'o')
  {
  }

  lemma LabelStart(p: int)
    requires |RiskText(p)| > 1
    ensures |RiskLabel(p)| > 1 && RiskLabel(p)[0] == RiskText(p)[0] && RiskLabel(p)[1] == RiskText(p)[1]
  {
    hide RiskText;
  }

  lemma RiskLabelsDiffer(p: int, q: int)
    requires p in RISKY_PORTS && q in RISKY_PORTS && p != q
    ensures RiskLabel(p) != RiskLabel(q)
  {
    hide RiskText, RiskLabel;
    RiskStart(p);
    RiskStart(q);
    LabelStart(p);
    LabelStart(q);
  }

  /** One way a Go range loop can walk the table of risks. */
  ghost predicate Walk(order: seq<int>) {
    && (forall p :: p in order <==> p in RISKY_PORTS)
    && (forall i, j :: 0 <= i < j < |order| ==> order[i] != order[j])
  }

  lemma {:induction false} RisksListed(open: set<int>, order: seq<int>)
    requires forall p :: p in order ==> p in RISKY_PORTS
    requires forall i, j :: 0 <= i < j < |order| ==> order[i] != order[j]
    ensures forall r :: r in Risks(open, order) <==> exists p :: p in order && p in open && r == RiskLabel(p)
    ensures Distinct(Risks(open, order))
  {
    hide RiskLabel;
    if order != [] {
      var rest := order[1..];
      RisksListed(open, rest);
      assert order == [order[0]] + rest;
      if order[0] in open {
        forall p | p in rest ensures RiskLabel(p) != RiskLabel(order[0]) {
          RiskLabelsDiffer(p, order[0]);
        }
        assert RiskLabel(order[0]) !in Risks(open, rest);
      }
    }
  }

  lemma RisksForget(open: set<int>, a: seq<int>, b: seq<int>)
    requires Walk(a) && Walk(b)
    ensures Sort(Risks(open, a)) == Sort(Risks(open, b))
  {
    hide RiskLabel, Sort;
    RisksListed(open, a);
    RisksListed(open, b);
    SortForgets(Risks(open, a), Risks(open, b));
  }

  lemma {:induction false} RisksNext(open: set<int>, order: seq<int>, p: int)
    ensures Risks(open, order + [p]) == Risks(open, order) + (if p in open then [RiskLabel(p)] else [])
  {
    hide RiskLabel;
    if order == [] {
      assert [] + [p] == [p] && [p][1..] == [];
    } else {
      RisksNext(open, order[1..], p);
      assert (order + [p])[1..] == order[1..] + [p];
    }
  }

  /** The loop over the map of risks, in whatever order it is walked. */
  method RiskFlags(open: set<int>) returns (risks: seq<string>)
    ensures risks == Sort(Risks(open, RISKY_PORTS))
  {
    hide RiskLabel, Sort;
    risks := [];
    ghost var order: seq<int> := [];
    var left := set p | p in RISKY_PORTS;
    while left != {}
      invariant left <= set p | p in RISKY_PORTS
      invariant forall p :: p in order <==> p in RISKY_PORTS && p !in left
      invariant forall i, j :: 0 <= i < j < |order| ==> order[i] != order[j]
      invariant risks == Risks(open, order)
    {
      var port :| port in left;
      RisksNext(open, order, port);
      if port in open {
        risks := risks + [RiskLabel(port)];
      }
      order := order + [port];
      left := left - {port};
    }
    RisksForget(open, order, RISKY_PORTS);
    risks := Sort(risks);
  }

  lemma NamesForget(p: seq<int>, q: seq<int>)
    requires PortSet(p) == PortSet(q)
    ensures Sort(FoundNames(p)) == Sort(FoundNames(q))
  {
    hide Sort, Name;
    forall n ensures n in FoundNames(p) <==> n in FoundNames(q) {
      if n in FoundNames(p) {
        var port :| port in p && ServiceOf(port).Some? && n == Name(ServiceOf(port).value);
        assert port in PortSet(q);
      }
      if n in FoundNames(q) {
        var port :| port in q && ServiceOf(port).Some? && n == Name(ServiceOf(port).value);
        assert port in PortSet(p);
      }
    }
    SortForgets(FoundNames(p), FoundNames(q));
  }

  lemma {:induction false} OpenFound(ports: set<int>, values: seq<int>, p: int)
    requires p in ports && p in values && p >= 0
    ensures Open(ports, values) != []
  {
    if values[0] != p {
      OpenFound(ports, values[1..], p);
    }
  }

  lemma ListedEvidence(ports: seq<int>)
    requires PortSet(ports) != {}
    ensures |PortEvidence(PortSet(ports), ports)| == 1
  {
    var p :| p in PortSet(ports);
    OpenFound(PortSet(ports), ports, p);
  }

  /** Category, confidence, risks and services depend on the port set alone: not on the order or
      repetition of the ports, nor on how Go walks its map of risks. */
  lemma OrderFree(d: Device, p: seq<int>, q: seq<int>, a: seq<int>, b: seq<int>)
    requires PortSet(p) == PortSet(q) && Walk(a) && Walk(b)
    ensures var x, y := Classify(d, p, a), Classify(d, q, b);
      x.category == y.category && x.confidence == y.confidence && x.risks == y.risks && x.services == y.services
  {
    RisksForget(PortSet(p), a, b);
    NamesForget(p, q);
    EvidenceCount(d, p, q);
  }

  lemma EvidenceCount(d: Device, p: seq<int>, q: seq<int>)
    requires PortSet(p) == PortSet(q)
    ensures |Evidence(d, PortSet(p), p)| == |Evidence(d, PortSet(q), q)|
  {
    hide PortEvidence, TextEvidence, ServicesText, Lower, PortSet;
    if Decide(d, PortSet(p)) == ServiceHost {
      ServiceHostOpen(d, PortSet(p));
      ListedEvidence(p);
      ListedEvidence(q);
    }
  }

  lemma ServiceHostOpen(d: Device, open: set<int>)
    requires Decide(d, open) == ServiceHost
    ensures open != {}
  {
  }

  // ---- repeated scans ----

  /** One persisted scan: how the map of risks was walked and the two clock readings. */
  datatype Scan = Scan(order: seq<int>, now: string, observedAt: string)

  /** persistDevicePortScan's call of UpdateDeviceIntelligence. */
  function ScanOp(site: string, id: nat, d: Device, ports: seq<int>, portsText: string, scan: Scan): Inventory.Op {
    var c := Classify(d, ports, scan.order);
    Inventory.Classify(site, id, portsText, Column(Scanned(d, ports).services),
                       Inventory.Intelligence(c.category, c.confidence, c.evidence, c.risks, "container-1.0", scan.now,
                           scan.observedAt),
                       scan.now)
  }

  function DeviceAfter(d: Device, ports: seq<int>, n: nat): Device {
    if n == 0 then d else Scanned(DeviceAfter(d, ports, n - 1), ports)
  }

  /** The tables after the same ports were found in each of several scans. */
  function After(t: Inventory.Tables, site: string, id: nat, d: Device, ports: seq<int>, portsText: string,
                 scans: seq<Scan>): Inventory.Tables
  {
    if scans == [] then t
    else
      var n := |scans| - 1;
      Inventory.Next(After(t, site, id, d, ports, portsText, scans[..n]),
                     ScanOp(site, id, DeviceAfter(d, ports, n), ports, portsText, scans[n]))
  }

  ghost predicate Represents(row: Inventory.Row, d: Device) {
    row.hostname == d.hostname && row.vendor == d.vendor && row.source == d.source && row.services == Column(d.services)
  }

  lemma {:induction false} DeviceSettles(d: Device, ports: seq<int>, n: nat)
    requires n > 0
    ensures DeviceAfter(d, ports, n) == Scanned(d, ports)
  {
    hide Scanned;
    if n > 1 {
      DeviceSettles(d, ports, n - 1);
      FixedPoint(d, ports);
    } else {
      assert DeviceAfter(d, ports, 0) == d;
    }
  }

  /** The first scan may log events; no later one does, and the rows stay as the first left them. */
  lemma {:induction false} LaterScansQuiet(t: Inventory.Tables, site: string, id: nat, d: Device, ports: seq<int>,
                                           portsText: string, scans: seq<Scan>)
    requires Inventory.HasDevice(t, site, id) && Clean(Listed(d.services)) && |scans| > 0
    ensures var first := After(t, site, id, d, ports, portsText, scans[..1]);
            var last := After(t, site, id, d, ports, portsText, scans);
      && last.rows == first.rows && last.events == first.events
      && Inventory.HasDevice(last, site, id) && id in last.intelligence
      && last.rows[id - 1].openPorts == portsText
      && last.rows[id - 1].services == Column(Scanned(d, ports).services)
      && last.intelligence[id].category == CategoryName(Decide(d, PortSet(ports)))
      && (Represents(t.rows[id - 1], d) ==> Represents(last.rows[id - 1], DeviceAfter(d, ports, |scans|)))
  {
    hide Scanned, Decide, ScanOp, Column, PortSet, CategoryName, Inventory.Next, Inventory.HasDevice;
    var n := |scans| - 1;
    DeviceSettles(d, ports, n + 1);
    SettledKeeps(d, ports);
    if n > 0 {
      LaterScansQuiet(t, site, id, d, ports, portsText, scans[..n]);
      assert scans[..n][..1] == scans[..1];
      DeviceSettles(d, ports, n);
      SameCategory(d, ports);
      var mid := After(t, site, id, d, ports, portsText, scans[..n]);
      ScanSilent(mid, site, id, Scanned(d, ports), ports, portsText, scans[n]);
    } else {
      assert scans[..1] == scans && scans[..0] == [];
      FirstScan(t, site, id, d, ports, portsText, scans[0]);
    }
  }

  /** What one scan of a device leaves. */
  lemma FirstScan(t: Inventory.Tables, site: string, id: nat, d: Device, ports: seq<int>, portsText: string, scan: Scan)
    requires Inventory.HasDevice(t, site, id)
    ensures var after := Inventory.Next(t, ScanOp(site, id, d, ports, portsText, scan));
      && Inventory.HasDevice(after, site, id) && id in after.intelligence
      && after.rows[id - 1].openPorts == portsText && after.rows[id - 1].services == Column(Scanned(d, ports).services)
      && after.intelligence[id].category == CategoryName(Decide(d, PortSet(ports)))
      && (Represents(t.rows[id - 1], d) ==> Represents(after.rows[id - 1], Scanned(d, ports)))
  {
    hide Decide, Evidence, Confidence, Risks, Sort, FoundNames, Column, PortSet, CategoryName, MergeServices;
  }

  /** A scan stores what it concludes, with the version of the rules and both times, beside the ports and
      services it writes into the device's row. */
  lemma ScanStores(t: Inventory.Tables, site: string, id: nat, d: Device, ports: seq<int>, portsText: string,
                   scan: Scan)
    requires Inventory.HasDevice(t, site, id)
    ensures var after := Inventory.Next(t, ScanOp(site, id, d, ports, portsText, scan));
            var c := Classify(d, ports, scan.order);
      && id in after.intelligence && after.intelligence - {id} == t.intelligence - {id}
      && var i := after.intelligence[id];
      && i.category == c.category && i.confidence == c.confidence && i.evidence == c.evidence && i.risks == c.risks
      && i.version == "container-1.0" && i.classifiedAt == scan.now && i.portsObservedAt == scan.observedAt
      && |after.rows| == |t.rows|
      && after.rows[id - 1] == t.rows[id - 1].(openPorts := portsText,
                                               services := Column(Some(MergeServices(d.services, c.services))))
      && forall k :: 0 <= k < |t.rows| && k != id - 1 ==> after.rows[k] == t.rows[k]
  {
    hide Classify, Column, MergeServices, Inventory.Logged;
    ScanServices(d, ports, scan.order);
  }

  lemma ScanServices(d: Device, ports: seq<int>, order: seq<int>)
    ensures Scanned(d, ports).services == Some(MergeServices(d.services, Classify(d, ports, order).services))
  {
    hide Decide, Evidence, Confidence, Risks, Sort, FoundNames, PortSet;
  }

  lemma SettledKeeps(d: Device, ports: seq<int>)
    ensures var s := Scanned(d, ports);
      s.hostname == d.hostname && s.vendor == d.vendor && s.source == d.source && Scanned(s, ports) == s
  {
    FixedPoint(d, ports);
  }

  /** A scan that finds what is stored writes it back and logs nothing. */
  lemma ScanSilent(t: Inventory.Tables, site: string, id: nat, d: Device, ports: seq<int>, portsText: string,
                   scan: Scan)
    requires Inventory.HasDevice(t, site, id) && id in t.intelligence
    requires t.rows[id - 1].openPorts == portsText && t.rows[id - 1].services == Column(d.services)
            && Scanned(d, ports) == d
    requires t.intelligence[id].category == CategoryName(Decide(d, PortSet(ports)))
    ensures var after := Inventory.Next(t, ScanOp(site, id, d, ports, portsText, scan));
      && after.rows == t.rows && after.events == t.events && id in after.intelligence
      && Inventory.HasDevice(after, site, id) && after.intelligence[id].category == t.intelligence[id].category
  {
    hide Scanned, Decide, Evidence, Confidence, Risks, Sort, FoundNames, Column, PortSet, CategoryName;
  }

  /** From the second scan on the whole stored classification repeats, its clock readings apart. */
  lemma SecondScanSettles(t: Inventory.Tables, site: string, id: nat, d: Device, ports: seq<int>,
                          portsText: string, scans: seq<Scan>)
    requires Inventory.HasDevice(t, site, id) && Clean(Listed(d.services)) && |scans| >= 2
    requires forall k :: 0 <= k < |scans| ==> Walk(scans[k].order)
    ensures var second := After(t, site, id, d, ports, portsText, scans[..2]);
            var last := After(t, site, id, d, ports, portsText, scans);
      && id in second.intelligence && id in last.intelligence
      && last.intelligence[id] == second.intelligence[id].(classifiedAt := last.intelligence[id].classifiedAt,
                                                           portsObservedAt := last.intelligence[id].portsObservedAt)
  {
    hide Scanned, Decide, Evidence, Confidence, Risks, Sort, FoundNames, Column, PortSet, CategoryName, Walk;
    var n := |scans| - 1;
    LaterScansQuiet(t, site, id, d, ports, portsText, scans[..n]);
    LaterScansQuiet(t, site, id, d, ports, portsText, scans[..1]);
    assert scans[..2][..1] == scans[..1];
    DeviceSettles(d, ports, n);
    DeviceSettles(d, ports, 1);
    RisksForget(PortSet(ports), scans[n].order, scans[1].order);
  }
}
