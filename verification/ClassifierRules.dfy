/** The rules of classification as tables: what a device is called, on which evidence, with which services
    and risks. */
module ClassifierRules {
  import opened Classifier
  import opened SortedText
  import opened Text
  import ScanRuns

  /** One rule: the ports, the terms in the services, the host name and the vendor that make it apply,
      and the label of each kind of evidence, empty where a kind leaves none. */
  datatype Rule = Rule(category: string, ports: seq<int>, services: seq<string>, serviceLabel: string,
                       hosts: seq<string>, hostLabel: string, vendors: seq<string>, vendorLabel: string)

  const RULES: seq<Rule> := [
    Rule("Printer", [631, 9100, 515], ["ipp", "printer", "airprint"], "printer service", [], "", [], ""),
    Rule("Camera / video", [554, 8554], ["rtsp", "onvif"], "camera service",
         ["camera", "cam-", "nvr", "dvr"], "camera hostname", [], ""),
    Rule("Media / IoT", [], ["airplay", "googlecast", "chromecast", "roku", "homekit", "sonos", "upnp"],
         "discovery service", [], "", [], ""),
    Rule("Network infrastructure", [], [], "",
         ["router", "gateway", "switch", "firewall", "accesspoint", "access-point", "ap-", "-ap"],
         "infrastructure hostname",
         ["ubiquiti", "cisco", "meraki", "aruba", "mikrotik", "fortinet", "juniper"], "network vendor"),
    Rule("Server / NAS", [445, 2049, 111], ["smb", "nfs", "nas"], "file service",
         ["nas", "server", "synology", "qnap"], "server hostname", [], ""),
    Rule("Workstation", [3389], ["workstation", "rdp"], "", ["desktop", "laptop", "macbook", "workstation"],
         "client hostname", [], "")]

  /** A rule applies when a listed port is open or a listed term occurs. */
  ghost predicate Applies(r: Rule, d: Device, open: set<int>) {
    || (exists p :: p in r.ports && p in open)
    || (exists t :: t in r.services && Contains(ServicesText(d.services), t))
    || (exists t :: t in r.hosts && Contains(Lower(d.hostname), t))
    || (exists t :: t in r.vendors && Contains(Lower(d.vendor), t))
  }

  lemma RuleFor(d: Device, open: set<int>, r: Rule)
    ensures Applies(r, d, open) <==>
            Has(open, r.ports) || Mentions(ServicesText(d.services), r.services) || Mentions(Lower(d.hostname), r.hosts)
            || Mentions(Lower(d.vendor), r.vendors)
  {
    hide Lower, ServicesText, Contains;
  }

  lemma NoTerms(text: string)
    ensures !Mentions(text, [])
    ensures forall open :: !Has(open, [])
  {
  }

  /** The category: that of the first rule that applies; without one, a device with an open port is a
      service host, one known through DHCP or ARP a client, and any other is unclassified. */
  lemma CategoryExactly(d: Device, open: set<int>, k: nat)
    requires k <= |RULES| && forall j :: 0 <= j < k ==> !Applies(RULES[j], d, open)
    requires k < |RULES| ==> Applies(RULES[k], d, open)
    ensures var name := CategoryName(Decide(d, open));
            var known := Contains(Lower(d.source), "dhcp") || Contains(Lower(d.source), "arp");
      name == if k < |RULES| then RULES[k].category
              else if open != {} then "Service host" else if known then "Client device" else "Unclassified device"
  {
    hide Applies, Lower, ServicesText, Contains, Has, Mentions;
    RuleFor(d, open, RULES[0]);
    RuleFor(d, open, RULES[1]);
    RuleFor(d, open, RULES[2]);
    RuleFor(d, open, RULES[3]);
    RuleFor(d, open, RULES[4]);
    RuleFor(d, open, RULES[5]);
    NoTerms(ServicesText(d.services));
    NoTerms(Lower(d.hostname));
    NoTerms(Lower(d.vendor));
  }

  /** A scan's category and evidence come from the listed ports that are port numbers. */
  lemma OpenExactly(d: Device, ports: seq<int>, order: seq<int>)
    ensures var open := set p | p in ports && 1 <= p <= 65535;
            var c := Classify(d, ports, order);
      c.category == CategoryName(Decide(d, open)) && c.evidence == Evidence(d, open, ports)
  {
    hide Decide, Evidence, Confidence, Risks, Sort, FoundNames;
    assert PortSet(ports) == set p | p in ports && 1 <= p <= 65535;
  }

  // ---- evidence ----

  /** One line names the first term of a list that occurs; there is none when none does. */
  lemma {:induction false} TermLine(what: string, text: string, terms: seq<string>, k: nat)
    requires k <= |terms| && forall j :: 0 <= j < k ==> !Contains(text, terms[j])
    requires k < |terms| ==> Contains(text, terms[k])
    ensures TextEvidence(what, text, terms) == if k < |terms| then [what + " (" + terms[k] + ")"] else []
  {
    hide Contains;
    if terms != [] {
        if k > 0 {
        TermLine(what, text, terms[1..], k - 1);
      }
    }
  }

  /** One line lists the open ports among some, in their order; there is none when none is open. */
  lemma {:induction false} PortLine(open: set<int>, values: seq<int>, kept: seq<int>)
    requires kept == Among(values, open)
    ensures |Open(open, values)| == |kept| && forall i :: 0 <= i < |kept| ==> Open(open, values)[i] == Itoa(kept[i])
    ensures PortEvidence(open, values) == if kept == [] then [] else ["ports " + Join(Decimals(kept), ",")]
  {
    hide Itoa;
    Kept(open, values);
    assert Open(open, values) == Decimals(kept);
  }

  function Among(values: seq<int>, open: set<int>): (kept: seq<nat>) {
    if values == [] then []
    else
      var front, last := Among(values[..|values| - 1], open), values[|values| - 1];
      if last in open && last >= 0 then front + [last] else front
  }

  function Decimals(values: seq<nat>): seq<string> {
    seq(|values|, i requires 0 <= i < |values| => Itoa(values[i]))
  }

  lemma {:induction false} Kept(open: set<int>, values: seq<int>)
    ensures Open(open, values) == Decimals(Among(values, open))
  {
    hide Itoa;
    if values != [] {
      var n := |values| - 1;
      Kept(open, values[..n]);
      OpenPush(open, values[..n], values[n]);
      assert values == values[..n] + [values[n]];
    }
  }

  lemma {:induction false} OpenPush(open: set<int>, front: seq<int>, p: int)
    ensures Open(open, front + [p]) == Open(open, front) + if p in open && p >= 0 then [Itoa(p)] else []
  {
    hide Itoa;
    if front == [] {
      assert [] + [p] == [p] && [p][1..] == [];
    } else {
      OpenPush(open, front[1..], p);
      assert (front + [p])[1..] == front[1..] + [p];
    }
  }

  /** The line a rule leaves for one kind of term. */
  function Line(what: string, text: string, terms: seq<string>): seq<string> {
    if what == "" then [] else TextEvidence(what, text, terms)
  }

  /** The evidence: the open ports of the rule that applies, then the first service, host name and vendor
      term; for a service host all its open ports; for a client how it was seen; else the vendor. */
  lemma EvidenceExactly(d: Device, open: set<int>, listed: seq<int>, k: nat)
    requires k <= |RULES| && forall j :: 0 <= j < k ==> !Applies(RULES[j], d, open)
    requires k < |RULES| ==> Applies(RULES[k], d, open)
    ensures k < |RULES| ==>
      var r := RULES[k];
      Evidence(d, open, listed) == PortEvidence(open, r.ports)
        + Line(r.serviceLabel, ServicesText(d.services), r.services) + Line(r.hostLabel, Lower(d.hostname), r.hosts)
        + Line(r.vendorLabel, Lower(d.vendor), r.vendors)
    ensures k == |RULES| ==>
      Evidence(d, open, listed) ==
        if open != {} then PortEvidence(open, listed)
        else if Contains(Lower(d.source), "dhcp") || Contains(Lower(d.source), "arp") then ["seen through " + d.source]
        else if d.vendor != "" then ["vendor " + d.vendor] else []
  {
    hide Applies, Lower, ServicesText, Contains, Has, Mentions, PortEvidence, TextEvidence, Decide;
    CategoryExactly(d, open, k);
    NamesApart(Decide(d, open));
    NoPorts(open);
  }

  lemma NoPorts(open: set<int>)
    ensures PortEvidence(open, []) == []
  {
  }

  /** Different categories have different names. */
  lemma NamesApart(c: Category)
    ensures c == match CategoryName(c)
                 case "Printer" => Printer
                 case "Camera / video" => Camera
                 case "Media / IoT" => Media
                 case "Network infrastructure" => Network
                 case "Server / NAS" => Server
                 case "Workstation" => Workstation
                 case "Service host" => ServiceHost
                 case "Client device" => Client
                 case _ => Unclassified
  {
  }

  /** What a scan concludes: two lines of evidence or more are high confidence, one is medium unless it
      only tells how the device was seen or who made it, and otherwise confidence is low. */
  lemma ConfidenceExactly(d: Device, ports: seq<int>, order: seq<int>)
    ensures var c := Classify(d, ports, order);
      c.confidence == if |c.evidence| >= 2 then "High"
                      else if |c.evidence| == 1 && c.category != "Client device"
                              && c.category != "Unclassified device" then "Medium"
                      else "Low"
  {
    hide Decide, Evidence, Risks, Sort, FoundNames, PortSet;
    NamesApart(Decide(d, PortSet(ports)));
  }

  // ---- services and risks ----

  const SERVICES: map<int, string> := map[
    21 := "ftp", 22 := "ssh", 23 := "telnet", 53 := "dns", 80 := "http", 111 := "rpcbind", 443 := "https",
    445 := "smb", 515 := "lpd", 554 := "rtsp", 631 := "ipp", 2049 := "nfs", 3306 := "mysql", 3389 := "rdp",
    5432 := "postgresql", 6379 := "redis", 8080 := "http-alt", 8443 := "https-alt", 8554 := "rtsp-alt",
    9100 := "jetdirect", 27017 := "mongodb"]

  const RISKS: map<int, string> := map[
    21 := "FTP clear-text service", 23 := "Telnet clear-text administration", 445 := "SMB file sharing exposed",
    3389 := "RDP remote administration", 3306 := "MySQL database service", 5432 := "PostgreSQL database service",
    6379 := "Redis database service", 27017 := "MongoDB database service"]

  lemma ServiceKnown(p: int)
    ensures ServiceOf(p).Some? <==> p in SERVICES
  {
  }

  lemma ServiceNamed(p: int)
    requires p in SERVICES && ServiceOf(p).Some?
    ensures Name(ServiceOf(p).value) == SERVICES[p]
  {
  }

  lemma RiskNamed(p: int)
    ensures p in RISKY_PORTS <==> p in RISKS
    ensures p in RISKS ==> RiskText(p) == RISKS[p]
  {
  }

  /** A scan finds the services of the ports it lists and the risks of the open ones, each once, sorted. */
  lemma FoundExactly(d: Device, ports: seq<int>, order: seq<int>)
    requires ScanRuns.Walk(order)
    ensures var c := Classify(d, ports, order);
      && (forall n :: n in c.services <==> exists p :: p in ports && p in SERVICES && n == SERVICES[p])
      && (forall r :: r in c.risks <==>
            exists p :: p in ports && p in RISKS && r == RISKS[p] + " (TCP " + Itoa(p) + ")")
      && Sorted(c.services) && Sorted(c.risks)
  {
    hide Decide, Evidence, Confidence, Sort, RiskText, Name, ServiceOf;
    var open := PortSet(ports);
    ScanRuns.RisksListed(open, order);
    forall p ensures (p in order <==> p in RISKS) && (p in RISKS ==> RiskText(p) == RISKS[p] && 0 < p <= 65535) {
      RiskNamed(p);
    }
    forall p ensures (ServiceOf(p).Some? <==> p in SERVICES)
                     && (p in SERVICES ==> Name(ServiceOf(p).value) == SERVICES[p])
    {
      ServiceKnown(p);
      if p in SERVICES {
        ServiceNamed(p);
      }
    }
    SortSorts(Risks(open, order));
    SortSorts(FoundNames(ports));
  }
}
