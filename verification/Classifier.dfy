/** Classification of a device from its names, its stored services and a scan's open ports. */
module Classifier {
  import opened CleanList
  import opened Text
  import opened Wrappers
  import opened SortedText
  import TextLayout

  // ---- text of the services column ----

  /** One character inside a JSON string as encoding/json writes it, for ASCII text. */
  function JsonChar(c: char): string {
    if c == '"' then "\\\"" else if c == '\\' then "\\\\"
    else if c == '\n' then "\\n" else if c == '\r' then "\\r" else if c == '\t' then "\\t"
    else if c == 8 as char then "\\b" else if c == 12 as char then "\\f"
    else if c < ' ' || c in {'<', '>', '&'} then "\\u00" + [HexDigit(c as int / 16), HexDigit(c as int % 16)]
    else [c]
  }

  function JsonBody(s: string): string {
    if s == "" then "" else JsonChar(s[0]) + JsonBody(s[1..])
  }

  function Elements(list: seq<string>): string {
    if list == [] then ""
    else if |list| == 1 then ['"'] + JsonBody(list[0]) + ['"']
    else ['"'] + JsonBody(list[0]) + ['"'] + ([','] + Elements(list[1..]))
  }

  /** The services column: empty before the first scan, then a JSON list. */
  function Column(services: Option<seq<string>>): string {
    if services.None? then "" else ['['] + Elements(services.value) + [']']
  }

  function ServicesText(services: Option<seq<string>>): string {
    Lower(Column(services))
  }

  // ---- services of ports ----

  datatype Service = Ftp | Ssh | Telnet | DnsServer | Http | Rpcbind | Https | Smb | Lpd | Rtsp | Ipp | Nfs | Mysql
                   | Rdp | Postgresql | Redis | HttpAlt | HttpsAlt | RtspAlt | Jetdirect | Mongodb

  function Name(s: Service): string {
    match s
    case Ftp => "ftp" case Ssh => "ssh" case Telnet => "telnet" case DnsServer => "dns" case Http => "http"
    case Rpcbind => "rpcbind" case Https => "https" case Smb => "smb" case Lpd => "lpd" case Rtsp => "rtsp"
    case Ipp => "ipp" case Nfs => "nfs" case Mysql => "mysql" case Rdp => "rdp" case Postgresql => "postgresql"
    case Redis => "redis" case HttpAlt => "http-alt" case HttpsAlt => "https-alt" case RtspAlt => "rtsp-alt"
    case Jetdirect => "jetdirect" case Mongodb => "mongodb"
  }

  function ServiceOf(port: int): Option<Service> {
    if port == 21 then Some(Ftp) else if port == 22 then Some(Ssh) else if port == 23 then Some(Telnet)
    else if port == 53 then Some(DnsServer) else if port == 80 then Some(Http) else if port == 111 then Some(Rpcbind)
    else if port == 443 then Some(Https) else if port == 445 then Some(Smb) else if port == 515 then Some(Lpd)
    else if port == 554 then Some(Rtsp) else if port == 631 then Some(Ipp) else if port == 2049 then Some(Nfs)
    else if port == 3306 then Some(Mysql) else if port == 3389 then Some(Rdp) else if port == 5432 then Some(Postgresql)
    else if port == 6379 then Some(Redis) else if port == 8080 then Some(HttpAlt)
    else if port == 8443 then Some(HttpsAlt) else if port == 8554 then Some(RtspAlt)
    else if port == 9100 then Some(Jetdirect) else if port == 27017 then Some(Mongodb)
    else None
  }

  function FoundNames(ports: seq<int>): (out: seq<string>)
    ensures Distinct(out)
    ensures forall n :: n in out <==> exists p :: p in ports && ServiceOf(p).Some? && n == Name(ServiceOf(p).value)
  {
    if ports == [] then []
    else
      var last := ports[|ports| - 1];
      var front := FoundNames(ports[..|ports| - 1]);
      assert ports == ports[..|ports| - 1] + [last];
      var s := ServiceOf(last);
      if s.None? || Name(s.value) in front then front else front + [Name(s.value)]
  }

  /** serviceNames: the loop keeps what it has seen; the result is sorted. */
  method ServiceNames(ports: seq<int>) returns (out: seq<string>)
    ensures out == Sort(FoundNames(ports))
  {
    out := [];
    var seen: set<string> := {};
    for i := 0 to |ports|
      invariant out == FoundNames(ports[..i]) && forall n :: n in seen <==> n in out
    {
      assert ports[..i + 1][..i] == ports[..i];
      var service := ServiceOf(ports[i]);
      if service.Some? && Name(service.value) !in seen {
        seen := seen + {Name(service.value)};
        out := out + [Name(service.value)];
      }
    }
    assert ports[..|ports|] == ports;
    out := Sort(out);
  }

  function Listed(services: Option<seq<string>>): seq<string> {
    if services.None? then [] else services.value
  }

  /** mergeServices on a column that is empty or a JSON list. */
  function MergeServices(existing: Option<seq<string>>, observed: seq<string>): seq<string> {
    Sort(Cleaned(Listed(existing) + observed))
  }

  method MergeStored(existing: Option<seq<string>>, observed: seq<string>) returns (merged: seq<string>)
    ensures merged == MergeServices(existing, observed)
  {
    var values := [];
    if existing.Some? {
      values := existing.value;
    }
    var all := values + observed;
    var seen: set<string> := {};
    merged := [];
    for i := 0 to |all|
      invariant merged == Cleaned(all[..i]) && forall v :: v in seen <==> v in merged
    {
      assert all[..i + 1][..i] == all[..i];
      var value := TextLayout.TrimSpace(all[i]);
      if value != "" && value !in seen {
        seen := seen + {value};
        merged := merged + [value];
      }
    }
    assert all[..|all|] == all;
    merged := Sort(merged);
  }

  // ---- classification ----

  datatype Device = Device(hostname: string, vendor: string, source: string, services: Option<seq<string>>)

  datatype Classification = Classification(category: string, confidence: string, evidence: seq<string>,
                                           risks: seq<string>, services: seq<string>)

  function PortSet(ports: seq<int>): set<int> {
    set p | p in ports && 0 < p <= 65535
  }

  predicate Has(ports: set<int>, values: seq<int>) {
    exists v :: v in values && v in ports
  }

  predicate Mentions(text: string, terms: seq<string>) {
    exists t :: t in terms && Contains(text, t)
  }

  function Open(ports: set<int>, values: seq<int>): seq<string> {
    if values == [] then []
    else (if values[0] in ports && values[0] >= 0 then [Itoa(values[0])] else []) + Open(ports, values[1..])
  }

  /** addPorts: one line of evidence naming the listed ports that are open. */
  function PortEvidence(ports: set<int>, values: seq<int>): seq<string> {
    if Open(ports, values) == [] then [] else ["ports " + Join(Open(ports, values), ",")]
  }

  /** addText: one line of evidence for the first term found. */
  function TextEvidence(what: string, text: string, terms: seq<string>): seq<string> {
    if terms == [] then []
    else if Contains(text, terms[0]) then [what + " (" + terms[0] + ")"]
    else TextEvidence(what, text, terms[1..])
  }

  const PRINTER_PORTS: seq<int> := [631, 9100, 515]
  const PRINTER_TERMS: seq<string> := ["ipp", "printer", "airprint"]
  const CAMERA_PORTS: seq<int> := [554, 8554]
  const CAMERA_TERMS: seq<string> := ["rtsp", "onvif"]
  const CAMERA_HOSTS: seq<string> := ["camera", "cam-", "nvr", "dvr"]
  const MEDIA_TERMS: seq<string> := ["airplay", "googlecast", "chromecast", "roku", "homekit", "sonos", "upnp"]
  const NETWORK_HOSTS: seq<string> := ["router", "gateway", "switch", "firewall", "accesspoint", "access-point", "ap-",
      "-ap"]
  const NETWORK_VENDORS: seq<string> := ["ubiquiti", "cisco", "meraki", "aruba", "mikrotik", "fortinet", "juniper"]
  const SERVER_PORTS: seq<int> := [445, 2049, 111]
  const SERVER_TERMS: seq<string> := ["smb", "nfs", "nas"]
  const SERVER_HOSTS: seq<string> := ["nas", "server", "synology", "qnap"]
  const CLIENT_PORTS: seq<int> := [3389]
  const CLIENT_TERMS: seq<string> := ["workstation", "rdp"]
  const CLIENT_HOSTS: seq<string> := ["desktop", "laptop", "macbook", "workstation"]

  datatype Category = Printer | Camera | Media | Network | Server | Workstation | ServiceHost | Client | Unclassified

  function CategoryName(c: Category): (name: string)
    ensures name != ""
  {
    match c
    case Printer => "Printer" case Camera => "Camera / video" case Media => "Media / IoT"
    case Network => "Network infrastructure" case Server => "Server / NAS" case Workstation => "Workstation"
    case ServiceHost => "Service host" case Client => "Client device" case Unclassified => "Unclassified device"
  }

  /** The switch of classifyDevice: the first case that applies. */
  function Decide(d: Device, ports: set<int>): Category {
    var host, vendor, services, source := Lower(d.hostname), Lower(d.vendor), ServicesText(d.services), Lower(d.source);
    if Has(ports, PRINTER_PORTS) || Mentions(services, PRINTER_TERMS) then Printer
    else if Has(ports, CAMERA_PORTS) || Mentions(services, CAMERA_TERMS) || Mentions(host, CAMERA_HOSTS) then Camera
    else if Mentions(services, MEDIA_TERMS) then Media
    else if Mentions(host, NETWORK_HOSTS) || Mentions(vendor, NETWORK_VENDORS) then Network
    else if Has(ports, SERVER_PORTS) || Mentions(services, SERVER_TERMS) || Mentions(host, SERVER_HOSTS) then Server
    else if Has(ports, CLIENT_PORTS) || Mentions(services, CLIENT_TERMS) || Mentions(host, CLIENT_HOSTS)
        then Workstation
    else if ports != {} then ServiceHost
    else if Contains(source, "dhcp") || Contains(source, "arp") then Client
    else Unclassified
  }

  function Evidence(d: Device, ports: set<int>, listed: seq<int>): seq<string> {
    var host, vendor, services := Lower(d.hostname), Lower(d.vendor), ServicesText(d.services);
    match Decide(d, ports)
    case Printer => PortEvidence(ports, PRINTER_PORTS) + TextEvidence("printer service", services, PRINTER_TERMS)
    case Camera => PortEvidence(ports, CAMERA_PORTS) + TextEvidence("camera service", services, CAMERA_TERMS)
                   + TextEvidence("camera hostname", host, CAMERA_HOSTS)
    case Media => TextEvidence("discovery service", services, MEDIA_TERMS)
    case Network => TextEvidence("infrastructure hostname", host, NETWORK_HOSTS)
        + TextEvidence("network vendor", vendor, NETWORK_VENDORS)
    case Server => PortEvidence(ports, SERVER_PORTS) + TextEvidence("file service", services, SERVER_TERMS)
                   + TextEvidence("server hostname", host, SERVER_HOSTS)
    case Workstation => PortEvidence(ports, CLIENT_PORTS) + TextEvidence("client hostname", host, CLIENT_HOSTS)
    case ServiceHost => PortEvidence(ports, listed)
    case Client => ["seen through " + d.source]
    case Unclassified => if d.vendor != "" then ["vendor " + d.vendor] else []
  }

  function Confidence(c: Category, evidence: nat): string {
    if evidence >= 2 then "High"
    else if evidence == 1 && c != Client && c != Unclassified then "Medium" else "Low"
  }

  const RISKY_PORTS: seq<int> := [21, 23, 445, 3389, 3306, 5432, 6379, 27017]

  function RiskText(port: int): string {
    if port == 21 then "FTP clear-text service" else if port == 23 then "Telnet clear-text administration"
    else if port == 445 then "SMB file sharing exposed" else if port == 3389 then "RDP remote administration"
    else if port == 3306 then "MySQL database service" else if port == 5432 then "PostgreSQL database service"
    else if port == 6379 then "Redis database service" else "MongoDB database service"
  }

  function RiskLabel(port: int): string {
    RiskText(port) + " (TCP " + (if port >= 0 then Itoa(port) else "") + ")"
  }

  /** The labels of the risky open ports, in the order the label table is walked. */
  function Risks(ports: set<int>, order: seq<int>): seq<string> {
    if order == [] then [] else (if order[0] in ports then [RiskLabel(order[0])] else []) + Risks(ports, order[1..])
  }

  /** classifyDevice; order is the order in which Go happens to walk the table of risks. */
  function Classify(d: Device, ports: seq<int>, order: seq<int>): Classification {
    var open := PortSet(ports);
    var evidence := Evidence(d, open, ports);
    Classification(CategoryName(Decide(d, open)), Confidence(Decide(d, open), |evidence|), evidence,
                   Sort(Risks(open, order)), Sort(FoundNames(ports)))
  }
}
