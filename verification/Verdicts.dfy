/** The first health stage: from the newest measurements to verdicts, scores and a status. */
module Verdicts {
  import opened Wrappers
  import opened Latest

  datatype Ping = Ping(id: int, name: string, host: string, up: bool, loss: real, latency: real, at: int)
  datatype Dns = Dns(resolver: string, address: string, domain: string, recordType: string, success: bool,
                     duration: real, at: int)
  datatype Http = Http(id: int, name: string, url: string, up: bool, duration: real, tlsValid: bool, tlsDays: int,
                       at: int)

  /** The subject is the key of the result a verdict is about; wording and metrics are left out. */
  datatype Verdict = Verdict(severity: string, category: string, code: string, subject: string)

  datatype Health = Health(overall: int, wan: int, dns: int, gateway: int, service: int, inventory: int,
                           status: string, verdicts: seq<Verdict>)

  function PingKey(p: Ping): string { p.name + "|" + p.host }
  function DnsKey(d: Dns): string { d.resolver + "|" + d.domain + "|" + d.recordType }
  function HttpKey(h: Http): string { h.name + "|" + h.url }

  function PingAt(p: Ping): int { p.at }
  function DnsAt(d: Dns): int { d.at }
  function HttpAt(h: Http): int { h.at }
  function PingUp(p: Ping): bool { p.up }
  function PingLoss(p: Ping): real { p.loss }
  function HttpUp(h: Http): bool { h.up }
  function HttpTime(h: Http): real { h.duration }
  predicate IsSystem(d: Dns) { d.resolver == "system" || d.address == "auto" }
  predicate IsPublic(d: Dns) { !IsSystem(d) }
  predicate SystemWorks(d: Dns) { IsSystem(d) && d.success }
  predicate PublicWorks(d: Dns) { IsPublic(d) && d.success }

  // ---- summary ----

  datatype Summary = Summary(gateway: Option<Ping>, targets: nat, upRatio: real, maxLoss: real, hasDns: bool,
                             systemSuccess: real, publicSuccess: real, services: seq<Http>, httpRatio: real,
                             httpMax: real, minTls: Option<int>)

  function Ratio(part: nat, total: nat): real {
    if total == 0 then 1.0 else part as real / total as real
  }

  function MinTls(services: seq<Http>): Option<int> {
    if services == [] then None
    else
      var front, days := MinTls(services[..|services| - 1]), services[|services| - 1].tlsDays;
      if days > 0 && (front.None? || days < front.value) then Some(days) else front
  }

  /** The summary of the newest results, listed in some order. */
  function Summarized(gateway: seq<Ping>, internet: seq<Ping>, dns: seq<Dns>, http: seq<Http>): Summary {
    Summary(if gateway == [] then None else Some(gateway[0]),
            |internet|, Ratio(Count(internet, PingUp), |internet|), Greatest(internet, PingLoss),
            dns != [],
            Ratio(Count(dns, SystemWorks), Count(dns, IsSystem)),
            Ratio(Count(dns, PublicWorks), Count(dns, IsPublic)),
            http, if http == [] then 0.0 else Ratio(Count(http, HttpUp), |http|),
            Greatest(http, HttpTime), MinTls(http))
  }

  method Summarize(gateway: seq<Ping>, internet: seq<Ping>, dns: seq<Dns>, http: seq<Http>) returns (s: Summary)
    ensures s == Summarized(gateway, internet, dns, http)
  {
    var first := if gateway == [] then None else Some(gateway[0]);
    var up, maxLoss := 0, 0.0;
    for i := 0 to |internet|
      invariant up == Count(internet[..i], PingUp) && maxLoss == Greatest(internet[..i], PingLoss)
    {
      assert internet[..i + 1][..i] == internet[..i];
      up := if internet[i].up then up + 1 else up;
      maxLoss := Max(maxLoss, internet[i].loss);
    }
    assert internet[..|internet|] == internet;
    var systemSuccess, systemTotal, publicSuccess, publicTotal := 0, 0, 0, 0;
    for i := 0 to |dns|
      invariant systemSuccess == Count(dns[..i], SystemWorks)
      invariant systemTotal == Count(dns[..i], IsSystem)
      invariant publicSuccess == Count(dns[..i], PublicWorks)
      invariant publicTotal == Count(dns[..i], IsPublic)
    {
      assert dns[..i + 1][..i] == dns[..i];
      if IsSystem(dns[i]) {
        systemTotal := systemTotal + 1;
        systemSuccess := if dns[i].success then systemSuccess + 1 else systemSuccess;
        continue;
      }
      publicTotal := publicTotal + 1;
      publicSuccess := if dns[i].success then publicSuccess + 1 else publicSuccess;
    }
    assert dns[..|dns|] == dns;
    var httpUp, httpMax, minTls := 0, 0.0, None;
    for i := 0 to |http|
      invariant httpUp == Count(http[..i], HttpUp) && httpMax == Greatest(http[..i], HttpTime)
      invariant minTls == MinTls(http[..i])
    {
      assert http[..i + 1][..i] == http[..i];
      httpUp := if http[i].up then httpUp + 1 else httpUp;
      httpMax := Max(httpMax, http[i].duration);
      if http[i].tlsDays > 0 && (minTls.None? || http[i].tlsDays < minTls.value) {
        minTls := Some(http[i].tlsDays);
      }
    }
    assert http[..|http|] == http;
    s := Summary(first, |internet|, Ratio(up, |internet|), maxLoss, |dns| > 0, Ratio(systemSuccess, systemTotal),
                 Ratio(publicSuccess, publicTotal), http, if |http| > 0 then Ratio(httpUp, |http|) else 0.0,
                 httpMax, minTls);
  }

  // ---- rules ----

  function When(c: bool, v: Verdict): seq<Verdict> {
    if c then [v] else []
  }

  function ServiceVerdicts(h: Http): seq<Verdict> {
    When(!h.up, Verdict("warning", "service", "service_down", HttpKey(h)))
    + When(h.up && h.duration > 3000.0, Verdict("warning", "service", "service_slow", HttpKey(h)))
    + When(!h.tlsValid, Verdict("critical", "service", "tls_invalid", HttpKey(h)))
    + When(h.tlsValid && 0 < h.tlsDays <= 14, Verdict("warning", "service", "tls_expiring", HttpKey(h)))
  }

  predicate GatewayUnstable(s: Summary) {
    s.gateway.Some? && (!s.gateway.value.up || s.gateway.value.loss > 1.0 || s.gateway.value.latency > 20.0)
  }

  predicate Unreachable(s: Summary) {
    s.targets > 0 && s.upRatio == 0.0
  }

  function NetworkVerdicts(s: Summary): seq<Verdict> {
    When(GatewayUnstable(s), Verdict("critical", "gateway", "local_gateway_unstable", ""))
    + When(s.gateway.Some? && s.gateway.value.up && s.gateway.value.loss == 0.0 && s.maxLoss > 3.0,
           Verdict("warning", "wan", "upstream_packet_loss", ""))
    + When(Unreachable(s), Verdict("critical", "wan", "internet_unreachable", ""))
    + When(s.hasDns && s.systemSuccess < 0.9 && s.publicSuccess >= 0.95,
           Verdict("warning", "dns", "local_dns_problem", ""))
    + When(s.hasDns && s.systemSuccess < 0.9 && s.publicSuccess < 0.9,
           Verdict("critical", "dns", "dns_general_outage", ""))
  }

  const HEALTHY: Verdict := Verdict("info", "overall", "healthy", "")

  function Rules(s: Summary): seq<Verdict> {
    var found := NetworkVerdicts(s) + Flat(s.services, ServiceVerdicts);
    if found == [] then [HEALTHY] else found
  }

  method RuleVerdicts(s: Summary) returns (verdicts: seq<Verdict>)
    ensures verdicts == Rules(s)
  {
    var services := Gather(s.services, ServiceVerdicts);
    verdicts := NetworkVerdicts(s) + services;
    if |verdicts| == 0 {
      verdicts := [HEALTHY];
    }
  }

  // ---- scores ----

  /** Go's int(): toward zero. */
  function Trunc(x: real): int {
    if x >= 0.0 then x.Floor else -((-x).Floor)
  }

  function Clamp(v: int): (r: int)
    ensures 0 <= r <= 100
  {
    if v < 0 then 0 else if v > 100 then 100 else v
  }

  function Min(a: int, b: int): int {
    if a < b then a else b
  }

  function WanBase(targets: nat, upRatio: real, maxLoss: real): (r: int)
    ensures 0 <= r <= 100
  {
    if targets == 0 then 100
    else if upRatio < 1.0 then Clamp(Trunc(upRatio * 80.0))
    else Clamp(Trunc(100.0 - maxLoss * 10.0))
  }

  predicate WanCritical(v: Verdict) {
    v.severity == "critical" && v.category == "wan"
  }

  function GatewayScore(gateway: Option<Ping>): (r: int)
    ensures 0 <= r <= 100
  {
    if gateway.None? then 100
    else if !gateway.value.up then 0
    else if gateway.value.loss > 0.0 then Clamp(100 - Trunc(gateway.value.loss * 30.0))
    else if gateway.value.latency > 20.0 then 70 else 100
  }

  function ServiceScore(s: Summary): (r: int)
    ensures 0 <= r <= 100
  {
    if s.services == [] then 100
    else
      var up := Clamp(Trunc(s.httpRatio * 100.0));
      var slow := if s.httpMax > 3000.0 then Min(up, 70) else up;
      if s.minTls.Some? && s.minTls.value <= 14 then Min(slow, 80) else slow
  }

  function WanScore(s: Summary, verdicts: seq<Verdict>): (r: int)
    ensures 0 <= r <= 100
  {
    var score := WanBase(s.targets, s.upRatio, s.maxLoss);
    if exists v :: v in verdicts && WanCritical(v) then Min(score, 20) else score
  }

  function DnsScore(s: Summary): (r: int)
    ensures 0 <= r <= 100
  {
    if s.hasDns then Clamp(Trunc((s.systemSuccess * 0.6 + s.publicSuccess * 0.4) * 100.0)) else 100
  }

  function Average(wan: int, dns: int, gateway: int, service: int, inventory: int): int
    requires wan >= 0 && dns >= 0 && gateway >= 0 && service >= 0 && inventory >= 0
  {
    (wan + dns + gateway + service + inventory) / 5
  }

  /** The worst severity among the verdicts; information alone is healthy. */
  function Worst(verdicts: seq<Verdict>): string {
    if exists v :: v in verdicts && v.severity == "critical" then "critical"
    else if exists v :: v in verdicts && v.severity == "warning" then "warning" else "healthy"
  }

  function Evaluated(s: Summary): Health {
    var verdicts := Rules(s);
    var wan, dns, gateway, service := WanScore(s, verdicts), DnsScore(s), GatewayScore(s.gateway), ServiceScore(s);
    Health(Average(wan, dns, gateway, service, 100), wan, dns, gateway, service, 100, Worst(verdicts), verdicts)
  }

  /** The status loop of Evaluate, which stops at the first critical verdict. */
  method StatusOf(verdicts: seq<Verdict>) returns (status: string)
    ensures status == Worst(verdicts)
  {
    status := "healthy";
    for i := 0 to |verdicts|
      invariant forall v :: v in verdicts[..i] ==> v.severity != "critical"
      invariant status == if exists v :: v in verdicts[..i] && v.severity == "warning" then "warning" else "healthy"
    {
      assert verdicts[..i + 1] == verdicts[..i] + [verdicts[i]];
      if verdicts[i].severity == "critical" {
        assert verdicts[i] in verdicts;
        return "critical";
      }
      if verdicts[i].severity == "warning" {
        status := "warning";
      }
    }
    assert verdicts[..|verdicts|] == verdicts;
  }

  /** score's loop over the verdicts lowers the WAN score once. */
  method CapWan(score: int, verdicts: seq<Verdict>) returns (wan: int)
    ensures wan == if exists v :: v in verdicts && WanCritical(v) then Min(score, 20) else score
  {
    wan := score;
    for i := 0 to |verdicts|
      invariant wan == if exists v :: v in verdicts[..i] && WanCritical(v) then Min(score, 20) else score
    {
      assert verdicts[..i + 1] == verdicts[..i] + [verdicts[i]];
      if WanCritical(verdicts[i]) {
        wan := Min(wan, 20);
      }
    }
    assert verdicts[..|verdicts|] == verdicts;
  }

  /** One way the range loops can list the newest result of each key. */
  ghost predicate Listed(internet: seq<Ping>, dns: seq<Dns>, http: seq<Http>, i: seq<Ping>, d: seq<Dns>, w: seq<Http>) {
    && Enumerates(LatestOf(internet, PingKey, PingAt), PingKey, i)
    && Enumerates(LatestOf(dns, DnsKey, DnsAt), DnsKey, d)
    && Enumerates(LatestOf(http, HttpKey, HttpAt), HttpKey, w)
  }

  method Evaluate(gateway: seq<Ping>, internet: seq<Ping>, dns: seq<Dns>, http: seq<Http>) returns (h: Health)
    ensures exists i, d, w :: Listed(internet, dns, http, i, d, w) && h == Evaluated(Summarized(gateway, i, d, w))
  {
    hide Summarized, Rules, WanBase, DnsScore, GatewayScore, ServiceScore, Worst, WanCritical, Average;
    var i := CollectLatest(internet, PingKey, PingAt);
    var d := CollectLatest(dns, DnsKey, DnsAt);
    var w := CollectLatest(http, HttpKey, HttpAt);
    assert Listed(internet, dns, http, i, d, w);
    var s := Summarize(gateway, i, d, w);
    var verdicts := RuleVerdicts(s);
    var wan := CapWan(WanBase(s.targets, s.upRatio, s.maxLoss), verdicts);
    var status := StatusOf(verdicts);
    h := Health(Average(wan, DnsScore(s), GatewayScore(s.gateway), ServiceScore(s), 100), wan, DnsScore(s),
                GatewayScore(s.gateway), ServiceScore(s), 100, status, verdicts);
    assert h == Evaluated(s);
  }
}
