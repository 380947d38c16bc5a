/** The later health stages: device inventory, thresholds and advanced checks, each changing the
    health record the stage before left. */
module HealthStages {
  import opened Latest
  import opened Verdicts
  import Baseline
  import RuntimeConfig
  import TextLayout

  type Limits = RuntimeConfig.Limits
  type Thresholds = RuntimeConfig.Thresholds

  // ---- what the stages add ----

  /** mergeThreshold: a value that is not zero overrides. */
  function Merged(base: Limits, over: Limits): Limits {
    base.(lossWarning := if over.lossWarning != 0.0 then over.lossWarning else base.lossWarning,
          lossCritical := if over.lossCritical != 0.0 then over.lossCritical else base.lossCritical,
          latencyWarning := if over.latencyWarning != 0.0 then over.latencyWarning else base.latencyWarning,
          latencyCritical := if over.latencyCritical != 0.0 then over.latencyCritical else base.latencyCritical,
          latencyRelative := if over.latencyRelative != 0.0 then over.latencyRelative else base.latencyRelative,
          latencyDays := if over.latencyDays != 0 then over.latencyDays else base.latencyDays,
          dnsWarning := if over.dnsWarning != 0.0 then over.dnsWarning else base.dnsWarning,
          dnsCritical := if over.dnsCritical != 0.0 then over.dnsCritical else base.dnsCritical,
          httpWarning := if over.httpWarning != 0.0 then over.httpWarning else base.httpWarning,
          httpCritical := if over.httpCritical != 0.0 then over.httpCritical else base.httpCritical,
          httpRelative := if over.httpRelative != 0.0 then over.httpRelative else base.httpRelative,
          httpDays := if over.httpDays != 0 then over.httpDays else base.httpDays,
          tlsWarningDays := if over.tlsWarningDays != 0 then over.tlsWarningDays else base.tlsWarningDays,
          tlsCriticalDays := if over.tlsCriticalDays != 0 then over.tlsCriticalDays else base.tlsCriticalDays)
  }

  /** thresholdFor: the first key with an override decides. */
  function LimitsFor(t: Thresholds, keys: seq<string>): Limits {
    if keys == [] then t.global
    else if keys[0] != "" && keys[0] in t.perTarget then Merged(t.global, t.perTarget[keys[0]])
    else LimitsFor(t, keys[1..])
  }

  function PingSample(p: Ping): Baseline.Sample {
    Baseline.Sample(p.id, p.name, p.host, p.up, p.latency, p.at)
  }

  function HttpSample(h: Http): Baseline.Sample {
    Baseline.Sample(h.id, h.name, h.url, h.up, h.duration, h.at)
  }

  function PingSamples(all: seq<Ping>): seq<Baseline.Sample> {
    seq(|all|, i requires 0 <= i < |all| => PingSample(all[i]))
  }

  function HttpSamples(all: seq<Http>): seq<Baseline.Sample> {
    seq(|all|, i requires 0 <= i < |all| => HttpSample(all[i]))
  }

  const DAY: int := 86_400_000_000_000

  /** Whether a value exceeds the baseline of its own history by more than the relative limit. */
  predicate AboveBaseline(current: Baseline.Sample, all: seq<Baseline.Sample>, percent: real, days: int, now: int) {
    percent > 0.0 && days > 0
    && var baseline := Baseline.Trimmed(Baseline.Samples(current, all, now - days * DAY));
       baseline.Some? && current.amount > baseline.value * (1.0 + percent / 100.0)
  }

  /** Critical above one limit, else a warning above the other; a limit of zero is off. */
  function Level(value: real, warning: real, critical: real, category: string, code: string, subject: string)
    : seq<Verdict>
  {
    if critical > 0.0 && value >= critical then [Verdict("critical", category, code, subject)]
    else if warning > 0.0 && value >= warning then [Verdict("warning", category, code, subject)]
    else []
  }

  function PingChecks(t: Thresholds, all: seq<Baseline.Sample>, now: int, p: Ping): seq<Verdict> {
    var l := LimitsFor(t, [p.name, p.host]);
    if !p.up then [Verdict("critical", "wan", "ping_target_down", PingKey(p))]
    else Level(p.loss, l.lossWarning, l.lossCritical, "wan", "ping_threshold", PingKey(p))
         + Level(p.latency, l.latencyWarning, l.latencyCritical, "wan", "ping_threshold", PingKey(p))
         + When(AboveBaseline(PingSample(p), all, l.latencyRelative, l.latencyDays as int, now),
                Verdict("warning", "wan", "ping_threshold", PingKey(p)))
  }

  function DnsChecks(t: Thresholds, d: Dns): seq<Verdict> {
    var l := LimitsFor(t, [DnsKey(d), d.resolver, d.address, d.domain]);
    if !d.success then [Verdict("warning", "dns", "dns_lookup_failed", DnsKey(d))]
    else Level(d.duration, l.dnsWarning, l.dnsCritical, "dns", "dns_threshold", DnsKey(d))
  }

  function HttpChecks(t: Thresholds, all: seq<Baseline.Sample>, now: int, h: Http): seq<Verdict> {
    var l := LimitsFor(t, [h.name, h.url]);
    var slow := Level(h.duration, l.httpWarning, l.httpCritical, "service", "http_threshold", HttpKey(h));
    var relative := AboveBaseline(HttpSample(h), all, l.httpRelative, l.httpDays as int, now);
    (if slow == [] then When(relative, Verdict("warning", "service", "http_threshold", HttpKey(h))) else slow)
    + (if !h.tlsValid || h.tlsDays <= 0 then []
       else if l.tlsCriticalDays as int > 0 && h.tlsDays <= l.tlsCriticalDays as int
       then [Verdict("critical", "service", "tls_expiry_threshold", HttpKey(h))]
       else When(l.tlsWarningDays as int > 0 && h.tlsDays <= l.tlsWarningDays as int,
                 Verdict("warning", "service", "tls_expiry_threshold", HttpKey(h))))
  }

  /** The results latestPingPerTarget does not skip. */
  function WithHost(results: seq<Ping>): seq<Ping> {
    Flat(results, HostOnly)
  }

  function HostOnly(p: Ping): seq<Ping> {
    if TextLayout.TrimSpace(p.host) == "" then [] else [p]
  }

  /** What the threshold stage adds, for the newest results in the order listed. */
  function ThresholdAdditions(t: Thresholds, now: int, pings: seq<Ping>, allPings: seq<Ping>, dns: seq<Dns>,
                              https: seq<Http>, allHttps: seq<Http>): seq<Verdict> {
    var pingSamples, httpSamples := PingSamples(allPings), HttpSamples(allHttps);
    Flat(pings, (p: Ping) => PingChecks(t, pingSamples, now, p))
    + Flat(dns, (d: Dns) => DnsChecks(t, d))
    + Flat(https, (h: Http) => HttpChecks(t, httpSamples, now, h))
  }

  method ThresholdVerdicts(t: Thresholds, now: int, pings: seq<Ping>, allPings: seq<Ping>, dns: seq<Dns>,
                           https: seq<Http>, allHttps: seq<Http>) returns (additions: seq<Verdict>)
    ensures additions == ThresholdAdditions(t, now, pings, allPings, dns, https, allHttps)
  {
    hide PingChecks, DnsChecks, HttpChecks;
    var pingSamples, httpSamples := PingSamples(allPings), HttpSamples(allHttps);
    var forPings := Gather(pings, (p: Ping) => PingChecks(t, pingSamples, now, p));
    var forDns := Gather(dns, (d: Dns) => DnsChecks(t, d));
    var forHttp := Gather(https, (h: Http) => HttpChecks(t, httpSamples, now, h));
    additions := forPings + forDns + forHttp;
  }

  datatype Advanced = Advanced(checkType: string, name: string, target: string, severity: string, at: int)

  function AdvancedKey(a: Advanced): string { a.checkType + "|" + a.name + "|" + a.target }
  function AdvancedAt(a: Advanced): int { a.at }

  function AdvancedChecks(active: set<string>, a: Advanced): seq<Verdict> {
    When((AdvancedKey(a) in active || a.checkType in active) && (a.severity == "warning" || a.severity == "critical"),
         Verdict(a.severity, "advanced", a.checkType, a.target))
  }

  function AdvancedAdditions(active: set<string>, listed: seq<Advanced>): seq<Verdict> {
    Flat(listed, (a: Advanced) => AdvancedChecks(active, a))
  }

  method AdvancedVerdicts(active: set<string>, listed: seq<Advanced>) returns (additions: seq<Verdict>)
    ensures additions == AdvancedAdditions(active, listed)
  {
    additions := Gather(listed, (a: Advanced) => AdvancedChecks(active, a));
  }

  // ---- what the stages do with it ----

  function NotHealthy(verdicts: seq<Verdict>): seq<Verdict> {
    if verdicts == [] then []
    else
      var last := verdicts[|verdicts| - 1];
      NotHealthy(verdicts[..|verdicts| - 1]) + When(last.code != "healthy", last)
  }

  predicate HasSeverity(verdicts: seq<Verdict>, severity: string) {
    exists v :: v in verdicts && v.severity == severity
  }

  /** The status of verdicts that are all warnings or critical, and of the healthy verdict alone. */
  lemma FoundStatus(found: seq<Verdict>)
    requires forall v :: v in found ==> v.severity == "warning" || v.severity == "critical"
    ensures Worst([HEALTHY]) == "healthy"
    ensures Worst(found) == "healthy" <==> found == []
    ensures Worst(found) == "critical" <==> HasSeverity(found, "critical")
  {
    if found != [] {
      assert found[0] in found;
    }
  }

  const NEW_DEVICE: Verdict := Verdict("info", "inventory", "new_device_detected", "")
  const MISSING_DEVICE: Verdict := Verdict("warning", "inventory", "known_device_missing", "")

  ghost predicate InRange(h: Health) {
    0 <= h.overall <= 100 && 0 <= h.wan <= 100 && 0 <= h.dns <= 100 && 0 <= h.gateway <= 100
    && 0 <= h.service <= 100 && 0 <= h.inventory <= 100
  }

  function InventoryScore(score: int, newDevice: bool, missing: bool): int {
    var noted := if newDevice then Min(score, 90) else score;
    if missing then Min(noted, 70) else noted
  }

  function InventoryVerdicts(verdicts: seq<Verdict>, newDevice: bool, missing: bool): seq<Verdict> {
    NotHealthy(verdicts) + When(newDevice, NEW_DEVICE) + When(missing, MISSING_DEVICE)
  }

  function WithInventory(h: Health, newDevices: nat, missingDevices: nat): Health {
    if newDevices == 0 && missingDevices == 0 then h
    else
      var inventory := InventoryScore(h.inventory, newDevices > 0, missingDevices > 0);
      h.(verdicts := InventoryVerdicts(h.verdicts, newDevices > 0, missingDevices > 0),
         inventory := inventory,
         status := if missingDevices > 0 && h.status == "healthy" then "warning" else h.status,
         overall := Quotient5(h.wan + h.dns + h.gateway + h.service + inventory))
  }

  /** Go's division by five, toward zero. */
  function Quotient5(total: int): int {
    if total >= 0 then total / 5 else -((-total) / 5)
  }

  /** The status after the additions: the loop stops at the first critical one. */
  function Raised(status: string, additions: seq<Verdict>): string {
    if HasSeverity(additions, "critical") then "critical"
    else if HasSeverity(additions, "warning") && status == "healthy" then "warning" else status
  }

  function WithThresholds(h: Health, additions: seq<Verdict>): Health {
    if additions == [] then h
    else
      var status := Raised(h.status, additions);
      h.(verdicts := NotHealthy(h.verdicts) + additions, status := status,
         overall := if status == "critical" then Min(h.overall, 60)
                    else if status == "warning" then Min(h.overall, 80) else h.overall)
  }

  /** Unlike the threshold stage, the advanced stage lowers the overall score only when it changes
      the status or adds a critical verdict. */
  function WithAdvanced(h: Health, additions: seq<Verdict>): Health {
    if additions == [] then h
    else
      h.(verdicts := NotHealthy(h.verdicts) + additions, status := Raised(h.status, additions),
         overall := if HasSeverity(additions, "critical") then Min(h.overall, 60)
                    else if HasSeverity(additions, "warning") && h.status == "healthy" then Min(h.overall, 80)
                    else h.overall)
  }

  method RemoveHealthyVerdict(verdicts: seq<Verdict>) returns (filtered: seq<Verdict>)
    ensures filtered == NotHealthy(verdicts)
  {
    filtered := [];
    for i := 0 to |verdicts|
      invariant filtered == NotHealthy(verdicts[..i])
    {
      assert verdicts[..i + 1][..i] == verdicts[..i];
      if verdicts[i].code != "healthy" {
        filtered := filtered + [verdicts[i]];
      }
    }
    assert verdicts[..|verdicts|] == verdicts;
  }

  lemma Noted(verdicts: seq<Verdict>, a: bool, b: bool)
    ensures var kept := NotHealthy(verdicts);
            var one := if a then kept + [NEW_DEVICE] else kept;
      InventoryVerdicts(verdicts, a, b) == if b then one + [MISSING_DEVICE] else one
  {
  }

  class Record {
    var overall: int
    var wan: int
    var dns: int
    var gateway: int
    var service: int
    var inventory: int
    var status: string
    var verdicts: seq<Verdict>

    function State(): Health
      reads this
    {
      Health(overall, wan, dns, gateway, service, inventory, status, verdicts)
    }

    constructor (h: Health)
      ensures State() == h
    {
      overall, wan, dns, gateway, service, inventory := h.overall, h.wan, h.dns, h.gateway, h.service, h.inventory;
      status, verdicts := h.status, h.verdicts;
    }

    method ApplyDeviceInventoryHealth(newDevices: nat, missingDevices: nat)
      modifies this
      ensures State() == WithInventory(old(State()), newDevices, missingDevices)
    {
      if newDevices == 0 && missingDevices == 0 {
        return;
      }
      hide Quotient5, NotHealthy, NEW_DEVICE, MISSING_DEVICE, When, InventoryVerdicts;
      Noted(verdicts, newDevices > 0, missingDevices > 0);
      var list := RemoveHealthyVerdict(verdicts);
      if newDevices > 0 {
        list := list + [NEW_DEVICE];
        if inventory > 90 {
          inventory := 90;
        }
      }
      if missingDevices > 0 {
        list := list + [MISSING_DEVICE];
        if inventory > 70 {
          inventory := 70;
        }
        if status == "healthy" {
          status := "warning";
        }
      }
      verdicts := list;
      overall := Quotient5(wan + dns + gateway + service + inventory);
    }

    method ApplyThresholdHealth(additions: seq<Verdict>)
      modifies this
      ensures State() == WithThresholds(old(State()), additions)
    {
      if |additions| == 0 {
        return;
      }
      var kept := RemoveHealthyVerdict(verdicts);
      verdicts := kept + additions;
      for i := 0 to |additions|
        invariant unchanged(`overall, `wan, `dns, `gateway, `service, `inventory)
                && verdicts == NotHealthy(old(verdicts)) + additions
        invariant !HasSeverity(additions[..i], "critical") && status == Raised(old(status), additions[..i])
      {
        SeverityNext(additions, i);
        if additions[i].severity == "critical" {
          status := "critical";
          break;
        }
        if additions[i].severity == "warning" && status == "healthy" {
          status := "warning";
        }
      }
      assert additions[..|additions|] == additions;
      assert status == Raised(old(status), additions);
      if status == "critical" {
        overall := Min(overall, 60);
      } else if status == "warning" {
        overall := Min(overall, 80);
      }
    }

    method ApplyAdvancedHealth(additions: seq<Verdict>)
      modifies this
      ensures State() == WithAdvanced(old(State()), additions)
    {
      if |additions| == 0 {
        return;
      }
      var kept := RemoveHealthyVerdict(verdicts);
      verdicts := kept + additions;
      for i := 0 to |additions|
        invariant unchanged(`wan, `dns, `gateway, `service, `inventory)
                && verdicts == NotHealthy(old(verdicts)) + additions
        invariant !HasSeverity(additions[..i], "critical") && status == Raised(old(status), additions[..i])
        invariant overall == if HasSeverity(additions[..i], "warning") && old(status) == "healthy"
                then Min(old(overall), 80)
                             else old(overall)
      {
        SeverityNext(additions, i);
        if additions[i].severity == "critical" {
          status := "critical";
          overall := Min(overall, 60);
          break;
        }
        if additions[i].severity == "warning" && status == "healthy" {
          status := "warning";
          overall := Min(overall, 80);
        }
      }
      assert additions[..|additions|] == additions;
    }
  }

  lemma SeverityAppend(a: seq<Verdict>, b: seq<Verdict>, severity: string)
    ensures HasSeverity(a + b, severity) <==> HasSeverity(a, severity) || HasSeverity(b, severity)
  {
    forall v | v in a || v in b ensures v in a + b {
    }
  }

  lemma SeverityNext(additions: seq<Verdict>, i: nat)
    requires i < |additions|
    ensures forall s :: HasSeverity(additions[..i + 1], s) <==>
            HasSeverity(additions[..i], s) || additions[i].severity == s
    ensures additions[i].severity == "critical" ==> HasSeverity(additions, "critical")
    ensures additions[i].severity == "warning" ==> HasSeverity(additions, "warning")
  {
    assert additions[..i + 1] == additions[..i] + [additions[i]];
    assert additions[i] in additions;
    forall s
      ensures HasSeverity(additions[..i + 1], s) <==> HasSeverity(additions[..i], s) || additions[i].severity == s
    {
      SeverityAppend(additions[..i], [additions[i]], s);
      assert additions[i] in [additions[i]];
    }
  }
}
