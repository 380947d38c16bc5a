/** What status, scores and threshold verdicts mean for what was measured. */
module HealthMeaning {
  import opened Latest
  import opened Verdicts
  import opened HealthStages
  import Baseline

  // ---- the status after the first stage ----

  predicate DnsLocal(s: Summary) {
    s.hasDns && s.systemSuccess < 0.9 && s.publicSuccess >= 0.95
  }

  predicate DnsOutage(s: Summary) {
    s.hasDns && s.systemSuccess < 0.9 && s.publicSuccess < 0.9
  }

  predicate UpstreamLoss(s: Summary) {
    s.gateway.Some? && s.gateway.value.up && s.gateway.value.loss == 0.0 && s.maxLoss > 3.0
  }

  predicate Expired(h: Http) {
    !h.tlsValid
  }

  predicate Troubled(h: Http) {
    !h.up || h.duration > 3000.0 || !h.tlsValid || 0 < h.tlsDays <= 14
  }

  lemma NetworkSeverities(s: Summary)
    ensures HasSeverity(NetworkVerdicts(s), "critical") <==> GatewayUnstable(s) || Unreachable(s) || DnsOutage(s)
    ensures NetworkVerdicts(s) == [] <==>
            !GatewayUnstable(s) && !UpstreamLoss(s) && !Unreachable(s) && !DnsLocal(s) && !DnsOutage(s)
    ensures forall v :: v in NetworkVerdicts(s) ==> v.severity == "warning" || v.severity == "critical"
  {
    hide GatewayUnstable, Unreachable;
    var n := NetworkVerdicts(s);
    assert GatewayUnstable(s) ==> n[0].severity == "critical" && n[0] in n;
    if Unreachable(s) {
      assert Verdict("critical", "wan", "internet_unreachable", "") in n;
    }
    if DnsOutage(s) {
      assert Verdict("critical", "dns", "dns_general_outage", "") in n;
    }
  }

  lemma ServiceSeverities(h: Http)
    ensures HasSeverity(ServiceVerdicts(h), "critical") <==> Expired(h)
    ensures ServiceVerdicts(h) != [] <==> Troubled(h)
    ensures forall v :: v in ServiceVerdicts(h) ==> v.severity == "warning" || v.severity == "critical"
  {
    hide HttpKey;
    if Expired(h) {
      assert Verdict("critical", "service", "tls_invalid", HttpKey(h)) in ServiceVerdicts(h);
    }
  }

  lemma {:induction false} ServicesSeverities(services: seq<Http>)
    ensures HasSeverity(Flat(services, ServiceVerdicts), "critical") <==> exists h :: h in services && Expired(h)
    ensures Flat(services, ServiceVerdicts) != [] <==> exists h :: h in services && Troubled(h)
    ensures forall v :: v in Flat(services, ServiceVerdicts) ==> v.severity == "warning" || v.severity == "critical"
  {
    hide ServiceVerdicts, Troubled, Expired;
    if services != [] {
      var n := |services| - 1;
      var front, last := services[..n], services[n];
      ServicesSeverities(front);
      ServiceSeverities(last);
      assert services == front + [last];
      SeverityAppend(Flat(front, ServiceVerdicts), ServiceVerdicts(last), "critical");
    }
  }

  /** After the first stage the status is critical exactly for an unstable gateway, no reachable
      target, a general DNS outage or an invalid certificate, and healthy exactly when none of these
      holds, nor loss beyond a good gateway, nor failing local DNS, nor trouble with any service. */
  lemma StatusMeans(s: Summary)
    ensures Evaluated(s).status == "critical" <==>
            GatewayUnstable(s) || Unreachable(s) || DnsOutage(s) || exists h :: h in s.services && Expired(h)
    ensures Evaluated(s).status == "healthy" <==>
            !GatewayUnstable(s) && !UpstreamLoss(s) && !Unreachable(s) && !DnsLocal(s) && !DnsOutage(s)
            && forall h :: h in s.services ==> !Troubled(h)
  {
    hide NetworkVerdicts, ServiceVerdicts, GatewayUnstable, Unreachable, DnsOutage, DnsLocal, UpstreamLoss, Troubled,
      Expired, Average, WanScore, DnsScore, GatewayScore, ServiceScore;
    var network, services := NetworkVerdicts(s), Flat(s.services, ServiceVerdicts);
    NetworkSeverities(s);
    ServicesSeverities(s.services);
    SeverityAppend(network, services, "critical");
    FoundStatus(network + services);
  }

  // ---- full scores ----

  lemma {:induction false} CountAll<T>(s: seq<T>, p: T -> bool)
    ensures Count(s, p) == |s| <==> forall x :: x in s ==> p(x)
  {
    if s != [] {
      CountAll(s[..|s| - 1], p);
      assert s == s[..|s| - 1] + [s[|s| - 1]];
    }
  }

  lemma RatioFull(part: nat, total: nat)
    requires part <= total
    ensures 0.0 <= Ratio(part, total) <= 1.0 && (Ratio(part, total) == 1.0 <==> part == total)
  {
    if total > 0 {
      var r, t := part as real / total as real, total as real;
      assert r * t == part as real;
    }
  }

  lemma TruncFull(x: real)
    requires x <= 100.0
    ensures Clamp(Trunc(x)) == 100 <==> x == 100.0
  {
  }

  lemma WanFull(targets: nat, upRatio: real, maxLoss: real)
    requires 0.0 <= upRatio <= 1.0 && maxLoss >= 0.0
    ensures WanBase(targets, upRatio, maxLoss) == 100 <==> targets == 0 || (upRatio == 1.0 && maxLoss == 0.0)
  {
    hide Clamp, Trunc;
    if upRatio < 1.0 {
      TruncFull(upRatio * 80.0);
    } else {
      TruncFull(100.0 - maxLoss * 10.0);
    }
  }

  /** Every target up, without loss. */
  lemma WanMeans(internet: seq<Ping>)
    ensures WanBase(|internet|, Ratio(Count(internet, PingUp), |internet|), Greatest(internet, PingLoss)) == 100
            <==> forall p :: p in internet ==> p.up && p.loss <= 0.0
  {
    hide WanBase, Count, Greatest, Ratio;
    CountAll(internet, PingUp);
    RatioFull(Count(internet, PingUp), |internet|);
    GreatestIs(internet, PingLoss);
    WanFull(|internet|, Ratio(Count(internet, PingUp), |internet|), Greatest(internet, PingLoss));
    assert |internet| > 0 ==> internet[0] in internet;
    if forall p :: p in internet ==> PingUp(p) && PingLoss(p) <= 0.0 {
      assert Greatest(internet, PingLoss) == 0.0;
    }
  }

  lemma {:induction false} CountBoth(dns: seq<Dns>)
    ensures Count(dns, SystemWorks) <= Count(dns, IsSystem) && Count(dns, PublicWorks) <= Count(dns, IsPublic)
    ensures Count(dns, SystemWorks) == Count(dns, IsSystem) && Count(dns, PublicWorks) == Count(dns, IsPublic)
            <==> forall d :: d in dns ==> d.success
  {
    hide IsSystem;
    if dns != [] {
      CountBoth(dns[..|dns| - 1]);
      assert dns == dns[..|dns| - 1] + [dns[|dns| - 1]];
    }
  }

  /** Every lookup answered. */
  lemma DnsMeans(gateway: seq<Ping>, internet: seq<Ping>, dns: seq<Dns>, http: seq<Http>)
    ensures DnsScore(Summarized(gateway, internet, dns, http)) == 100 <==> forall d :: d in dns ==> d.success
  {
    hide Count, Clamp, Trunc, Ratio;
    var s := Summarized(gateway, internet, dns, http);
    CountBoth(dns);
    RatioFull(Count(dns, SystemWorks), Count(dns, IsSystem));
    RatioFull(Count(dns, PublicWorks), Count(dns, IsPublic));
    TruncFull((s.systemSuccess * 0.6 + s.publicSuccess * 0.4) * 100.0);
  }

  // ---- threshold verdicts ----

  predicate AtLimit(value: real, limit: real) {
    limit > 0.0 && value >= limit
  }

  lemma LevelMeans(value: real, warning: real, critical: real, category: string, code: string, subject: string)
    ensures var found := Level(value, warning, critical, category, code, subject);
      && (HasSeverity(found, "critical") <==> AtLimit(value, critical))
      && (found == [] <==> !AtLimit(value, critical) && !AtLimit(value, warning))
      && (HasSeverity(found, "warning") <==> AtLimit(value, warning) && !AtLimit(value, critical))
  {
    assert Verdict("critical", category, code, subject) in [Verdict("critical", category, code, subject)];
    assert Verdict("warning", category, code, subject) in [Verdict("warning", category, code, subject)];
  }

  /** A ping result is critical exactly when the target is down or its loss or latency reaches an
      active critical limit, and silent exactly when it is up below every active limit and not above
      its baseline. */
  lemma PingMeans(t: Thresholds, all: seq<Baseline.Sample>, now: int, p: Ping)
    ensures var l := LimitsFor(t, [p.name, p.host]);
            var above := AboveBaseline(PingSample(p), all, l.latencyRelative, l.latencyDays as int, now);
            var found := PingChecks(t, all, now, p);
      && (HasSeverity(found, "critical") <==>
          !p.up || AtLimit(p.loss, l.lossCritical) || AtLimit(p.latency, l.latencyCritical))
      && (found == [] <==> p.up && !AtLimit(p.loss, l.lossCritical) && !AtLimit(p.loss, l.lossWarning)
                           && !AtLimit(p.latency, l.latencyCritical) && !AtLimit(p.latency, l.latencyWarning) && !above)
  {
    hide LimitsFor, AboveBaseline, Level, PingKey, AtLimit;
    var l := LimitsFor(t, [p.name, p.host]);
    var above := AboveBaseline(PingSample(p), all, l.latencyRelative, l.latencyDays as int, now);
    var a := Level(p.loss, l.lossWarning, l.lossCritical, "wan", "ping_threshold", PingKey(p));
    var b := Level(p.latency, l.latencyWarning, l.latencyCritical, "wan", "ping_threshold", PingKey(p));
    var c := When(above, Verdict("warning", "wan", "ping_threshold", PingKey(p)));
    LevelMeans(p.loss, l.lossWarning, l.lossCritical, "wan", "ping_threshold", PingKey(p));
    LevelMeans(p.latency, l.latencyWarning, l.latencyCritical, "wan", "ping_threshold", PingKey(p));
    SeverityAppend(a, b, "critical");
    SeverityAppend(a + b, c, "critical");
    OneVerdict("wan", "ping_target_down", PingKey(p));
  }

  lemma OneVerdict(category: string, code: string, subject: string)
    ensures HasSeverity([Verdict("critical", category, code, subject)], "critical")
  {
    assert Verdict("critical", category, code, subject) in [Verdict("critical", category, code, subject)];
  }

  /** A failed lookup is a warning; otherwise only its duration decides. */
  lemma DnsChecksMean(t: Thresholds, d: Dns)
    ensures var l := LimitsFor(t, [DnsKey(d), d.resolver, d.address, d.domain]);
            var found := DnsChecks(t, d);
      && (HasSeverity(found, "critical") <==> d.success && AtLimit(d.duration, l.dnsCritical))
      && (found == [] <==> d.success && !AtLimit(d.duration, l.dnsCritical) && !AtLimit(d.duration, l.dnsWarning))
  {
    hide LimitsFor, Level, DnsKey, AtLimit;
    var l := LimitsFor(t, [DnsKey(d), d.resolver, d.address, d.domain]);
    LevelMeans(d.duration, l.dnsWarning, l.dnsCritical, "dns", "dns_threshold", DnsKey(d));
  }

  predicate Expires(h: Http, days: int) {
    h.tlsValid && 0 < h.tlsDays <= days
  }

  /** A service is critical exactly for its duration or its certificate, and silent exactly when
      neither reaches a limit and the duration is not above its baseline. */
  lemma HttpChecksMean(t: Thresholds, all: seq<Baseline.Sample>, now: int, h: Http)
    ensures var l := LimitsFor(t, [h.name, h.url]);
            var above := AboveBaseline(HttpSample(h), all, l.httpRelative, l.httpDays as int, now);
            var found := HttpChecks(t, all, now, h);
      && (HasSeverity(found, "critical") <==>
          AtLimit(h.duration, l.httpCritical) || Expires(h, l.tlsCriticalDays as int))
      && (found == [] <==> !AtLimit(h.duration, l.httpCritical) && !AtLimit(h.duration, l.httpWarning) && !above
                           && !Expires(h, l.tlsCriticalDays as int) && !Expires(h, l.tlsWarningDays as int))
  {
    hide LimitsFor, AboveBaseline, Level, HttpKey, AtLimit;
    var l := LimitsFor(t, [h.name, h.url]);
    var above := AboveBaseline(HttpSample(h), all, l.httpRelative, l.httpDays as int, now);
    var slow := Level(h.duration, l.httpWarning, l.httpCritical, "service", "http_threshold", HttpKey(h));
    var time := if slow == [] then When(above, Verdict("warning", "service", "http_threshold", HttpKey(h))) else slow;
    var found := HttpChecks(t, all, now, h);
    LevelMeans(h.duration, l.httpWarning, l.httpCritical, "service", "http_threshold", HttpKey(h));
    OneVerdict("service", "tls_expiry_threshold", HttpKey(h));
    SeverityAppend(time, found[|time|..], "critical");
    assert found == time + found[|time|..];
  }

  /** Without an override for any key the global limits hold. */
  lemma {:induction false} LimitsGlobal(t: Thresholds, keys: seq<string>)
    requires forall j :: 0 <= j < |keys| ==> keys[j] == "" || keys[j] !in t.perTarget
    ensures LimitsFor(t, keys) == t.global
  {
    if keys != [] {
      LimitsGlobal(t, keys[1..]);
    }
  }

  /** The limits of a result: the global ones, overridden where the first key that has an entry gives
      a value that is not zero. */
  lemma {:induction false} LimitsMean(t: Thresholds, keys: seq<string>, k: nat)
    requires k < |keys| && keys[k] != "" && keys[k] in t.perTarget
    requires forall j :: 0 <= j < k ==> keys[j] == "" || keys[j] !in t.perTarget
    ensures LimitsFor(t, keys) == Merged(t.global, t.perTarget[keys[k]])
  {
    if k > 0 {
      LimitsMean(t, keys[1..], k - 1);
    }
  }
}
