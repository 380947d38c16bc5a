/** Which verdicts the final record holds, told from the measurements, and which results, limits and
    baselines these are measured against. */
module HealthVerdicts {
  import opened Latest
  import opened Verdicts
  import opened HealthStages
  import opened HealthMeaning
  import opened HealthProof
  import opened HealthPipeline
  import Baseline
  import TextLayout

  // ---- the newest results ----

  /** A listing of the newest results for each key holds exactly those no other result of the key is newer
      than, where no two different results of a key have the same time. */
  lemma NewestExactly<T(!new)>(results: seq<T>, key: T -> string, at: T -> int, out: seq<T>, x: T)
    requires Enumerates(LatestOf(results, key, at), key, out) && DistinctTimes(results, key, at)
    ensures x in out <==> x in results && forall y :: y in results && key(y) == key(x) ==> at(y) <= at(x)
  {
    LatestKeyed(results, key, at);
    var kept := LatestOf(results, key, at);
    if x in out {
      assert kept[key(x)] == x;
    }
    if x in results && forall y :: y in results && key(y) == key(x) ==> at(y) <= at(x) {
      assert kept[key(x)] == x;
    }
  }

  /** The measured results of each kind compete by these parts, and by time. */
  lemma KeysAre()
    ensures forall p: Ping :: PingKey(p) == p.name + "|" + p.host && PingAt(p) == p.at
    ensures forall d: Dns :: DnsKey(d) == d.resolver + "|" + d.domain + "|" + d.recordType && DnsAt(d) == d.at
    ensures forall h: Http :: HttpKey(h) == h.name + "|" + h.url && HttpAt(h) == h.at
    ensures forall a: Advanced :: AdvancedKey(a) == a.checkType + "|" + a.name + "|" + a.target && AdvancedAt(a) == a.at
  {
  }

  lemma BarAt(a: string, x: string)
    requires '|' !in a
    ensures var s := a + "|" + x;
      s[|a|] == '|' && s[..|a|] == a && s[|a| + 1..] == x && forall k :: 0 <= k < |a| ==> s[k] != '|'
  {
    var s := a + "|" + x;
    assert forall k :: 0 <= k < |a| ==> s[k] == a[k] && a[k] in a;
  }

  lemma BarFirst(a: string, x: string, b: string, y: string)
    requires '|' !in a && '|' !in b && a + "|" + x == b + "|" + y
    ensures a == b && x == y
  {
    BarAt(a, x);
    BarAt(b, y);
  }

  /** Where names hold no bar, two results compete exactly when all their parts are the same. */
  lemma KeysApart(p: Ping, q: Ping, d: Dns, e: Dns, h: Http, g: Http, a: Advanced, b: Advanced)
    requires '|' !in p.name && '|' !in q.name && '|' !in h.name && '|' !in g.name
    requires '|' !in d.resolver && '|' !in d.domain && '|' !in e.resolver && '|' !in e.domain
    requires '|' !in a.checkType && '|' !in a.name && '|' !in b.checkType && '|' !in b.name
    ensures PingKey(p) == PingKey(q) <==> p.name == q.name && p.host == q.host
    ensures DnsKey(d) == DnsKey(e) <==> d.resolver == e.resolver && d.domain == e.domain && d.recordType == e.recordType
    ensures HttpKey(h) == HttpKey(g) <==> h.name == g.name && h.url == g.url
    ensures AdvancedKey(a) == AdvancedKey(b) <==> a.checkType == b.checkType && a.name == b.name && a.target == b.target
  {
    if PingKey(p) == PingKey(q) {
      BarFirst(p.name, p.host, q.name, q.host);
    }
    if HttpKey(h) == HttpKey(g) {
      BarFirst(h.name, h.url, g.name, g.url);
    }
    ThreeParts(d.resolver, d.domain, d.recordType, e.resolver, e.domain, e.recordType);
    ThreeParts(a.checkType, a.name, a.target, b.checkType, b.name, b.target);
  }

  lemma ThreeParts(a: string, b: string, c: string, x: string, y: string, z: string)
    requires '|' !in a && '|' !in b && '|' !in x && '|' !in y
    ensures a + "|" + b + "|" + c == x + "|" + y + "|" + z <==> a == x && b == y && c == z
  {
    if a + "|" + b + "|" + c == x + "|" + y + "|" + z {
      assert a + "|" + b + "|" + c == a + "|" + (b + "|" + c) && x + "|" + y + "|" + z == x + "|" + (y + "|" + z);
      BarFirst(a, b + "|" + c, x, y + "|" + z);
      BarFirst(b, c, y, z);
    }
  }

  /** The pings the thresholds look at are those whose host is not blank. */
  lemma {:induction false} WithHostExactly(pings: seq<Ping>, p: Ping)
    ensures multiset(WithHost(pings))[p] == if TextLayout.TrimSpace(p.host) == "" then 0 else multiset(pings)[p]
  {
    hide TextLayout.TrimSpace;
    if pings != [] {
      var n := |pings| - 1;
      WithHostExactly(pings[..n], p);
      assert pings == pings[..n] + [pings[n]];
      assert WithHost(pings) == WithHost(pings[..n]) + HostOnly(pings[n]);
    }
  }

  // ---- limits and baselines ----

  predicate Chosen(value: real, over: real, base: real) {
    value == if over != 0.0 then over else base
  }

  predicate ChosenDays(value: int, over: int, base: int) {
    value == if over != 0 then over else base
  }

  /** An override decides each limit for which it gives a value that is not zero; the limits of speed
      tests, which no target has, stay the global ones. */
  lemma MergedExactly(base: Limits, over: Limits)
    ensures var m := Merged(base, over);
      && Chosen(m.lossWarning, over.lossWarning, base.lossWarning)
      && Chosen(m.lossCritical, over.lossCritical, base.lossCritical)
      && Chosen(m.latencyWarning, over.latencyWarning, base.latencyWarning)
      && Chosen(m.latencyCritical, over.latencyCritical, base.latencyCritical)
      && Chosen(m.latencyRelative, over.latencyRelative, base.latencyRelative)
      && Chosen(m.dnsWarning, over.dnsWarning, base.dnsWarning)
      && Chosen(m.dnsCritical, over.dnsCritical, base.dnsCritical)
      && Chosen(m.httpWarning, over.httpWarning, base.httpWarning)
      && Chosen(m.httpCritical, over.httpCritical, base.httpCritical)
      && Chosen(m.httpRelative, over.httpRelative, base.httpRelative)
      && ChosenDays(m.latencyDays as int, over.latencyDays as int, base.latencyDays as int)
      && ChosenDays(m.httpDays as int, over.httpDays as int, base.httpDays as int)
      && ChosenDays(m.tlsWarningDays as int, over.tlsWarningDays as int, base.tlsWarningDays as int)
      && ChosenDays(m.tlsCriticalDays as int, over.tlsCriticalDays as int, base.tlsCriticalDays as int)
      && m.downloadWarning == base.downloadWarning && m.uploadWarning == base.uploadWarning
      && m.speedRelative == base.speedRelative
  {
  }

  /** How often an earlier success of the target took that long within some days before now. */
  function PingTimes(all: seq<Ping>, p: Ping, days: int, now: int, x: real): set<int> {
    set k | 0 <= k < |all| && all[k].name == p.name && all[k].host == p.host && all[k].up && all[k].latency == x
            && x > 0.0 && all[k].id != p.id && all[k].at >= now - days * 86_400_000_000_000
  }

  function HttpTimes(all: seq<Http>, h: Http, days: int, now: int, x: real): set<int> {
    set k | 0 <= k < |all| && all[k].name == h.name && all[k].url == h.url && all[k].up && all[k].duration == x
            && x > 0.0 && all[k].id != h.id && all[k].at >= now - days * 86_400_000_000_000
  }

  lemma PingHits(all: seq<Ping>, p: Ping, days: int, now: int, x: real)
    ensures |Baseline.Hits(PingSample(p), PingSamples(all), now - days * DAY, x)| == |PingTimes(all, p, days, now, x)|
  {
    var s := PingSamples(all);
    forall k | 0 <= k < |all|
      ensures k in Baseline.Hits(PingSample(p), s, now - days * DAY, x) <==> k in PingTimes(all, p, days, now, x)
    {
      assert s[k] == PingSample(all[k]);
    }
    assert Baseline.Hits(PingSample(p), s, now - days * DAY, x) == PingTimes(all, p, days, now, x);
  }

  lemma HttpHits(all: seq<Http>, h: Http, days: int, now: int, x: real)
    ensures |Baseline.Hits(HttpSample(h), HttpSamples(all), now - days * DAY, x)| == |HttpTimes(all, h, days, now, x)|
  {
    var s := HttpSamples(all);
    forall k | 0 <= k < |all|
      ensures k in Baseline.Hits(HttpSample(h), s, now - days * DAY, x) <==> k in HttpTimes(all, h, days, now, x)
    {
      assert s[k] == HttpSample(all[k]);
    }
    assert Baseline.Hits(HttpSample(h), s, now - days * DAY, x) == HttpTimes(all, h, days, now, x);
  }

  /** More than some percent above a baseline. */
  predicate Exceeds(amount: real, baseline: real, percent: real) {
    amount * 100.0 > baseline * (100.0 + percent)
  }

  lemma ExceedsIs(amount: real, baseline: real, percent: real)
    ensures Exceeds(amount, baseline, percent) <==> amount > baseline * (1.0 + percent / 100.0)
  {
    assert baseline * (100.0 + percent) == baseline * (1.0 + percent / 100.0) * 100.0;
  }

  /** A ping is above its baseline exactly when percent and days are set, there are five earlier times at
      least, and its latency exceeds the baseline of these by more than the percentage. */
  lemma PingAboveExactly(all: seq<Ping>, p: Ping, percent: real, days: int, now: int, times: seq<real>)
    requires forall x :: multiset(times)[x] == |PingTimes(all, p, days, now, x)|
    ensures AboveBaseline(PingSample(p), PingSamples(all), percent, days, now) <==>
            percent > 0.0 && days > 0 && Baseline.Trimmed(times).Some?
            && Exceeds(p.latency, Baseline.Trimmed(times).value, percent)
  {
    hide PingTimes, PingSamples, Baseline.Samples, Baseline.Trimmed, Exceeds;
    var samples := Baseline.Samples(PingSample(p), PingSamples(all), now - days * DAY);
    forall x ensures multiset(samples)[x] == multiset(times)[x] {
      Baseline.SamplesExactly(PingSample(p), PingSamples(all), now - days * DAY, x);
      PingHits(all, p, days, now, x);
    }
    assert multiset(samples) == multiset(times);
    Baseline.BaselineForgets(samples, times);
    if Baseline.Trimmed(times).Some? {
      ExceedsIs(p.latency, Baseline.Trimmed(times).value, percent);
    }
  }

  /** A request likewise, by its duration. */
  lemma HttpAboveExactly(all: seq<Http>, h: Http, percent: real, days: int, now: int, times: seq<real>)
    requires forall x :: multiset(times)[x] == |HttpTimes(all, h, days, now, x)|
    ensures AboveBaseline(HttpSample(h), HttpSamples(all), percent, days, now) <==>
            percent > 0.0 && days > 0 && Baseline.Trimmed(times).Some?
            && Exceeds(h.duration, Baseline.Trimmed(times).value, percent)
  {
    hide HttpTimes, HttpSamples, Baseline.Samples, Baseline.Trimmed, Exceeds;
    var samples := Baseline.Samples(HttpSample(h), HttpSamples(all), now - days * DAY);
    forall x ensures multiset(samples)[x] == multiset(times)[x] {
      Baseline.SamplesExactly(HttpSample(h), HttpSamples(all), now - days * DAY, x);
      HttpHits(all, h, days, now, x);
    }
    assert multiset(samples) == multiset(times);
    Baseline.BaselineForgets(samples, times);
    if Baseline.Trimmed(times).Some? {
      ExceedsIs(h.duration, Baseline.Trimmed(times).value, percent);
    }
  }

  // ---- verdicts ----

  predicate RuleCaused(i: Inputs, l: Lists, v: Verdict) {
    || (v == Verdict("critical", "gateway", "local_gateway_unstable", "") && GatewayBad(i.gateway))
    || (v == Verdict("warning", "wan", "upstream_packet_loss", "") && LossBeyond(i.gateway, l.internet))
    || (v == Verdict("critical", "wan", "internet_unreachable", "") && NoneReachable(l.internet))
    || (v == Verdict("warning", "dns", "local_dns_problem", "") && SystemFails(l.dns) && PublicFine(l.dns))
    || (v == Verdict("critical", "dns", "dns_general_outage", "") && SystemFails(l.dns) && PublicFails(l.dns))
    || exists h :: h in l.http && ServiceCaused(h, v)
  }

  predicate ServiceCaused(h: Http, v: Verdict) {
    var key := h.name + "|" + h.url;
    || (v == Verdict("warning", "service", "service_down", key) && !h.up)
    || (v == Verdict("warning", "service", "service_slow", key) && h.up && h.duration > 3000.0)
    || (v == Verdict("critical", "service", "tls_invalid", key) && !h.tlsValid)
    || (v == Verdict("warning", "service", "tls_expiring", key) && h.tlsValid && 1 <= h.tlsDays <= 14)
  }

  predicate InventoryCaused(i: Inputs, v: Verdict) {
    || (v == Verdict("info", "inventory", "new_device_detected", "") && i.newDevices > 0)
    || (v == Verdict("warning", "inventory", "known_device_missing", "") && i.missingDevices > 0)
  }

  /** Above the critical limit, or else above the warning limit. */
  predicate Reaches(value: real, warning: real, critical: real, severity: string) {
    || (severity == "critical" && AtLimit(value, critical))
    || (severity == "warning" && AtLimit(value, warning) && !AtLimit(value, critical))
  }

  predicate PingCaused(i: Inputs, p: Ping, v: Verdict) {
    var k, key := LimitsFor(i.thresholds, [p.name, p.host]), p.name + "|" + p.host;
    if !p.up then v == Verdict("critical", "wan", "ping_target_down", key)
    else
      v == Verdict(v.severity, "wan", "ping_threshold", key)
      && (Reaches(p.loss, k.lossWarning, k.lossCritical, v.severity)
          || Reaches(p.latency, k.latencyWarning, k.latencyCritical, v.severity)
          || (v.severity == "warning"
              && AboveBaseline(PingSample(p), PingSamples(i.pings), k.latencyRelative, k.latencyDays as int, i.now)))
  }

  predicate LookupCaused(i: Inputs, d: Dns, v: Verdict) {
    var key := d.resolver + "|" + d.domain + "|" + d.recordType;
    var k := LimitsFor(i.thresholds, [key, d.resolver, d.address, d.domain]);
    if !d.success then v == Verdict("warning", "dns", "dns_lookup_failed", key)
    else v == Verdict(v.severity, "dns", "dns_threshold", key)
         && Reaches(d.duration, k.dnsWarning, k.dnsCritical, v.severity)
  }

  predicate RequestCaused(i: Inputs, h: Http, v: Verdict) {
    var k, key := LimitsFor(i.thresholds, [h.name, h.url]), h.name + "|" + h.url;
    var slow := AtLimit(h.duration, k.httpWarning) || AtLimit(h.duration, k.httpCritical);
    || (v == Verdict(v.severity, "service", "http_threshold", key)
        && (Reaches(h.duration, k.httpWarning, k.httpCritical, v.severity)
            || (v.severity == "warning" && !slow
                && AboveBaseline(HttpSample(h), HttpSamples(i.requests), k.httpRelative, k.httpDays as int, i.now))))
    || (v == Verdict(v.severity, "service", "tls_expiry_threshold", key) && h.tlsValid && h.tlsDays >= 1
        && ((v.severity == "critical" && h.tlsDays <= k.tlsCriticalDays as int)
            || (v.severity == "warning" && h.tlsDays <= k.tlsWarningDays as int
                && h.tlsDays > k.tlsCriticalDays as int)))
  }

  predicate LimitCaused(i: Inputs, l: Lists, v: Verdict) {
    || (exists p :: p in l.pings && PingCaused(i, p, v))
    || (exists d :: d in l.lookups && LookupCaused(i, d, v))
    || (exists h :: h in l.requests && RequestCaused(i, h, v))
  }

  predicate AdvancedCaused(i: Inputs, l: Lists, v: Verdict) {
    exists a :: a in l.advanced
      && (a.checkType + "|" + a.name + "|" + a.target in i.active || a.checkType in i.active)
      && (a.severity == "warning" || a.severity == "critical")
      && v == Verdict(a.severity, "advanced", a.checkType, a.target)
  }

  /** What is measured calls for a verdict. */
  predicate Caused(i: Inputs, l: Lists, v: Verdict) {
    RuleCaused(i, l, v) || InventoryCaused(i, v) || LimitCaused(i, l, v) || AdvancedCaused(i, l, v)
  }

  lemma WhenHas(c: bool, v: Verdict, u: Verdict)
    ensures u in When(c, v) <==> c && u == v
  {
  }

  lemma NetworkHas(s: Summary, v: Verdict)
    ensures v in NetworkVerdicts(s) <==>
            || (v == Verdict("critical", "gateway", "local_gateway_unstable", "") && GatewayUnstable(s))
            || (v == Verdict("warning", "wan", "upstream_packet_loss", "") && UpstreamLoss(s))
            || (v == Verdict("critical", "wan", "internet_unreachable", "") && Unreachable(s))
            || (v == Verdict("warning", "dns", "local_dns_problem", "") && DnsLocal(s))
            || (v == Verdict("critical", "dns", "dns_general_outage", "") && DnsOutage(s))
  {
    hide When, GatewayUnstable, Unreachable;
    WhenHas(GatewayUnstable(s), Verdict("critical", "gateway", "local_gateway_unstable", ""), v);
    WhenHas(UpstreamLoss(s), Verdict("warning", "wan", "upstream_packet_loss", ""), v);
    WhenHas(Unreachable(s), Verdict("critical", "wan", "internet_unreachable", ""), v);
    WhenHas(DnsLocal(s), Verdict("warning", "dns", "local_dns_problem", ""), v);
    WhenHas(DnsOutage(s), Verdict("critical", "dns", "dns_general_outage", ""), v);
  }

  lemma ServiceHas(h: Http, v: Verdict)
    ensures v in ServiceVerdicts(h) <==> ServiceCaused(h, v)
  {
    hide When;
    var key := HttpKey(h);
    WhenHas(!h.up, Verdict("warning", "service", "service_down", key), v);
    WhenHas(h.up && h.duration > 3000.0, Verdict("warning", "service", "service_slow", key), v);
    WhenHas(!h.tlsValid, Verdict("critical", "service", "tls_invalid", key), v);
    WhenHas(h.tlsValid && 0 < h.tlsDays <= 14, Verdict("warning", "service", "tls_expiring", key), v);
  }

  lemma RulesHas(i: Inputs, l: Lists, v: Verdict)
    ensures var s := Summarized(i.gateway, l.internet, l.dns, l.http);
      v in NetworkVerdicts(s) + Flat(s.services, ServiceVerdicts) <==> RuleCaused(i, l, v)
  {
    hide Summarized, NetworkVerdicts, ServiceVerdicts, ServiceCaused, GatewayUnstable, Unreachable, UpstreamLoss,
      DnsLocal, DnsOutage, GatewayBad, LossBeyond, NoneReachable, SystemFails, PublicFine, PublicFails, Flat;
    var s := Summarized(i.gateway, l.internet, l.dns, l.http);
    FirstMeans(i, l);
    NetworkHas(s, v);
    if v in Flat(s.services, ServiceVerdicts) {
      FlatFrom(s.services, ServiceVerdicts, v);
    }
    forall h | h in l.http ensures v in ServiceVerdicts(h) <==> ServiceCaused(h, v) {
      ServiceHas(h, v);
    }
    if h :| h in l.http && ServiceCaused(h, v) {
      FlatHas(s.services, ServiceVerdicts, h, v);
    }
  }

  lemma LevelHas(value: real, warning: real, critical: real, category: string, code: string, subject: string,
                 v: Verdict)
    ensures v in Level(value, warning, critical, category, code, subject) <==>
            v == Verdict(v.severity, category, code, subject) && Reaches(value, warning, critical, v.severity)
  {
  }

  lemma PingHas(i: Inputs, p: Ping, v: Verdict)
    ensures v in PingChecks(i.thresholds, PingSamples(i.pings), i.now, p) <==> PingCaused(i, p, v)
  {
    hide LimitsFor, AboveBaseline, Level, PingSamples, Reaches, When;
    var k, key := LimitsFor(i.thresholds, [p.name, p.host]), PingKey(p);
    LevelHas(p.loss, k.lossWarning, k.lossCritical, "wan", "ping_threshold", key, v);
    LevelHas(p.latency, k.latencyWarning, k.latencyCritical, "wan", "ping_threshold", key, v);
    WhenHas(AboveBaseline(PingSample(p), PingSamples(i.pings), k.latencyRelative, k.latencyDays as int, i.now),
            Verdict("warning", "wan", "ping_threshold", key), v);
  }

  lemma LookupHas(i: Inputs, d: Dns, v: Verdict)
    ensures v in DnsChecks(i.thresholds, d) <==> LookupCaused(i, d, v)
  {
    hide LimitsFor, Level, Reaches;
    var k := LimitsFor(i.thresholds, [DnsKey(d), d.resolver, d.address, d.domain]);
    LevelHas(d.duration, k.dnsWarning, k.dnsCritical, "dns", "dns_threshold", DnsKey(d), v);
  }

  lemma LevelNone(value: real, warning: real, critical: real, category: string, code: string, subject: string)
    ensures Level(value, warning, critical, category, code, subject) == [] <==>
            !AtLimit(value, warning) && !AtLimit(value, critical)
  {
  }

  lemma RequestHas(i: Inputs, h: Http, v: Verdict)
    ensures v in HttpChecks(i.thresholds, HttpSamples(i.requests), i.now, h) <==> RequestCaused(i, h, v)
  {
    hide LimitsFor, AboveBaseline, Level, HttpSamples, Reaches, AtLimit, When;
    var k, key := LimitsFor(i.thresholds, [h.name, h.url]), HttpKey(h);
    LevelHas(h.duration, k.httpWarning, k.httpCritical, "service", "http_threshold", key, v);
    LevelNone(h.duration, k.httpWarning, k.httpCritical, "service", "http_threshold", key);
    WhenHas(AboveBaseline(HttpSample(h), HttpSamples(i.requests), k.httpRelative, k.httpDays as int, i.now),
            Verdict("warning", "service", "http_threshold", key), v);
    WhenHas(k.tlsWarningDays as int > 0 && h.tlsDays <= k.tlsWarningDays as int,
            Verdict("warning", "service", "tls_expiry_threshold", key), v);
    ReachesNone(h.duration, k.httpWarning, k.httpCritical);
  }

  lemma ReachesNone(value: real, warning: real, critical: real)
    ensures !AtLimit(value, warning) && !AtLimit(value, critical) ==>
              forall s :: !Reaches(value, warning, critical, s)
  {
  }

  lemma LimitsHave(i: Inputs, l: Lists, v: Verdict)
    ensures v in ThresholdsOf(i, l) <==> LimitCaused(i, l, v)
  {
    hide PingChecks, DnsChecks, HttpChecks, PingSamples, HttpSamples, PingCaused, LookupCaused, RequestCaused, Flat;
    var f := (p: Ping) => PingChecks(i.thresholds, PingSamples(i.pings), i.now, p);
    var g := (d: Dns) => DnsChecks(i.thresholds, d);
    var e := (h: Http) => HttpChecks(i.thresholds, HttpSamples(i.requests), i.now, h);
    FlatIs(l.pings, f, v);
    FlatIs(l.lookups, g, v);
    FlatIs(l.requests, e, v);
    forall p | p in l.pings ensures v in f(p) <==> PingCaused(i, p, v) {
      PingHas(i, p, v);
    }
    forall d | d in l.lookups ensures v in g(d) <==> LookupCaused(i, d, v) {
      LookupHas(i, d, v);
    }
    forall h | h in l.requests ensures v in e(h) <==> RequestCaused(i, h, v) {
      RequestHas(i, h, v);
    }
    assert ThresholdsOf(i, l) == Flat(l.pings, f) + Flat(l.lookups, g) + Flat(l.requests, e);
  }

  lemma FlatIs<T>(s: seq<T>, f: T -> seq<Verdict>, v: Verdict)
    ensures v in Flat(s, f) <==> exists x :: x in s && v in f(x)
  {
    if v in Flat(s, f) {
      FlatFrom(s, f, v);
    }
    if x: T :| x in s && v in f(x) {
      FlatHas(s, f, x, v);
    }
  }

  lemma AdvancedHave(i: Inputs, l: Lists, v: Verdict)
    ensures v in AdvancedOf(i, l) <==> AdvancedCaused(i, l, v)
  {
    hide Flat;
    FlatIs(l.advanced, (a: Advanced) => AdvancedChecks(i.active, a), v);
  }

  /** How the three later stages put their verdicts behind those before. */
  lemma StagesHave(first: Health, newDevices: nat, missingDevices: nat, x: seq<Verdict>, y: seq<Verdict>, v: Verdict)
    requires forall u :: u in x ==> u.code != "healthy"
    ensures var last := WithAdvanced(WithThresholds(WithInventory(first, newDevices, missingDevices), x), y).verdicts;
      v in last <==>
      || (v in first.verdicts
          && (v.code != "healthy" || (newDevices == 0 && missingDevices == 0 && x == [] && y == [])))
      || (newDevices > 0 && v == NEW_DEVICE) || (missingDevices > 0 && v == MISSING_DEVICE) || v in x || v in y
  {
    hide Raised, InventoryScore, Quotient5, HasSeverity, NotHealthy;
    var second := WithInventory(first, newDevices, missingDevices);
    var third := WithThresholds(second, x);
    NotHealthyIs(first.verdicts);
    NotHealthyIs(second.verdicts);
    NotHealthyIs(third.verdicts);
    WhenHas(newDevices > 0, NEW_DEVICE, v);
    WhenHas(missingDevices > 0, MISSING_DEVICE, v);
  }

  lemma CodesNamed(i: Inputs, l: Lists, v: Verdict)
    requires RuleCaused(i, l, v) || LimitCaused(i, l, v)
    ensures v.code != "healthy" && v != HEALTHY
  {
    hide GatewayBad, LossBeyond, NoneReachable, SystemFails, PublicFine, PublicFails, LimitsFor, Reaches, AboveBaseline,
      PingSamples, HttpSamples;
  }

  lemma FirstHas(i: Inputs, l: Lists, v: Verdict)
    ensures v in First(i, l).verdicts <==>
            RuleCaused(i, l, v) || (v == HEALTHY && forall u :: !RuleCaused(i, l, u))
  {
    hide Summarized, NetworkVerdicts, ServiceVerdicts, RuleCaused, WanScore, DnsScore, GatewayScore, ServiceScore,
      Average, Worst, Flat;
    var s := Summarized(i.gateway, l.internet, l.dns, l.http);
    var found := NetworkVerdicts(s) + Flat(s.services, ServiceVerdicts);
    forall u ensures u in found <==> RuleCaused(i, l, u) {
      RulesHas(i, l, u);
    }
    if found != [] {
      assert found[0] in found;
    }
  }

  /** The final record holds exactly the verdicts the measurements call for, and the healthy one when they
      call for none. */
  lemma VerdictsExactly(i: Inputs, l: Lists, v: Verdict)
    ensures v in HealthOf(i, l).verdicts <==>
            Caused(i, l, v)
            || (v == Verdict("info", "overall", "healthy", "") && forall u :: !Caused(i, l, u))
  {
    hide Evaluated, Summarized, WithInventory, WithThresholds, WithAdvanced, ThresholdAdditions, AdvancedAdditions,
      RuleCaused, LimitCaused, AdvancedCaused, ThresholdsOf, AdvancedOf;
    var x, y := ThresholdsOf(i, l), AdvancedOf(i, l);
    forall u ensures u in x <==> LimitCaused(i, l, u) {
      LimitsHave(i, l, u);
    }
    forall u ensures u in y <==> AdvancedCaused(i, l, u) {
      AdvancedHave(i, l, u);
    }
    forall u ensures u in First(i, l).verdicts <==>
        RuleCaused(i, l, u) || (u == HEALTHY && forall w :: !RuleCaused(i, l, w))
    {
      FirstHas(i, l, u);
    }
    forall u ensures RuleCaused(i, l, u) || LimitCaused(i, l, u) ==> u.code != "healthy" && u != HEALTHY {
      if RuleCaused(i, l, u) || LimitCaused(i, l, u) {
        CodesNamed(i, l, u);
      }
    }
    StagesHave(First(i, l), i.newDevices, i.missingDevices, x, y, v);
    NothingCaused(i, l, x, y);
  }

  /** Nothing is called for exactly when no stage adds anything. */
  lemma NothingCaused(i: Inputs, l: Lists, x: seq<Verdict>, y: seq<Verdict>)
    requires forall u :: u in x <==> LimitCaused(i, l, u)
    requires forall u :: u in y <==> AdvancedCaused(i, l, u)
    ensures (forall u :: !Caused(i, l, u)) <==>
            (forall u :: !RuleCaused(i, l, u)) && i.newDevices == 0 && i.missingDevices == 0 && x == [] && y == []
  {
    hide RuleCaused, LimitCaused, AdvancedCaused;
    if x != [] {
      assert x[0] in x && Caused(i, l, x[0]);
    }
    if y != [] {
      assert y[0] in y && Caused(i, l, y[0]);
    }
    if i.newDevices > 0 {
      assert InventoryCaused(i, NEW_DEVICE) && Caused(i, l, NEW_DEVICE);
    }
    if i.missingDevices > 0 {
      assert InventoryCaused(i, MISSING_DEVICE) && Caused(i, l, MISSING_DEVICE);
    }
    if u :| RuleCaused(i, l, u) {
      assert Caused(i, l, u);
    }
  }
}
