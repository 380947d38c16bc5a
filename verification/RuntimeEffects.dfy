/** What the two endpoints accept, and what an accepted request changes in the effective configuration,
    told group by group. */
module RuntimeEffects {
  import opened CleanList
  import opened RuntimeConfig
  import opened Wrappers

  // ---- intervals ----

  /** An interval lasts its seconds if it has any, else its minutes, else its hours, in nanoseconds and
      modulo 2^64; so it lasts exactly that long up to some 292 years. */
  lemma DurationMeans(i: Interval)
    ensures var unit := if i.seconds > 0 then 1_000_000_000
                        else if i.minutes > 0 then 60_000_000_000 else 3_600_000_000_000;
            var number: int := if i.seconds > 0 then i.seconds else if i.minutes > 0 then i.minutes else i.hours;
      && (number <= 0 ==> i.Duration() == 0)
      && (number > 0 ==> (number * unit - i.Duration() as int) % 0x1_0000_0000_0000_0000 == 0)
      && (0 < number * unit <= 0x7fff_ffff_ffff_ffff ==> i.Duration() == number * unit)
  {
    var number: int := if i.seconds > 0 then i.seconds else if i.minutes > 0 then i.minutes else i.hours;
    if i.seconds > 0 {
      WrapMeans(number * 1_000_000_000);
    } else if i.minutes > 0 {
      assert i.minutes * 60 * SECOND == number * 60_000_000_000;
      WrapMeans(number * 60_000_000_000);
    } else if i.hours > 0 {
      assert i.hours * 3600 * SECOND == number * 3_600_000_000_000;
      WrapMeans(number * 3_600_000_000_000);
    }
  }

  lemma WrapMeans(x: int)
    ensures (x - Wrap(x) as int) % 0x1_0000_0000_0000_0000 == 0
    ensures 0 <= x <= 0x7fff_ffff_ffff_ffff ==> Wrap(x) == x
  {
    var q, m := x / 0x1_0000_0000_0000_0000, x % 0x1_0000_0000_0000_0000;
    assert x == q * 0x1_0000_0000_0000_0000 + m;
    assert x - Wrap(x) as int == q * 0x1_0000_0000_0000_0000
           || x - Wrap(x) as int == (q + 1) * 0x1_0000_0000_0000_0000;
    Multiple(q);
    Multiple(q + 1);
  }

  lemma Multiple(q: int)
    ensures (q * 0x1_0000_0000_0000_0000) % 0x1_0000_0000_0000_0000 == 0
  {
  }

  // ---- what is accepted ----

  /** An interval that lasts needs a timeout; one that does not is replaced. */
  predicate TimedOut(i: Interval) {
    i.Duration() > 0 ==> i.timeoutSeconds > 0
  }

  ghost predicate TargetsAcceptable(t: Targets, parses: string -> bool) {
    && (forall h :: h in t.internet ==> h.name != "" && h.host != "")
    && (forall w :: w in t.http ==> w.name != "" && w.url != "")
    && (forall c :: c in t.advanced.tcp ==> c.name != "" && c.host != "" && 1 <= c.port <= 65535)
    && "" !in t.dns.domains && (forall r :: r in t.dns.resolvers ==> r.name != "" && r.address != "")
    && (t.speedtest.enabled ==>
          t.speedtest.name != "" && t.speedtest.downloadUrl != "" && t.speedtest.downloadBytes >= 1
          && (t.speedtest.uploadUrl == "" || t.speedtest.uploadBytes >= 1))
    && forall c :: c in t.cidrs ==> parses(c)
  }

  ghost predicate Acceptable(r: Runtime, parses: string -> bool) {
    && TargetsAcceptable(r.targets, parses) && r.reports.retentionDays >= 0 && r.reports.alertDays >= 0
    && TimedOut(r.tests.ping) && TimedOut(r.tests.dns) && TimedOut(r.tests.http) && TimedOut(r.tests.speedtest)
    && TimedOut(r.tests.advanced) && TimedOut(r.tests.tlsDetails)
  }

  lemma TargetsExactly(t: Targets, parses: string -> bool)
    ensures CheckTargets(t, parses).None? <==> TargetsAcceptable(t, parses)
  {
    TargetsParts(t, parses);
    hide CheckTargets;
  }

  lemma IntervalExactly(i: Interval, default: Interval, name: string)
    requires default.Duration() > 0 && default.timeoutSeconds > 0
    ensures CheckInterval(Over(default, i), name).None? <==> TimedOut(i)
  {
    hide Wrap;
  }

  lemma DefaultsLast()
    ensures var t := Default().runtime.tests;
      && t.ping.Duration() > 0 && t.dns.Duration() > 0 && t.http.Duration() > 0 && t.speedtest.Duration() > 0
      && t.advanced.Duration() > 0 && t.tlsDetails.Duration() > 0
      && t.ping.timeoutSeconds > 0 && t.dns.timeoutSeconds > 0 && t.http.timeoutSeconds > 0
      && t.speedtest.timeoutSeconds > 0 && t.advanced.timeoutSeconds > 0 && t.tlsDetails.timeoutSeconds > 0
  {
  }

  lemma TestsExactly(t: Tests)
    ensures CheckTests(MergeTests(Default().runtime.tests, t)).None? <==>
            TimedOut(t.ping) && TimedOut(t.dns) && TimedOut(t.http) && TimedOut(t.speedtest) && TimedOut(t.advanced)
            && TimedOut(t.tlsDetails)
  {
    hide CheckInterval, Over, TimedOut, Default;
    DefaultsLast();
    var d := Default().runtime.tests;
    IntervalExactly(t.ping, d.ping, "tests.ping");
    IntervalExactly(t.dns, d.dns, "tests.dns");
    IntervalExactly(t.http, d.http, "tests.http");
    IntervalExactly(t.speedtest, d.speedtest, "tests.speedtest");
    IntervalExactly(t.advanced, d.advanced, "tests.advanced");
    IntervalExactly(t.tlsDetails, d.tlsDetails, "tests.tls_details");
  }

  lemma RequestExactly(r: Runtime, parses: string -> bool)
    ensures ValidateRequest(r, parses).None? <==> Acceptable(r, parses)
  {
    hide Validate, CheckTargets, CheckTests, MergeTests, CheckHost, CheckSecurity, Default, TargetsAcceptable, TimedOut;
    var c := AsConfig(r);
    ValidateParts(c, parses);
    DefaultOk(c.runtime);
    DefaultOpen();
    DefaultPath();
    assert c == Default().(runtime := c.runtime);
    TargetsExactly(r.targets, parses);
    TestsExactly(r.tests);
  }

  lemma DefaultPath()
    ensures Default().runtime.reports.path != ""
  {
  }

  /** A request to the runtime endpoint is accepted exactly when its targets are complete and in range,
      its retention is not negative, each interval that lasts has a timeout, and its cleaned CIDRs parse.
      Limits, the discovery interval and what a disabled speed test says are not looked at. */
  lemma AcceptedExactly(body: Body, parses: string -> bool)
    ensures Accepted(PutRuntime(body), parses) <==>
            body.direct.Some?
            && var r := Meant(body).value; Acceptable(WithCidrs(r, Cleaned(r.targets.cidrs)), parses)
  {
    hide ValidateRequest, Acceptable, Cleaned, LooksEmpty;
    if body.direct.Some? {
      RequestExactly(WithCidrs(Meant(body).value, Cleaned(Meant(body).value.targets.cidrs)), parses);
    }
  }

  predicate Lasts(i: Interval) {
    i.Duration() > 0 && i.timeoutSeconds > 0
  }

  lemma CheckedExactly(t: Tests)
    ensures CheckTests(t).None? <==>
            Lasts(t.ping) && Lasts(t.dns) && Lasts(t.http) && Lasts(t.speedtest) && Lasts(t.advanced)
            && Lasts(t.tlsDetails)
  {
    hide Wrap;
  }

  lemma HostExactly(c: Config)
    ensures CheckHost(c).None? <==>
            c.siteId != "" && c.bindAddress != "" && 1 <= c.port <= 65535 && c.storagePath != ""
    ensures CheckSecurity(c.security).None? <==>
            (c.security.protectMetrics || !c.security.allowPublicReads ==>
               c.security.readToken != "" || c.security.adminToken != "")
  {
  }

  /** The YAML file is accepted exactly when it names a site, an address, a port and a storage path, its
      secrets fit what they protect, each checked interval lasts and has a timeout, and the rest is
      acceptable. */
  lemma ValidExactly(c: Config, parses: string -> bool)
    ensures var t := c.runtime.tests;
      Validate(c, parses).None? <==>
      && c.siteId != "" && c.bindAddress != "" && 1 <= c.port <= 65535 && c.storagePath != ""
      && c.runtime.reports.path != "" && c.runtime.reports.retentionDays >= 0 && c.runtime.reports.alertDays >= 0
      && (c.security.protectMetrics || !c.security.allowPublicReads ==>
            c.security.readToken != "" || c.security.adminToken != "")
      && Lasts(t.ping) && Lasts(t.dns) && Lasts(t.http) && Lasts(t.speedtest) && Lasts(t.advanced)
      && Lasts(t.tlsDetails)
      && TargetsAcceptable(c.runtime.targets, parses)
  {
    hide Validate, CheckTargets, CheckTests, CheckHost, CheckSecurity, TargetsAcceptable, Lasts;
    ValidateParts(c, parses);
    HostExactly(c);
    CheckedExactly(c.runtime.tests);
    TargetsExactly(c.runtime.targets, parses);
  }

  /** A request that names no target, report or interval. */
  predicate SaysNothing(r: Runtime) {
    var t, a := r.targets, r.targets.advanced;
    && t.gateway.address == "" && t.internet == [] && t.http == [] && t.dns.domains == [] && t.dns.resolvers == []
    && t.speedtest.name == "" && t.cidrs == []
    && a.tcp == [] && a.trace == [] && a.ntp == [] && a.dnsExpectations == [] && !a.publicIp && !a.gatewayIdentity
    && !a.networkEnv && !a.probeHealth && !a.tlsDetails && !a.portScan.enabled
    && r.reports.path == "" && r.reports.retentionDays == 0 && r.reports.alertDays == 0
    && r.tests.ping.Duration() == 0 && r.tests.dns.Duration() == 0 && r.tests.http.Duration() == 0
    && r.tests.discovery.Duration() == 0 && r.tests.speedtest.Duration() == 0 && r.tests.advanced.Duration() == 0
    && r.tests.tlsDetails.Duration() == 0
  }

  /** What a body means: itself, unless it says nothing and is a former response; then the effective
      configuration in it, or the YAML one if that says nothing either. */
  lemma MeantExactly(r: Runtime, effective: Runtime, yaml: Runtime)
    ensures Meant(Body(Some(r), None)) == Some(r) && forall w :: Meant(Body(None, w)) == None
    ensures !SaysNothing(r) ==> Meant(Body(Some(r), Some((effective, yaml)))) == Some(r)
    ensures SaysNothing(r) && !SaysNothing(effective) ==>
              Meant(Body(Some(r), Some((effective, yaml)))) == Some(effective)
    ensures SaysNothing(r) && SaysNothing(effective) && !SaysNothing(yaml) ==>
              Meant(Body(Some(r), Some((effective, yaml)))) == Some(yaml)
    ensures SaysNothing(r) && SaysNothing(effective) && SaysNothing(yaml) ==>
              Meant(Body(Some(r), Some((effective, yaml)))) == Some(r)
  {
    hide Wrap;
  }

  // ---- what takes effect ----

  /** Each group of targets is the requested one if it was given, else the YAML one. */
  ghost predicate TargetsTake(e: Targets, r: Targets, yaml: Targets, cidrs: seq<string>) {
    var a := r.advanced;
    && e.gateway == (if r.gateway.address != "" then r.gateway else yaml.gateway)
    && e.internet == (if r.internet != [] then r.internet else yaml.internet)
    && e.http == (if r.http != [] then r.http else yaml.http)
    && e.dns == (if r.dns.domains == [] && r.dns.resolvers == [] then yaml.dns else r.dns)
    && e.speedtest == (if r.speedtest.name != "" then r.speedtest else yaml.speedtest)
    && e.cidrs == (if cidrs != [] then cidrs else yaml.cidrs)
    && e.advanced == (if a.tcp != [] || a.trace != [] || a.ntp != [] || a.dnsExpectations != [] || a.publicIp
                         || a.gatewayIdentity || a.networkEnv || a.probeHealth || a.tlsDetails || a.portScan.enabled
                      then r.advanced else yaml.advanced)
  }

  predicate Takes(e: Interval, r: Interval, yaml: Interval) {
    e == if r.Duration() > 0 then r else yaml
  }

  ghost predicate TestsTake(e: Tests, r: Tests, yaml: Tests) {
    && Takes(e.ping, r.ping, yaml.ping) && Takes(e.dns, r.dns, yaml.dns) && Takes(e.http, r.http, yaml.http)
    && Takes(e.discovery, r.discovery, yaml.discovery) && Takes(e.speedtest, r.speedtest, yaml.speedtest)
    && Takes(e.advanced, r.advanced, yaml.advanced) && Takes(e.tlsDetails, r.tlsDetails, yaml.tlsDetails)
  }

  ghost predicate ReportsTake(e: Reports, r: Reports, yaml: Reports) {
    if r.path == "" && r.retentionDays == 0 && r.alertDays == 0 then e == yaml
    else e == Reports(if r.path != "" then r.path else yaml.path, r.retentionDays, r.alertDays)
  }

  /** No limit is set. */
  predicate NoLimit(l: Limits) {
    && l.lossWarning == 0.0 && l.lossCritical == 0.0 && l.latencyWarning == 0.0 && l.latencyCritical == 0.0
    && l.latencyRelative == 0.0 && l.latencyDays == 0 && l.dnsWarning == 0.0 && l.dnsCritical == 0.0
    && l.httpWarning == 0.0 && l.httpCritical == 0.0 && l.httpRelative == 0.0 && l.httpDays == 0
    && l.tlsWarningDays == 0 && l.tlsCriticalDays == 0 && l.downloadWarning == 0.0 && l.uploadWarning == 0.0
    && l.speedRelative == 0.0
  }

  /** An accepted request to the runtime endpoint takes effect group by group, whatever was stored before
      it: targets as given, with the CIDRs cleaned; global limits if any is set; the limits of single
      targets always; each interval that lasts; and reports with the YAML path where none is given. */
  lemma RuntimeTakesEffect(yaml: Runtime, s: Settings, body: Body, parses: string -> bool)
    requires Accepted(PutRuntime(body), parses)
    ensures var r := Meant(body).value;
            var e := Effective(yaml, Apply(s, PutRuntime(body), parses));
      && TargetsTake(e.targets, r.targets, yaml.targets, Cleaned(r.targets.cidrs))
      && e.thresholds.global == (if NoLimit(r.thresholds.global) then yaml.thresholds.global else r.thresholds.global)
      && e.thresholds.perTarget == r.thresholds.perTarget
      && TestsTake(e.tests, r.tests, yaml.tests)
      && ReportsTake(e.reports, r.reports, yaml.reports)
  {
    hide Accepted, Meant, Cleaned, Wrap;
  }

  /** An accepted request to the discovery endpoint changes nothing but the CIDRs. */
  lemma DiscoveryChangesOnly(yaml: Runtime, s: Settings, cidrs: Option<seq<string>>, parses: string -> bool)
    ensures WithCidrs(Effective(yaml, Apply(s, PutDiscovery(cidrs), parses)), []) == WithCidrs(Effective(yaml, s), [])
  {
    hide Cleaned, Wrap, AdvancedEmpty, TestsEmpty, MergeTests, ReportsEmpty;
  }

  /** What is in effect after any requests to the two endpoints is what the last accepted request to the
      runtime endpoint gave, the CIDRs apart, and the YAML configuration if there was none. */
  lemma {:induction false} LastTakesEffect(yaml: Runtime, puts: seq<Put>, parses: string -> bool)
    ensures var s := ApplyAll(Settings(None, None), puts, parses);
            var k := LastRuntime(puts, parses);
      && k <= |puts|
      && (k == 0 ==> WithCidrs(Effective(yaml, s), []) == WithCidrs(yaml, []))
      && (k > 0 ==>
            && puts[k - 1].PutRuntime? && Accepted(puts[k - 1], parses)
            && WithCidrs(Effective(yaml, s), []) ==
               WithCidrs(Effective(yaml, Apply(Settings(None, None), puts[k - 1], parses)), []))
  {
    hide Accepted, Overlay, Cleaned;
    if puts != [] {
      var front, last := puts[..|puts| - 1], puts[|puts| - 1];
      LastTakesEffect(yaml, front, parses);
      var s := ApplyAll(Settings(None, None), front, parses);
      if last.PutDiscovery? {
        DiscoveryChangesOnly(yaml, s, last.cidrs, parses);
      }
    }
  }

  /** The number of requests up to the last accepted one to the runtime endpoint. */
  function LastRuntime(puts: seq<Put>, parses: string -> bool): nat {
    if puts == [] then 0
    else if puts[|puts| - 1].PutRuntime? && Accepted(puts[|puts| - 1], parses) then |puts|
    else LastRuntime(puts[..|puts| - 1], parses)
  }
}
