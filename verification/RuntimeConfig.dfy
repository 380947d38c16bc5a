/** The runtime configuration: validated over the built-in defaults, applied over the YAML
    file, and changed through two PUT endpoints. */
module RuntimeConfig {
  import opened CleanList
  import opened Wrappers
  import TextLayout

  type Int64 = x: int | -0x8000_0000_0000_0000 <= x < 0x8000_0000_0000_0000

  /** Go's wrap-around for a 64-bit product. */
  function Wrap(x: int): Int64 {
    var m := x % 0x1_0000_0000_0000_0000;
    if m < 0x8000_0000_0000_0000 then m else m - 0x1_0000_0000_0000_0000
  }

  const SECOND: int := 1_000_000_000

  datatype Interval = Interval(seconds: Int64, minutes: Int64, hours: Int64, timeoutSeconds: Int64) {
    function Duration(): Int64 {
      if seconds > 0 then Wrap(seconds * SECOND)
      else if minutes > 0 then Wrap(minutes * 60 * SECOND)
      else if hours > 0 then Wrap(hours * 3600 * SECOND)
      else 0
    }
  }

  datatype Tests = Tests(ping: Interval, dns: Interval, http: Interval, discovery: Interval,
                         speedtest: Interval, advanced: Interval, tlsDetails: Interval)

  datatype Gateway = Gateway(enabled: bool, address: string)
  datatype Host = Host(name: string, host: string)
  datatype Web = Web(name: string, url: string, expectedStatus: Int64, expectedText: string)
  datatype Resolver = Resolver(name: string, address: string)
  datatype Dns = Dns(domains: seq<string>, resolvers: seq<Resolver>)
  datatype Speedtest = Speedtest(enabled: bool, name: string, downloadUrl: string, uploadUrl: string,
                                 downloadBytes: Int64, uploadBytes: Int64)
  datatype Tcp = Tcp(name: string, host: string, port: Int64)
  datatype PortScan = PortScan(enabled: bool, ports: seq<Int64>, limit: Int64)
  datatype Expectation = Expectation(name: string, resolverName: string, resolverAddress: string,
                                     domain: string, recordType: string, expected: seq<string>)
  datatype Advanced = Advanced(tcp: seq<Tcp>, publicIp: bool, gatewayIdentity: bool,
                               networkEnv: bool, probeHealth: bool,
                               tlsDetails: bool, trace: seq<Host>, ntp: seq<Host>, portScan: PortScan,
                               dnsExpectations: seq<Expectation>)
  datatype Targets = Targets(gateway: Gateway, internet: seq<Host>, http: seq<Web>, dns: Dns, speedtest: Speedtest,
                             cidrs: seq<string>, advanced: Advanced)
  datatype Limits = Limits(lossWarning: real, lossCritical: real, latencyWarning: real, latencyCritical: real,
                           latencyRelative: real, latencyDays: Int64, dnsWarning: real, dnsCritical: real,
                           httpWarning: real, httpCritical: real, httpRelative: real, httpDays: Int64,
                           tlsWarningDays: Int64, tlsCriticalDays: Int64, downloadWarning: real, uploadWarning: real,
                           speedRelative: real)
  datatype Thresholds = Thresholds(global: Limits, perTarget: map<string, Limits>)
  datatype Reports = Reports(path: string, retentionDays: Int64, alertDays: Int64)

  /** What the endpoints read and write. */
  datatype Runtime = Runtime(targets: Targets, thresholds: Thresholds, reports: Reports, tests: Tests)

  datatype Security = Security(readToken: string, adminToken: string, protectMetrics: bool, allowPublicReads: bool)

  datatype Config = Config(siteId: string, bindAddress: string, port: Int64, storagePath: string,
                           security: Security, runtime: Runtime)

  const NO_LIMITS: Limits := Limits(0.0, 0.0, 0.0, 0.0, 0.0, 0, 0.0, 0.0, 0.0, 0.0, 0.0, 0, 0, 0, 0.0, 0.0, 0.0)

  function Default(): Config {
    Config("default-site", "0.0.0.0", 8080, "/var/lib/infracheck/infracheck.db", Security("", "", false, true),
      Runtime(
        Targets(Gateway(true, "auto"),
                [Host("Cloudflare DNS", "1.1.1.1"), Host("Google DNS", "8.8.8.8")],
                [Web("Google", "https://www.google.com", 0, ""), Web("Microsoft", "https://www.microsoft.com", 0, "")],
                Dns(["google.com", "cloudflare.com", "microsoft.com"],
                    [Resolver("system", "auto"), Resolver("cloudflare", "1.1.1.1"), Resolver("google", "8.8.8.8")]),
                Speedtest(true, "Cloudflare Speed", "https://speed.cloudflare.com/__down?bytes=25000000",
                          "https://speed.cloudflare.com/__up", 25_000_000, 5_000_000),
                [],
                Advanced([], false, true, true, true, true, [], [],
                         PortScan(false, [22, 80, 443, 445, 3389, 8080, 8443], 32), [])),
        Thresholds(Limits(2.0, 10.0, 150.0, 400.0, 200.0, 7, 750.0, 2000.0,
                          2500.0, 8000.0, 400.0, 7, 30, 7, 0.0, 0.0, 50.0), map[]),
        Reports("/var/lib/infracheck/reports", 30, 90),
        Tests(Interval(30, 0, 0, 3), Interval(60, 0, 0, 3), Interval(60, 0, 0, 5), Interval(0, 15, 0, 30),
              Interval(0, 0, 6, 120), Interval(0, 5, 0, 90), Interval(0, 0, 24, 20))))
  }

  // ---- validation: the first complaint, or none ----

  function Or(first: Option<string>, second: Option<string>): Option<string> {
    if first.Some? then first else second
  }

  function Complain(bad: bool, message: string): Option<string> {
    if bad then Some(message) else None
  }

  function CheckInterval(i: Interval, name: string): Option<string> {
    Or(Complain(i.timeoutSeconds <= 0, name + ".timeout_seconds must be positive"),
       Complain(i.Duration() <= 0, name + " interval must be positive"))
  }

  /** The discovery interval is not checked. */
  function CheckTests(t: Tests): Option<string> {
    Or(CheckInterval(t.ping, "tests.ping"),
    Or(CheckInterval(t.dns, "tests.dns"), Or(CheckInterval(t.http, "tests.http"),
    Or(CheckInterval(t.speedtest, "tests.speedtest"), Or(CheckInterval(t.advanced, "tests.advanced"),
       CheckInterval(t.tlsDetails, "tests.tls_details"))))))
  }

  function CheckReports(r: Reports): Option<string> {
    Or(Complain(r.path == "", "reports.path is required"),
    Or(Complain(r.retentionDays < 0, "reports.retention_days must be zero or greater"),
       Complain(r.alertDays < 0, "reports.alert_history_retention_days must be zero or greater")))
  }

  function CheckSpeedtest(s: Speedtest): Option<string> {
    if !s.enabled then None else
    Or(Complain(s.name == "" || s.downloadUrl == "", "enabled speedtest requires name and download_url"),
    Or(Complain(s.downloadBytes <= 0, "enabled speedtest requires positive download_bytes"),
       Complain(s.uploadUrl != "" && s.uploadBytes <= 0,
           "enabled speedtest upload_url requires positive upload_bytes")))
  }

  function CheckDns(d: Dns): Option<string> {
    Or(Complain("" in d.domains, "dns domains cannot be empty"),
       Complain(exists r :: r in d.resolvers && (r.name == "" || r.address == ""),
                "dns resolvers require name and address"))
  }

  function CheckTargets(t: Targets, parses: string -> bool): Option<string> {
    Or(Complain(exists h :: h in t.internet && (h.name == "" || h.host == ""),
                "internet targets require name and host"),
    Or(Complain(exists w :: w in t.http && (w.name == "" || w.url == ""), "http targets require name and url"),
    Or(Complain(exists c :: c in t.advanced.tcp && (c.name == "" || c.host == "" || c.port <= 0 || c.port > 65535),
                "tcp targets require name, host, and valid port"),
    Or(CheckDns(t.dns),
    Or(CheckSpeedtest(t.speedtest),
       Complain(exists c :: c in t.cidrs && !parses(c), "targets.discovery.cidrs contains invalid CIDR"))))))
  }

  function CheckHost(c: Config): Option<string> {
    Or(Complain(c.siteId == "", "site.id is required"),
    Or(Complain(c.bindAddress == "", "agent.bind_address is required"),
    Or(Complain(c.port <= 0 || c.port > 65535, "agent.port must be between 1 and 65535"),
       Complain(c.storagePath == "", "storage.path is required"))))
  }

  function CheckSecurity(s: Security): Option<string> {
    var noToken := s.readToken == "" && s.adminToken == "";
    Or(Complain(s.protectMetrics && noToken,
        "security.protect_metrics requires security.read_token or security.admin_token"),
       Complain(!s.allowPublicReads && noToken,
           "private read endpoints require security.read_token or security.admin_token"))
  }

  /** Config.Validate; parses is net.ParseCIDR's verdict. */
  function Validate(c: Config, parses: string -> bool): Option<string> {
    Or(CheckHost(c), Or(CheckReports(c.runtime.reports), Or(CheckSecurity(c.security),
    Or(CheckTests(c.runtime.tests), CheckTargets(c.runtime.targets, parses)))))
  }

  /** No complaint means every part is in order. */
  lemma ValidateParts(c: Config, parses: string -> bool)
    ensures Validate(c, parses).None? <==>
      CheckHost(c).None? && CheckReports(c.runtime.reports).None? && CheckSecurity(c.security).None?
      && CheckTests(c.runtime.tests).None? && CheckTargets(c.runtime.targets, parses).None?
  {
    hide CheckHost, CheckReports, CheckSecurity, CheckTests, CheckTargets;
  }

  ghost predicate ListsOk(t: Targets) {
    && (forall h :: h in t.internet ==> h.name != "" && h.host != "")
    && (forall w :: w in t.http ==> w.name != "" && w.url != "")
    && (forall c :: c in t.advanced.tcp ==> c.name != "" && c.host != "" && 0 < c.port <= 65535)
  }

  lemma TargetsParts(t: Targets, parses: string -> bool)
    ensures CheckTargets(t, parses).None? <==>
      ListsOk(t) && CheckDns(t.dns).None? && CheckSpeedtest(t.speedtest).None? && forall c :: c in t.cidrs ==> parses(c)
  {
    hide CheckDns, CheckSpeedtest;
  }

  // ---- overlay ----

  function Over(base: Interval, override: Interval): Interval {
    if override.Duration() > 0 then override else base
  }

  function MergeTests(base: Tests, override: Tests): Tests {
    Tests(Over(base.ping, override.ping), Over(base.dns, override.dns), Over(base.http, override.http),
          Over(base.discovery, override.discovery), Over(base.speedtest, override.speedtest),
          Over(base.advanced, override.advanced), Over(base.tlsDetails, override.tlsDetails))
  }

  predicate TestsEmpty(t: Tests) {
    t.ping.Duration() == 0 && t.dns.Duration() == 0 && t.http.Duration() == 0 && t.discovery.Duration() == 0
    && t.speedtest.Duration() == 0 && t.advanced.Duration() == 0 && t.tlsDetails.Duration() == 0
  }

  predicate ReportsEmpty(r: Reports) {
    r == Reports("", 0, 0)
  }

  /** Port-scan ports and limit do not count. */
  predicate AdvancedEmpty(a: Advanced) {
    a.tcp == [] && !a.publicIp && !a.gatewayIdentity && !a.networkEnv && !a.probeHealth && !a.tlsDetails
    && a.trace == [] && a.ntp == [] && !a.portScan.enabled && a.dnsExpectations == []
  }

  predicate LooksEmpty(r: Runtime) {
    r.targets.gateway.address == "" && r.targets.internet == [] && r.targets.http == []
    && r.targets.dns.domains == [] && r.targets.dns.resolvers == [] && r.targets.speedtest.name == ""
    && r.targets.cidrs == [] && AdvancedEmpty(r.targets.advanced) && ReportsEmpty(r.reports) && TestsEmpty(r.tests)
  }

  /** The configuration a request is checked as: the request over the built-in defaults. */
  function AsConfig(r: Runtime): Config {
    var d := Default();
    var reports := if r.reports.path == "" then r.reports.(path := d.runtime.reports.path) else r.reports;
    d.(runtime := Runtime(r.targets, r.thresholds, reports, MergeTests(d.runtime.tests, r.tests)))
  }

  function ValidateRequest(r: Runtime, parses: string -> bool): Option<string> {
    Validate(AsConfig(r), parses)
  }

  function OverlayTargets(base: Targets, over: Targets): Targets {
    Targets(if over.gateway.address != "" then over.gateway else base.gateway,
            if over.internet != [] then over.internet else base.internet,
            if over.http != [] then over.http else base.http,
            if over.dns.domains != [] || over.dns.resolvers != [] then over.dns else base.dns,
            if over.speedtest.name != "" then over.speedtest else base.speedtest,
            if over.cidrs != [] then over.cidrs else base.cidrs,
            if !AdvancedEmpty(over.advanced) then over.advanced else base.advanced)
  }

  /** A stored request over the YAML configuration. Reading a stored request always yields a
      per-target map, so it always replaces the YAML one. */
  function Overlay(base: Runtime, over: Runtime): Runtime {
    Runtime(OverlayTargets(base.targets, over.targets),
            Thresholds(if over.thresholds.global != NO_LIMITS then over.thresholds.global else base.thresholds.global,
                       over.thresholds.perTarget),
            if ReportsEmpty(over.reports) then base.reports
            else if over.reports.path == "" then over.reports.(path := base.reports.path) else over.reports,
            if TestsEmpty(over.tests) then base.tests else MergeTests(base.tests, over.tests))
  }

  /** The two database settings. */
  datatype Settings = Settings(runtime: Option<Runtime>, cidrs: Option<seq<string>>)

  /** normalizeCIDRs. */
  method NormalizeCidrs(input: seq<string>) returns (out: seq<string>)
    ensures out == Cleaned(input)
  {
    out := [];
    var seen: set<string> := {};
    for i := 0 to |input|
      invariant out == Cleaned(input[..i]) && (forall v :: v in seen <==> v in out)
    {
      assert input[..i + 1][..i] == input[..i];
      var value := TextLayout.TrimSpace(input[i]);
      if value == "" || value in seen {
        continue;
      }
      seen := seen + {value};
      out := out + [value];
    }
    assert input[..|input|] == input;
  }

  function Effective(yaml: Runtime, s: Settings): Runtime {
    if s.runtime.Some? then Overlay(yaml, s.runtime.value)
    else if s.cidrs.Some? then yaml.(targets := yaml.targets.(cidrs := Cleaned(s.cidrs.value)))
    else yaml
  }

  /** A PUT body as the decoder sees it: as a request, and as a wrapped response. */
  datatype Body = Body(direct: Option<Runtime>, wrapped: Option<(Runtime, Runtime)>)

  /** The request a body means: an empty one may be wrapped in a former response. */
  function Meant(b: Body): Option<Runtime> {
    if b.direct.None? then None
    else if !LooksEmpty(b.direct.value) || b.wrapped.None? then b.direct
    else if !LooksEmpty(b.wrapped.value.0) then Some(b.wrapped.value.0)
    else if !LooksEmpty(b.wrapped.value.1) then Some(b.wrapped.value.1)
    else b.direct
  }

  datatype Put = PutRuntime(body: Body) | PutDiscovery(cidrs: Option<seq<string>>)

  function WithCidrs(r: Runtime, cidrs: seq<string>): Runtime {
    r.(targets := r.targets.(cidrs := cidrs))
  }

  function Accepted(p: Put, parses: string -> bool): bool {
    match p
    case PutRuntime(body) =>
      Meant(body).Some? &&
      ValidateRequest(WithCidrs(Meant(body).value, Cleaned(Meant(body).value.targets.cidrs)), parses).None?
    case PutDiscovery(cidrs) => cidrs.Some? && forall c :: c in Cleaned(cidrs.value) ==> parses(c)
  }

  function Apply(s: Settings, p: Put, parses: string -> bool): Settings {
    hide ValidateRequest, LooksEmpty, Cleaned;
    if !Accepted(p, parses) then s else
    match p
    case PutRuntime(body) =>
      var cidrs := Cleaned(Meant(body).value.targets.cidrs);
      Settings(Some(WithCidrs(Meant(body).value, cidrs)), Some(cidrs))
    case PutDiscovery(cidrs) =>
      var clean := Cleaned(cidrs.value);
      Settings(if s.runtime.Some? then Some(WithCidrs(s.runtime.value, clean)) else None, Some(clean))
  }

  class Api {
    const yaml: Config
    const parses: string -> bool
    var runtime: Option<Runtime>
    var cidrs: Option<seq<string>>

    function State(): Settings
      reads this
    {
      Settings(runtime, cidrs)
    }

    constructor (yaml: Config, parses: string -> bool)
      ensures this.yaml == yaml && this.parses == parses && State() == Settings(None, None)
    {
      this.yaml, this.parses := yaml, parses;
      runtime, cidrs := None, None;
    }

    method UpdateDiscoveryConfig(request: Option<seq<string>>) returns (ok: bool)
      modifies this
      ensures State() == Apply(old(State()), PutDiscovery(request), parses)
      ensures ok == Accepted(PutDiscovery(request), parses)
    {
      hide ValidateRequest, LooksEmpty, Cleaned, Meant;
      if request.None? {
        return false;
      }
      var clean := NormalizeCidrs(request.value);
      for i := 0 to |clean|
        invariant State() == old(State()) && forall k :: 0 <= k < i ==> parses(clean[k])
      {
        if !parses(clean[i]) {
          assert clean[i] in clean;
          return false;
        }
      }
      cidrs := Some(clean);
      if runtime.Some? {
        runtime := Some(WithCidrs(runtime.value, clean));
      }
      return true;
    }

    method UpdateRuntimeConfig(body: Body) returns (ok: bool)
      modifies this
      ensures State() == Apply(old(State()), PutRuntime(body), parses)
      ensures ok == Accepted(PutRuntime(body), parses)
    {
      hide ValidateRequest, LooksEmpty, Cleaned;
      if body.direct.None? {
        return false;
      }
      var req := body.direct.value;
      if LooksEmpty(req) && body.wrapped.Some? {
        if !LooksEmpty(body.wrapped.value.0) {
          req := body.wrapped.value.0;
        } else if !LooksEmpty(body.wrapped.value.1) {
          req := body.wrapped.value.1;
        }
      }
      var clean := NormalizeCidrs(req.targets.cidrs);
      req := WithCidrs(req, clean);
      if ValidateRequest(req, parses).Some? {
        return false;
      }
      runtime := Some(req);
      cidrs := Some(clean);
      return true;
    }
  }

  // ---- what holds over all sequences of requests ----

  function ApplyAll(s: Settings, puts: seq<Put>, parses: string -> bool): Settings {
    if puts == [] then s else Apply(ApplyAll(s, puts[..|puts| - 1], parses), puts[|puts| - 1], parses)
  }

  ghost predicate Good(s: Settings, parses: string -> bool) {
    && (s.runtime.Some? ==> ValidateRequest(s.runtime.value, parses).None?)
    && (s.cidrs.Some? ==> forall c :: c in Cleaned(s.cidrs.value) ==> parses(c))
  }

  lemma OtherCidrs(r: Runtime, cidrs: seq<string>, parses: string -> bool)
    requires ValidateRequest(r, parses).None? && forall c :: c in cidrs ==> parses(c)
    ensures ValidateRequest(WithCidrs(r, cidrs), parses).None?
  {
    hide Validate, CheckTargets, CheckTests, CheckDns, CheckSpeedtest, CheckSecurity, CheckReports, MergeTests,
      Default;
    var a, b := AsConfig(r), AsConfig(WithCidrs(r, cidrs));
    ValidateParts(a, parses);
    ValidateParts(b, parses);
    TargetsParts(a.runtime.targets, parses);
    TargetsParts(b.runtime.targets, parses);
  }

  lemma ApplyGood(s: Settings, p: Put, parses: string -> bool)
    requires Good(s, parses)
    ensures Good(Apply(s, p, parses), parses)
  {
    hide ValidateRequest, Meant, Cleaned;
    if Accepted(p, parses) {
      match p
      case PutRuntime(body) =>
        var r := WithCidrs(Meant(body).value, Cleaned(Meant(body).value.targets.cidrs));
        CleanedTwice(Meant(body).value.targets.cidrs);
        CidrsParse(r, parses);
      case PutDiscovery(cidrs) =>
        CleanedTwice(cidrs.value);
        if s.runtime.Some? {
          OtherCidrs(s.runtime.value, Cleaned(cidrs.value), parses);
        }
    }
  }

  lemma CidrsParse(r: Runtime, parses: string -> bool)
    requires ValidateRequest(r, parses).None?
    ensures forall c :: c in r.targets.cidrs ==> parses(c)
  {
    hide Validate, CheckTargets, CheckTests, CheckDns, CheckSpeedtest, CheckHost, CheckSecurity, CheckReports,
      MergeTests, Default;
    ValidateParts(AsConfig(r), parses);
    TargetsParts(r.targets, parses);
  }

  /** Accepted over the defaults means acceptable over any valid YAML configuration. */
  lemma OverlayValid(yaml: Config, r: Runtime, parses: string -> bool)
    requires Validate(yaml, parses).None? && ValidateRequest(r, parses).None?
    ensures Validate(yaml.(runtime := Overlay(yaml.runtime, r)), parses).None?
  {
    hide Validate, CheckTargets, CheckTests, MergeTests, CheckSecurity, Default, AdvancedEmpty, TestsEmpty,
      CheckSpeedtest, CheckDns;
    var both := yaml.(runtime := Overlay(yaml.runtime, r));
    ValidateParts(yaml, parses);
    ValidateParts(AsConfig(r), parses);
    ValidateParts(both, parses);
    TestsValid(yaml.runtime.tests, Default().runtime.tests, r.tests);
    TargetsParts(yaml.runtime.targets, parses);
    TargetsParts(r.targets, parses);
    TargetsParts(both.runtime.targets, parses);
  }

  lemma TestsValid(yaml: Tests, defaults: Tests, r: Tests)
    requires CheckTests(yaml).None? && CheckTests(MergeTests(defaults, r)).None?
    ensures CheckTests(MergeTests(yaml, r)).None?
  {
    hide Wrap;
  }

  /** From any valid YAML configuration, whatever requests arrive at the two endpoints in
      whatever order, the effective configuration is one Validate accepts. */
  lemma {:induction false} AlwaysValid(yaml: Config, puts: seq<Put>, parses: string -> bool)
    requires Validate(yaml, parses).None?
    ensures var s := ApplyAll(Settings(None, None), puts, parses);
            Good(s, parses) && Validate(yaml.(runtime := Effective(yaml.runtime, s)), parses).None?
  {
    hide Validate, ValidateRequest, Overlay, Apply, Cleaned;
    var s := ApplyAll(Settings(None, None), puts, parses);
    if puts != [] {
      AlwaysValid(yaml, puts[..|puts| - 1], parses);
      ApplyGood(ApplyAll(Settings(None, None), puts[..|puts| - 1], parses), puts[|puts| - 1], parses);
    }
    if s.runtime.Some? {
      OverlayValid(yaml, s.runtime.value, parses);
    } else if s.cidrs.Some? {
      YamlCidrs(yaml, Cleaned(s.cidrs.value), parses);
    } else {
      assert yaml.(runtime := yaml.runtime) == yaml;
    }
  }

  lemma YamlCidrs(yaml: Config, cidrs: seq<string>, parses: string -> bool)
    requires Validate(yaml, parses).None? && forall c :: c in cidrs ==> parses(c)
    ensures Validate(yaml.(runtime := WithCidrs(yaml.runtime, cidrs)), parses).None?
  {
    hide Validate, CheckTargets, CheckTests, CheckDns, CheckSpeedtest, CheckSecurity, CheckReports;
    var c := yaml.(runtime := WithCidrs(yaml.runtime, cidrs));
    ValidateParts(yaml, parses);
    ValidateParts(c, parses);
    TargetsParts(yaml.runtime.targets, parses);
    TargetsParts(c.runtime.targets, parses);
  }

  // ---- reading the effective configuration and writing it back ----

  /** The CIDR list after the effective configuration is put back: cleaned, and the YAML list
      again when there was none. */
  function CidrsPutBack(yaml: Runtime, effective: Runtime): seq<string> {
    if Cleaned(effective.targets.cidrs) != [] then Cleaned(effective.targets.cidrs) else yaml.targets.cidrs
  }

  /** The request checks succeed for an effective configuration. */
  lemma EffectiveAccepted(yaml: Config, e: Runtime, parses: string -> bool)
    requires Validate(yaml.(runtime := e), parses).None?
    requires forall c :: c in Cleaned(e.targets.cidrs) ==> parses(c)
    ensures !LooksEmpty(e) && Accepted(PutRuntime(Body(Some(e), None)), parses)
  {
    hide Validate, Cleaned, CheckTargets, CheckDns, CheckSpeedtest, AdvancedEmpty, CheckTests, MergeTests, Default,
      CheckReports, CheckHost, CheckSecurity, LooksEmpty, ValidateRequest;
    var clean := WithCidrs(e, Cleaned(e.targets.cidrs));
    ValidateParts(yaml.(runtime := e), parses);
    ValidNotEmpty(e);
    TargetsParts(e.targets, parses);
    TargetsParts(clean.targets, parses);
    RequestValid(clean, parses);
  }

  lemma ValidNotEmpty(r: Runtime)
    requires CheckReports(r.reports).None?
    ensures !LooksEmpty(r)
  {
  }

  /** A configuration whose parts are valid is a valid request. */
  lemma RequestValid(r: Runtime, parses: string -> bool)
    requires CheckTargets(r.targets, parses).None? && CheckTests(r.tests).None? && CheckReports(r.reports).None?
    ensures ValidateRequest(r, parses).None?
  {
    hide Validate, CheckTargets, CheckTests, MergeTests, CheckHost, CheckSecurity, Default;
    var c := AsConfig(r);
    DefaultOk(c.runtime);
    DefaultOpen();
    assert c == Default().(runtime := c.runtime);
    TestsMerge(Default().runtime.tests, r.tests);
    ValidateParts(c, parses);
  }

  lemma DefaultOk(r: Runtime)
    ensures CheckHost(Default().(runtime := r)).None?
  {
  }

  lemma DefaultOpen()
    ensures CheckSecurity(Default().security).None?
  {
  }

  lemma TestsMerge(defaults: Tests, t: Tests)
    requires CheckTests(t).None?
    ensures CheckTests(MergeTests(defaults, t)).None?
  {
    hide Wrap;
  }

  /** net.ParseCIDR takes no surrounding white space. */
  ghost predicate Strict(parses: string -> bool) {
    forall c :: parses(c) ==> TextLayout.TrimSpace(c) == c
  }

  lemma NormalizeParses(cidrs: seq<string>, parses: string -> bool)
    requires Strict(parses) && forall c :: c in cidrs ==> parses(c)
    ensures forall c :: c in Cleaned(cidrs) ==> parses(c)
  {
    forall c | c in Cleaned(cidrs) ensures parses(c) {
      var i :| 0 <= i < |cidrs| && c == TextLayout.TrimSpace(cidrs[i]);
      assert cidrs[i] in cidrs;
    }
  }

  /** Putting the effective configuration back is accepted and changes nothing but the CIDR
      list, and that exactly when the list was not clean or was emptied against a non-empty
      YAML list. */
  lemma PutBack(yaml: Config, puts: seq<Put>, parses: string -> bool)
    requires Validate(yaml, parses).None? && Strict(parses)
    ensures var s := ApplyAll(Settings(None, None), puts, parses);
            var e := Effective(yaml.runtime, s);
            var put := PutRuntime(Body(Some(e), None));
            var again := Effective(yaml.runtime, Apply(s, put, parses));
            && Accepted(put, parses)
            && again == WithCidrs(e, CidrsPutBack(yaml.runtime, e))
            && (again == e <==> CidrsPutBack(yaml.runtime, e) == e.targets.cidrs)
  {
    hide Cleaned, Wrap, Validate, ValidateRequest, CheckTargets, Overlay, ApplyAll, CheckTests, CheckReports,
      CheckHost, CheckSecurity, Default, ReportsEmpty, TestsEmpty, AdvancedEmpty, LooksEmpty, MergeTests;
    var s := ApplyAll(Settings(None, None), puts, parses);
    var e := Effective(yaml.runtime, s);
    AlwaysValid(yaml, puts, parses);
    ValidateParts(yaml.(runtime := e), parses);
    TargetsParts(e.targets, parses);
    NormalizeParses(e.targets.cidrs, parses);
    EffectiveAccepted(yaml, e, parses);
    NotEmpty(yaml, s, parses);
    OverlayAgain(yaml.runtime, e, s);
  }

  lemma NotEmpty(yaml: Config, s: Settings, parses: string -> bool)
    requires Validate(yaml, parses).None? && Good(s, parses)
    ensures var e := Effective(yaml.runtime, s);
            !ReportsEmpty(e.reports) && e.reports.path != "" && !TestsEmpty(e.tests) && !LooksEmpty(e)
  {
    hide Cleaned, Wrap, CheckTargets, CheckSecurity, CheckHost, ValidateRequest, OverlayTargets, AdvancedEmpty;
  }

  lemma OverlayAgain(yaml: Runtime, e: Runtime, s: Settings)
    requires e == Effective(yaml, s) && !ReportsEmpty(e.reports) && e.reports.path != "" && !TestsEmpty(e.tests)
    ensures Overlay(yaml, WithCidrs(e, Cleaned(e.targets.cidrs))) == WithCidrs(e, CidrsPutBack(yaml, e))
  {
    hide Cleaned, Wrap;
  }

  /** What an accepted discovery request does: the effective list becomes the requested one, cleaned,
      exactly when no runtime setting is stored, or that list is not empty, or the YAML list is.
      Otherwise the request is accepted and the YAML list stays in effect. */
  lemma DiscoveryTakesEffect(yaml: Runtime, s: Settings, cidrs: seq<string>, parses: string -> bool)
    requires Accepted(PutDiscovery(Some(cidrs)), parses)
    ensures var e := Effective(yaml, Apply(s, PutDiscovery(Some(cidrs)), parses)).targets.cidrs;
      && (e == Cleaned(cidrs) <==> s.runtime.None? || Cleaned(cidrs) != [] || yaml.targets.cidrs == [])
      && (e != Cleaned(cidrs) ==> e == yaml.targets.cidrs)
  {
    hide Validate, ValidateRequest, LooksEmpty, AdvancedEmpty, TestsEmpty, ReportsEmpty, MergeTests;
    CleanedTwice(cidrs);
  }

  /** An emptied list does not survive: after clearing the CIDRs and saving the configuration
      as read, the YAML list is back. */
  lemma ClearedCidrsReturn(yaml: Config, parses: string -> bool)
    requires Validate(yaml, parses).None? && yaml.runtime.targets.cidrs != []
    ensures var cleared := Apply(Settings(None, None), PutDiscovery(Some([])), parses);
            var e := Effective(yaml.runtime, cleared);
            e.targets.cidrs == [] && Accepted(PutRuntime(Body(Some(e), None)), parses)
            && Effective(yaml.runtime, Apply(cleared, PutRuntime(Body(Some(e), None)), parses)).targets.cidrs
               == yaml.runtime.targets.cidrs
  {
    hide Validate, ValidateRequest, Wrap, CheckTargets, CheckTests, CheckReports, Default, Cleaned, ReportsEmpty,
      TestsEmpty, AdvancedEmpty, LooksEmpty, Overlay, MergeTests, Accepted;
    var cleared := Apply(Settings(None, None), PutDiscovery(Some([])), parses);
    var e := WithCidrs(yaml.runtime, []);
    CleanedNothing(parses);
    YamlCidrs(yaml, [], parses);
    EffectiveAccepted(yaml, e, parses);
    NotEmpty(yaml, cleared, parses);
    OverlayAgain(yaml.runtime, e, cleared);
  }

  lemma CleanedNothing(parses: string -> bool)
    ensures Cleaned([]) == [] && Accepted(PutDiscovery(Some([])), parses)
  {
  }
}
