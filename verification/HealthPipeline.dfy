/** Which measurements, device counts and advanced results decide the final status and the overall
    score, over all stages. */
module HealthPipeline {
  import opened Wrappers
  import opened Latest
  import opened Verdicts
  import opened HealthStages
  import opened HealthMeaning
  import opened HealthProof

  // ---- what is measured ----

  /** Less than num in den of all. */
  predicate RateBelow(part: nat, total: nat, num: nat, den: nat) {
    total > 0 && den * part < num * total
  }

  predicate GatewayBad(gateway: seq<Ping>) {
    gateway != [] && (!gateway[0].up || gateway[0].loss > 1.0 || gateway[0].latency > 20.0)
  }

  predicate NoneReachable(internet: seq<Ping>) {
    internet != [] && forall p :: p in internet ==> !p.up
  }

  predicate LossBeyond(gateway: seq<Ping>, internet: seq<Ping>) {
    gateway != [] && gateway[0].up && gateway[0].loss == 0.0 && exists p :: p in internet && p.loss > 3.0
  }

  predicate SystemFails(dns: seq<Dns>) {
    RateBelow(Count(dns, SystemWorks), Count(dns, IsSystem), 9, 10)
  }

  predicate PublicFails(dns: seq<Dns>) {
    RateBelow(Count(dns, PublicWorks), Count(dns, IsPublic), 9, 10)
  }

  predicate PublicFine(dns: seq<Dns>) {
    !RateBelow(Count(dns, PublicWorks), Count(dns, IsPublic), 19, 20)
  }

  /** Critical in the first stage. */
  predicate FirstCritical(i: Inputs, l: Lists) {
    GatewayBad(i.gateway) || NoneReachable(l.internet) || (SystemFails(l.dns) && PublicFails(l.dns))
    || exists h :: h in l.http && Expired(h)
  }

  /** Silent in the first stage. */
  predicate FirstQuiet(i: Inputs, l: Lists) {
    !GatewayBad(i.gateway) && !NoneReachable(l.internet) && !LossBeyond(i.gateway, l.internet)
    && !(SystemFails(l.dns) && (PublicFails(l.dns) || PublicFine(l.dns)))
    && forall h :: h in l.http ==> !Troubled(h)
  }

  predicate PingCritical(i: Inputs, p: Ping) {
    var k := LimitsFor(i.thresholds, [p.name, p.host]);
    !p.up || AtLimit(p.loss, k.lossCritical) || AtLimit(p.latency, k.latencyCritical)
  }

  predicate PingQuiet(i: Inputs, p: Ping) {
    var k := LimitsFor(i.thresholds, [p.name, p.host]);
    !PingCritical(i, p) && !AtLimit(p.loss, k.lossWarning) && !AtLimit(p.latency, k.latencyWarning)
    && !AboveBaseline(PingSample(p), PingSamples(i.pings), k.latencyRelative, k.latencyDays as int, i.now)
  }

  function DnsLimits(i: Inputs, d: Dns): Limits {
    LimitsFor(i.thresholds, [DnsKey(d), d.resolver, d.address, d.domain])
  }

  predicate LookupCritical(i: Inputs, d: Dns) {
    d.success && AtLimit(d.duration, DnsLimits(i, d).dnsCritical)
  }

  predicate LookupQuiet(i: Inputs, d: Dns) {
    d.success && !AtLimit(d.duration, DnsLimits(i, d).dnsCritical) && !AtLimit(d.duration, DnsLimits(i, d).dnsWarning)
  }

  predicate RequestCritical(i: Inputs, h: Http) {
    var k := LimitsFor(i.thresholds, [h.name, h.url]);
    AtLimit(h.duration, k.httpCritical) || Expires(h, k.tlsCriticalDays as int)
  }

  predicate RequestQuiet(i: Inputs, h: Http) {
    var k := LimitsFor(i.thresholds, [h.name, h.url]);
    !RequestCritical(i, h) && !AtLimit(h.duration, k.httpWarning) && !Expires(h, k.tlsWarningDays as int)
    && !AboveBaseline(HttpSample(h), HttpSamples(i.requests), k.httpRelative, k.httpDays as int, i.now)
  }

  predicate Alarming(i: Inputs, a: Advanced, severity: string) {
    (AdvancedKey(a) in i.active || a.checkType in i.active) && a.severity == severity
  }

  /** Critical in the threshold stage. */
  predicate LimitsCritical(i: Inputs, l: Lists) {
    (exists p :: p in l.pings && PingCritical(i, p)) || (exists d :: d in l.lookups && LookupCritical(i, d))
    || exists h :: h in l.requests && RequestCritical(i, h)
  }

  /** Silent in the threshold stage. */
  predicate LimitsQuiet(i: Inputs, l: Lists) {
    (forall p :: p in l.pings ==> PingQuiet(i, p)) && (forall d :: d in l.lookups ==> LookupQuiet(i, d))
    && forall h :: h in l.requests ==> RequestQuiet(i, h)
  }

  predicate AnyAlarm(i: Inputs, l: Lists, severity: string) {
    exists a :: a in l.advanced && Alarming(i, a, severity)
  }

  // ---- from verdicts back to measurements ----

  lemma {:induction false} FlatMeans<T>(s: seq<T>, f: T -> seq<Verdict>, severity: string)
    ensures HasSeverity(Flat(s, f), severity) <==> exists x :: x in s && HasSeverity(f(x), severity)
    ensures Flat(s, f) == [] <==> forall x :: x in s ==> f(x) == []
  {
    hide HasSeverity, Flat;
    if s == [] {
      NoFlat(f);
      NoSeverity(severity);
    } else {
      var front, last := s[..|s| - 1], s[|s| - 1];
      FlatMeans(front, f, severity);
      FlatNext(s, f);
      LastIn(s);
      SeverityAppend(Flat(front, f), f(last), severity);
    }
  }

  lemma NoFlat<T>(f: T -> seq<Verdict>)
    ensures Flat([], f) == []
  {
  }

  lemma FlatNext<T>(s: seq<T>, f: T -> seq<Verdict>)
    requires s != []
    ensures Flat(s, f) == Flat(s[..|s| - 1], f) + f(s[|s| - 1])
  {
  }

  lemma LastIn<T>(s: seq<T>)
    requires s != []
    ensures forall x :: x in s <==> x in s[..|s| - 1] || x == s[|s| - 1]
  {
    assert s == s[..|s| - 1] + [s[|s| - 1]];
  }

  lemma NoSeverity(severity: string)
    ensures !HasSeverity([], severity)
  {
  }

  lemma RateMeans(part: nat, total: nat)
    ensures Ratio(part, total) < 0.9 <==> RateBelow(part, total, 9, 10)
    ensures Ratio(part, total) < 0.95 <==> RateBelow(part, total, 19, 20)
  {
    if total > 0 {
      var r, t := part as real / total as real, total as real;
      assert r * t == part as real;
      SameSign(0.9 - r, t);
      SameSign(0.95 - r, t);
      assert (0.9 - r) * t == 0.9 * t - part as real && (0.95 - r) * t == 0.95 * t - part as real;
    }
  }

  lemma {:induction false} NoneUp(internet: seq<Ping>)
    ensures Count(internet, PingUp) == 0 <==> forall p :: p in internet ==> !p.up
  {
    if internet != [] {
      NoneUp(internet[..|internet| - 1]);
      assert internet == internet[..|internet| - 1] + [internet[|internet| - 1]];
    }
  }

  lemma {:induction false} NoLookups(dns: seq<Dns>)
    requires dns == []
    ensures Count(dns, IsSystem) == 0
  {
  }

  lemma RatioZero(part: nat, total: nat)
    requires total > 0
    ensures Ratio(part, total) == 0.0 <==> part == 0
  {
    var r := part as real / total as real;
    assert r * total as real == part as real;
  }

  lemma FirstMeans(i: Inputs, l: Lists)
    ensures var s := Summarized(i.gateway, l.internet, l.dns, l.http);
      && (GatewayUnstable(s) <==> GatewayBad(i.gateway)) && (Unreachable(s) <==> NoneReachable(l.internet))
      && (UpstreamLoss(s) <==> LossBeyond(i.gateway, l.internet))
      && (DnsOutage(s) <==> SystemFails(l.dns) && PublicFails(l.dns))
      && (DnsLocal(s) <==> SystemFails(l.dns) && PublicFine(l.dns)) && s.services == l.http
  {
    hide Count, Greatest, MinTls, Ratio;
    NoneUp(l.internet);
    if l.internet != [] {
      RatioZero(Count(l.internet, PingUp), |l.internet|);
    }
    GreatestIs(l.internet, PingLoss);
    if l.dns == [] {
      NoLookups(l.dns);
    }
    RateMeans(Count(l.dns, SystemWorks), Count(l.dns, IsSystem));
    RateMeans(Count(l.dns, PublicWorks), Count(l.dns, IsPublic));
    if Greatest(l.internet, PingLoss) > 3.0 {
      var p :| p in l.internet && PingLoss(p) == Greatest(l.internet, PingLoss);
    }
    assert forall p :: p in l.internet ==> PingLoss(p) <= Greatest(l.internet, PingLoss);
  }

  function First(i: Inputs, l: Lists): Health {
    Evaluated(Summarized(i.gateway, l.internet, l.dns, l.http))
  }

  lemma FirstStatus(i: Inputs, l: Lists)
    ensures First(i, l).status == "critical" <==> FirstCritical(i, l)
    ensures First(i, l).status == "healthy" <==> FirstQuiet(i, l)
  {
    hide Evaluated, Summarized, GatewayUnstable, Unreachable, UpstreamLoss, DnsOutage, DnsLocal, Expired, Troubled,
      GatewayBad, NoneReachable, LossBeyond, SystemFails, PublicFails, PublicFine;
    StatusMeans(Summarized(i.gateway, l.internet, l.dns, l.http));
    FirstMeans(i, l);
  }

  lemma PingsMean(i: Inputs, l: Lists)
    ensures var f := (p: Ping) => PingChecks(i.thresholds, PingSamples(i.pings), i.now, p);
      && (HasSeverity(Flat(l.pings, f), "critical") <==> exists p :: p in l.pings && PingCritical(i, p))
      && (Flat(l.pings, f) == [] <==> forall p :: p in l.pings ==> PingQuiet(i, p))
  {
    hide PingChecks, LimitsFor, AboveBaseline, AtLimit, PingSamples, HasSeverity;
    var f := (p: Ping) => PingChecks(i.thresholds, PingSamples(i.pings), i.now, p);
    FlatMeans(l.pings, f, "critical");
    forall p | p in l.pings
      ensures (HasSeverity(f(p), "critical") <==> PingCritical(i, p)) && (f(p) == [] <==> PingQuiet(i, p))
    {
      PingMeans(i.thresholds, PingSamples(i.pings), i.now, p);
    }
  }

  lemma LookupsMean(i: Inputs, l: Lists)
    ensures var f := (d: Dns) => DnsChecks(i.thresholds, d);
      && (HasSeverity(Flat(l.lookups, f), "critical") <==> exists d :: d in l.lookups && LookupCritical(i, d))
      && (Flat(l.lookups, f) == [] <==> forall d :: d in l.lookups ==> LookupQuiet(i, d))
  {
    hide DnsChecks, LimitsFor, AtLimit, HasSeverity;
    var f := (d: Dns) => DnsChecks(i.thresholds, d);
    FlatMeans(l.lookups, f, "critical");
    forall d | d in l.lookups
      ensures (HasSeverity(f(d), "critical") <==> LookupCritical(i, d)) && (f(d) == [] <==> LookupQuiet(i, d))
    {
      DnsChecksMean(i.thresholds, d);
    }
  }

  lemma RequestsMean(i: Inputs, l: Lists)
    ensures var f := (h: Http) => HttpChecks(i.thresholds, HttpSamples(i.requests), i.now, h);
      && (HasSeverity(Flat(l.requests, f), "critical") <==> exists h :: h in l.requests && RequestCritical(i, h))
      && (Flat(l.requests, f) == [] <==> forall h :: h in l.requests ==> RequestQuiet(i, h))
  {
    hide HttpChecks, LimitsFor, AboveBaseline, AtLimit, Expires, HttpSamples, HasSeverity;
    var f := (h: Http) => HttpChecks(i.thresholds, HttpSamples(i.requests), i.now, h);
    FlatMeans(l.requests, f, "critical");
    forall h | h in l.requests
      ensures (HasSeverity(f(h), "critical") <==> RequestCritical(i, h)) && (f(h) == [] <==> RequestQuiet(i, h))
    {
      HttpChecksMean(i.thresholds, HttpSamples(i.requests), i.now, h);
    }
  }

  lemma ThresholdsMean(i: Inputs, l: Lists)
    ensures HasSeverity(ThresholdsOf(i, l), "critical") <==> LimitsCritical(i, l)
    ensures ThresholdsOf(i, l) == [] <==> LimitsQuiet(i, l)
  {
    hide PingChecks, DnsChecks, HttpChecks, PingSamples, HttpSamples, PingCritical, PingQuiet, LookupCritical,
      LookupQuiet, RequestCritical, RequestQuiet, HasSeverity;
    PingsMean(i, l);
    LookupsMean(i, l);
    RequestsMean(i, l);
    var a := Flat(l.pings, (p: Ping) => PingChecks(i.thresholds, PingSamples(i.pings), i.now, p));
    var b := Flat(l.lookups, (d: Dns) => DnsChecks(i.thresholds, d));
    var c := Flat(l.requests, (h: Http) => HttpChecks(i.thresholds, HttpSamples(i.requests), i.now, h));
    SeverityAppend(a, b, "critical");
    SeverityAppend(a + b, c, "critical");
  }

  lemma AdvancedMean(i: Inputs, l: Lists)
    ensures HasSeverity(AdvancedOf(i, l), "critical") <==> AnyAlarm(i, l, "critical")
    ensures HasSeverity(AdvancedOf(i, l), "warning") <==> AnyAlarm(i, l, "warning")
  {
    var f := (a: Advanced) => AdvancedChecks(i.active, a);
    FlatMeans(l.advanced, f, "critical");
    FlatMeans(l.advanced, f, "warning");
    forall a | a in l.advanced
      ensures HasSeverity(f(a), "critical") <==> Alarming(i, a, "critical")
      ensures HasSeverity(f(a), "warning") <==> Alarming(i, a, "warning")
    {
      AdvancedOne(i, a);
    }
  }

  lemma AdvancedOne(i: Inputs, a: Advanced)
    ensures HasSeverity(AdvancedChecks(i.active, a), "critical") <==> Alarming(i, a, "critical")
    ensures HasSeverity(AdvancedChecks(i.active, a), "warning") <==> Alarming(i, a, "warning")
  {
    hide AdvancedKey;
    var v := Verdict(a.severity, "advanced", a.checkType, a.target);
    assert v in [v];
  }

  // ---- the theorems ----

  lemma ProblemSeverity(found: seq<Verdict>)
    requires Problems(found)
    ensures HasSeverity(found, "warning") || HasSeverity(found, "critical") <==> found != []
  {
    if found != [] {
      assert found[0] in found;
    }
  }

  /** The status after all stages: critical exactly when the first stage or a limit is, or an active
      advanced check reports so; healthy exactly when every newest measurement is silent in every
      stage, no known device is missing and no active advanced check warns. New devices never count. */
  lemma HealthMeans(i: Inputs, l: Lists)
    ensures HealthOf(i, l).status == "critical" <==>
            FirstCritical(i, l) || LimitsCritical(i, l) || AnyAlarm(i, l, "critical")
    ensures HealthOf(i, l).status == "healthy" <==>
            FirstQuiet(i, l) && i.missingDevices == 0 && LimitsQuiet(i, l)
            && !AnyAlarm(i, l, "critical") && !AnyAlarm(i, l, "warning")
  {
    hide Evaluated, Summarized, FirstCritical, FirstQuiet, LimitsCritical, LimitsQuiet, AnyAlarm, ThresholdAdditions,
      AdvancedAdditions, HasSeverity, NotHealthy, InventoryVerdicts, InventoryScore, Quotient5, Problems, Worst;
    FirstStatus(i, l);
    ThresholdsMean(i, l);
    AdvancedMean(i, l);
    ThresholdProblems(i.thresholds, i.now, l.pings, i.pings, l.lookups, l.requests, i.requests);
    ProblemSeverity(ThresholdsOf(i, l));
    NoSeverity("critical");
    NoSeverity("warning");
  }

  /** The cap on the overall score. */
  function Cap(i: Inputs, l: Lists): int {
    if AnyAlarm(i, l, "critical") || (!LimitsQuiet(i, l) && (FirstCritical(i, l) || LimitsCritical(i, l))) then 60
    else if !LimitsQuiet(i, l) || (AnyAlarm(i, l, "warning") && FirstQuiet(i, l) && i.missingDevices == 0) then 80
    else 100
  }

  lemma AverageAfterInventory(h: Health, newDevices: nat, missingDevices: nat)
    requires Sound(h) && h.overall == Average(h.wan, h.dns, h.gateway, h.service, h.inventory)
    ensures var after := WithInventory(h, newDevices, missingDevices);
      InRange(after) && after.overall == Average(after.wan, after.dns, after.gateway, after.service, after.inventory)
  {
    hide Worst, NotHealthy, InventoryVerdicts, Average, Quotient5, InventoryScore;
    var after := WithInventory(h, newDevices, missingDevices);
    InventorySound(h, newDevices, missingDevices);
    AverageInRange(after.wan, after.dns, after.gateway, after.service, after.inventory);
  }

  /** The overall score is the average of the five scores under that cap. In particular a critical
      status lowers it only together with an addition of the threshold stage or a critical advanced
      result, and an advanced warning only where it alone ends the healthy status. */
  lemma OverallMeans(i: Inputs, l: Lists)
    ensures var h := HealthOf(i, l);
      InRange(h) && h.overall == Min(Average(h.wan, h.dns, h.gateway, h.service, h.inventory), Cap(i, l))
  {
    hide Summarized, FirstCritical, FirstQuiet, LimitsCritical, LimitsQuiet, AnyAlarm, ThresholdAdditions,
      AdvancedAdditions, HasSeverity, NotHealthy, InventoryVerdicts, InventoryScore, Quotient5, Problems, Worst,
      Average, Sound, Rules, WanScore, DnsScore, GatewayScore, ServiceScore;
    HealthSound(i, l);
    var first := First(i, l);
    EvaluatedSound(Summarized(i.gateway, l.internet, l.dns, l.http));
    AverageAfterInventory(first, i.newDevices, i.missingDevices);
    StatusNames(first.verdicts);
    assert first.status == Worst(first.verdicts);
    hide Evaluated;
    var h := HealthOf(i, l);
    AverageInRange(h.wan, h.dns, h.gateway, h.service, h.inventory);
    FirstStatus(i, l);
    ThresholdsMean(i, l);
    AdvancedMean(i, l);
    ThresholdProblems(i.thresholds, i.now, l.pings, i.pings, l.lookups, l.requests, i.requests);
    ProblemSeverity(ThresholdsOf(i, l));
    NoSeverity("critical");
    NoSeverity("warning");
    CapApplies(i, l);
  }

  /** Where the limits are silent an active advanced warning caps the overall score at 80 exactly when
      it alone ends the healthy status; beside any other warning the average stands. */
  lemma AdvancedCaps(i: Inputs, l: Lists)
    requires LimitsQuiet(i, l) && AnyAlarm(i, l, "warning") && !AnyAlarm(i, l, "critical")
    ensures var h := HealthOf(i, l);
            var average := (h.wan + h.dns + h.gateway + h.service + h.inventory) / 5;
      InRange(h) && h.overall == if FirstQuiet(i, l) && i.missingDevices == 0 then Min(average, 80) else average
  {
    hide HealthOf, LimitsQuiet, AnyAlarm, FirstQuiet, FirstCritical, LimitsCritical;
    OverallMeans(i, l);
    var h := HealthOf(i, l);
    AverageInRange(h.wan, h.dns, h.gateway, h.service, h.inventory);
  }

  lemma CapApplies(i: Inputs, l: Lists)
    requires HasSeverity(ThresholdsOf(i, l), "critical") <==> LimitsCritical(i, l)
    requires ThresholdsOf(i, l) == [] <==> LimitsQuiet(i, l)
    requires HasSeverity(ThresholdsOf(i, l), "warning") || HasSeverity(ThresholdsOf(i, l), "critical") <==>
            ThresholdsOf(i, l) != []
    requires HasSeverity(AdvancedOf(i, l), "critical") <==> AnyAlarm(i, l, "critical")
    requires HasSeverity(AdvancedOf(i, l), "warning") <==> AnyAlarm(i, l, "warning")
    requires First(i, l).status == "critical" <==> FirstCritical(i, l)
    requires First(i, l).status == "healthy" <==> FirstQuiet(i, l)
    requires First(i, l).status in {"healthy", "warning", "critical"}
    requires var second := WithInventory(First(i, l), i.newDevices, i.missingDevices); second.overall <= 100
    ensures var second := WithInventory(First(i, l), i.newDevices, i.missingDevices);
      HealthOf(i, l).overall == Min(second.overall, Cap(i, l))
  {
    hide Evaluated, Summarized, FirstCritical, FirstQuiet, LimitsCritical, LimitsQuiet, AnyAlarm, ThresholdAdditions,
      AdvancedAdditions, HasSeverity, NotHealthy, InventoryVerdicts, InventoryScore, Quotient5, Worst;
    NoSeverity("critical");
    NoSeverity("warning");
  }

  // ---- consequences ----

  /** The one result of its key that no other is as new as. */
  ghost predicate Newest(results: seq<Dns>, d: Dns) {
    d in results && forall e :: e in results && DnsKey(e) == DnsKey(d) && e != d ==> e.at < d.at
  }

  lemma NewestListed(results: seq<Dns>, out: seq<Dns>, d: Dns)
    requires Newest(results, d) && Enumerates(LatestOf(results, DnsKey, DnsAt), DnsKey, out)
    ensures d in out
  {
    LatestKeyed(results, DnsKey, DnsAt);
    var kept := LatestOf(results, DnsKey, DnsAt)[DnsKey(d)];
    assert kept in results && DnsAt(d) <= DnsAt(kept);
    assert kept == d;
  }

  lemma {:induction false} FlatHas<T>(s: seq<T>, f: T -> seq<Verdict>, x: T, v: Verdict)
    requires x in s && v in f(x)
    ensures v in Flat(s, f)
  {
    var n := |s| - 1;
    assert s == s[..n] + [s[n]];
    if x != s[n] {
      FlatHas(s[..n], f, x, v);
    }
  }

  function LookupFailed(d: Dns): Verdict {
    Verdict("warning", "dns", "dns_lookup_failed", DnsKey(d))
  }

  lemma LookupAdded(i: Inputs, l: Lists, d: Dns)
    requires d in l.lookups && !d.success
    ensures LookupFailed(d) in ThresholdsOf(i, l)
  {
    hide PingChecks, HttpChecks, PingSamples, HttpSamples, LimitsFor, DnsKey;
    FlatHas(l.lookups, (e: Dns) => DnsChecks(i.thresholds, e), d, LookupFailed(d));
  }

  /** An addition of the threshold stage is still there at the end. */
  lemma AdditionStays(h: Health, x: seq<Verdict>, y: seq<Verdict>, v: Verdict)
    requires v in x && v.code != "healthy"
    ensures v in WithAdvanced(WithThresholds(h, x), y).verdicts
  {
    hide HasSeverity, Raised;
    NotHealthyIs(WithThresholds(h, x).verdicts);
  }

  /** Every lookup that failed when last tried is reported, however many others succeed: the status is
      not healthy and the overall score at most 80. The two DNS rules of the first stage need not fire. */
  lemma FailedLookupReported(i: Inputs, l: Lists, d: Dns)
    requires ListsOf(i, l) && Newest(i.lookups, d) && !d.success
    ensures var h := HealthOf(i, l);
      LookupFailed(d) in h.verdicts && h.status != "healthy" && h.overall <= 80
  {
    hide Newest, Evaluated, Summarized, WithInventory, WithThresholds, WithAdvanced, ThresholdAdditions,
      AdvancedAdditions, Average;
    NewestListed(i.lookups, l.lookups, d);
    LookupAdded(i, l, d);
    AdditionStays(WithInventory(First(i, l), i.newDevices, i.missingDevices), ThresholdsOf(i, l), AdvancedOf(i, l),
        LookupFailed(d));
    HealthMeans(i, l);
    OverallMeans(i, l);
    assert !LookupQuiet(i, d);
  }

  function Quiet(i: Inputs): Inputs {
    i.(internet := [], dns := [], http := [], newDevices := 0, pings := [], lookups := [], requests := [],
        advanced := [])
  }

  const NOTHING: Lists := Lists([], [], [], [], [], [], [])

  /** A slow gateway alone makes the status critical, and the overall score is 94: nothing caps it. */
  lemma CriticalYetHigh(i: Inputs)
    requires i == Quiet(i) && i.missingDevices == 0
    requires i.gateway != [] && i.gateway[0].up && i.gateway[0].loss == 0.0 && i.gateway[0].latency > 20.0
    ensures ListsOf(i, NOTHING) && HealthOf(i, NOTHING).status == "critical" && HealthOf(i, NOTHING).overall == 94
  {
    hide Quiet, ListsOf, HealthOf, Cap, FirstCritical, LimitsCritical, AnyAlarm, FirstQuiet, LimitsQuiet, Average;
    NothingListed(i);
    GatewayCritical(i);
    HealthMeans(i, NOTHING);
    OverallMeans(i, NOTHING);
    NoCap(i);
    FiveScores(i, NOTHING);
    SlowGateway(i.gateway[0]);
  }

  lemma NothingListed(i: Inputs)
    requires i == Quiet(i)
    ensures ListsOf(i, NOTHING) && i.newDevices == 0
  {
    assert WithHost(i.pings) == [];
  }

  lemma GatewayCritical(i: Inputs)
    requires i.gateway != [] && i.gateway[0].latency > 20.0
    ensures FirstCritical(i, NOTHING)
  {
  }

  lemma SlowGateway(p: Ping)
    requires p.up && p.loss == 0.0 && p.latency > 20.0
    ensures GatewayScore(Some(p)) == 70 && Average(100, 100, 70, 100, 100) == 94
  {
  }

  lemma NoCap(i: Inputs)
    requires i.missingDevices == 0
    ensures Cap(i, NOTHING) == 100
  {
  }

  lemma FiveScores(i: Inputs, l: Lists)
    requires l == NOTHING && i.newDevices == 0 && i.missingDevices == 0
    ensures var h := HealthOf(i, l);
      h.wan == 100 && h.dns == 100 && h.service == 100 && h.inventory == 100 &&
      h.gateway == GatewayScore(if i.gateway == [] then None else Some(i.gateway[0]))
  {
  }
}
