/** Status, scores and verdicts do not depend on the order of map iteration, nor on the order in
    which results with different times arrive. */
module HealthOrder {
  import opened Latest
  import opened Permutations
  import opened Verdicts
  import opened HealthStages
  import opened HealthProof
  import Baseline

  /** Equal but for the order of the verdicts. */
  ghost predicate Same(a: Health, b: Health) {
    a.(verdicts := []) == b.(verdicts := []) && multiset(a.verdicts) == multiset(b.verdicts)
  }

  // ---- the first stage ----

  lemma {:induction false} MinTlsIs(services: seq<Http>)
    ensures var m := MinTls(services);
      && (forall h :: h in services && h.tlsDays > 0 ==> m.Some? && m.value <= h.tlsDays)
      && (m.Some? ==> m.value > 0 && exists h :: h in services && h.tlsDays == m.value)
  {
    if services != [] {
      MinTlsIs(services[..|services| - 1]);
      assert services == services[..|services| - 1] + [services[|services| - 1]];
    }
  }

  lemma MinTlsForgets(a: seq<Http>, b: seq<Http>)
    requires multiset(a) == multiset(b)
    ensures MinTls(a) == MinTls(b)
  {
    hide MinTls;
    SameElements(a, b);
    MinTlsIs(a);
    MinTlsIs(b);
  }

  lemma SummaryForgets(gateway: seq<Ping>, i: seq<Ping>, d: seq<Dns>, w: seq<Http>, i2: seq<Ping>, d2: seq<Dns>,
                       w2: seq<Http>)
    requires multiset(i) == multiset(i2) && multiset(d) == multiset(d2) && multiset(w) == multiset(w2)
    ensures Summarized(gateway, i, d, w).(services := []) == Summarized(gateway, i2, d2, w2).(services := [])
  {
    CountForgets(i, i2, PingUp);
    GreatestForgets(i, i2, PingLoss);
    CountForgets(d, d2, IsSystem);
    CountForgets(d, d2, SystemWorks);
    CountForgets(d, d2, IsPublic);
    CountForgets(d, d2, PublicWorks);
    CountForgets(w, w2, HttpUp);
    GreatestForgets(w, w2, HttpTime);
    MinTlsForgets(w, w2);
    hide Count, Greatest, MinTls, IsSystem, IsPublic, SystemWorks, PublicWorks;
    assert (d == [] <==> d2 == []) && (w == [] <==> w2 == []);
  }

  lemma RulesForget(s: Summary, t: Summary)
    requires s.(services := []) == t.(services := []) && multiset(s.services) == multiset(t.services)
    ensures multiset(Rules(s)) == multiset(Rules(t))
  {
    hide NetworkVerdicts;
    SameNetwork(s, t);
    FlatForgets(s.services, t.services, ServiceVerdicts);
    var a, b := Flat(s.services, ServiceVerdicts), Flat(t.services, ServiceVerdicts);
    assert |a| == |multiset(a)| && |b| == |multiset(b)|;
  }

  lemma SameNetwork(s: Summary, t: Summary)
    requires s.(services := []) == t.(services := [])
    ensures NetworkVerdicts(s) == NetworkVerdicts(t)
  {
    assert s.gateway == t.gateway && s.targets == t.targets && s.upRatio == t.upRatio && s.maxLoss == t.maxLoss;
    assert s.hasDns == t.hasDns && s.systemSuccess == t.systemSuccess && s.publicSuccess == t.publicSuccess;
  }

  lemma WorstForgets(a: seq<Verdict>, b: seq<Verdict>)
    requires multiset(a) == multiset(b)
    ensures Worst(a) == Worst(b) && forall s :: HasSeverity(a, s) <==> HasSeverity(b, s)
    ensures (exists v :: v in a && WanCritical(v)) <==> (exists v :: v in b && WanCritical(v))
  {
    SameElements(a, b);
  }

  lemma EvaluatedForgets(s: Summary, t: Summary)
    requires s.(services := []) == t.(services := []) && multiset(s.services) == multiset(t.services)
    ensures Same(Evaluated(s), Evaluated(t))
  {
    hide Rules, Worst, Average, WanBase, Clamp, Trunc, WanCritical;
    RulesForget(s, t);
    WorstForgets(Rules(s), Rules(t));
    SameParts(s, t);
    assert |s.services| == |multiset(s.services)| && |t.services| == |multiset(t.services)|;
  }

  lemma SameParts(s: Summary, t: Summary)
    requires s.(services := []) == t.(services := [])
    ensures s.gateway == t.gateway && s.targets == t.targets && s.upRatio == t.upRatio && s.maxLoss == t.maxLoss
    ensures s.hasDns == t.hasDns && s.systemSuccess == t.systemSuccess && s.publicSuccess == t.publicSuccess
    ensures s.httpRatio == t.httpRatio && s.httpMax == t.httpMax && s.minTls == t.minTls
  {
  }

  // ---- the later stages ----

  lemma {:induction false} NotHealthyCount(verdicts: seq<Verdict>, v: Verdict)
    ensures multiset(NotHealthy(verdicts))[v] == if v.code != "healthy" then multiset(verdicts)[v] else 0
  {
    if verdicts != [] {
      var n := |verdicts| - 1;
      NotHealthyCount(verdicts[..n], v);
      assert verdicts == verdicts[..n] + [verdicts[n]];
    }
  }

  lemma NotHealthyForgets(a: seq<Verdict>, b: seq<Verdict>)
    requires multiset(a) == multiset(b)
    ensures multiset(NotHealthy(a)) == multiset(NotHealthy(b))
  {
    forall v ensures multiset(NotHealthy(a))[v] == multiset(NotHealthy(b))[v] {
      NotHealthyCount(a, v);
      NotHealthyCount(b, v);
    }
  }

  lemma InventoryForgets(a: Health, b: Health, newDevices: nat, missingDevices: nat)
    requires Same(a, b)
    ensures Same(WithInventory(a, newDevices, missingDevices), WithInventory(b, newDevices, missingDevices))
  {
    hide NotHealthy, When, Quotient5;
    NotHealthyForgets(a.verdicts, b.verdicts);
    SameScores(a, b);
  }

  lemma SameScores(a: Health, b: Health)
    requires Same(a, b)
    ensures a.overall == b.overall && a.wan == b.wan && a.dns == b.dns && a.gateway == b.gateway
            && a.service == b.service
    ensures a.inventory == b.inventory && a.status == b.status
  {
  }

  lemma StagesForget(a: Health, b: Health, x: seq<Verdict>, y: seq<Verdict>)
    requires Same(a, b) && multiset(x) == multiset(y)
    ensures Same(WithThresholds(a, x), WithThresholds(b, y)) && Same(WithAdvanced(a, x), WithAdvanced(b, y))
  {
    hide NotHealthy, HasSeverity, Worst;
    NotHealthyForgets(a.verdicts, b.verdicts);
    WorstForgets(x, y);
    SameScores(a, b);
    assert |x| == |multiset(x)| && |y| == |multiset(y)|;
  }

  // ---- what the thresholds add ----

  lemma {:induction false} SamplesCount(current: Baseline.Sample, all: seq<Baseline.Sample>, cutoff: int)
    ensures Baseline.Samples(current, all, cutoff) == Flat(all, (s: Baseline.Sample) => Amounts(current, cutoff, s))
  {
    if all != [] {
      SamplesCount(current, all[..|all| - 1], cutoff);
    }
  }

  function Amounts(current: Baseline.Sample, cutoff: int, s: Baseline.Sample): seq<real> {
    if Baseline.Usable(current, s, cutoff) then [s.amount] else []
  }

  lemma SamplesForget(current: Baseline.Sample, a: seq<Baseline.Sample>, b: seq<Baseline.Sample>, cutoff: int)
    requires multiset(a) == multiset(b)
    ensures multiset(Baseline.Samples(current, a, cutoff)) == multiset(Baseline.Samples(current, b, cutoff))
  {
    hide Amounts;
    SamplesCount(current, a, cutoff);
    SamplesCount(current, b, cutoff);
    FlatForgets(a, b, (s: Baseline.Sample) => Amounts(current, cutoff, s));
  }

  lemma AboveForgets(current: Baseline.Sample, a: seq<Baseline.Sample>, b: seq<Baseline.Sample>, percent: real,
                     days: int, now: int)
    requires multiset(a) == multiset(b)
    ensures AboveBaseline(current, a, percent, days, now) == AboveBaseline(current, b, percent, days, now)
  {
    hide Baseline.Trimmed, Baseline.Samples;
    var cutoff := now - days * DAY;
    SamplesForget(current, a, b, cutoff);
    Baseline.BaselineForgets(Baseline.Samples(current, a, cutoff), Baseline.Samples(current, b, cutoff));
  }

  lemma {:induction false} PingSamplesFlat(all: seq<Ping>)
    ensures PingSamples(all) == Flat(all, (p: Ping) => [PingSample(p)])
  {
    if all != [] {
      var n := |all| - 1;
      PingSamplesFlat(all[..n]);
      assert PingSamples(all) == PingSamples(all[..n]) + [PingSample(all[n])];
    }
  }

  lemma {:induction false} HttpSamplesFlat(all: seq<Http>)
    ensures HttpSamples(all) == Flat(all, (h: Http) => [HttpSample(h)])
  {
    if all != [] {
      var n := |all| - 1;
      HttpSamplesFlat(all[..n]);
      assert HttpSamples(all) == HttpSamples(all[..n]) + [HttpSample(all[n])];
    }
  }

  lemma PingChecksForget(t: Thresholds, now: int, pings: seq<Ping>, pings2: seq<Ping>, all: seq<Ping>, all2: seq<Ping>)
    requires multiset(pings) == multiset(pings2) && multiset(all) == multiset(all2)
    ensures multiset(Flat(pings, (p: Ping) => PingChecks(t, PingSamples(all), now, p)))
            == multiset(Flat(pings2, (p: Ping) => PingChecks(t, PingSamples(all2), now, p)))
  {
    hide LimitsFor, AboveBaseline, PingSamples, PingKey, Level;
    PingSamplesFlat(all);
    PingSamplesFlat(all2);
    FlatForgets(all, all2, (p: Ping) => [PingSample(p)]);
    var f, g := (p: Ping) => PingChecks(t, PingSamples(all), now, p),
        (p: Ping) => PingChecks(t, PingSamples(all2), now, p);
    forall p | p in pings ensures f(p) == g(p) {
      var l := LimitsFor(t, [p.name, p.host]);
      AboveForgets(PingSample(p), PingSamples(all), PingSamples(all2), l.latencyRelative, l.latencyDays as int, now);
    }
    FlatSame(pings, f, g);
    FlatForgets(pings, pings2, g);
  }

  lemma HttpChecksForget(t: Thresholds, now: int, https: seq<Http>, https2: seq<Http>, all: seq<Http>, all2: seq<Http>)
    requires multiset(https) == multiset(https2) && multiset(all) == multiset(all2)
    ensures multiset(Flat(https, (h: Http) => HttpChecks(t, HttpSamples(all), now, h)))
            == multiset(Flat(https2, (h: Http) => HttpChecks(t, HttpSamples(all2), now, h)))
  {
    hide LimitsFor, AboveBaseline, HttpSamples, HttpKey, Level;
    HttpSamplesFlat(all);
    HttpSamplesFlat(all2);
    FlatForgets(all, all2, (h: Http) => [HttpSample(h)]);
    var f, g := (h: Http) => HttpChecks(t, HttpSamples(all), now, h),
        (h: Http) => HttpChecks(t, HttpSamples(all2), now, h);
    forall h | h in https ensures f(h) == g(h) {
      var l := LimitsFor(t, [h.name, h.url]);
      AboveForgets(HttpSample(h), HttpSamples(all), HttpSamples(all2), l.httpRelative, l.httpDays as int, now);
    }
    FlatSame(https, f, g);
    FlatForgets(https, https2, g);
  }

  lemma AdditionsForget(i: Inputs, l: Lists, j: Inputs, m: Lists)
    requires multiset(l.pings) == multiset(m.pings) && multiset(l.lookups) == multiset(m.lookups)
    requires multiset(l.requests) == multiset(m.requests)
    requires multiset(i.pings) == multiset(j.pings) && multiset(i.requests) == multiset(j.requests)
    requires i.thresholds == j.thresholds && i.now == j.now
    ensures multiset(ThresholdsOf(i, l)) == multiset(ThresholdsOf(j, m))
  {
    hide PingChecks, DnsChecks, HttpChecks, PingSamples, HttpSamples;
    PingChecksForget(i.thresholds, i.now, l.pings, m.pings, i.pings, j.pings);
    HttpChecksForget(i.thresholds, i.now, l.requests, m.requests, i.requests, j.requests);
    FlatForgets(l.lookups, m.lookups, (d: Dns) => DnsChecks(i.thresholds, d));
  }

  // ---- the theorem ----

  /** The same results in another order, no two different ones of a key at the same time. */
  ghost predicate Reordered<T(!new)>(a: seq<T>, b: seq<T>, key: T -> string, at: T -> int) {
    multiset(a) == multiset(b) && DistinctTimes(a, key, at)
  }

  /** The gateway results, newest first, are not reordered. */
  ghost predicate Permuted(i: Inputs, j: Inputs) {
    && i.gateway == j.gateway && i.newDevices == j.newDevices && i.missingDevices == j.missingDevices
    && i.thresholds == j.thresholds && i.now == j.now && i.active == j.active
    && Reordered(i.internet, j.internet, PingKey, PingAt) && Reordered(i.dns, j.dns, DnsKey, DnsAt)
    && Reordered(i.http, j.http, HttpKey, HttpAt) && Reordered(i.pings, j.pings, PingKey, PingAt)
    && Reordered(i.lookups, j.lookups, DnsKey, DnsAt) && Reordered(i.requests, j.requests, HttpKey, HttpAt)
    && Reordered(i.advanced, j.advanced, AdvancedKey, AdvancedAt)
  }

  lemma ListsForget<T(!new)>(a: seq<T>, b: seq<T>, key: T -> string, at: T -> int, x: seq<T>, y: seq<T>)
    requires Reordered(a, b, key, at)
    requires Enumerates(LatestOf(a, key, at), key, x) && Enumerates(LatestOf(b, key, at), key, y)
    ensures multiset(x) == multiset(y)
  {
    LatestForgets(a, b, key, at);
    ListingsAgree(LatestOf(a, key, at), key, x, y);
  }

  lemma HostsReordered(a: seq<Ping>, b: seq<Ping>)
    requires Reordered(a, b, PingKey, PingAt)
    ensures Reordered(WithHost(a), WithHost(b), PingKey, PingAt)
  {
    FlatForgets(a, b, HostOnly);
    forall p | p in WithHost(a) ensures p in a {
      FlatFrom(a, HostOnly, p);
    }
  }

  /** Status and scores are the same, and the verdicts the same up to their order, for every order of
      map iteration and every order of results whose times differ within each key. */
  lemma HealthForgets(i: Inputs, l: Lists, j: Inputs, m: Lists)
    requires Permuted(i, j) && ListsOf(i, l) && ListsOf(j, m)
    ensures Same(HealthOf(i, l), HealthOf(j, m))
  {
    hide LatestOf, Enumerates, Reordered, Evaluated, Summarized, WithInventory, WithThresholds, WithAdvanced, Same,
      ThresholdAdditions, AdvancedChecks;
    ListsForget(i.internet, j.internet, PingKey, PingAt, l.internet, m.internet);
    ListsForget(i.dns, j.dns, DnsKey, DnsAt, l.dns, m.dns);
    ListsForget(i.http, j.http, HttpKey, HttpAt, l.http, m.http);
    HostsReordered(i.pings, j.pings);
    ListsForget(WithHost(i.pings), WithHost(j.pings), PingKey, PingAt, l.pings, m.pings);
    ListsForget(i.lookups, j.lookups, DnsKey, DnsAt, l.lookups, m.lookups);
    ListsForget(i.requests, j.requests, HttpKey, HttpAt, l.requests, m.requests);
    ListsForget(i.advanced, j.advanced, AdvancedKey, AdvancedAt, l.advanced, m.advanced);
    var s, t := Summarized(i.gateway, l.internet, l.dns, l.http), Summarized(j.gateway, m.internet, m.dns, m.http);
    SummaryForgets(i.gateway, l.internet, l.dns, l.http, m.internet, m.dns, m.http);
    ServicesOf(i.gateway, l.internet, l.dns, l.http);
    ServicesOf(j.gateway, m.internet, m.dns, m.http);
    EvaluatedForgets(s, t);
    InventoryForgets(Evaluated(s), Evaluated(t), i.newDevices, i.missingDevices);
    ReorderedMultisets(i, j);
    AdditionsForget(i, l, j, m);
    var a, b := WithInventory(Evaluated(s), i.newDevices, i.missingDevices),
        WithInventory(Evaluated(t), i.newDevices, i.missingDevices);
    StagesForget(a, b, ThresholdsOf(i, l), ThresholdsOf(j, m));
    FlatForgets(l.advanced, m.advanced, (x: Advanced) => AdvancedChecks(i.active, x));
    StagesForget(WithThresholds(a, ThresholdsOf(i, l)), WithThresholds(b, ThresholdsOf(j, m)), AdvancedOf(i, l),
        AdvancedOf(j, m));
  }

  lemma ServicesOf(gateway: seq<Ping>, internet: seq<Ping>, dns: seq<Dns>, http: seq<Http>)
    ensures Summarized(gateway, internet, dns, http).services == http
  {
  }

  lemma ReorderedMultisets(i: Inputs, j: Inputs)
    requires Permuted(i, j)
    ensures multiset(i.pings) == multiset(j.pings) && multiset(i.requests) == multiset(j.requests)
  {
  }
}
