/** What the health record always satisfies after all stages, and what it does not depend on. */
module HealthProof {
  import opened Latest
  import opened Verdicts
  import opened HealthStages
  import Baseline

  // ---- status, scores and the healthy verdict ----

  /** What rules and thresholds report: never the healthy verdict, never information only. */
  predicate Problem(v: Verdict) {
    v.code != "healthy" && (v.severity == "warning" || v.severity == "critical")
  }

  ghost predicate Problems(verdicts: seq<Verdict>) {
    forall v :: v in verdicts ==> Problem(v)
  }

  /** The status is the worst severity, the healthy verdict stands alone, the scores are in range. */
  ghost predicate Sound(h: Health) {
    && h.status == Worst(h.verdicts) && InRange(h)
    && (forall v :: v in h.verdicts && v.code == "healthy" ==> v == HEALTHY)
    && (HEALTHY in h.verdicts ==> h.verdicts == [HEALTHY])
  }

  lemma NetworkProblems(s: Summary)
    ensures Problems(NetworkVerdicts(s))
  {
    hide GatewayUnstable, Unreachable;
  }

  lemma ServiceProblems(services: seq<Http>)
    ensures Problems(Flat(services, ServiceVerdicts))
  {
    forall v | v in Flat(services, ServiceVerdicts) ensures Problem(v) {
      FlatFrom(services, ServiceVerdicts, v);
    }
  }

  lemma AverageInRange(a: int, b: int, c: int, d: int, e: int)
    requires 0 <= a <= 100 && 0 <= b <= 100 && 0 <= c <= 100 && 0 <= d <= 100 && 0 <= e <= 100
    ensures 0 <= Average(a, b, c, d, e) <= 100 && Quotient5(a + b + c + d + e) == Average(a, b, c, d, e)
  {
  }

  lemma EvaluatedSound(s: Summary)
    ensures Sound(Evaluated(s))
  {
    hide NetworkVerdicts, WanScore, DnsScore, GatewayScore, ServiceScore, Average, Worst;
    NetworkProblems(s);
    ServiceProblems(s.services);
    var h := Evaluated(s);
    AverageInRange(h.wan, h.dns, h.gateway, h.service, 100);
    FoundStatus(NetworkVerdicts(s) + Flat(s.services, ServiceVerdicts));
  }

  lemma {:induction false} NotHealthyIs(verdicts: seq<Verdict>)
    ensures forall v :: v in NotHealthy(verdicts) <==> v in verdicts && v.code != "healthy"
  {
    if verdicts != [] {
      NotHealthyIs(verdicts[..|verdicts| - 1]);
      assert verdicts == verdicts[..|verdicts| - 1] + [verdicts[|verdicts| - 1]];
    }
  }

  lemma WorstAppend(a: seq<Verdict>, b: seq<Verdict>)
    ensures Worst(a + b) == Raised(Worst(a), b)
  {
    SeverityAppend(a, b, "critical");
    SeverityAppend(a, b, "warning");
    assert Worst(a) == if HasSeverity(a, "critical") then "critical" else if HasSeverity(a, "warning") then "warning"
        else "healthy";
    assert Worst(a + b) == if HasSeverity(a + b, "critical") then "critical"
                           else if HasSeverity(a + b, "warning") then "warning" else "healthy";
  }

  lemma KeptStatus(h: Health)
    requires Sound(h)
    ensures Worst(NotHealthy(h.verdicts)) == h.status && HEALTHY !in NotHealthy(h.verdicts)
    ensures forall v :: v in NotHealthy(h.verdicts) ==> v.code != "healthy"
  {
    NotHealthyIs(h.verdicts);
    forall v | v in h.verdicts && v.severity != "info" ensures v in NotHealthy(h.verdicts) {
    }
  }

  lemma InventorySound(h: Health, newDevices: nat, missingDevices: nat)
    requires Sound(h)
    ensures Sound(WithInventory(h, newDevices, missingDevices))
  {
    hide Worst, NotHealthy, Raised, Average, Quotient5;
    var after := WithInventory(h, newDevices, missingDevices);
    if newDevices > 0 || missingDevices > 0 {
      var kept, noted, missing := NotHealthy(h.verdicts), When(newDevices > 0, NEW_DEVICE),
          When(missingDevices > 0, MISSING_DEVICE);
      KeptStatus(h);
      WorstAppend(kept, noted);
      WorstAppend(kept + noted, missing);
      StatusNames(h.verdicts);
      NotesRaise(h.status, newDevices > 0, missingDevices > 0);
      AverageInRange(h.wan, h.dns, h.gateway, h.service, after.inventory);
    }
  }

  lemma StatusNames(verdicts: seq<Verdict>)
    ensures Worst(verdicts) in {"healthy", "warning", "critical"}
  {
  }

  lemma NotesRaise(status: string, newDevice: bool, missing: bool)
    requires status in {"healthy", "warning", "critical"}
    ensures Raised(Raised(status, When(newDevice, NEW_DEVICE)), When(missing, MISSING_DEVICE))
            == if missing && status == "healthy" then "warning" else status
  {
    assert !HasSeverity([NEW_DEVICE], "critical") && !HasSeverity([NEW_DEVICE], "warning");
    assert !HasSeverity([MISSING_DEVICE], "critical");
    assert MISSING_DEVICE in [MISSING_DEVICE];
    assert HasSeverity([MISSING_DEVICE], "warning");
  }

  lemma ThresholdsSound(h: Health, additions: seq<Verdict>)
    requires Sound(h) && Problems(additions)
    ensures Sound(WithThresholds(h, additions))
  {
    hide Worst, NotHealthy, Raised;
    KeptStatus(h);
    WorstAppend(NotHealthy(h.verdicts), additions);
    FoundStatus(additions);
  }

  /** Every addition of the advanced stage is a warning or critical. */
  ghost predicate Alarms(verdicts: seq<Verdict>) {
    forall v :: v in verdicts ==> v.severity == "warning" || v.severity == "critical"
  }

  ghost predicate Final(h: Health) {
    h.status == Worst(h.verdicts) && InRange(h) && (HEALTHY in h.verdicts ==> h.verdicts == [HEALTHY])
  }

  lemma AdvancedFinal(h: Health, additions: seq<Verdict>)
    requires Sound(h) && Alarms(additions)
    ensures Final(WithAdvanced(h, additions))
  {
    hide Worst, NotHealthy, Raised;
    KeptStatus(h);
    WorstAppend(NotHealthy(h.verdicts), additions);
    assert HEALTHY !in additions;
  }

  lemma PingProblems(t: Thresholds, all: seq<Baseline.Sample>, now: int, p: Ping)
    ensures Problems(PingChecks(t, all, now, p))
  {
    hide LimitsFor, AboveBaseline, PingKey, PingSample;
  }

  lemma HttpProblems(t: Thresholds, all: seq<Baseline.Sample>, now: int, h: Http)
    ensures Problems(HttpChecks(t, all, now, h))
  {
    hide LimitsFor, AboveBaseline, HttpKey, HttpSample;
  }

  lemma DnsProblems(t: Thresholds, d: Dns)
    ensures Problems(DnsChecks(t, d))
  {
    hide LimitsFor, DnsKey;
  }

  lemma ThresholdProblems(t: Thresholds, now: int, pings: seq<Ping>, allPings: seq<Ping>, dns: seq<Dns>,
                          https: seq<Http>, allHttps: seq<Http>)
    ensures Problems(ThresholdAdditions(t, now, pings, allPings, dns, https, allHttps))
  {
    hide PingChecks, DnsChecks, HttpChecks, PingSamples, HttpSamples, Problem;
    var f := (p: Ping) => PingChecks(t, PingSamples(allPings), now, p);
    var g := (d: Dns) => DnsChecks(t, d);
    var k := (h: Http) => HttpChecks(t, HttpSamples(allHttps), now, h);
    forall v | v in Flat(pings, f) ensures Problem(v) {
      FlatFrom(pings, f, v);
      var p :| p in pings && v in f(p);
      PingProblems(t, PingSamples(allPings), now, p);
    }
    forall v | v in Flat(dns, g) ensures Problem(v) {
      FlatFrom(dns, g, v);
      var d :| d in dns && v in g(d);
      DnsProblems(t, d);
    }
    forall v | v in Flat(https, k) ensures Problem(v) {
      FlatFrom(https, k, v);
      var h :| h in https && v in k(h);
      HttpProblems(t, HttpSamples(allHttps), now, h);
    }
  }

  lemma AdvancedAlarms(active: set<string>, listed: seq<Advanced>)
    ensures Alarms(AdvancedAdditions(active, listed))
  {
    var f := (a: Advanced) => AdvancedChecks(active, a);
    forall v: Verdict | v in Flat(listed, f) ensures v.severity == "warning" || v.severity == "critical" {
      FlatFrom(listed, f, v);
    }
  }

  // ---- the whole pipeline ----

  datatype Inputs = Inputs(gateway: seq<Ping>, internet: seq<Ping>, dns: seq<Dns>, http: seq<Http>,
                           newDevices: nat, missingDevices: nat,
                           thresholds: Thresholds, now: int, pings: seq<Ping>, lookups: seq<Dns>, requests: seq<Http>,
                           active: set<string>, advanced: seq<Advanced>)

  /** What the range loops over the seven maps of newest results listed. */
  datatype Lists = Lists(internet: seq<Ping>, dns: seq<Dns>, http: seq<Http>,
                         pings: seq<Ping>, lookups: seq<Dns>, requests: seq<Http>, advanced: seq<Advanced>)

  ghost predicate ListsOf(i: Inputs, l: Lists) {
    && Listed(i.internet, i.dns, i.http, l.internet, l.dns, l.http)
    && Listed(WithHost(i.pings), i.lookups, i.requests, l.pings, l.lookups, l.requests)
    && Enumerates(LatestOf(i.advanced, AdvancedKey, AdvancedAt), AdvancedKey, l.advanced)
  }

  function ThresholdsOf(i: Inputs, l: Lists): seq<Verdict> {
    ThresholdAdditions(i.thresholds, i.now, l.pings, i.pings, l.lookups, l.requests, i.requests)
  }

  function AdvancedOf(i: Inputs, l: Lists): seq<Verdict> {
    AdvancedAdditions(i.active, l.advanced)
  }

  /** evaluateHealth. */
  function HealthOf(i: Inputs, l: Lists): Health {
    var first := Evaluated(Summarized(i.gateway, l.internet, l.dns, l.http));
    WithAdvanced(WithThresholds(WithInventory(first, i.newDevices, i.missingDevices), ThresholdsOf(i, l)),
        AdvancedOf(i, l))
  }

  method EvaluateHealth(i: Inputs) returns (health: Record)
    ensures fresh(health) && exists l :: ListsOf(i, l) && health.State() == HealthOf(i, l)
  {
    hide Summarized, Evaluated, WithInventory, WithThresholds, WithAdvanced, ThresholdAdditions, AdvancedAdditions;
    var first := Evaluate(i.gateway, i.internet, i.dns, i.http);
    ghost var internet, dns, http :| Listed(i.internet, i.dns, i.http, internet, dns, http)
                                     && first == Evaluated(Summarized(i.gateway, internet, dns, http));
    health := new Record(first);
    health.ApplyDeviceInventoryHealth(i.newDevices, i.missingDevices);
    var pings := CollectLatest(WithHost(i.pings), PingKey, PingAt);
    var lookups := CollectLatest(i.lookups, DnsKey, DnsAt);
    var requests := CollectLatest(i.requests, HttpKey, HttpAt);
    var additions := ThresholdVerdicts(i.thresholds, i.now, pings, i.pings, lookups, requests, i.requests);
    health.ApplyThresholdHealth(additions);
    var advanced := CollectLatest(i.advanced, AdvancedKey, AdvancedAt);
    additions := AdvancedVerdicts(i.active, advanced);
    health.ApplyAdvancedHealth(additions);
    ghost var l := Lists(internet, dns, http, pings, lookups, requests, advanced);
    assert ListsOf(i, l);
    assert health.State() == HealthOf(i, l);
  }

  /** Whatever was measured and however the maps were iterated: the status is the worst severity
      among the final verdicts, the healthy verdict is there only alone, all scores are in 0..100,
      a critical addition caps the overall score at 60 and any threshold addition at 80. */
  lemma HealthSound(i: Inputs, l: Lists)
    ensures var h := HealthOf(i, l);
      && h.status == Worst(h.verdicts) && InRange(h) && (HEALTHY in h.verdicts ==> h.verdicts == [HEALTHY])
      && (HasSeverity(ThresholdsOf(i, l), "critical") || HasSeverity(AdvancedOf(i, l), "critical") ==> h.overall <= 60)
      && (ThresholdsOf(i, l) != [] ==> h.overall <= 80)
  {
    hide Evaluated, Summarized, WithInventory, ThresholdAdditions, AdvancedAdditions, NotHealthy, Worst, Sound,
      InRange;
    var first := Evaluated(Summarized(i.gateway, l.internet, l.dns, l.http));
    var second := WithInventory(first, i.newDevices, i.missingDevices);
    EvaluatedSound(Summarized(i.gateway, l.internet, l.dns, l.http));
    InventorySound(first, i.newDevices, i.missingDevices);
    ThresholdProblems(i.thresholds, i.now, l.pings, i.pings, l.lookups, l.requests, i.requests);
    ThresholdsSound(second, ThresholdsOf(i, l));
    AdvancedAlarms(i.active, l.advanced);
    AdvancedFinal(WithThresholds(second, ThresholdsOf(i, l)), AdvancedOf(i, l));
    ThresholdCaps(second, ThresholdsOf(i, l));
  }

  lemma ThresholdCaps(h: Health, additions: seq<Verdict>)
    requires Problems(additions) && Sound(h)
    ensures var after := WithThresholds(h, additions);
      (additions != [] ==> after.overall <= 80)
      && (HasSeverity(additions, "critical") ==> after.overall <= 60)
  {
    hide NotHealthy, Worst;
    StatusNames(h.verdicts);
    if additions != [] {
      assert additions[0] in additions;
    }
  }

  // ---- the WAN score ----

  lemma NetworkCritical(s: Summary, v: Verdict)
    requires v in NetworkVerdicts(s) && WanCritical(v)
    ensures Unreachable(s)
  {
  }

  lemma NoOtherCritical(services: seq<Http>, v: Verdict)
    requires v in Flat(services, ServiceVerdicts) || v == HEALTHY
    ensures !WanCritical(v)
  {
    if v in Flat(services, ServiceVerdicts) {
      FlatFrom(services, ServiceVerdicts, v);
    }
  }

  /** Only the verdict of no reachable target is critical for the WAN, and then the share formula has
      already given 0: the cap of 20 never changes the score. */
  lemma WanCapIdle(s: Summary)
    ensures Evaluated(s).wan == WanBase(s.targets, s.upRatio, s.maxLoss)
  {
    hide NetworkVerdicts, ServiceVerdicts, GatewayScore, ServiceScore, DnsScore, Average, Worst, WanCritical;
    var verdicts := Rules(s);
    forall v | v in verdicts && WanCritical(v) ensures Unreachable(s) {
      if v in NetworkVerdicts(s) {
        NetworkCritical(s, v);
      } else {
        NoOtherCritical(s.services, v);
      }
    }
    if Unreachable(s) {
      assert s.upRatio * 80.0 == 0.0;
    }
  }

  lemma TruncMonotone(x: real, y: real)
    requires x <= y
    ensures Trunc(x) <= Trunc(y)
  {
  }

  lemma ClampMonotone(a: int, b: int)
    requires a <= b
    ensures Clamp(a) <= Clamp(b)
  {
  }

  lemma RatioSteps(u: nat, n: nat)
    requires 0 < u <= n
    ensures (u - 1) as real / n as real <= u as real / n as real
    ensures u < n ==> u as real / n as real < 1.0
    ensures (u - 1) as real / n as real < 1.0
  {
    var r := n as real;
    assert (u as real / r) * r == u as real && ((u - 1) as real / r) * r == (u - 1) as real;
  }

  /** The share formula for k of n targets is a division of integers. */
  lemma ShareFloor(k: nat, n: nat)
    requires n > 0
    ensures Trunc(k as real / n as real * 80.0) == 80 * k / n
  {
    var r, q := k as real / n as real, 80 * k / n;
    assert r * n as real == k as real;
    assert q * n <= 80 * k < q * n + n by {
      assert 80 * k == q * n + 80 * k % n;
    }
    Between(q as real, r * 80.0, n as real, (80 * k) as real);
  }

  lemma Between(q: real, x: real, n: real, y: real)
    requires n > 0.0 && x * n == y && q * n <= y < q * n + n
    ensures q <= x < q + 1.0
  {
    assert (x - q) * n == y - q * n;
    assert (q + 1.0 - x) * n == q * n + n - y;
    SameSign(x - q, n);
    SameSign(q + 1.0 - x, n);
  }

  lemma SameSign(x: real, n: real)
    requires n > 0.0
    ensures (x * n >= 0.0 <==> x >= 0.0) && (x * n > 0.0 <==> x > 0.0)
  {
  }

  lemma LossBelow(loss: real, q: nat)
    requires loss >= 0.0 && q <= 80
    ensures Clamp(Trunc(100.0 - loss * 10.0)) < q <==> q > 0 && loss * 10.0 > 100.0 - q as real
  {
  }

  /** The points one of n targets may cost by its loss, at ten for each percent, before losing it
      altogether costs less: what is left of 100 without the others' share of 80. */
  function LossLimit(n: nat): int
    requires n > 0
  {
    100 - 80 * (n - 1) / n
  }

  lemma BaseRises(n: nat, u: nat, lossBefore: real, lossAfter: real)
    requires 0 < u <= n && lossBefore >= 0.0
    ensures WanBase(n, Ratio(u - 1, n), lossAfter) > WanBase(n, Ratio(u, n), lossBefore)
            <==> u == n && n >= 2 && lossBefore * 10.0 > LossLimit(n) as real
  {
    hide Trunc, Clamp;
    RatioSteps(u, n);
    if u < n {
      TruncMonotone(Ratio(u - 1, n) * 80.0, Ratio(u, n) * 80.0);
      ClampMonotone(Trunc(Ratio(u - 1, n) * 80.0), Trunc(Ratio(u, n) * 80.0));
    } else {
      var q := 80 * (n - 1) / n;
      ShareFloor(n - 1, n);
      assert Ratio(n, n) == 1.0;
      ShareRange(n);
      ClampId(q);
      LossBelow(lossBefore, q);
    }
  }

  lemma ShareRange(n: nat)
    requires n > 0
    ensures 0 <= 80 * (n - 1) / n <= 80 && (80 * (n - 1) / n > 0 <==> n >= 2)
  {
    var q := 80 * (n - 1) / n;
    assert 80 * (n - 1) == q * n + 80 * (n - 1) % n;
    FactorBelow(q, 80, n);
  }

  lemma FactorBelow(q: int, m: int, n: int)
    requires n > 0 && q * n < m * n
    ensures q < m
  {
    assert (m - q) * n > 0;
  }

  lemma ClampId(q: int)
    requires 0 <= q <= 100
    ensures Clamp(q) == q
  {
  }

  lemma {:induction false} OneDown(internet: seq<Ping>, k: nat, down: Ping)
    requires k < |internet| && internet[k].up && !down.up
    ensures 0 < Count(internet, PingUp) && Count(internet[k := down], PingUp) == Count(internet, PingUp) - 1
  {
    var n := |internet| - 1;
    if k < n {
      OneDown(internet[..n], k, down);
      assert internet[k := down][..n] == internet[..n][k := down];
    } else {
      assert internet[k := down][..n] == internet[..n];
    }
  }

  lemma {:induction false} AllUp(internet: seq<Ping>)
    ensures Count(internet, PingUp) == |internet| <==> forall p :: p in internet ==> p.up
  {
    if internet != [] {
      AllUp(internet[..|internet| - 1]);
      assert internet == internet[..|internet| - 1] + [internet[|internet| - 1]];
    }
  }

  /** When one internet target that was up goes down and nothing else changes, the WAN score rises
      exactly when there are others, all targets were up, and some target's loss was above the limit
      for their number. */
  lemma WanRises(gateway: seq<Ping>, internet: seq<Ping>, dns: seq<Dns>, http: seq<Http>, k: nat, down: Ping)
    requires k < |internet| && internet[k].up && !down.up
    ensures Evaluated(Summarized(gateway, internet[k := down], dns, http)).wan
              > Evaluated(Summarized(gateway, internet, dns, http)).wan
            <==> |internet| >= 2 && (forall p :: p in internet ==> p.up)
                 && exists p :: p in internet && p.loss * 10.0 > LossLimit(|internet|) as real
  {
    hide Count, Greatest, WanBase, Ratio, Evaluated, LossLimit;
    var after := internet[k := down];
    WanCapIdle(Summarized(gateway, internet, dns, http));
    WanCapIdle(Summarized(gateway, after, dns, http));
    OneDown(internet, k, down);
    AllUp(internet);
    GreatestIs(internet, PingLoss);
    var n, loss := |internet|, Greatest(internet, PingLoss);
    BaseRises(n, Count(internet, PingUp), loss, Greatest(after, PingLoss));
    LimitPositive(n);
    if loss * 10.0 > LossLimit(n) as real {
      assert loss > 0.0;
      var p :| p in internet && PingLoss(p) == loss;
    }
  }

  lemma LimitPositive(n: nat)
    requires n > 0
    ensures LossLimit(n) >= 20
  {
    ShareRange(n);
  }

  /** Two targets, both up with ten percent loss: the score is 0, and 40 once one of them is down. */
  lemma WanNotMonotone(dns: seq<Dns>, http: seq<Http>)
    ensures var a, b := Ping(1, "a", "192.0.2.1", true, 10.0, 5.0, 0), Ping(2, "b", "192.0.2.2", true, 10.0, 5.0, 0);
            var down := b.(up := false, loss := 100.0);
      && Evaluated(Summarized([], [a, b], dns, http)).wan == 0
      && Evaluated(Summarized([], [a, down], dns, http)).wan == 40
  {
    var a, b := Ping(1, "a", "192.0.2.1", true, 10.0, 5.0, 0), Ping(2, "b", "192.0.2.2", true, 10.0, 5.0, 0);
    var down := b.(up := false, loss := 100.0);
    hide Evaluated;
    WanCapIdle(Summarized([], [a, b], dns, http));
    WanCapIdle(Summarized([], [a, down], dns, http));
    TwoTargets(a, b);
    TwoTargets(a, down);
  }

  lemma TwoTargets(a: Ping, b: Ping)
    requires a.loss >= 0.0 && b.loss >= 0.0
    ensures Count([a, b], PingUp) == (if a.up then 1 else 0) + (if b.up then 1 else 0)
    ensures Greatest([a, b], PingLoss) == Max(a.loss, b.loss)
  {
    assert [a, b][..1] == [a] && [a][..0] == [];
    assert Greatest([a], PingLoss) == Max(Greatest([], PingLoss), a.loss);
    assert Greatest([a, b], PingLoss) == Max(Greatest([a], PingLoss), b.loss);
    assert Count([a, b], PingUp) == Count([a], PingUp) + if b.up then 1 else 0;
  }
}
