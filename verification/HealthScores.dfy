/** What the five scores of the final record are, told from the measurements. */
module HealthScores {
  import opened Latest
  import opened Verdicts
  import opened HealthStages
  import opened HealthMeaning
  import opened HealthProof
  import opened HealthPipeline

  /** How many elements satisfy a predicate. */
  function Number<T>(s: seq<T>, p: T -> bool): nat {
    |set k | 0 <= k < |s| && p(s[k])|
  }

  lemma NumberSet<T>(s: seq<T>, p: T -> bool, hits: set<int>)
    requires forall k :: k in hits <==> 0 <= k < |s| && p(s[k])
    ensures Number(s, p) == |hits|
  {
    assert hits == set k | 0 <= k < |s| && p(s[k]);
  }

  lemma NumberNext<T>(s: seq<T>, p: T -> bool)
    requires s != []
    ensures Number(s, p) == Number(s[..|s| - 1], p) + if p(s[|s| - 1]) then 1 else 0
  {
    hide Number;
    var n := |s| - 1;
    var front := set k | 0 <= k < n && p(s[k]);
    NumberSet(s[..n], p, front);
    NumberSet(s, p, if p(s[n]) then front + {n} else front);
  }

  lemma {:induction false} NumberIs<T>(s: seq<T>, p: T -> bool)
    ensures Count(s, p) == Number(s, p)
  {
    hide Number;
    if s == [] {
      NumberSet(s, p, {});
    } else {
      NumberIs(s[..|s| - 1], p);
      NumberNext(s, p);
    }
  }

  /** A whole number is a quotient rounded down. */
  lemma Rounded(part: nat, total: nat, scale: nat)
    requires total > 0 && part <= total
    ensures Trunc((part as real / total as real) * scale as real) == scale * part / total
  {
    var q, r := scale * part / total, (scale * part) % total;
    var x := (part as real / total as real) * scale as real;
    assert x * total as real == (scale * part) as real by {
      assert (part as real / total as real) * total as real == part as real;
    }
    assert scale * part == q * total + r;
    assert (scale * part) as real == q as real * total as real + r as real;
    Between(x, total as real, q, r as real);
  }

  lemma Ordered(x: real, y: real, total: real)
    requires total > 0.0
    ensures x * total < y * total <==> x < y
  {
    assert y * total - x * total == (y - x) * total;
  }

  lemma Within(x: real, total: real, low: real, r: real)
    requires total > 0.0 && x * total == low * total + r && 0.0 <= r < total
    ensures low <= x < low + 1.0
  {
    var high := low + 1.0;
    Ordered(x, low, total);
    NextOne(low, total);
    Ordered(x, high, total);
    assert x * total < high * total;
  }

  lemma Between(x: real, total: real, q: int, r: real)
    requires total > 0.0 && x * total == q as real * total + r && 0.0 <= r < total && q >= 0
    ensures Trunc(x) == q
  {
    Within(x, total, q as real, r);
    assert x.Floor == q;
  }

  lemma NextOne(low: real, total: real)
    ensures (low + 1.0) * total == low * total + total
  {
  }

  lemma Kept(i: Inputs, l: Lists)
    ensures var h, s := HealthOf(i, l), Summarized(i.gateway, l.internet, l.dns, l.http);
      && h.wan == WanBase(s.targets, s.upRatio, s.maxLoss) && h.dns == DnsScore(s)
      && h.gateway == GatewayScore(s.gateway) && h.service == ServiceScore(s)
      && h.inventory == InventoryScore(100, i.newDevices > 0, i.missingDevices > 0)
  {
    hide Summarized, Rules, WanScore, WanBase, DnsScore, GatewayScore, ServiceScore, ThresholdAdditions,
      AdvancedAdditions, NotHealthy, Worst, Average, Quotient5, HasSeverity, InventoryVerdicts;
    WanCapIdle(Summarized(i.gateway, l.internet, l.dns, l.http));
  }

  /** The greatest loss of the targets, or zero. */
  ghost predicate GreatestLoss(internet: seq<Ping>, loss: real) {
    && loss >= 0.0 && (forall p :: p in internet ==> p.loss <= loss)
    && (loss == 0.0 || exists p :: p in internet && p.loss == loss)
  }

  /** The WAN score: full without targets; with some of n targets down 80 for each up, divided by n and
      rounded down; otherwise 100 less ten for each percent of the greatest loss, rounded down. */
  lemma WanScoreMeans(i: Inputs, l: Lists, loss: real)
    requires GreatestLoss(l.internet, loss)
    ensures var w, n, up := HealthOf(i, l).wan, |l.internet|, Number(l.internet, (p: Ping) => p.up);
      && (n == 0 ==> w == 100)
      && (up < n ==> w == 80 * up / n)
      && (n > 0 && up >= n ==>
            if loss * 10.0 >= 100.0 then w == 0 else w as real <= 100.0 - loss * 10.0 < w as real + 1.0)
  {
    hide HealthOf, Count, Greatest, WanBase;
    Kept(i, l);
    NumberIs(l.internet, PingUp);
    SameNumber(l.internet, PingUp, (p: Ping) => p.up);
    LossIs(l.internet, loss);
    WanBaseMeans(Count(l.internet, PingUp), |l.internet|, loss);
  }

  lemma LossIs(internet: seq<Ping>, loss: real)
    requires GreatestLoss(internet, loss)
    ensures Greatest(internet, PingLoss) == loss
  {
    hide Greatest;
    GreatestIs(internet, PingLoss);
    assert forall p :: p in internet ==> p.loss == PingLoss(p);
  }

  lemma WanBaseMeans(up: nat, n: nat, loss: real)
    requires up <= n && loss >= 0.0
    ensures var w := WanBase(n, Ratio(up, n), loss);
      && (n == 0 ==> w == 100)
      && (up < n ==> w == 80 * up / n)
      && (n > 0 && up == n ==>
            if loss * 10.0 >= 100.0 then w == 0 else w as real <= 100.0 - loss * 10.0 < w as real + 1.0)
  {
    if up < n {
      hide Trunc, Ratio;
      Rounded(up, n, 80);
      Quotient(up, n, 80);
      RatioFull(up, n);
      RatioIs(up, n);
    } else if n > 0 {
      assert up as real / n as real == 1.0;
    }
  }

  lemma SameNumber<T>(s: seq<T>, p: T -> bool, q: T -> bool)
    requires forall x :: p(x) == q(x)
    ensures Number(s, p) == Number(s, q)
  {
    assert (set k | 0 <= k < |s| && p(s[k])) == set k | 0 <= k < |s| && q(s[k]);
  }

  lemma Quotient(part: nat, total: nat, scale: nat)
    requires total > 0 && part <= total
    ensures 0 <= scale * part / total <= scale
  {
    var q, r := scale * part / total, (scale * part) % total;
    assert scale * part == q * total + r;
    assert scale * part <= scale * total;
    assert q <= scale || q * total >= (scale + 1) * total;
  }

  predicate System(d: Dns) {
    d.resolver == "system" || d.address == "auto"
  }

  predicate Public(d: Dns) {
    d.resolver != "system" && d.address != "auto"
  }

  /** The share of the lookups of one kind that succeed, and one when there are none. */
  function Share(dns: seq<Dns>, kind: Dns -> bool): real {
    var all := set k | 0 <= k < |dns| && kind(dns[k]);
    var good := set k | 0 <= k < |dns| && kind(dns[k]) && dns[k].success;
    if |all| == 0 then 1.0 else |good| as real / |all| as real
  }

  lemma Part(a: set<int>, b: set<int>)
    requires a <= b
    ensures |a| <= |b|
  {
    assert b == a + (b - a);
  }

  lemma ShareIs(dns: seq<Dns>, kind: Dns -> bool, some: Dns -> bool, works: Dns -> bool)
    requires forall d :: some(d) == kind(d) && works(d) == (kind(d) && d.success)
    ensures Ratio(Count(dns, works), Count(dns, some)) == Share(dns, kind) && 0.0 <= Share(dns, kind) <= 1.0
  {
    hide Count, Ratio, Number;
    NumberIs(dns, some);
    NumberIs(dns, works);
    var all := set k | 0 <= k < |dns| && kind(dns[k]);
    var good := set k | 0 <= k < |dns| && kind(dns[k]) && dns[k].success;
    NumberSet(dns, some, all);
    NumberSet(dns, works, good);
    assert Share(dns, kind) == if |all| == 0 then 1.0 else |good| as real / |all| as real;
    Part(good, all);
    RatioFull(|good|, |all|);
    RatioIs(|good|, |all|);
  }

  lemma RatioIs(part: nat, total: nat)
    ensures Ratio(part, total) == if total == 0 then 1.0 else part as real / total as real
  {
  }

  /** The DNS score: full without lookups, else 60 and 40 for the shares of system and public lookups
      that succeed, rounded down; a kind without lookups counts as succeeding. */
  lemma DnsScoreMeans(i: Inputs, l: Lists)
    ensures var d, system, public := HealthOf(i, l).dns, Share(l.dns, System), Share(l.dns, Public);
      && (l.dns == [] ==> d == 100)
      && (l.dns != [] ==> d as real <= system * 60.0 + public * 40.0 < d as real + 1.0)
  {
    hide HealthOf, Count, Share;
    Kept(i, l);
    ShareIs(l.dns, System, IsSystem, SystemWorks);
    ShareIs(l.dns, Public, IsPublic, PublicWorks);
    var system, public := Share(l.dns, System), Share(l.dns, Public);
    assert (system * 0.6 + public * 0.4) * 100.0 == system * 60.0 + public * 40.0;
  }

  /** The gateway score: full without a gateway, 0 when it is down, else 100 less thirty for each percent
      of loss, rounded; without loss 70 above 20 ms. */
  lemma GatewayMeans(i: Inputs, l: Lists)
    ensures var g := HealthOf(i, l).gateway;
            var p := i.gateway;
      && (p == [] ==> g == 100)
      && (p != [] && !p[0].up ==> g == 0)
      && (p != [] && p[0].up && p[0].loss > 0.0 ==>
            if p[0].loss * 30.0 >= 100.0 then g == 0
            else (100 - g) as real <= p[0].loss * 30.0 < (101 - g) as real)
      && (p != [] && p[0].up && p[0].loss <= 0.0 ==> g == if p[0].latency > 20.0 then 70 else 100)
      && (g == 100 <==> p == [] || (p[0].up && if p[0].loss > 0.0 then p[0].loss * 30.0 < 1.0
                                               else p[0].latency <= 20.0))
      && (g == 70 <==> p != [] && p[0].up && if p[0].loss > 0.0 then 1.0 <= p[0].loss && p[0].loss * 30.0 < 31.0
                                             else p[0].latency > 20.0)
  {
    hide HealthOf;
    Kept(i, l);
  }

  /** No better in any respect. */
  predicate NoBetter(p: Ping, than: Ping) {
    (p.up ==> than.up) && p.loss >= than.loss && p.latency >= than.latency
  }

  /** A gateway result that is no better scores higher exactly when the other is slow without loss and
      this one is up and loses something, but less than one percent. */
  lemma GatewayRises(i: Inputs, l: Lists, p: Ping)
    requires i.gateway != [] && NoBetter(p, i.gateway[0])
    ensures var was := i.gateway[0];
      HealthOf(i.(gateway := [p]), l).gateway > HealthOf(i, l).gateway <==>
      was.up && was.loss <= 0.0 && was.latency > 20.0 && p.up && 0.0 < p.loss < 1.0
  {
    hide HealthOf;
    Kept(i, l);
    Kept(i.(gateway := [p]), l);
  }

  /** A slow gateway that also loses half a percent scores 85, and 70 when it loses nothing. */
  lemma GatewayNotMonotone(i: Inputs, l: Lists)
    requires i.gateway == [Ping(1, "gw", "192.0.2.1", true, 0.0, 25.0, 0)]
    ensures var p := Ping(2, "gw", "192.0.2.1", true, 0.5, 25.0, 0);
      HealthOf(i, l).gateway == 70 && HealthOf(i.(gateway := [p]), l).gateway == 85
  {
    hide HealthOf;
    Kept(i, l);
    Kept(i.(gateway := [Ping(2, "gw", "192.0.2.1", true, 0.5, 25.0, 0)]), l);
  }

  function Least(a: int, b: int): int {
    if a <= b then a else b
  }

  /** The service score: full without services, else the percentage that is up, rounded down, at most
      70 if one took more than three seconds and 80 if a certificate has fourteen days or less left. */
  lemma ServiceMeans(i: Inputs, l: Lists)
    ensures var s, n := HealthOf(i, l).service, |l.http|;
            var slow := if exists h :: h in l.http && h.duration > 3000.0 then 70 else 100;
            var ending := if exists h :: h in l.http && 0 < h.tlsDays <= 14 then 80 else 100;
      && (n == 0 ==> s == 100)
      && (n > 0 ==> s == Least(Least(100 * Number(l.http, (h: Http) => h.up) / n, slow), ending))
  {
    hide HealthOf, Count, Greatest, MinTls;
    Kept(i, l);
    NumberIs(l.http, HttpUp);
    SameNumber(l.http, HttpUp, (h: Http) => h.up);
    GreatestIs(l.http, HttpTime);
    MinTlsIs(l.http);
    var up, n := Count(l.http, HttpUp), |l.http|;
    if n > 0 {
      Rounded(up, n, 100);
      Quotient(up, n, 100);
    }
    assert forall h :: h in l.http ==> h.duration == HttpTime(h);
  }

  lemma {:induction false} MinTlsIs(services: seq<Http>)
    ensures MinTls(services).None? <==> forall h :: h in services ==> h.tlsDays <= 0
    ensures MinTls(services).Some? ==>
              (forall h :: h in services && h.tlsDays > 0 ==> MinTls(services).value <= h.tlsDays)
              && MinTls(services).value > 0
              && exists h :: h in services && h.tlsDays == MinTls(services).value
  {
    if services != [] {
      var n := |services| - 1;
      MinTlsIs(services[..n]);
      assert services == services[..n] + [services[n]];
    }
  }

  /** The inventory score: 90 with new devices, 70 with a known one missing. */
  lemma InventoryMeans(i: Inputs, l: Lists)
    ensures HealthOf(i, l).inventory == if i.missingDevices > 0 then 70 else if i.newDevices > 0 then 90 else 100
  {
    hide HealthOf;
    Kept(i, l);
  }

  /** The overall score: a fifth of the five, rounded down, or the cap if that is less. */
  lemma OverallIs(i: Inputs, l: Lists)
    ensures var h := HealthOf(i, l);
      h.overall == Least((h.wan + h.dns + h.gateway + h.service + h.inventory) / 5, Cap(i, l))
  {
    hide HealthOf, Cap;
    OverallMeans(i, l);
  }
}
