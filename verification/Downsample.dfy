/** Reducing a series to at most a given number of chart points. */
module Downsample {
  import opened Averages

  function Div(a: nat, d: nat): nat
    requires d > 0
  {
    a / d
  }

  /** Where bucket i begins: floor(i * n / points). */
  function Start(i: nat, n: nat, points: nat): nat
    requires points > 0
  {
    Div(i * n, points)
  }

  function Bucket(values: seq<real>, points: nat, i: nat): (bucket: seq<real>)
    requires 0 < points < |values| && i < points
    ensures bucket != []
  {
    StartsApart(i, |values|, points);
    values[Start(i, |values|, points)..Start(i + 1, |values|, points)]
  }

  function Means(values: seq<real>, points: nat, count: nat): seq<real>
    requires 0 < points < |values| && count <= points
  {
    if count == 0 then [] else Means(values, points, count - 1) + [Mean(Bucket(values, points, count - 1))]
  }

  function Reduced(values: seq<real>, points: int): seq<real> {
    if points <= 0 || |values| <= points then values else Means(values, points, points)
  }

  lemma Rows(p: int, q: int, d: int)
    requires p < q && d > 0
    ensures p * d + d <= q * d
  {
    assert (q - p - 1) * d >= 0;
    assert (q - p - 1) * d == q * d - p * d - d;
  }

  /** The quotient and the remainder of a division are the only such pair. */
  lemma Unique(p: int, s: int, q: int, r: int, d: int)
    requires d > 0 && 0 <= s < d && 0 <= r < d && p * d + s == q * d + r
    ensures p == q
  {
    if p < q {
      Rows(p, q, d);
    } else if q < p {
      Rows(q, p, d);
    }
  }

  lemma DivMod(a: nat, d: nat)
    requires d > 0
    ensures a == Div(a, d) * d + a % d && 0 <= a % d < d
  {
  }

  lemma Quotient(a: nat, d: nat, q: nat, r: nat)
    requires d > 0 && a == q * d + r && r < d
    ensures Div(a, d) == q
  {
    hide Div;
    DivMod(a, d);
    Unique(Div(a, d), a % d, q, r, d);
  }

  lemma Distribute(a: int, b: int, d: int)
    ensures (a + b) * d == a * d + b * d
  {
  }

  lemma Between(q: int, s: int, a: int, r: int, w: int, t: int, d: int)
    requires 0 <= s < d && 0 <= r < d && 0 <= t < d && q * d + s == (a * d + r) + (w * d + t)
    ensures a + w <= q <= a + w + 1
  {
    Distribute(a, w, d);
    Distribute(a + w, 1, d);
    if q < a + w {
      Rows(q, a + w, d);
    } else if q > a + w + 1 {
      Rows(a + w + 1, q, d);
    }
  }

  lemma SumQuotient(x: nat, n: nat, d: nat)
    requires d > 0
    ensures Div(x, d) + Div(n, d) <= Div(x + n, d) <= Div(x, d) + Div(n, d) + 1
  {
    hide Div;
    DivMod(x, d);
    DivMod(n, d);
    DivMod(x + n, d);
    Between(Div(x + n, d), (x + n) % d, Div(x, d), x % d, Div(n, d), n % d, d);
  }

  lemma NoMore(x: nat, d: nat, n: nat)
    requires d > 0 && x <= d * n
    ensures Div(x, d) <= n
  {
    hide Div;
    DivMod(x, d);
    if n < Div(x, d) {
      Rows(n, Div(x, d), d);
    }
  }

  lemma AtLeastOne(n: nat, d: nat)
    requires 0 < d <= n
    ensures Div(n, d) >= 1
  {
    hide Div;
    DivMod(n, d);
    PositiveFactor(Div(n, d), d);
  }

  lemma PositiveFactor(q: int, d: int)
    requires d > 0 && q * d > 0
    ensures q > 0
  {
  }

  /** Consecutive buckets begin at least one value apart, and none reaches past the end. */
  lemma StartsApart(i: nat, n: nat, points: nat)
    requires 0 < points < n && i < points
    ensures Start(i, n, points) < Start(i + 1, n, points) <= n
    ensures n / points <= Start(i + 1, n, points) - Start(i, n, points) <= n / points + 1
  {
    Distribute(i, 1, n);
    if i + 1 < points {
      Rows(i + 1, points, n);
    }
    assert Div(n, points) == n / points;
    hide Div;
    SumQuotient(i * n, n, points);
    AtLeastOne(n, points);
    NoMore((i + 1) * n, points, n);
  }

  /** The nested loops of downsample, with its two guards, neither of which ever fires. */
  method DownsampleValues(values: seq<real>, maxPoints: int) returns (out: seq<real>)
    ensures out == Reduced(values, maxPoints)
  {
    if maxPoints <= 0 || |values| <= maxPoints {
      return values;
    }
    out := [];
    for i := 0 to maxPoints
      invariant out == Means(values, maxPoints, i)
    {
      StartsApart(i, |values|, maxPoints);
      var start := i * |values| / maxPoints;
      var end := (i + 1) * |values| / maxPoints;
      ghost var floorEnd := end;
      if end <= start {
        end := start + 1;
      }
      if end > |values| {
        end := |values|;
      }
      assert end == floorEnd;
      var total := 0.0;
      var bucket := values[start..end];
      for j := 0 to |bucket|
        invariant total == Sum(bucket[..j])
      {
        assert bucket[..j + 1][..j] == bucket[..j];
        total := total + bucket[j];
      }
      assert bucket[..|bucket|] == bucket;
      assert bucket == Bucket(values, maxPoints, i);
      out := out + [total / (end - start) as real];
    }
  }

  /** The buckets' sizes times the points drawn. */
  function Weighted(values: seq<real>, points: nat, count: nat): real
    requires 0 < points < |values| && count <= points
  {
    if count == 0 then 0.0
    else Weighted(values, points, count - 1)
         + |Bucket(values, points, count - 1)| as real * Mean(Bucket(values, points, count - 1))
  }

  /** The first buckets hold exactly the values before the next one begins. */
  lemma {:induction false} PrefixWeight(values: seq<real>, points: nat, count: nat)
    requires 0 < points < |values| && count <= points
    ensures Start(count, |values|, points) <= |values|
    ensures Weighted(values, points, count) == Sum(values[..Start(count, |values|, points)])
  {
    hide Start, Sum, Mean;
    var n := |values|;
    if count == 0 {
      StartEnds(n, points);
      assert values[..0] == [];
      SumNothing();
    } else {
      PrefixWeight(values, points, count - 1);
      StartsApart(count - 1, n, points);
      OneMore(values, Start(count - 1, n, points), Start(count, n, points));
    }
  }

  lemma SumNothing()
    ensures Sum([]) == 0.0
  {
  }

  lemma StartEnds(n: nat, points: nat)
    requires points > 0
    ensures Start(0, n, points) == 0 && Start(points, n, points) == n
  {
    Quotient(0, points, 0, 0);
    Quotient(points * n, points, n, 0);
  }

  lemma OneMore(values: seq<real>, a: nat, b: nat)
    requires a < b <= |values|
    ensures Sum(values[..b]) == Sum(values[..a]) + |values[a..b]| as real * Mean(values[a..b])
  {
    assert values[..b] == values[..a] + values[a..b];
    SumAppend(values[..a], values[a..b]);
    Divided(Sum(values[a..b]), |values[a..b]| as real, 0.0);
  }

  /** Nothing is lost or counted twice: the buckets tile the values, so the points weighted by
      their bucket sizes add up to the sum of the values. */
  lemma WeightConserved(values: seq<real>, points: nat)
    requires 0 < points < |values|
    ensures Start(0, |values|, points) == 0 && Start(points, |values|, points) == |values|
    ensures Weighted(values, points, points) == Sum(values)
  {
    PrefixWeight(values, points, points);
    StartEnds(|values|, points);
    assert values[..|values|] == values;
  }

  lemma {:induction false} MeansAre(values: seq<real>, points: nat, count: nat)
    requires 0 < points < |values| && count <= points
    ensures |Means(values, points, count)| == count
    ensures forall i :: 0 <= i < count ==> Means(values, points, count)[i] == Mean(Bucket(values, points, i))
  {
    if count > 0 {
      MeansAre(values, points, count - 1);
    }
  }

  /** At most the requested points, each the mean of its bucket and within the range of the series. */
  lemma PointsInRange(values: seq<real>, points: int, low: real, high: real)
    requires forall i :: 0 <= i < |values| ==> low <= values[i] <= high
    ensures var out := Reduced(values, points);
      && (points > 0 ==> |out| == if |values| <= points then |values| else points)
      && (forall i :: 0 <= i < |out| ==> low <= out[i] <= high)
  {
    if 0 < points < |values| {
      MeansAre(values, points, points);
      forall i | 0 <= i < points ensures low <= Means(values, points, points)[i] <= high {
        StartsApart(i, |values|, points);
        MeanBounds(Bucket(values, points, i), low, high);
      }
    }
  }
}
