/** The robust baseline against which a new measurement is compared. */
module Baseline {
  import opened Averages
  import opened Wrappers

  /** A stored ping or HTTP result: name and host or URL, and latency or duration. */
  datatype Sample = Sample(id: int, name: string, address: string, up: bool, amount: real, at: int)

  function Kept(values: seq<real>, limit: real): seq<real> {
    if values == [] then []
    else Kept(values[..|values| - 1], limit) + (if values[|values| - 1] <= limit then [values[|values| - 1]] else [])
  }

  function Trimmed(values: seq<real>): Option<real> {
    if |values| < 5 then None
    else
      var kept := Kept(values, Mean(values) * 3.0);
      if kept == [] then None else Some(Mean(kept))
  }

  predicate Usable(current: Sample, item: Sample, cutoff: int) {
    && item.name == current.name && item.address == current.address && item.up && item.amount > 0.0
    && item.at >= cutoff && item.id != current.id
  }

  function Samples(current: Sample, all: seq<Sample>, cutoff: int): seq<real> {
    if all == [] then []
    else
      var last := all[|all| - 1];
      Samples(current, all[..|all| - 1], cutoff) + (if Usable(current, last, cutoff) then [last.amount] else [])
  }

  lemma SumNone()
    ensures Sum([]) == 0.0
  {
  }

  lemma KeptNext(front: seq<real>, x: real, limit: real)
    ensures Kept(front + [x], limit) == if x <= limit then Kept(front, limit) + [x] else Kept(front, limit)
    ensures Sum(Kept(front + [x], limit)) == Sum(Kept(front, limit)) + if x <= limit then x else 0.0
  {
    assert (front + [x])[..|front|] == front;
    SumPush(Kept(front, limit), x);
  }

  method AverageFloat(values: seq<real>) returns (average: real)
    ensures average == if values == [] then 0.0 else Mean(values)
  {
    var sum := 0.0;
    for i := 0 to |values|
      invariant sum == Sum(values[..i])
    {
      assert values[..i + 1][..i] == values[..i];
      sum := sum + values[i];
    }
    assert values[..|values|] == values;
    average := sum / (if |values| > 1 then |values| as real else 1.0);
  }

  method TrimmedAverage(values: seq<real>) returns (average: real, ok: bool)
    ensures if ok then Trimmed(values) == Some(average) else Trimmed(values) == None && average == 0.0
  {
    if |values| < 5 {
      return 0.0, false;
    }
    hide Sum;
    var sum, count := 0.0, 0;
    var avg := AverageFloat(values);
    SumNone();
    for i := 0 to |values|
      invariant sum == Sum(Kept(values[..i], avg * 3.0)) && count == |Kept(values[..i], avg * 3.0)|
    {
      KeptNext(values[..i], values[i], avg * 3.0);
      assert values[..i] + [values[i]] == values[..i + 1];
      if values[i] <= avg * 3.0 {
        sum := sum + values[i];
        count := count + 1;
      }
    }
    assert values[..|values|] == values;
    if count == 0 {
      return 0.0, false;
    }
    return sum / count as real, true;
  }

  predicate AtLeast(values: seq<real>, low: real) {
    forall i :: 0 <= i < |values| ==> low <= values[i]
  }

  /** pingBaseline and httpBaseline. */
  method BaselineOf(current: Sample, all: seq<Sample>, cutoff: int) returns (average: real, ok: bool)
    ensures ok <==> |Samples(current, all, cutoff)| >= 5
    ensures if ok then Trimmed(Samples(current, all, cutoff)) == Some(average) else average == 0.0
    ensures ok ==> var values := Samples(current, all, cutoff);
      && (forall low :: AtLeast(values, low) ==> low <= average) && average <= Mean(values)
  {
    hide Sum, Kept, Mean;
    var values := [];
    for i := 0 to |all|
      invariant values == Samples(current, all[..i], cutoff)
    {
      assert all[..i + 1][..i] == all[..i];
      if !Usable(current, all[i], cutoff) {
        continue;
      }
      values := values + [all[i].amount];
    }
    assert all[..|all|] == all;
    average, ok := TrimmedAverage(values);
    SamplesPositive(current, all, cutoff);
    if |values| >= 5 {
      Robust(values);
      forall low | AtLeast(values, low) ensures low <= average {
        TrimmedAbove(values, low);
      }
    }
  }

  lemma {:induction false} SamplesPositive(current: Sample, all: seq<Sample>, cutoff: int)
    ensures forall i :: 0 <= i < |Samples(current, all, cutoff)| ==> Samples(current, all, cutoff)[i] > 0.0
  {
    if all != [] {
      SamplesPositive(current, all[..|all| - 1], cutoff);
    }
  }

  /** A positive amount of another result of the same name and address that succeeded since the cutoff. */
  predicate Measured(current: Sample, item: Sample, cutoff: int, x: real) {
    && item.amount == x && x > 0.0 && item.up && item.at >= cutoff && item.id != current.id
    && item.name == current.name && item.address == current.address
  }

  function Hits(current: Sample, all: seq<Sample>, cutoff: int, x: real): set<int> {
    set k | 0 <= k < |all| && Measured(current, all[k], cutoff, x)
  }

  lemma HitsNext(current: Sample, all: seq<Sample>, cutoff: int, x: real)
    requires all != []
    ensures var n := |all| - 1;
      |Hits(current, all, cutoff, x)| ==
      |Hits(current, all[..n], cutoff, x)| + if Measured(current, all[n], cutoff, x) then 1 else 0
  {
    hide Measured;
    var n := |all| - 1;
    var before := Hits(current, all[..n], cutoff, x);
    assert Hits(current, all, cutoff, x) == if Measured(current, all[n], cutoff, x) then before + {n} else before;
  }

  /** The samples are exactly these amounts, each as often as it was measured. */
  lemma {:induction false} SamplesExactly(current: Sample, all: seq<Sample>, cutoff: int, x: real)
    ensures multiset(Samples(current, all, cutoff))[x] == |Hits(current, all, cutoff, x)|
  {
    hide Hits;
    if all == [] {
      NoHits(current, cutoff, x);
    } else {
      var front, last := all[..|all| - 1], all[|all| - 1];
      SamplesExactly(current, front, cutoff, x);
      HitsNext(current, all, cutoff, x);
      Pushed(Samples(current, front, cutoff), last.amount, x);
    }
  }

  lemma NoHits(current: Sample, cutoff: int, x: real)
    ensures Hits(current, [], cutoff, x) == {}
  {
  }

  /** The baseline: the mean of the samples that are at most three times the mean of all of them. */
  lemma TrimmedExactly(values: seq<real>, kept: seq<real>)
    requires |values| >= 5 && forall i :: 0 <= i < |values| ==> values[i] > 0.0
    requires forall x :: multiset(kept)[x] ==
               if x <= 3.0 * (Sum(values) / |values| as real) then multiset(values)[x] else 0
    ensures kept != [] && Trimmed(values) == Some(Sum(kept) / |kept| as real)
  {
    hide Kept, Sum;
    var limit := Mean(values) * 3.0;
    Robust(values);
    forall x ensures multiset(kept)[x] == multiset(Kept(values, limit))[x] {
      KeptMultiset(values, limit, x);
    }
    assert multiset(kept) == multiset(Kept(values, limit));
    assert |kept| == |multiset(kept)| && |Kept(values, limit)| == |multiset(Kept(values, limit))|;
    SumForgets(kept, Kept(values, limit));
  }

  function Weight(limit: real, count: int): real {
    limit * count as real
  }

  lemma WeightNext(limit: real, count: int)
    ensures Weight(limit, count + 1) == Weight(limit, count) + limit && Weight(limit, 0) == 0.0
  {
    assert limit * (count + 1) as real == limit * count as real + limit;
  }

  /** What is discarded weighs more than the limit each, so the rest weighs that much less. */
  lemma {:induction false} KeptWeight(values: seq<real>, limit: real)
    requires forall i :: 0 <= i < |values| ==> values[i] > 0.0
    ensures var kept := Kept(values, limit); var discarded := |values| - |kept|;
      && discarded >= 0 && Sum(kept) >= 0.0 && (kept != [] ==> Sum(kept) > 0.0)
      && (discarded == 0 ==> Sum(kept) == Sum(values))
      && (discarded > 0 ==> Sum(kept) + Weight(limit, discarded) < Sum(values))
  {
    hide Weight;
    if values != [] {
      hide Kept, Sum;
      var n := |values| - 1;
      var front, last := values[..n], values[n];
      KeptWeight(front, limit);
      KeptNext(front, last, limit);
      SumPush(front, last);
      assert front + [last] == values;
      WeightNext(limit, n - |Kept(front, limit)|);
    }
  }

  /** With five or more positive samples fewer than a third are discarded, so there is always
      something to average, and the result is no more than the untrimmed mean. */
  lemma Robust(values: seq<real>)
    requires |values| >= 5 && forall i :: 0 <= i < |values| ==> values[i] > 0.0
    ensures var kept := Kept(values, Mean(values) * 3.0);
      3 * (|values| - |kept|) < |values| && Trimmed(values) == Some(Mean(kept)) && Mean(kept) <= Mean(values)
  {
    hide Kept, Sum;
    var mean, n := Mean(values), |values| as real;
    var kept := Kept(values, mean * 3.0);
    KeptWeight(values, mean * 3.0);
    SumPositive(values);
    Divided(Sum(values), n, 0.0);
    if |kept| < |values| {
      Outweighed(mean, n, (|values| - |kept|) as real, Sum(kept));
    }
    assert Sum(kept) <= mean * |kept| as real;
    Divided(Sum(kept), |kept| as real, mean);
  }

  lemma SumPositive(values: seq<real>)
    requires values != [] && forall i :: 0 <= i < |values| ==> values[i] > 0.0
    ensures Sum(values) > 0.0
  {
    if |values| > 1 {
      SumPositive(values[..|values| - 1]);
    } else {
      assert values[..0] == [];
    }
  }

  /** Values of three times the mean each cannot make up a third of the samples. */
  lemma Outweighed(mean: real, n: real, d: real, rest: real)
    requires mean > 0.0 && d > 0.0 && rest >= 0.0 && rest + (mean * 3.0) * d < mean * n
    ensures 3.0 * d < n && rest <= mean * (n - d)
  {
    assert (mean * 3.0) * d == mean * (3.0 * d);
    assert mean * n - mean * (3.0 * d) == mean * (n - 3.0 * d);
    Positive(mean, n - 3.0 * d);
    assert mean * (3.0 * d) == mean * d + 2.0 * (mean * d);
    assert mean * d >= 0.0;
  }

  lemma Positive(m: real, x: real)
    requires m > 0.0 && m * x > 0.0
    ensures x > 0.0
  {
  }

  lemma {:induction false} KeptAmong(values: seq<real>, limit: real)
    ensures forall v :: v in Kept(values, limit) ==> v in values && v <= limit
  {
    if values != [] {
      var n := |values| - 1;
      KeptAmong(values[..n], limit);
      assert values == values[..n] + [values[n]];
    }
  }

  lemma TrimmedAbove(values: seq<real>, low: real)
    requires Trimmed(values).Some? && AtLeast(values, low)
    ensures low <= Trimmed(values).value
  {
    hide Kept, Mean;
    var limit := Mean(values) * 3.0;
    var kept := Kept(values, limit);
    KeptAmong(values, limit);
    forall i | 0 <= i < |kept| ensures low <= kept[i] <= limit {
      assert kept[i] in kept;
    }
    MeanBounds(kept, low, limit);
  }

  lemma {:induction false} KeptMultiset(values: seq<real>, limit: real, x: real)
    ensures multiset(Kept(values, limit))[x] == if x <= limit then multiset(values)[x] else 0
  {
    if values != [] {
      hide Kept;
      var n := |values| - 1;
      var front, last := values[..n], values[n];
      KeptMultiset(front, limit, x);
      KeptNext(front, last, limit);
      assert values == front + [last];
      Pushed(front, last, x);
      Pushed(Kept(front, limit), last, x);
    }
  }

  lemma Pushed(s: seq<real>, y: real, x: real)
    ensures multiset(s + [y])[x] == multiset(s)[x] + if x == y then 1 else 0
  {
  }

  /** The order of the samples does not matter. */
  lemma BaselineForgets(a: seq<real>, b: seq<real>)
    requires multiset(a) == multiset(b)
    ensures Trimmed(a) == Trimmed(b)
  {
    hide Kept, Sum;
    assert |a| == |multiset(a)| && |b| == |multiset(b)|;
    SumForgets(a, b);
    if |a| >= 5 {
      var limit := Mean(a) * 3.0;
      var ka, kb := Kept(a, limit), Kept(b, limit);
      forall x ensures multiset(ka)[x] == multiset(kb)[x] {
        KeptMultiset(a, limit, x);
        KeptMultiset(b, limit, x);
      }
      assert multiset(ka) == multiset(kb);
      assert |ka| == |multiset(ka)| && |kb| == |multiset(kb)|;
      SumForgets(ka, kb);
    }
  }
}
