/** Sums and means of measurements, over the reals. */
module Averages {
  import opened Permutations

  function Sum(values: seq<real>): real {
    if values == [] then 0.0 else Sum(values[..|values| - 1]) + values[|values| - 1]
  }

  function Mean(values: seq<real>): real
    requires values != []
  {
    Sum(values) / |values| as real
  }

  lemma {:induction false} SumAppend(a: seq<real>, b: seq<real>)
    ensures Sum(a + b) == Sum(a) + Sum(b)
  {
    if b == [] {
      assert a + b == a;
    } else {
      SumAppend(a, b[..|b| - 1]);
      assert (a + b)[..|a + b| - 1] == a + b[..|b| - 1];
    }
  }

  lemma SumPush(front: seq<real>, x: real)
    ensures Sum(front + [x]) == Sum(front) + x
  {
    assert (front + [x])[..|front|] == front;
  }

  /** Taking one value out takes it out of the sum. */
  lemma Taken(front: seq<real>, x: real, back: seq<real>)
    ensures Sum(front + [x] + back) == Sum(front + back) + x
  {
    hide Sum;
    SumAppend(front + [x], back);
    SumPush(front, x);
    SumAppend(front, back);
  }

  /** The sum does not depend on the order. */
  lemma {:induction false} SumForgets(a: seq<real>, b: seq<real>)
    requires multiset(a) == multiset(b)
    ensures Sum(a) == Sum(b)
  {
    hide Sum;
    assert |a| == |multiset(a)| && |b| == |multiset(b)|;
    if a == [] {
      assert b == [];
    } else {
      var x := a[|a| - 1];
      var front, back := Place(a, b);
      assert a == a[..|a| - 1] + [x];
      SumPush(a[..|a| - 1], x);
      Taken(front, x, back);
      SumForgets(a[..|a| - 1], front + back);
    }
  }

  lemma {:induction false} SumBounds(values: seq<real>, low: real, high: real)
    requires forall i :: 0 <= i < |values| ==> low <= values[i] <= high
    ensures low * |values| as real <= Sum(values) <= high * |values| as real
  {
    if values != [] {
      var n := |values| - 1;
      SumBounds(values[..n], low, high);
      assert low * |values| as real == low * n as real + low;
      assert high * |values| as real == high * n as real + high;
    }
  }

  lemma MeanBounds(values: seq<real>, low: real, high: real)
    requires values != [] && forall i :: 0 <= i < |values| ==> low <= values[i] <= high
    ensures low <= Mean(values) <= high
  {
    SumBounds(values, low, high);
    Divided(Sum(values), |values| as real, low);
    Divided(Sum(values), |values| as real, high);
  }

  lemma Divided(a: real, n: real, c: real)
    requires n > 0.0
    ensures (a / n) * n == a
    ensures a / n <= c <==> a <= c * n
    ensures c <= a / n <==> c * n <= a
  {
    var q := a / n;
    assert q * n == a;
    if q <= c { assert q * n <= c * n; }
    if q > c { assert (q - c) * n > 0.0; }
    if q < c { assert (c - q) * n > 0.0; }
  }
}
