/** Keeping the newest result for each key, and folds that do not depend on the order of a map's
    iteration. */
module Latest {
  import opened Permutations

  // ---- newest per key ----

  /** The map the latest-per-key loops build: a result replaces an older one of its key. */
  function LatestOf<T>(results: seq<T>, key: T -> string, at: T -> int): map<string, T> {
    if results == [] then map[]
    else
      var seen := LatestOf(results[..|results| - 1], key, at);
      var r := results[|results| - 1];
      if key(r) !in seen || at(r) > at(seen[key(r)]) then seen[key(r) := r] else seen
  }

  /** One way a range loop can list the values of the map, whose keys are those of its values. */
  ghost predicate Enumerates<T>(seen: map<string, T>, key: T -> string, out: seq<T>) {
    && (forall i :: 0 <= i < |out| ==> key(out[i]) in seen && seen[key(out[i])] == out[i])
    && (forall i, j :: 0 <= i < j < |out| ==> key(out[i]) != key(out[j]))
    && (forall k :: k in seen ==> seen[k] in out)
  }

  /** latestPerTarget and its siblings; the second loop may take the keys in any order. */
  method CollectLatest<T(==)>(results: seq<T>, key: T -> string, at: T -> int) returns (out: seq<T>)
    ensures Enumerates(LatestOf(results, key, at), key, out)
  {
    var seen: map<string, T> := map[];
    for i := 0 to |results|
      invariant seen == LatestOf(results[..i], key, at)
    {
      assert results[..i + 1][..i] == results[..i];
      var result := results[i];
      if key(result) !in seen || at(result) > at(seen[key(result)]) {
        seen := seen[key(result) := result];
      }
    }
    assert results[..|results|] == results;
    LatestKeyed(results, key, at);
    out := [];
    var left := seen.Keys;
    while left != {}
      invariant left <= seen.Keys
      invariant forall i :: 0 <= i < |out| ==>
              key(out[i]) in seen && key(out[i]) !in left && seen[key(out[i])] == out[i]
      invariant forall i, j :: 0 <= i < j < |out| ==> key(out[i]) != key(out[j])
      invariant forall k :: k in seen && k !in left ==> seen[k] in out
    {
      var k :| k in left;
      left := left - {k};
      out := out + [seen[k]];
    }
  }

  /** Each key has its newest result. */
  lemma {:induction false} LatestKeyed<T>(results: seq<T>, key: T -> string, at: T -> int)
    ensures var seen := LatestOf(results, key, at);
      && (forall k :: k in seen ==> key(seen[k]) == k && seen[k] in results)
      && (forall r :: r in results ==> key(r) in seen && at(r) <= at(seen[key(r)]))
  {
    if results != [] {
      LatestKeyed(results[..|results| - 1], key, at);
      assert results == results[..|results| - 1] + [results[|results| - 1]];
    }
  }

  /** Among results of the same time the first to arrive is kept. */
  lemma {:induction false} LatestFirst<T>(results: seq<T>, key: T -> string, at: T -> int, k: string) returns (i: nat)
    requires k in LatestOf(results, key, at)
    ensures i < |results| && results[i] == LatestOf(results, key, at)[k] && key(results[i]) == k
    ensures forall j :: 0 <= j < i && key(results[j]) == k ==> at(results[j]) < at(results[i])
    ensures forall j :: i < j < |results| && key(results[j]) == k ==> at(results[j]) <= at(results[i])
  {
    var n := |results| - 1;
    var front := results[..n];
    LatestKeyed(front, key, at);
    if k in LatestOf(front, key, at) {
      i := LatestFirst(front, key, at, k);
      assert forall j :: 0 <= j < n ==> front[j] == results[j];
      if key(results[n]) == k && at(results[n]) > at(results[i]) {
        forall j | 0 <= j < n && key(results[j]) == k ensures at(results[j]) < at(results[n]) {
          assert front[j] in front;
        }
        i := n;
      }
    } else {
      i := n;
      forall j | 0 <= j < n ensures key(results[j]) != k {
        assert front[j] in front;
      }
    }
  }

  /** No two different results of one key have the same time. */
  ghost predicate DistinctTimes<T(!new)>(results: seq<T>, key: T -> string, at: T -> int) {
    forall r, s :: r in results && s in results && key(r) == key(s) && at(r) == at(s) ==> r == s
  }

  /** The newest results do not depend on the order in which results arrive. */
  lemma LatestForgets<T(!new)>(a: seq<T>, b: seq<T>, key: T -> string, at: T -> int)
    requires multiset(a) == multiset(b) && DistinctTimes(a, key, at)
    ensures LatestOf(a, key, at) == LatestOf(b, key, at)
  {
    var m, n := LatestOf(a, key, at), LatestOf(b, key, at);
    SameElements(a, b);
    LatestKeyed(a, key, at);
    LatestKeyed(b, key, at);
    forall k ensures k in m <==> k in n {
      if k in m { assert m[k] in a && m[k] in b; }
      if k in n { assert n[k] in b && n[k] in a; }
    }
    forall k | k in m ensures m[k] == n[k] {
      assert m[k] in a && m[k] in b && n[k] in b && n[k] in a;
    }
  }

  lemma {:induction false} CountOnce<T>(out: seq<T>, key: T -> string, x: T)
    requires forall i, j :: 0 <= i < j < |out| ==> key(out[i]) != key(out[j])
    ensures multiset(out)[x] == if x in out then 1 else 0
  {
    if out != [] {
      var n := |out| - 1;
      CountOnce(out[..n], key, x);
      assert out == out[..n] + [out[n]];
    }
  }

  /** Two listings of one map are permutations of each other. */
  lemma ListingsAgree<T>(seen: map<string, T>, key: T -> string, a: seq<T>, b: seq<T>)
    requires Enumerates(seen, key, a) && Enumerates(seen, key, b)
    ensures multiset(a) == multiset(b)
  {
    forall x ensures multiset(a)[x] == multiset(b)[x] {
      CountOnce(a, key, x);
      CountOnce(b, key, x);
      assert x in a <==> x in b;
    }
  }

  // ---- folds ----

  function Count<T>(s: seq<T>, p: T -> bool): (n: nat)
    ensures n <= |s|
  {
    if s == [] then 0 else Count(s[..|s| - 1], p) + (if p(s[|s| - 1]) then 1 else 0)
  }

  function Max(a: real, b: real): real {
    if a < b then b else a
  }

  /** The greatest of some measurements, and zero. */
  function Greatest<T>(s: seq<T>, f: T -> real): (m: real)
    ensures m >= 0.0
  {
    if s == [] then 0.0 else Max(Greatest(s[..|s| - 1], f), f(s[|s| - 1]))
  }

  /** What a loop that appends one list for each element builds. */
  function Flat<T, U>(s: seq<T>, f: T -> seq<U>): seq<U> {
    if s == [] then [] else Flat(s[..|s| - 1], f) + f(s[|s| - 1])
  }

  method Gather<T, U>(s: seq<T>, f: T -> seq<U>) returns (out: seq<U>)
    ensures out == Flat(s, f)
  {
    out := [];
    for i := 0 to |s|
      invariant out == Flat(s[..i], f)
    {
      assert s[..i + 1][..i] == s[..i];
      out := out + f(s[i]);
    }
    assert s[..|s|] == s;
  }

  lemma {:induction false} CountAppend<T>(a: seq<T>, b: seq<T>, p: T -> bool)
    ensures Count(a + b, p) == Count(a, p) + Count(b, p)
  {
    if b == [] {
      assert a + b == a;
    } else {
      CountAppend(a, b[..|b| - 1], p);
      assert (a + b)[..|a + b| - 1] == a + b[..|b| - 1];
    }
  }

  lemma {:induction false} FlatAppend<T, U>(a: seq<T>, b: seq<T>, f: T -> seq<U>)
    ensures Flat(a + b, f) == Flat(a, f) + Flat(b, f)
  {
    if b == [] {
      assert a + b == a;
    } else {
      FlatAppend(a, b[..|b| - 1], f);
      assert (a + b)[..|a + b| - 1] == a + b[..|b| - 1];
    }
  }

  lemma {:induction false} CountForgets<T>(a: seq<T>, b: seq<T>, p: T -> bool)
    requires multiset(a) == multiset(b)
    ensures |a| == |b| && Count(a, p) == Count(b, p)
    decreases |a|
  {
    assert |a| == |multiset(a)| && |b| == |multiset(b)|;
    if a != [] {
      var x := a[|a| - 1];
      var front, back := Place(a, b);
      CountForgets(a[..|a| - 1], front + back, p);
      CountAppend(front + [x], back, p);
      CountAppend(front, [x], p);
      CountAppend(front, back, p);
      assert [x][..0] == [];
    }
  }

  lemma {:induction false} FlatForgets<T, U>(a: seq<T>, b: seq<T>, f: T -> seq<U>)
    requires multiset(a) == multiset(b)
    ensures multiset(Flat(a, f)) == multiset(Flat(b, f))
    decreases |a|
  {
    assert |a| == |multiset(a)| && |b| == |multiset(b)|;
    if a != [] {
      var x := a[|a| - 1];
      var front, back := Place(a, b);
      FlatForgets(a[..|a| - 1], front + back, f);
      FlatAppend(front + [x], back, f);
      FlatAppend(front, [x], f);
      FlatAppend(front, back, f);
      assert Flat([x], f) == f(x) by { assert [x][..0] == []; assert Flat([x], f) == Flat([], f) + f(x); }
      assert multiset(Flat(b, f)) == multiset(Flat(front, f)) + multiset(f(x)) + multiset(Flat(back, f));
    }
  }

  lemma {:induction false} GreatestIs<T>(s: seq<T>, f: T -> real)
    ensures forall x :: x in s ==> f(x) <= Greatest(s, f)
    ensures Greatest(s, f) == 0.0 || exists x :: x in s && f(x) == Greatest(s, f)
  {
    if s != [] {
      GreatestIs(s[..|s| - 1], f);
      assert s == s[..|s| - 1] + [s[|s| - 1]];
    }
  }

  lemma GreatestForgets<T>(a: seq<T>, b: seq<T>, f: T -> real)
    requires multiset(a) == multiset(b)
    ensures Greatest(a, f) == Greatest(b, f)
  {
    hide Greatest;
    SameElements(a, b);
    GreatestIs(a, f);
    GreatestIs(b, f);
  }

  lemma {:induction false} FlatSame<T, U>(s: seq<T>, f: T -> seq<U>, g: T -> seq<U>)
    requires forall x :: x in s ==> f(x) == g(x)
    ensures Flat(s, f) == Flat(s, g)
  {
    if s != [] {
      assert s == s[..|s| - 1] + [s[|s| - 1]];
      FlatSame(s[..|s| - 1], f, g);
    }
  }

  lemma {:induction false} FlatFrom<T, U>(s: seq<T>, f: T -> seq<U>, u: U)
    requires u in Flat(s, f)
    ensures exists x :: x in s && u in f(x)
  {
    var n := |s| - 1;
    if u in Flat(s[..n], f) {
      FlatFrom(s[..n], f, u);
      assert s == s[..n] + [s[n]];
    } else {
      assert s[n] in s;
    }
  }
}
