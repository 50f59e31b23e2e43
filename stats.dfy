/** The statistics the window reduction uses: sums, `min`, `max`, `statistics.mean`,
    `statistics.pvariance`, and sums over the keys of a dictionary. */
module Stats {

  /** `sum(s)`, taken from the back so that appending one element is one unfolding. */
  function Sum(s: seq<nat>): nat {
    if s == [] then 0 else Sum(s[..|s| - 1]) + s[|s| - 1]
  }

  lemma {:induction false} SumConcat(a: seq<nat>, b: seq<nat>)
    ensures Sum(a + b) == Sum(a) + Sum(b)
    decreases |b|
  {
    if b != [] {
      assert (a + b)[..|a + b| - 1] == a + b[..|b| - 1];
      SumConcat(a, b[..|b| - 1]);
    } else {
      assert a + b == a;
    }
  }

  /** `min(s)` of a non-empty list. */
  function Min(s: seq<nat>): (m: nat)
    requires s != []
    ensures m in s
    ensures forall i :: 0 <= i < |s| ==> m <= s[i]
  {
    if |s| == 1 then s[0]
    else
      var m := Min(s[..|s| - 1]);
      assert forall i :: 0 <= i < |s| - 1 ==> s[..|s| - 1][i] == s[i];
      if s[|s| - 1] < m then s[|s| - 1] else m
  }

  /** `max(s)` of a non-empty list. */
  function Max(s: seq<nat>): (m: nat)
    requires s != []
    ensures m in s
    ensures forall i :: 0 <= i < |s| ==> s[i] <= m
  {
    if |s| == 1 then s[0]
    else
      var m := Max(s[..|s| - 1]);
      assert forall i :: 0 <= i < |s| - 1 ==> s[..|s| - 1][i] == s[i];
      if s[|s| - 1] > m then s[|s| - 1] else m
  }

  /** `statistics.mean(s)`, exact. */
  function Mean(s: seq<nat>): real
    requires s != []
  {
    Sum(s) as real / |s| as real
  }

  /** The sum lies between `|s|` copies of the minimum and of the maximum. */
  lemma {:induction false} SumBetween(s: seq<nat>, lo: nat, hi: nat)
    requires forall i :: 0 <= i < |s| ==> lo <= s[i] <= hi
    ensures |s| * lo <= Sum(s) <= |s| * hi
    decreases |s|
  {
    if s != [] {
      var init := s[..|s| - 1];
      assert forall i :: 0 <= i < |init| ==> init[i] == s[i];
      SumBetween(init, lo, hi);
      var n := |s|;
      assert n * lo == (n - 1) * lo + lo;
      assert n * hi == (n - 1) * hi + hi;
    }
  }

  /** `min(s) <= mean(s) <= max(s)` for a non-empty list. */
  lemma MeanBetweenMinMax(s: seq<nat>)
    requires s != []
    ensures Min(s) as real <= Mean(s) <= Max(s) as real
  {
    SumBetween(s, Min(s), Max(s));
    MeanBounds(Sum(s), |s|, Min(s), Max(s));
  }

  lemma MeanBounds(total: nat, n: nat, lo: nat, hi: nat)
    requires n > 0 && n * lo <= total <= n * hi
    ensures lo as real <= total as real / n as real <= hi as real
  {
    CastProduct(n, lo);
    CastProduct(n, hi);
    DivBounds(total as real, n as real, lo as real, hi as real);
  }

  lemma CastProduct(a: nat, b: nat)
    ensures (a * b) as real == (a as real) * (b as real)
  {
  }

  lemma DivBounds(x: real, n: real, lo: real, hi: real)
    requires n > 0.0 && n * lo <= x <= n * hi
    ensures lo <= x / n <= hi
  {
  }

  /** Sum of squared deviations from `m`. */
  function SquaredDeviations(s: seq<nat>, m: real): (r: real)
    ensures r >= 0.0
  {
    if s == [] then 0.0
    else
      var d := s[|s| - 1] as real - m;
      SquareNonNegative(d);
      SquaredDeviations(s[..|s| - 1], m) + d * d
  }

  lemma SquareNonNegative(d: real)
    ensures d * d >= 0.0
  {
    if d < 0.0 {
      assert d * d == (-d) * (-d);
    }
  }

  /** `statistics.pvariance(s)`: the population variance, never negative. */
  function PVariance(s: seq<nat>): (v: real)
    requires s != []
    ensures v >= 0.0
  {
    SquaredDeviations(s, Mean(s)) / |s| as real
  }

  /** Some element of a non-empty set (the choice is fixed, so this is a function). */
  ghost function Pick<K>(s: set<K>): (k: K)
    requires s != {}
    ensures k in s
  {
    var k :| k in s; k
  }

  /** The sum of `g` over the finite set `s`. */
  ghost function SetSum<K>(s: set<K>, g: K -> real): real
    decreases s
  {
    if s == {} then 0.0 else var k := Pick(s); g(k) + SetSum(s - {k}, g)
  }

  /** The sum does not depend on which element is taken out first. */
  lemma {:induction false} SetSumRemove<K>(s: set<K>, k: K, g: K -> real)
    requires k in s
    ensures SetSum(s, g) == g(k) + SetSum(s - {k}, g)
    decreases s
  {
    var p := Pick(s);
    if p != k {
      SetSumRemove(s - {p}, k, g);
      SetSumRemove(s - {k}, p, g);
      assert s - {p} - {k} == s - {k} - {p};
    }
  }

  /** Adding one more element to the set adds its term to the sum. */
  lemma SetSumAdd<K>(s: set<K>, k: K, g: K -> real)
    requires k !in s
    ensures SetSum(s + {k}, g) == SetSum(s, g) + g(k)
  {
    SetSumRemove(s + {k}, k, g);
    assert s + {k} - {k} == s;
  }

  /** A sum of non-negative terms is non-negative. */
  lemma {:induction false} SetSumNonNegative<K>(s: set<K>, g: K -> real)
    requires forall k :: k in s ==> g(k) >= 0.0
    ensures SetSum(s, g) >= 0.0
    decreases s
  {
    if s != {} {
      SetSumNonNegative(s - {Pick(s)}, g);
    }
  }

  /** A sum of positive terms over a non-empty set is positive. */
  lemma SetSumPositive<K>(s: set<K>, g: K -> real)
    requires s != {}
    requires forall k :: k in s ==> g(k) > 0.0
    ensures SetSum(s, g) > 0.0
  {
    SetSumNonNegative(s - {Pick(s)}, g);
  }

  /** The terms of two sums over the same set add up, so do the sums. */
  lemma {:induction false} SetSumLinear<K>(s: set<K>, f: K -> real, g: K -> real, h: K -> real)
    requires forall k :: k in s ==> h(k) == f(k) + g(k)
    ensures SetSum(s, h) == SetSum(s, f) + SetSum(s, g)
    decreases s
  {
    if s != {} {
      SetSumLinear(s - {Pick(s)}, f, g, h);
    }
  }

  /** `m.get(k, 0)`: the count a default-dictionary of ints reports for `k`. */
  function Get(m: map<nat, nat>, k: nat): nat {
    if k in m then m[k] else 0
  }

  /** The counts of `m` summed over the keys in `s`. */
  ghost function CountSum(m: map<nat, nat>, s: set<nat>): real {
    SetSum(s, k => Get(m, k) as real)
  }

  /** The total of the counts of a dictionary `m` (`sum(m.values())`). */
  ghost function CountTotal(m: map<nat, nat>): real {
    CountSum(m, m.Keys)
  }

  /** Summing over more keys than `m` holds adds only zeros. */
  lemma {:induction false} CountSumCovers(m: map<nat, nat>, s: set<nat>)
    requires m.Keys <= s
    ensures CountSum(m, s) == CountTotal(m)
    decreases s
  {
    if s != m.Keys {
      var k :| k in s && k !in m.Keys;
      SetSumRemove(s, k, j => Get(m, j) as real);
      CountSumCovers(m, s - {k});
    }
  }

  /** A histogram whose every count is the sum of the counts of two others has
      their two totals as its total. */
  lemma CountTotalMerge(a: map<nat, nat>, b: map<nat, nat>, c: map<nat, nat>)
    requires c.Keys == a.Keys + b.Keys
    requires forall k :: k in c ==> c[k] == Get(a, k) + Get(b, k)
    ensures CountTotal(c) == CountTotal(a) + CountTotal(b)
  {
    SetSumLinear(c.Keys, k => Get(a, k) as real, k => Get(b, k) as real, k => Get(c, k) as real);
    CountSumCovers(a, c.Keys);
    CountSumCovers(b, c.Keys);
  }

  /** The single-entry histogram `{k: 1}` totals one. */
  lemma CountTotalSingle(k: nat)
    ensures CountTotal(map[k := 1]) == 1.0
  {
    var g := j => Get(map[k := 1], j) as real;
    assert map[k := 1].Keys == {k};
    SetSumRemove({k}, k, g);
    assert {k} - {k} == {};
  }

  /** A histogram of positive counts with at least one key has a positive total. */
  lemma CountTotalPositive(m: map<nat, nat>)
    requires m != map[]
    requires forall k :: k in m ==> m[k] > 0
    ensures CountTotal(m) > 0.0
  {
    var k :| k in m;
    SetSumPositive(m.Keys, j => Get(m, j) as real);
  }
}
