/**
 Sums over the values of a finite map.

 The canister adds up the entries of a HashMap in whatever order the map
 iterates; `Sum` therefore picks its keys in no particular order, and
 `SumRemove` shows that the order does not matter.
 */
module Sums {

  /** The sum of all values of `m`. */
  ghost function Sum<K>(m: map<K, nat>): nat
    decreases |m|
  {
    if m.Keys == {} then 0
    else
      var k :| k in m.Keys;
      assert |(m - {k}).Keys| < |m.Keys| by { assert (m - {k}).Keys == m.Keys - {k}; }
      m[k] + Sum(m - {k})
  }

  /** Any key can be taken out first: the sum does not depend on the order. */
  lemma {:induction false} SumRemove<K>(m: map<K, nat>, k: K)
    requires k in m
    ensures Sum(m) == m[k] + Sum(m - {k})
    decreases |m|
  {
    var j :| j in m && Sum(m) == m[j] + Sum(m - {j});
    if j != k {
      assert |(m - {j}).Keys| < |m.Keys| by { assert (m - {j}).Keys == m.Keys - {j}; }
      assert |(m - {k}).Keys| < |m.Keys| by { assert (m - {k}).Keys == m.Keys - {k}; }
      SumRemove(m - {j}, k);
      SumRemove(m - {k}, j);
      assert m - {j} - {k} == m - {k} - {j};
    }
  }

  /** Overwriting (or adding) one entry changes the sum by the difference. */
  lemma SumUpdate<K>(m: map<K, nat>, k: K, v: nat)
    ensures Sum(m[k := v]) + (if k in m then m[k] else 0) == Sum(m) + v
  {
    SumRemove(m[k := v], k);
    assert m[k := v] - {k} == m - {k};
    if k in m {
      SumRemove(m, k);
    } else {
      assert m - {k} == m;
    }
  }

  /**
   If every entry of `part`, scaled by `d`, is at most `n` times the entry of
   `whole` under the same key, then the same holds of the two sums.
   */
  lemma {:induction false} SumScaledBound<K>(part: map<K, nat>, whole: map<K, nat>, n: nat, d: nat)
    requires part.Keys <= whole.Keys
    requires forall k :: k in part ==> d * part[k] <= n * whole[k]
    ensures d * Sum(part) <= n * Sum(whole)
    decreases |whole|
  {
    if whole.Keys == {} {
      assert part.Keys == {};
      assert Sum(part) == 0;
    } else {
      var k :| k in whole;
      var others := whole - {k};
      var rest := part - {k};
      assert |others.Keys| < |whole.Keys| by { assert others.Keys == whole.Keys - {k}; }
      SumScaledBound(rest, others, n, d);
      SumRemove(whole, k);
      if k in part {
        SumRemove(part, k);
        AddScaledBounds(d, n, part[k], Sum(rest), Sum(part), whole[k], Sum(others), Sum(whole));
      } else {
        assert rest == part;
        AddToBound(d, n, Sum(part), whole[k], Sum(others), Sum(whole));
      }
    }
  }

  /** Adding two scaled bounds: from d*x <= n*u and d*y <= n*v follows d*(x+y) <= n*(u+v). */
  lemma AddScaledBounds(d: nat, n: nat, x: nat, y: nat, xy: nat, u: nat, v: nat, uv: nat)
    requires xy == x + y && uv == u + v
    requires d * x <= n * u && d * y <= n * v
    ensures d * xy <= n * uv
  {
    Distribute(d, xy, x, y);
    Distribute(n, uv, u, v);
  }

  /** Adding to the larger side: from d*y <= n*v follows d*y <= n*(u+v). */
  lemma AddToBound(d: nat, n: nat, y: nat, u: nat, v: nat, uv: nat)
    requires uv == u + v && d * y <= n * v
    ensures d * y <= n * uv
  {
    Distribute(n, uv, u, v);
    NonNegProduct(n, u);
  }

  lemma NonNegProduct(a: nat, b: nat)
    ensures a * b >= 0
  {
  }

  lemma Distribute(a: nat, s: nat, x: nat, y: nat)
    requires s == x + y
    ensures a * s == a * x + a * y
  {
  }
}
