/**
 Expected cost over a finite probability vector and the first-wins argmin.
 Nothing here depends on the shipped numbers: the main lemma holds for every
 cost matrix with increasing differences, of any size.
 */
module Argmin {

  /** Mass from position `k` on. */
  function Tail(p: seq<real>, k: nat): real
    requires k <= |p|
    decreases |p| - k
  {
    if k == |p| then 0.0 else p[k] + Tail(p, k + 1)
  }

  /** Expectation of `f` under `p`, restricted to the positions from `k` on. */
  function Dot(p: seq<real>, f: seq<real>, k: nat := 0): real
    requires k <= |p| == |f|
    decreases |p| - k
  {
    if k == |p| then 0.0 else p[k] * f[k] + Dot(p, f, k + 1)
  }

  /** Position of the least of the first `n` elements; the earliest one when several tie. */
  function FirstOf(c: seq<real>, n: nat): (i: nat)
    requires 0 < n <= |c|
    ensures i < n
    ensures forall j | 0 <= j < n :: c[i] <= c[j]
    ensures forall j | 0 <= j < i :: c[i] < c[j]
  {
    if n == 1 then 0
    else
      var i := FirstOf(c, n - 1);
      if c[n - 1] < c[i] then n - 1 else i
  }

  ghost predicate NonDecreasing(f: seq<real>) {
    forall i, j | 0 <= i <= j < |f| :: f[i] <= f[j]
  }

  /** First-order stochastic dominance: `q` puts at least as much mass as `p` on every upper tail. */
  ghost predicate Dominates(q: seq<real>, p: seq<real>) {
    && |p| == |q|
    && Tail(p, 0) == Tail(q, 0)
    && forall k | 0 <= k <= |p| :: Tail(p, k) <= Tail(q, k)
  }

  ghost predicate Rectangular(m: seq<seq<real>>, n: nat) {
    forall a | 0 <= a < |m| :: |m[a]| == n
  }

  /** The extra cost of a milder action over a stronger one grows with severity. */
  ghost predicate IncreasingDifferences(m: seq<seq<real>>, n: nat)
    requires Rectangular(m, n)
  {
    forall a, b, c, d | 0 <= a < b < |m| && 0 <= c <= d < n ::
      m[a][c] - m[b][c] <= m[a][d] - m[b][d]
  }

  function Costs(m: seq<seq<real>>, p: seq<real>): (r: seq<real>)
    requires Rectangular(m, |p|)
    ensures |r| == |m|
    ensures forall a | 0 <= a < |m| :: r[a] == Dot(p, m[a])
  {
    seq(|m|, a requires 0 <= a < |m| => Dot(p, m[a]))
  }

  /** Abel summation: the gap between two expectations is at least the gap in mass times the least value. */
  lemma {:induction false} AbelGap(p: seq<real>, q: seq<real>, f: seq<real>, k: nat)
    requires k < |p| == |q| == |f|
    requires NonDecreasing(f)
    requires forall j | k < j <= |p| :: Tail(p, j) <= Tail(q, j)
    ensures f[k] * (Tail(q, k) - Tail(p, k)) <= Dot(q, f, k) - Dot(p, f, k)
    decreases |p| - k
  {
    var rest := Tail(q, k + 1) - Tail(p, k + 1);
    Expand(q[k], p[k], f[k], rest);
    if k + 1 < |p| {
      AbelGap(p, q, f, k + 1);
      TimesMonotone(f[k], f[k + 1], rest);
    }
  }

  lemma Expand(q: real, p: real, f: real, rest: real)
    ensures f * (q - p + rest) == q * f - p * f + f * rest
  {
  }

  lemma TimesMonotone(x: real, y: real, r: real)
    requires x <= y && 0.0 <= r
    ensures x * r <= y * r
  {
  }

  lemma DominanceRaisesExpectation(p: seq<real>, q: seq<real>, f: seq<real>)
    requires Dominates(q, p) && |f| == |p|
    requires NonDecreasing(f)
    ensures Dot(p, f) <= Dot(q, f)
  {
    if p != [] {
      AbelGap(p, q, f, 0);
      assert f[0] * (Tail(q, 0) - Tail(p, 0)) == f[0] * 0.0;
    }
  }

  lemma {:induction false} DotMinus(p: seq<real>, f: seq<real>, g: seq<real>, h: seq<real>, k: nat := 0)
    requires k <= |p| == |f| == |g| == |h|
    requires forall i | 0 <= i < |p| :: h[i] == f[i] - g[i]
    ensures Dot(p, h, k) == Dot(p, f, k) - Dot(p, g, k)
    decreases |p| - k
  {
    if k < |p| {
      DotMinus(p, f, g, h, k + 1);
    }
  }

  /** Monotone comparative statics: shifting mass towards the severe classes never lowers the chosen action. */
  lemma ArgminMonotone(m: seq<seq<real>>, p: seq<real>, q: seq<real>)
    requires m != [] && Rectangular(m, |p|)
    requires IncreasingDifferences(m, |p|)
    requires Dominates(q, p)
    ensures FirstOf(Costs(m, p), |m|) <= FirstOf(Costs(m, q), |m|)
  {
    var a, b := FirstOf(Costs(m, p), |m|), FirstOf(Costs(m, q), |m|);
    if b < a {
      assert Dot(p, m[a]) < Dot(p, m[b]);
      assert Dot(q, m[b]) <= Dot(q, m[a]);
      var gap := seq(|p|, i requires 0 <= i < |p| => m[b][i] - m[a][i]);
      DotMinus(p, m[b], m[a], gap);
      DotMinus(q, m[b], m[a], gap);
      assert NonDecreasing(gap);
      DominanceRaisesExpectation(p, q, gap);
    }
  }
}
