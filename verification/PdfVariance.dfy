/** The variance computed by the block classifier, over the reals, and the two bounds that
    decide what the classifier can answer. */
module PdfVariance {
  function Sum(vs: seq<real>): real {
    if vs == [] then 0.0 else Sum(vs[..|vs| - 1]) + vs[|vs| - 1]
  }

  /** Sum of squared distances to `c`. */
  function Deviation(vs: seq<real>, c: real): real {
    if vs == [] then 0.0
    else Deviation(vs[..|vs| - 1], c) + (vs[|vs| - 1] - c) * (vs[|vs| - 1] - c)
  }

  function Mean(vs: seq<real>): real
    requires vs != []
  {
    Sum(vs) / |vs| as real
  }

  function ComputeVariance(values: seq<real>): real {
    if |values| == 0 then 0.0 else Deviation(values, Mean(values)) / |values| as real
  }

  /** The sum of the squared differences of all pairs of values. */
  function Pairwise(vs: seq<real>): real {
    if vs == [] then 0.0 else Pairwise(vs[..|vs| - 1]) + Deviation(vs[..|vs| - 1], vs[|vs| - 1])
  }

  // ----- the deviation about any centre, expanded -----

  lemma ExpandStep(n: real, s: real, v: real, c: real)
    ensures (v - c) * (v - c) == (v - 0.0) * (v - 0.0) - 2.0 * c * v + c * c
    ensures 2.0 * c * (s + v) == 2.0 * c * s + 2.0 * c * v
    ensures (n + 1.0) * c * c == n * c * c + c * c
  {
  }

  lemma {:induction false} DeviationExpands(vs: seq<real>, c: real)
    ensures Deviation(vs, c) == Deviation(vs, 0.0) - 2.0 * c * Sum(vs) + |vs| as real * c * c
  {
    if vs != [] {
      var front, v := vs[..|vs| - 1], vs[|vs| - 1];
      DeviationExpands(front, c);
      ExpandStep(|front| as real, Sum(front), v, c);
      assert |vs| as real == |front| as real + 1.0;
    }
  }

  lemma PairwiseUnfolds(vs: seq<real>)
    requires vs != []
    ensures var front, v := vs[..|vs| - 1], vs[|vs| - 1];
      && Pairwise(vs) == Pairwise(front) + Deviation(front, v)
      && Deviation(vs, 0.0) == Deviation(front, 0.0) + (v - 0.0) * (v - 0.0)
      && Sum(vs) == Sum(front) + v
      && |vs| as real == |front| as real + 1.0
  {
  }

  lemma PairwiseStep(n: real, q: real, s: real, v: real, p: real, d: real, n': real, q': real, s': real)
    requires p == n * q - s * s && d == q - 2.0 * v * s + n * v * v
    requires n' == n + 1.0 && q' == q + (v - 0.0) * (v - 0.0) && s' == s + v
    ensures p + d == n' * q' - s' * s'
  {
    assert n' * q' == n * q + q + n * (v * v) + v * v;
    assert s' * s' == s * s + 2.0 * (s * v) + v * v;
  }

  lemma PairwisePush(front: seq<real>, v: real, vs: seq<real>)
    requires vs != [] && front == vs[..|vs| - 1] && v == vs[|vs| - 1]
    requires Pairwise(front) == |front| as real * Deviation(front, 0.0) - Sum(front) * Sum(front)
    ensures Pairwise(vs) == |vs| as real * Deviation(vs, 0.0) - Sum(vs) * Sum(vs)
  {
    hide Pairwise, Deviation, Sum;
    PairwiseUnfolds(vs);
    DeviationExpands(front, v);
    PairwiseStep(|front| as real, Deviation(front, 0.0), Sum(front), v, Pairwise(front), Deviation(front, v),
                 |vs| as real, Deviation(vs, 0.0), Sum(vs));
  }

  lemma {:induction false} PairwiseExpands(vs: seq<real>)
    ensures Pairwise(vs) == |vs| as real * Deviation(vs, 0.0) - Sum(vs) * Sum(vs)
  {
    if vs != [] {
      PairwiseExpands(vs[..|vs| - 1]);
      PairwisePush(vs[..|vs| - 1], vs[|vs| - 1], vs);
    }
  }

  lemma AboutMean(n: real, q: real, s: real, m: real, d: real, p: real)
    requires n * m == s && d == q - 2.0 * m * s + n * m * m && p == n * q - s * s
    ensures n * d == p
  {
    assert d == q - m * s by {
      assert n * m * m == s * m;
    }
    assert n * d == n * q - n * m * s;
  }

  lemma PairwiseIsDeviation(vs: seq<real>, m: real)
    requires |vs| as real * m == Sum(vs)
    ensures |vs| as real * Deviation(vs, m) == Pairwise(vs)
  {
    hide Deviation, Pairwise, Sum;
    PairwiseExpands(vs);
    DeviationExpands(vs, m);
    AboutMean(|vs| as real, Deviation(vs, 0.0), Sum(vs), m, Deviation(vs, m), Pairwise(vs));
  }

  lemma NonNegativeProduct(a: real, b: real)
    requires a >= 0.0 && b >= 0.0
    ensures a * b >= 0.0
  {
  }

  lemma CompleteSquare(n: real, s: real, m: real, c: real, q: real, dm: real, dc: real)
    requires n * m == s && n >= 0.0
    requires dm == q - 2.0 * m * s + n * m * m && dc == q - 2.0 * c * s + n * c * c
    ensures dm <= dc
  {
    var u, w := n * m, n * c;
    assert (m - c) * (m - c) >= 0.0;
    NonNegativeProduct(n, (m - c) * (m - c));
    assert n * ((m - c) * (m - c)) == u * m - 2.0 * (u * c) + w * c by {
      assert (m - c) * (m - c) == m * m - 2.0 * (m * c) + c * c;
      assert n * (m * m) == u * m && n * (m * c) == u * c && n * (c * c) == w * c;
    }
    assert 2.0 * c * s == 2.0 * (u * c) && 2.0 * m * s == 2.0 * (u * m);
  }

  /** The mean minimises the deviation. */
  lemma MeanMinimises(vs: seq<real>, m: real, c: real)
    requires |vs| as real * m == Sum(vs)
    ensures Deviation(vs, m) <= Deviation(vs, c)
  {
    hide Deviation, Pairwise, Sum;
    DeviationExpands(vs, m);
    DeviationExpands(vs, c);
    CompleteSquare(|vs| as real, Sum(vs), m, c, Deviation(vs, 0.0), Deviation(vs, m), Deviation(vs, c));
  }

  lemma MeanIsBalanced(vs: seq<real>)
    requires vs != []
    ensures |vs| as real * Mean(vs) == Sum(vs)
  {
  }

  lemma Cancel(n: real, x: real, y: real)
    requires n > 0.0 && n * x <= n * y
    ensures x <= y
  {
    assert x > y ==> n * (x - y) > 0.0;
    assert n * (x - y) == n * x - n * y;
  }

  // ----- values in a short interval -----

  lemma {:induction false} DeviationWithin(vs: seq<real>, c: real, h: real)
    requires forall i :: 0 <= i < |vs| ==> -h <= vs[i] - c <= h
    ensures Deviation(vs, c) <= |vs| as real * (h * h)
  {
    if vs != [] {
      var v := vs[|vs| - 1];
      DeviationWithin(vs[..|vs| - 1], c, h);
      assert -h <= v - c <= h;
      NonNegativeProduct(h - (v - c), h + (v - c));
      assert (h - (v - c)) * (h + (v - c)) == h * h - (v - c) * (v - c);
    }
  }

  lemma QuotientAtMost(a: real, n: real, b: real)
    requires n > 0.0 && a <= n * b
    ensures a / n <= b
  {
    assert n * (a / n) == a;
    Cancel(n, a / n, b);
  }

  /** Values inside an interval of length `2h` have variance at most `h * h`. */
  lemma SpreadBoundsVariance(vs: seq<real>, c: real, h: real)
    requires forall i :: 0 <= i < |vs| ==> -h <= vs[i] - c <= h
    ensures ComputeVariance(vs) <= h * h
  {
    if vs == [] {
      assert h * h >= 0.0;
    } else {
      MeanIsBalanced(vs);
      MeanMinimises(vs, Mean(vs), c);
      DeviationWithin(vs, c, h);
      QuotientAtMost(Deviation(vs, Mean(vs)), |vs| as real, h * h);
    }
  }

  // ----- values with short gaps -----

  const X_GAP_THRESHOLD: real := 25.0

  predicate Step(vs: seq<real>, i: int)
    requires 0 < i < |vs|
  {
    vs[i - 1] <= vs[i] <= vs[i - 1] + X_GAP_THRESHOLD
  }

  /** Sorted, with consecutive values at most 25 apart. */
  ghost predicate Gaps(vs: seq<real>) {
    forall i :: 0 < i < |vs| ==> Step(vs, i)
  }

  lemma GapsFront(vs: seq<real>)
    requires Gaps(vs) && vs != []
    ensures Gaps(vs[..|vs| - 1])
    ensures |vs| > 1 ==> vs[|vs| - 2] <= vs[|vs| - 1] <= vs[|vs| - 2] + X_GAP_THRESHOLD
  {
    var front := vs[..|vs| - 1];
    forall i | 0 < i < |front| ensures Step(front, i) {
      assert Step(vs, i);
    }
    if |vs| > 1 {
      assert Step(vs, |vs| - 1);
    }
  }

  /** 1 + 4 + ... + n * n. */
  function Squares(n: nat): real {
    if n == 0 then 0.0 else Squares(n - 1) + n as real * n as real
  }

  /** 12 * (Squares(0) + ... + Squares(n - 1)). */
  function Quartic(n: nat): real {
    if n == 0 then 0.0 else Quartic(n - 1) + 12.0 * Squares(n - 1)
  }

  lemma CubicStep(n: real)
    ensures (n - 1.0) * (n - 1.0 + 1.0) * (2.0 * (n - 1.0) + 1.0) + 6.0 * (n * n) == n * (n + 1.0) * (2.0 * n + 1.0)
  {
    var q := n * n;
    assert (n - 1.0) * (n - 1.0 + 1.0) == q - n && n * (n + 1.0) == q + n;
    assert (q - n) * (2.0 * n - 1.0) == 2.0 * (q * n) - 3.0 * q + n;
    assert (q + n) * (2.0 * n + 1.0) == 2.0 * (q * n) + 3.0 * q + n;
  }

  lemma {:induction false} SquaresClosed(n: nat)
    ensures 6.0 * Squares(n) == n as real * (n as real + 1.0) * (2.0 * n as real + 1.0)
  {
    if n > 0 {
      SquaresClosed(n - 1);
      CubicStep(n as real);
      assert (n - 1) as real == n as real - 1.0;
    }
  }

  lemma QuarticStep(n: real)
    ensures n * n * (n * n - 1.0) + 2.0 * (n * (n + 1.0) * (2.0 * n + 1.0))
         == (n + 1.0) * (n + 1.0) * ((n + 1.0) * (n + 1.0) - 1.0)
  {
    var q := n * n;
    var c, f := q * n, q * q;
    assert q * (q - 1.0) == f - q;
    assert n * (n + 1.0) == q + n;
    assert (q + n) * (2.0 * n + 1.0) == 2.0 * c + 3.0 * q + n;
    assert (n + 1.0) * (n + 1.0) == q + 2.0 * n + 1.0;
    var r := q + 2.0 * n;
    assert (r + 1.0) * (r + 1.0 - 1.0) == r * r + r;
    assert r * r == f + 4.0 * c + 4.0 * q;
  }

  lemma {:induction false} QuarticClosed(n: nat)
    ensures Quartic(n) == n as real * n as real * (n as real * n as real - 1.0)
  {
    if n > 0 {
      QuarticClosed(n - 1);
      SquaresClosed(n - 1);
      QuarticStep((n - 1) as real);
      assert (n - 1) as real + 1.0 == n as real;
    }
  }

  lemma SquareAtMost(u: real, j: real)
    requires 0.0 <= -u <= X_GAP_THRESHOLD * j
    ensures u * u <= 625.0 * (j * j)
  {
    var b := X_GAP_THRESHOLD * j;
    NonNegativeProduct(b + u, b - u);
    assert (b + u) * (b - u) == b * b - u * u;
    assert b * b == 625.0 * (j * j);
  }

  /** Gaps of at most 25 between consecutive values and to `top`: the squared distances to
      `top` add up to at most `625 * (1 + 4 + ... + n * n)`. */
  lemma {:induction false} DistancesToTop(vs: seq<real>, top: real, skipped: nat)
    requires Gaps(vs)
    requires vs != [] ==> vs[|vs| - 1] <= top <= vs[|vs| - 1] + X_GAP_THRESHOLD * (skipped + 1) as real
    ensures Deviation(vs, top) <= 625.0 * (Squares(skipped + |vs|) - Squares(skipped))
  {
    if vs != [] {
      var front, v := vs[..|vs| - 1], vs[|vs| - 1];
      GapsFront(vs);
      DistancesToTop(front, top, skipped + 1);
      assert skipped + 1 + |front| == skipped + |vs|;
      SquareAtMost(v - top, (skipped + 1) as real);
    }
  }

  lemma {:induction false} GapsBoundPairwise(vs: seq<real>)
    requires Gaps(vs)
    ensures 12.0 * Pairwise(vs) <= 625.0 * Quartic(|vs|)
  {
    if vs != [] {
      var front, v := vs[..|vs| - 1], vs[|vs| - 1];
      GapsFront(vs);
      GapsBoundPairwise(front);
      DistancesToTop(front, v, 0);
    }
  }

  lemma DivideTwice(n: real, d: real, p: real, q: real)
    requires n > 0.0 && n * d == p && 12.0 * p <= 625.0 * q && q == n * n * (n * n - 1.0)
    ensures 12.0 * (d / n) <= 625.0 * (n * n - 1.0)
  {
    var w, k := d / n, n * n - 1.0;
    assert n * w == d;
    assert n * (12.0 * (n * w)) == 12.0 * p && n * (n * (625.0 * k)) == 625.0 * q;
    Cancel(n, 12.0 * (n * w), n * (625.0 * k));
    assert n * (12.0 * w) == 12.0 * (n * w);
    Cancel(n, 12.0 * w, 625.0 * k);
  }

  /** Sorted values with gaps at most 25 have variance at most `625 * (n * n - 1) / 12`. */
  lemma GapsBoundVariance(vs: seq<real>)
    requires Gaps(vs) && vs != []
    ensures 12.0 * ComputeVariance(vs) <= 625.0 * (|vs| as real * |vs| as real - 1.0)
  {
    hide Deviation, Pairwise, Sum;
    GapsBoundPairwise(vs);
    MeanIsBalanced(vs);
    PairwiseIsDeviation(vs, Mean(vs));
    QuarticClosed(|vs|);
    DivideTwice(|vs| as real, Deviation(vs, Mean(vs)), Pairwise(vs), Quartic(|vs|));
  }
}
