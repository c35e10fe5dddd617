/**
 Label placement: labels pulled to where they belong, a gap apart, by merging runs of labels
 that would touch.

 Positions are exact reals. Taking `gap * k` off the `k`-th label in wanted order turns
 "at least a gap apart" into "not decreasing", and a run into a stretch `[a, b)` that is
 placed at its average. Most of the module reasons about that flattened list, `u`.
 */
module Spread {

  // ---- sums over a stretch -----------------------------------------------------

  ghost function Sum(u: seq<real>, a: nat, b: nat): real
    requires a <= b <= |u|
    decreases b
  {
    if a == b then 0.0 else Sum(u, a, b - 1) + u[b - 1]
  }

  lemma {:induction false} SumSplit(u: seq<real>, a: nat, b: nat, c: nat)
    requires a <= b <= c <= |u|
    ensures Sum(u, a, c) == Sum(u, a, b) + Sum(u, b, c)
    decreases c
  {
    if b < c {
      SumSplit(u, a, b, c - 1);
    }
  }

  ghost function Average(u: seq<real>, a: nat, b: nat): real
    requires a < b <= |u|
  {
    Sum(u, a, b) / (b - a) as real
  }

  lemma {:induction false} AverageSum(u: seq<real>, a: nat, b: nat)
    requires a < b <= |u|
    ensures Average(u, a, b) * (b - a) as real == Sum(u, a, b)
  {}

  // ---- stretches that belong together -------------------------------------------

  /** Every start of the stretch averages at least what the stretch does: its labels push
      each other, so none of it would rather be placed apart. */
  ghost predicate Together(u: seq<real>, a: nat, b: nat)
  {
    a < b <= |u| && forall c :: a < c <= b ==> Average(u, a, c) >= Average(u, a, b)
  }

  lemma {:induction false} Alone(u: seq<real>, a: nat)
    requires a < |u|
    ensures Together(u, a, a + 1)
  {}

  /** The average of two stretches lies between theirs. */
  lemma {:induction false} Between(u: seq<real>, a: nat, b: nat, c: nat)
    requires a < b < c <= |u|
    requires Average(u, a, b) >= Average(u, b, c)
    ensures Average(u, b, c) <= Average(u, a, c) <= Average(u, a, b)
    ensures (b - a) as real * (Average(u, a, b) - Average(u, a, c)) == (c - b) as real * (Average(u, a, c) - Average(u, b, c))
  {
    SumSplit(u, a, b, c);
    AverageSum(u, a, b);
    AverageSum(u, b, c);
    AverageSum(u, a, c);
    Weighted(Average(u, a, b), Average(u, b, c), Average(u, a, c), (b - a) as real, (c - b) as real);
  }

  lemma {:induction false} Weighted(x: real, y: real, m: real, p: real, q: real)
    requires p > 0.0 && q > 0.0 && x >= y && m * (p + q) == x * p + y * q
    ensures y <= m <= x
    ensures p * (x - m) == q * (m - y)
  {
    assert (x - m) * (p + q) == q * (x - y) >= 0.0;
    assert (m - y) * (p + q) == p * (x - y) >= 0.0;
    FactorSign(x - m, p + q);
    FactorSign(m - y, p + q);
  }

  lemma {:induction false} FactorSign(f: real, g: real)
    requires g > 0.0 && f * g >= 0.0
    ensures f >= 0.0
  {
    assert f == (f * g) / g;
  }

  /** Two stretches, the first averaging at least what the second does, belong together. */
  lemma {:induction false} Merged(u: seq<real>, a: nat, b: nat, c: nat)
    requires Together(u, a, b) && Together(u, b, c)
    requires Average(u, a, b) >= Average(u, b, c)
    ensures Together(u, a, c)
  {
    Between(u, a, b, c);
    forall d | a < d <= c
      ensures Average(u, a, d) >= Average(u, a, c)
    {
      if d > b {
        MergedTail(u, a, b, c, d);
      }
    }
  }

  lemma {:induction false} MergedTail(u: seq<real>, a: nat, b: nat, c: nat, d: nat)
    requires a < b < d <= c <= |u|
    requires Average(u, b, d) >= Average(u, b, c)
    requires Average(u, a, b) >= Average(u, b, c)
    ensures Average(u, a, d) >= Average(u, a, c)
  {
    Between(u, a, b, c);
    SumSplit(u, a, b, d);
    AverageSum(u, a, b);
    AverageSum(u, b, d);
    AverageSum(u, a, d);
    TailAverages(Average(u, a, b), Average(u, b, c), Average(u, b, d), Average(u, a, c), Average(u, a, d),
                 (b - a) as real, (c - b) as real, (d - b) as real);
  }

  lemma {:induction false} TailAverages(x: real, y: real, e: real, m: real, r: real, p: real, q: real, s: real)
    requires p > 0.0 && 0.0 < s <= q
    requires y <= m && y <= e
    requires p * (x - m) == q * (m - y)
    requires r * (p + s) == x * p + e * s
    ensures r >= m
  {
    WeighTail(x, e, m, r, p, s);
    LowTail(x, y, m, p, q, s);
    Times(s, e, y, m);
    NotBelow(s, e - y);
    NotBelow(q - s, m - y);
    FactorSign(r - m, p + s);
  }

  lemma {:induction false} WeighTail(x: real, e: real, m: real, r: real, p: real, s: real)
    requires r * (p + s) == x * p + e * s
    ensures (r - m) * (p + s) == p * (x - m) + s * (e - m)
  {}

  lemma {:induction false} LowTail(x: real, y: real, m: real, p: real, q: real, s: real)
    requires p * (x - m) == q * (m - y)
    ensures p * (x - m) + s * (y - m) == (q - s) * (m - y)
  {}

  lemma {:induction false} Times(s: real, e: real, y: real, m: real)
    ensures s * (e - m) == s * (e - y) + s * (y - m)
  {}

  lemma {:induction false} NotBelow(a: real, b: real)
    requires a >= 0.0 && b >= 0.0
    ensures a * b >= 0.0
  {}

  // ---- the best placement of one stretch ------------------------------------------

  ghost function Square(x: real): real
  {
    x * x
  }

  /** The squared distances of the labels in a stretch from what they want, added up. */
  ghost function Cost(x: seq<real>, u: seq<real>, a: nat, b: nat): real
    requires a <= b <= |u| == |x|
    decreases b
  {
    if a == b then 0.0 else Cost(x, u, a, b - 1) + Square(x[b - 1] - u[b - 1])
  }

  lemma {:induction false} CostSplit(x: seq<real>, u: seq<real>, a: nat, b: nat, c: nat)
    requires a <= b <= c <= |u| == |x|
    ensures Cost(x, u, a, c) == Cost(x, u, a, b) + Cost(x, u, b, c)
    decreases c
  {
    if b < c {
      CostSplit(x, u, a, b, c - 1);
    }
  }

  ghost predicate Monotone(x: seq<real>)
  {
    forall j, k :: 0 <= j < k < |x| ==> x[j] <= x[k]
  }

  /** Squared distances around `m`: moving to `z` costs at least the slope says. */
  lemma {:induction false} SlopeBound(z: real, m: real, w: real)
    ensures Square(z - w) >= Square(m - w) + 2.0 * ((z - m) * (m - w))
  {
    assert Square(z - w) == Square(m - w) + 2.0 * ((z - m) * (m - w)) + (z - m) * (z - m);
  }

  /** One more label: `before` is what the earlier ones cost above the average's cost. */
  lemma {:induction false} CostStep(before: real, t0: real, z: real, m: real, w: real, short: real)
    requires before >= 2.0 * (t0 * short)
    requires t0 <= z - m && short <= 0.0
    ensures before + Square(z - w) - Square(m - w) >= 2.0 * ((z - m) * (short + (m - w)))
  {
    SlopeBound(z, m, w);
    assert (z - m - t0) * short <= 0.0;
    assert t0 * short >= (z - m) * short;
    assert (z - m) * (short + (m - w)) == (z - m) * short + (z - m) * (m - w);
  }

  /** How far the wanted positions of the labels before `p` are below `m`, added up. */
  ghost function Slack(u: seq<real>, a: nat, p: nat, m: real): real
    requires a <= p <= |u|
    decreases p
  {
    if a == p then 0.0 else Slack(u, a, p - 1, m) + (m - u[p - 1])
  }

  lemma {:induction false} SlackSum(u: seq<real>, a: nat, p: nat, m: real)
    requires a <= p <= |u|
    ensures Slack(u, a, p, m) == m * (p - a) as real - Sum(u, a, p)
    decreases p
  {
    if a < p {
      SlackSum(u, a, p - 1, m);
      assert m * (p - a) as real == m * (p - 1 - a) as real + m;
    }
  }

  lemma {:induction false} SlackSign(u: seq<real>, a: nat, b: nat, p: nat)
    requires Together(u, a, b) && a < p <= b
    ensures Slack(u, a, p, Average(u, a, b)) <= 0.0
    ensures p == b ==> Slack(u, a, p, Average(u, a, b)) == 0.0
  {
    SlackSum(u, a, p, Average(u, a, b));
    AverageSum(u, a, p);
    ShortOf(Average(u, a, b), Average(u, a, p), (p - a) as real);
  }

  lemma {:induction false} ShortOf(m: real, e: real, n: real)
    requires m <= e && n > 0.0
    ensures m * n <= e * n
  {}

  /** Any rising placement of part of a stretch, against all of it at `m`. */
  lemma {:induction false} PartCost(z: seq<real>, x: seq<real>, u: seq<real>, a: nat, b: nat, p: nat, m: real) returns (slack: real)
    requires a < p <= b <= |u| == |x| == |z|
    requires forall q :: a < q <= b ==> Slack(u, a, q, m) <= 0.0
    requires Monotone(z) && forall k :: a <= k < b ==> x[k] == m
    ensures slack == Slack(u, a, p, m) && Above(Cost(z, u, a, p), Cost(x, u, a, p), z[p - 1] - m, slack)
    decreases p
  {
    slack := Slack(u, a, p, m);
    if p > a + 1 {
      var short := PartCost(z, x, u, a, b, p - 1, m);
      PartStep(Cost(z, u, a, p - 1), Cost(x, u, a, p - 1), z[p - 2] - m, z[p - 1], m, u[p - 1], short);
    } else {
      PartStart(z[p - 1], m, u[p - 1]);
    }
  }

  /** One placement costs more than another, at least what the slope at `t` says. */
  ghost predicate Above(cost: real, other: real, t: real, slack: real)
  {
    cost - other >= 2.0 * (t * slack)
  }

  lemma {:induction false} PartStart(z: real, m: real, w: real)
    ensures Above(0.0 + Square(z - w), 0.0 + Square(m - w), z - m, 0.0 + (m - w))
  {
    SlopeBound(z, m, w);
  }

  lemma {:induction false} PartStep(cost: real, other: real, t0: real, z: real, m: real, w: real, short: real)
    requires Above(cost, other, t0, short) && t0 <= z - m && short <= 0.0
    ensures Above(cost + Square(z - w), other + Square(m - w), z - m, short + (m - w))
  {
    CostStep(cost - other, t0, z, m, w, short);
  }

  /** No rising placement of a stretch costs less than its average. */
  lemma {:induction false} StretchBest(z: seq<real>, x: seq<real>, u: seq<real>, a: nat, b: nat)
    requires Together(u, a, b) && |u| == |x| == |z|
    requires Monotone(z) && forall k :: a <= k < b ==> x[k] == Average(u, a, b)
    ensures Cost(x, u, a, b) <= Cost(z, u, a, b)
  {
    forall q | a < q <= b
      ensures Slack(u, a, q, Average(u, a, b)) <= 0.0
    {
      SlackSign(u, a, b, q);
    }
    var slack := PartCost(z, x, u, a, b, b, Average(u, a, b));
    SlackSign(u, a, b, b);
    TimesZero(z[b - 1] - Average(u, a, b), slack);
  }

  lemma {:induction false} TimesZero(f: real, g: real)
    requires g == 0.0
    ensures f * g == 0.0
  {}

  // ---- a list cut into stretches ----------------------------------------------------

  ghost function Front<T>(s: seq<T>): seq<T>
    requires s != []
  {
    s[..|s| - 1]
  }

  ghost function Last<T>(s: seq<T>): T
    requires s != []
  {
    s[|s| - 1]
  }

  /** Where the runs start, and where the last ends; each run belongs together. */
  ghost predicate Cuts(u: seq<real>, cuts: seq<nat>)
  {
    if |cuts| <= 1 then cuts == [0]
    else
      var from, to := Last(Front(cuts)), Last(cuts);
      Cuts(u, Front(cuts)) && from < to <= |u| && Together(u, from, to)
  }

  /** Each run averages no more than the next. */
  ghost predicate Ordered(u: seq<real>, cuts: seq<nat>)
    requires Cuts(u, cuts)
  {
    |cuts| > 2 ==>
      && Ordered(u, Front(cuts))
      && Average(u, cuts[|cuts| - 3], cuts[|cuts| - 2]) <= Average(u, cuts[|cuts| - 2], cuts[|cuts| - 1])
  }

  /** Every label of a run is at the run's average. */
  ghost predicate PlacedAt(x: seq<real>, u: seq<real>, cuts: seq<nat>)
    requires Cuts(u, cuts) && |x| == |u|
  {
    |cuts| > 1 ==>
      var from, to := Last(Front(cuts)), Last(cuts);
      && PlacedAt(x, u, Front(cuts))
      && forall k :: from <= k < to ==> x[k] == Average(u, from, to)
  }

  lemma {:induction false} RunsBest(z: seq<real>, x: seq<real>, u: seq<real>, cuts: seq<nat>)
    requires Cuts(u, cuts) && |x| == |u| == |z| && PlacedAt(x, u, cuts) && Monotone(z)
    ensures Last(cuts) <= |u|
    ensures Cost(x, u, 0, Last(cuts)) <= Cost(z, u, 0, Last(cuts))
    decreases |cuts|
  {
    if |cuts| > 1 {
      var from, to := Last(Front(cuts)), Last(cuts);
      RunsBest(z, x, u, Front(cuts));
      StretchBest(z, x, u, from, to);
      CostSplit(x, u, 0, from, to);
      CostSplit(z, u, 0, from, to);
    }
  }

  /** Runs in order are placed in order. */
  lemma {:induction false} PlacedRise(x: seq<real>, u: seq<real>, cuts: seq<nat>)
    requires Cuts(u, cuts) && Ordered(u, cuts) && |x| == |u| && PlacedAt(x, u, cuts)
    ensures Last(cuts) <= |u| && Monotone(x[..Last(cuts)])
    ensures |cuts| > 1 ==>
              forall k :: 0 <= k < Last(cuts) ==> x[k] <= Average(u, cuts[|cuts| - 2], cuts[|cuts| - 1])
    decreases |cuts|
  {
    if |cuts| > 1 {
      PlacedRise(x, u, Front(cuts));
      if |cuts| > 2 {
        assert Front(cuts)[|cuts| - 3] == cuts[|cuts| - 3] && Front(cuts)[|cuts| - 2] == cuts[|cuts| - 2];
      }
      var from, to := Last(Front(cuts)), Last(cuts);
      forall k | 0 <= k < to
        ensures x[k] <= Average(u, from, to)
      {
        if k < from {
          assert |cuts| > 2;
        }
      }
      forall j, k | 0 <= j < k < to
        ensures x[j] <= x[k]
      {
        if k < from {
          assert x[..from][j] <= x[..from][k];
        }
      }
    }
  }

  // ---- gaps, flattened ---------------------------------------------------------------

  /** Each label at least `gap` above the one before. */
  ghost predicate Spaced(x: seq<real>, gap: real)
  {
    forall k :: 0 < k < |x| ==> x[k] - x[k - 1] >= gap
  }

  /** No two labels nearer than `gap`, in whatever order they are. */
  ghost predicate Apart(x: seq<real>, gap: real)
  {
    forall j, k :: 0 <= j < k < |x| ==> x[j] - x[k] >= gap || x[k] - x[j] >= gap
  }

  ghost function Flat(x: seq<real>, gap: real): (u: seq<real>)
    ensures |u| == |x| && forall k :: 0 <= k < |x| ==> u[k] == x[k] - gap * k as real
  {
    seq(|x|, k requires 0 <= k < |x| => x[k] - gap * k as real)
  }

  lemma {:induction false} GapStep(gap: real, k: nat)
    requires k > 0
    ensures gap * k as real == gap * (k - 1) as real + gap
  {}

  lemma {:induction false} SpacedRise(x: seq<real>, gap: real, j: nat, k: nat)
    requires Spaced(x, gap) && j <= k < |x|
    ensures Flat(x, gap)[j] <= Flat(x, gap)[k]
    decreases k
  {
    if j < k {
      SpacedRise(x, gap, j, k - 1);
      GapStep(gap, k);
    }
  }

  lemma {:induction false} FlatRises(x: seq<real>, gap: real)
    ensures Spaced(x, gap) <==> Monotone(Flat(x, gap))
  {
    if Spaced(x, gap) {
      forall j, k | 0 <= j < k < |x|
        ensures Flat(x, gap)[j] <= Flat(x, gap)[k]
      {
        SpacedRise(x, gap, j, k);
      }
    }
    if Monotone(Flat(x, gap)) {
      forall k | 0 < k < |x|
        ensures x[k] - x[k - 1] >= gap
      {
        RiseSpaced(x, gap, k);
      }
    }
  }

  lemma {:induction false} RiseSpaced(x: seq<real>, gap: real, k: nat)
    requires 0 < k < |x| && Flat(x, gap)[k - 1] <= Flat(x, gap)[k]
    ensures x[k] - x[k - 1] >= gap
  {
    GapStep(gap, k);
  }

  lemma {:induction false} FlatCost(x: seq<real>, v: seq<real>, gap: real, n: nat)
    requires n <= |x| == |v|
    ensures Cost(Flat(x, gap), Flat(v, gap), 0, n) == Cost(x, v, 0, n)
  {
    if n > 0 {
      FlatCost(x, v, gap, n - 1);
      assert Flat(x, gap)[n - 1] - Flat(v, gap)[n - 1] == x[n - 1] - v[n - 1];
    }
  }

  lemma {:induction false} FlatSum(v: seq<real>, gap: real, a: nat, b: nat)
    requires a <= b <= |v|
    ensures Sum(v, a, b) == Sum(Flat(v, gap), a, b) + gap * ((b - a) as real * (a + b - 1) as real / 2.0)
    decreases b
  {
    if a < b {
      FlatSum(v, gap, a, b - 1);
      Indices(gap, a, b);
    }
  }

  lemma {:induction false} Indices(gap: real, a: nat, b: nat)
    requires a < b
    ensures gap * ((b - a) as real * (a + b - 1) as real / 2.0)
            == gap * ((b - 1 - a) as real * (a + b - 2) as real / 2.0) + gap * (b - 1) as real
  {
    var x, y := a as real, b as real;
    assert (y - x) * (x + y - 1.0) / 2.0 == (y - 1.0 - x) * (x + y - 2.0) / 2.0 + (y - 1.0);
  }

  /** The mean of what a run wants, from its flattened average. */
  lemma {:induction false} MeanOf(v: seq<real>, gap: real, a: nat, b: nat)
    requires a < b <= |v|
    ensures Average(v, a, b) == Average(Flat(v, gap), a, b) + gap * (a + b - 1) as real / 2.0
  {
    FlatSum(v, gap, a, b);
    var n, t := (b - a) as real, gap * (a + b - 1) as real / 2.0;
    ProductsAlike(gap, n, (a + b - 1) as real);
    Halves(Sum(Flat(v, gap), a, b), t, n, Sum(v, a, b));
  }

  lemma {:induction false} ProductsAlike(gap: real, n: real, s: real)
    ensures gap * (n * s / 2.0) == n * (gap * s / 2.0)
  {}

  lemma {:induction false} Halves(s: real, t: real, n: real, total: real)
    requires n > 0.0 && total == s + n * t
    ensures total / n == s / n + t
  {}

  // ---- any order costs at least the wanted order ------------------------------------

  ghost function Insert(s: seq<real>, x: real): (r: seq<real>)
    ensures |r| == |s| + 1
  {
    if s == [] || s[|s| - 1] <= x then s + [x] else Insert(s[..|s| - 1], x) + [s[|s| - 1]]
  }

  ghost function Sorted(z: seq<real>): (r: seq<real>)
    ensures |r| == |z|
  {
    if z == [] then [] else Insert(Sorted(z[..|z| - 1]), z[|z| - 1])
  }

  lemma {:induction false} InsertHas(s: seq<real>, x: real, e: real)
    requires e in Insert(s, x)
    ensures e == x || e in s
  {
    if s != [] && !(s[|s| - 1] <= x) && e != s[|s| - 1] {
      InsertHas(s[..|s| - 1], x, e);
    }
  }

  lemma {:induction false} InsertRises(s: seq<real>, x: real)
    requires Monotone(s)
    ensures Monotone(Insert(s, x))
  {
    if s != [] && !(s[|s| - 1] <= x) {
      var front, last := s[..|s| - 1], s[|s| - 1];
      InsertRises(front, x);
      forall j | 0 <= j < |s|
        ensures Insert(front, x)[j] <= last
      {
        InsertHas(front, x, Insert(front, x)[j]);
      }
    }
  }

  lemma {:induction false} InsertApart(s: seq<real>, x: real, gap: real)
    requires Apart(s, gap)
    requires forall k :: 0 <= k < |s| ==> s[k] - x >= gap || x - s[k] >= gap
    ensures Apart(Insert(s, x), gap)
  {
    if s != [] && !(s[|s| - 1] <= x) {
      var front, last := s[..|s| - 1], s[|s| - 1];
      InsertApart(front, x, gap);
      forall j | 0 <= j < |s|
        ensures Insert(front, x)[j] - last >= gap || last - Insert(front, x)[j] >= gap
      {
        InsertHas(front, x, Insert(front, x)[j]);
      }
    }
  }

  lemma {:induction false} SortedHas(z: seq<real>, e: real)
    requires e in Sorted(z)
    ensures e in z
  {
    if z != [] {
      InsertHas(Sorted(z[..|z| - 1]), z[|z| - 1], e);
      if e != z[|z| - 1] {
        SortedHas(z[..|z| - 1], e);
      }
    }
  }

  lemma {:induction false} SortedSpaced(z: seq<real>, gap: real)
    requires Apart(z, gap)
    ensures Monotone(Sorted(z)) && Apart(Sorted(z), gap)
  {
    if z != [] {
      var front, last := z[..|z| - 1], z[|z| - 1];
      SortedSpaced(front, gap);
      InsertRises(Sorted(front), last);
      forall k | 0 <= k < |front|
        ensures Sorted(front)[k] - last >= gap || last - Sorted(front)[k] >= gap
      {
        SortedHas(front, Sorted(front)[k]);
      }
      InsertApart(Sorted(front), last, gap);
    }
  }

  /** The cost of a start depends on that start only. */
  lemma {:induction false} CostOfStart(x: seq<real>, v: seq<real>, y: seq<real>, w: seq<real>, n: nat)
    requires n <= |x| == |v| && n <= |y| == |w|
    requires x[..n] == y[..n] && v[..n] == w[..n]
    ensures Cost(x, v, 0, n) == Cost(y, w, 0, n)
  {
    if n > 0 {
      assert x[..n][n - 1] == y[..n][n - 1] && v[..n][n - 1] == w[..n][n - 1];
      assert x[..n - 1] == x[..n][..n - 1] && y[..n - 1] == y[..n][..n - 1];
      assert v[..n - 1] == v[..n][..n - 1] && w[..n - 1] == w[..n][..n - 1];
      CostOfStart(x, v, y, w, n - 1);
    }
  }

  lemma {:induction false} CostOfLast(x: seq<real>, e: real, v: seq<real>)
    requires |v| == |x| + 1
    ensures Cost(x + [e], v, 0, |v|) == Cost(x, v[..|x|], 0, |x|) + Square(e - v[|x|])
  {
    CostOfStart(x + [e], v, x, v[..|x|], |x|);
  }

  /** Giving the higher of two positions to the label that wants the higher costs no more. */
  lemma {:induction false} Swap(lo: real, hi: real, v0: real, v1: real)
    requires lo <= hi && v0 <= v1
    ensures Square(lo - v0) + Square(hi - v1) <= Square(hi - v0) + Square(lo - v1)
  {
    var w := v1 - v0;
    Squares(hi - v0, w);
    Squares(lo - v0, w);
    Spare(w, hi - v0 + (hi - v0 - w), lo - v0 + (lo - v0 - w));
  }

  lemma {:induction false} Squares(x: real, w: real)
    ensures Square(x) - Square(x - w) == w * (x + (x - w))
  {}

  lemma {:induction false} Spare(w: real, a: real, b: real)
    requires w >= 0.0 && a >= b
    ensures w * a >= w * b
  {
    NotBelow(w, a - b);
    Times(w, a, b, 0.0);
  }

  lemma {:induction false} InsertCheaper(s: seq<real>, x: real, v: seq<real>)
    requires |v| == |s| + 1 && Monotone(v)
    ensures Cost(Insert(s, x), v, 0, |v|) <= Cost(s + [x], v, 0, |v|)
  {
    if s != [] && !(s[|s| - 1] <= x) {
      var n := |s|;
      var front, last := s[..n - 1], s[n - 1];
      InsertCheaper(front, x, v[..n]);
      CostOfLast(Insert(front, x), last, v);
      CostOfLast(front, x, v[..n]);
      CostOfLast(s, x, v);
      assert front + [last] == s;
      CostOfLast(front, last, v[..n]);
      Swap(x, last, v[n - 1], v[n]);
    }
  }

  /** Putting positions in order costs no more. */
  lemma {:induction false} SortedCheaper(z: seq<real>, v: seq<real>)
    requires |v| == |z| && Monotone(v)
    ensures Cost(Sorted(z), v, 0, |v|) <= Cost(z, v, 0, |v|)
  {
    if z != [] {
      var n := |z| - 1;
      SortedCheaper(z[..n], v[..n]);
      InsertCheaper(Sorted(z[..n]), z[n], v);
      CostOfLast(Sorted(z[..n]), z[n], v);
      CostOfLast(z[..n], z[n], v);
      assert z[..n] + [z[n]] == z;
    }
  }

  // ---- labels --------------------------------------------------------------------------

  /** The values of `z` for some labels, in the order of those labels. */
  ghost function At(z: seq<real>, labels: seq<nat>): (r: seq<real>)
    requires forall k :: 0 <= k < |labels| ==> labels[k] < |z|
    ensures |r| == |labels| && forall k :: 0 <= k < |labels| ==> r[k] == z[labels[k]]
  {
    seq(|labels|, k requires 0 <= k < |labels| => z[labels[k]])
  }

  /** `order` with one more label, after every label that wants no more. */
  function InsertLabel(order: seq<nat>, i: nat, wanted: seq<real>): (r: seq<nat>)
    requires i < |wanted| && forall k :: 0 <= k < |order| ==> order[k] < |wanted|
    ensures |r| == |order| + 1
    ensures forall k :: 0 <= k < |r| ==> r[k] < |wanted|
  {
    if order == [] || wanted[order[|order| - 1]] <= wanted[i] then order + [i]
    else InsertLabel(order[..|order| - 1], i, wanted) + [order[|order| - 1]]
  }

  /** The first `n` labels, sorted by what they want, equals as they come. */
  function SortedLabels(wanted: seq<real>, n: nat): (r: seq<nat>)
    requires n <= |wanted|
    ensures |r| == n
    ensures forall k :: 0 <= k < |r| ==> r[k] < |wanted|
  {
    if n == 0 then [] else InsertLabel(SortedLabels(wanted, n - 1), n - 1, wanted)
  }

  ghost predicate Labels(order: seq<nat>, n: nat)
  {
    forall k :: 0 <= k < |order| ==> order[k] < n
  }

  ghost predicate Once(order: seq<nat>)
  {
    forall j, k :: 0 <= j < k < |order| ==> order[j] != order[k]
  }

  lemma {:induction false} InsertLabelHas(order: seq<nat>, i: nat, wanted: seq<real>, e: nat)
    requires i < |wanted| && Labels(order, |wanted|)
    ensures e in InsertLabel(order, i, wanted) <==> e == i || e in order
  {
    if order != [] && !(wanted[order[|order| - 1]] <= wanted[i]) {
      InsertLabelHas(order[..|order| - 1], i, wanted, e);
      assert order == order[..|order| - 1] + [order[|order| - 1]];
    }
  }

  lemma {:induction false} InsertLabelOnce(order: seq<nat>, i: nat, wanted: seq<real>)
    requires i < |wanted| && Labels(order, |wanted|) && Once(order) && i !in order
    ensures Once(InsertLabel(order, i, wanted))
  {
    if order != [] && !(wanted[order[|order| - 1]] <= wanted[i]) {
      var front, last := order[..|order| - 1], order[|order| - 1];
      InsertLabelOnce(front, i, wanted);
      InsertLabelHas(front, i, wanted, last);
    }
  }

  /** Every label comes once in the order, and nothing else does. */
  lemma {:induction false} SortedLabelsOnce(wanted: seq<real>, n: nat)
    requires n <= |wanted|
    ensures Once(SortedLabels(wanted, n))
    ensures forall e: nat :: e in SortedLabels(wanted, n) <==> e < n
  {
    if n > 0 {
      SortedLabelsOnce(wanted, n - 1);
      InsertLabelOnce(SortedLabels(wanted, n - 1), n - 1, wanted);
      forall e: nat
        ensures e in SortedLabels(wanted, n) <==> e < n
      {
        InsertLabelHas(SortedLabels(wanted, n - 1), n - 1, wanted, e);
      }
    }
  }

  /** In the order, labels want no less one after another. */
  ghost predicate InOrder(order: seq<nat>, wanted: seq<real>)
    requires Labels(order, |wanted|)
  {
    forall j, k :: 0 <= j < k < |order| ==> wanted[order[j]] <= wanted[order[k]]
  }

  lemma {:induction false} InsertLabelInOrder(order: seq<nat>, i: nat, wanted: seq<real>)
    requires i < |wanted| && Labels(order, |wanted|) && InOrder(order, wanted)
    ensures InOrder(InsertLabel(order, i, wanted), wanted)
  {
    if order != [] {
      var front, last := order[..|order| - 1], order[|order| - 1];
      if wanted[last] <= wanted[i] {
        assert forall k :: 0 <= k < |order| ==> wanted[order[k]] <= wanted[last];
      } else {
        InsertLabelInOrder(front, i, wanted);
        var r := InsertLabel(front, i, wanted);
        forall k | 0 <= k < |r|
          ensures wanted[r[k]] <= wanted[last]
        {
          InsertLabelHas(front, i, wanted, r[k]);
        }
      }
    }
  }

  lemma {:induction false} SortedLabelsInOrder(wanted: seq<real>, n: nat)
    requires n <= |wanted|
    ensures InOrder(SortedLabels(wanted, n), wanted)
  {
    if n > 0 {
      SortedLabelsInOrder(wanted, n - 1);
      InsertLabelInOrder(SortedLabels(wanted, n - 1), n - 1, wanted);
    }
  }

  /** What some labels cost, added up in the order they come. */
  ghost function LabelCost(z: seq<real>, wanted: seq<real>, labels: seq<nat>): real
    requires |z| == |wanted| && Labels(labels, |z|)
  {
    if labels == [] then 0.0
    else
      var i := labels[|labels| - 1];
      LabelCost(z, wanted, labels[..|labels| - 1]) + Square(z[i] - wanted[i])
  }

  /** Labels cost the same in whatever order they are added up. */
  lemma {:induction false} InsertLabelCost(order: seq<nat>, i: nat, wanted: seq<real>, z: seq<real>)
    requires i < |wanted| == |z| && Labels(order, |wanted|)
    ensures LabelCost(z, wanted, InsertLabel(order, i, wanted)) == LabelCost(z, wanted, order) + Square(z[i] - wanted[i])
  {
    if order == [] || wanted[order[|order| - 1]] <= wanted[i] {
      assert (order + [i])[..|order|] == order;
    } else {
      var front, last := order[..|order| - 1], order[|order| - 1];
      InsertLabelCost(front, i, wanted, z);
      assert (InsertLabel(front, i, wanted) + [last])[..|order|] == InsertLabel(front, i, wanted);
    }
  }

  lemma {:induction false} SortedLabelsCost(wanted: seq<real>, z: seq<real>, n: nat)
    requires n <= |wanted| == |z|
    ensures LabelCost(z, wanted, SortedLabels(wanted, n)) == Cost(z, wanted, 0, n)
  {
    if n > 0 {
      SortedLabelsCost(wanted, z, n - 1);
      InsertLabelCost(SortedLabels(wanted, n - 1), n - 1, wanted, z);
    }
  }

  lemma {:induction false} LabelCostAt(z: seq<real>, wanted: seq<real>, labels: seq<nat>)
    requires |z| == |wanted| && Labels(labels, |z|)
    ensures LabelCost(z, wanted, labels) == Cost(At(z, labels), At(wanted, labels), 0, |labels|)
  {
    if labels != [] {
      var n := |labels| - 1;
      LabelCostAt(z, wanted, labels[..n]);
      CostOfStart(At(z, labels), At(wanted, labels), At(z, labels[..n]), At(wanted, labels[..n]), n);
    }
  }

  /** A placement of the labels costs what its positions cost in wanted order. */
  lemma {:induction false} CostInOrder(wanted: seq<real>, z: seq<real>, order: seq<nat>)
    requires |wanted| == |z| && order == SortedLabels(wanted, |wanted|)
    ensures Cost(z, wanted, 0, |z|) == Cost(At(z, order), At(wanted, order), 0, |z|)
  {
    SortedLabelsCost(wanted, z, |z|);
    LabelCostAt(z, wanted, order);
  }

  // ---- placing the labels ---------------------------------------------------------------

  /** `placed` is the cheapest of all placements that keep the labels `gap` apart in wanted order. */
  ghost predicate BestInOrder(placed: seq<real>, wanted: seq<real>, gap: real, order: seq<nat>)
    requires |placed| == |wanted| && Labels(order, |wanted|)
  {
    && Spaced(At(placed, order), gap)
    && forall z: seq<real> :: |z| == |wanted| && Spaced(At(z, order), gap) ==>
         Cost(placed, wanted, 0, |wanted|) <= Cost(z, wanted, 0, |wanted|)
  }

  /** `placed` is the cheapest of all placements that keep every two labels `gap` apart. */
  ghost predicate Best(placed: seq<real>, wanted: seq<real>, gap: real)
    requires |placed| == |wanted|
  {
    && Apart(placed, gap)
    && forall z: seq<real> :: |z| == |wanted| && Apart(z, gap) ==>
         Cost(placed, wanted, 0, |wanted|) <= Cost(z, wanted, 0, |wanted|)
  }

  /** Runs of labels placed at their averages are placed best. */
  lemma {:induction false} AveragesBest(wanted: seq<real>, gap: real, order: seq<nat>, placed: seq<real>, cuts: seq<nat>)
    requires order == SortedLabels(wanted, |wanted|) && |placed| == |wanted|
    requires var u := Flat(At(wanted, order), gap);
             && Cuts(u, cuts) && Ordered(u, cuts) && Last(cuts) == |u|
             && PlacedAt(Flat(At(placed, order), gap), u, cuts)
    ensures BestInOrder(placed, wanted, gap, order)
  {
    var v := At(wanted, order);
    var u, x := Flat(v, gap), Flat(At(placed, order), gap);
    PlacedRise(x, u, cuts);
    assert x[..|u|] == x;
    FlatRises(At(placed, order), gap);
    forall z: seq<real> | |z| == |wanted| && Spaced(At(z, order), gap)
      ensures Cost(placed, wanted, 0, |wanted|) <= Cost(z, wanted, 0, |wanted|)
    {
      var y := Flat(At(z, order), gap);
      FlatRises(At(z, order), gap);
      RunsBest(y, x, u, cuts);
      FlatCost(At(z, order), v, gap, |v|);
      FlatCost(At(placed, order), v, gap, |v|);
      CostInOrder(wanted, z, order);
      CostInOrder(wanted, placed, order);
    }
  }

  /** The wanted order is no restriction: keeping it costs no more than any other. */
  lemma {:induction false} BestInOrderIsBest(wanted: seq<real>, gap: real, order: seq<nat>, placed: seq<real>)
    requires gap >= 0.0 && order == SortedLabels(wanted, |wanted|) && |placed| == |wanted|
    ensures BestInOrder(placed, wanted, gap, order) ==> Best(placed, wanted, gap)
  {
    if BestInOrder(placed, wanted, gap, order) {
      SortedLabelsOnce(wanted, |wanted|);
      SpacedApart(placed, gap, order);
      forall z: seq<real> | |z| == |wanted| && Apart(z, gap)
        ensures Cost(placed, wanted, 0, |wanted|) <= Cost(z, wanted, 0, |wanted|)
      {
        var t := InWantedOrder(wanted, gap, order, z);
        assert Cost(placed, wanted, 0, |wanted|) <= Cost(t, wanted, 0, |wanted|);
      }
    }
  }

  /** A placement in wanted order that costs no more than `z`. */
  lemma {:induction false} InWantedOrder(wanted: seq<real>, gap: real, order: seq<nat>, z: seq<real>) returns (t: seq<real>)
    requires gap >= 0.0 && order == SortedLabels(wanted, |wanted|)
    requires |z| == |wanted| && Apart(z, gap)
    ensures |t| == |wanted| && Spaced(At(t, order), gap)
    ensures Cost(t, wanted, 0, |wanted|) <= Cost(z, wanted, 0, |wanted|)
  {
    SortedLabelsOnce(wanted, |wanted|);
    SortedLabelsInOrder(wanted, |wanted|);
    var y := Sorted(At(z, order));
    ApartInOrder(z, gap, order);
    SortedSpaced(At(z, order), gap);
    RisingApartSpaced(y, gap);
    SortedCheaper(At(z, order), At(wanted, order));
    t := Back(y, order);
    assert At(t, order) == y;
    CostInOrder(wanted, z, order);
    CostInOrder(wanted, t, order);
  }

  lemma {:induction false} RisingApartSpaced(y: seq<real>, gap: real)
    requires gap >= 0.0 && Monotone(y) && Apart(y, gap)
    ensures Spaced(y, gap)
  {
    forall k | 0 < k < |y|
      ensures y[k] - y[k - 1] >= gap
    {
      assert y[k - 1] <= y[k];
    }
  }

  lemma {:induction false} ApartInOrder(z: seq<real>, gap: real, order: seq<nat>)
    requires Labels(order, |z|) && Once(order) && Apart(z, gap)
    ensures Apart(At(z, order), gap)
  {
    forall j, k | 0 <= j < k < |order|
      ensures At(z, order)[j] - At(z, order)[k] >= gap || At(z, order)[k] - At(z, order)[j] >= gap
    {
      if order[j] < order[k] {
        assert z[order[j]] - z[order[k]] >= gap || z[order[k]] - z[order[j]] >= gap;
      } else {
        assert z[order[k]] - z[order[j]] >= gap || z[order[j]] - z[order[k]] >= gap;
      }
    }
  }

  lemma {:induction false} SpacedFar(x: seq<real>, gap: real, j: nat, k: nat)
    requires gap >= 0.0 && Spaced(x, gap) && j < k < |x|
    ensures x[k] - x[j] >= gap
    decreases k
  {
    if j < k - 1 {
      SpacedFar(x, gap, j, k - 1);
    }
  }

  lemma {:induction false} SpacedApart(placed: seq<real>, gap: real, order: seq<nat>)
    requires gap >= 0.0 && |order| == |placed| && Labels(order, |placed|)
    requires forall e: nat :: e in order <==> e < |placed|
    requires Spaced(At(placed, order), gap)
    ensures Apart(placed, gap)
  {
    forall j, k | 0 <= j < k < |placed|
      ensures placed[j] - placed[k] >= gap || placed[k] - placed[j] >= gap
    {
      assert j in order && k in order;
      var a :| 0 <= a < |order| && order[a] == j;
      var b :| 0 <= b < |order| && order[b] == k;
      if a < b {
        SpacedFar(At(placed, order), gap, a, b);
      } else {
        SpacedFar(At(placed, order), gap, b, a);
      }
    }
  }

  /** Positions in wanted order, given back to their labels. */
  ghost function Back(y: seq<real>, order: seq<nat>): (z: seq<real>)
    requires |y| == |order| && Once(order)
    requires forall e: nat :: e in order <==> e < |order|
    ensures |z| == |y| && forall k :: 0 <= k < |order| ==> order[k] in order && z[order[k]] == y[k]
  {
    seq(|y|, i requires 0 <= i < |y| => assert i in order; var k :| 0 <= k < |order| && order[k] == i; y[k])
  }

  // ---- the runs ---------------------------------------------------------------------------

  /** What a run of labels wants, added up. */
  function Total(wanted: seq<real>, run: seq<nat>): real
    requires forall k :: 0 <= k < |run| ==> run[k] < |wanted|
  {
    if run == [] then 0.0 else Total(wanted, run[..|run| - 1]) + wanted[run[|run| - 1]]
  }

  lemma {:induction false} TotalIsSum(wanted: seq<real>, order: seq<nat>, a: nat, b: nat)
    requires Labels(order, |wanted|) && a <= b <= |order|
    ensures Total(wanted, order[a..b]) == Sum(At(wanted, order), a, b)
    decreases b
  {
    if a < b {
      TotalIsSum(wanted, order, a, b - 1);
      assert order[a..b][..b - 1 - a] == order[a..b - 1];
    }
  }

  /** The runs are the stretches of the order between the cuts. */
  ghost predicate RunsAre(runs: seq<seq<nat>>, order: seq<nat>, cuts: seq<nat>)
  {
    if runs == [] then cuts == [0]
    else
      && |cuts| == |runs| + 1
      && RunsAre(Front(runs), order, Front(cuts))
      && Last(Front(cuts)) < Last(cuts) <= |order|
      && Last(runs) == order[Last(Front(cuts))..Last(cuts)]
  }

  /** The mean of what a run wants. */
  lemma {:induction false} RunMean(wanted: seq<real>, order: seq<nat>, gap: real, a: nat, b: nat)
    requires Labels(order, |wanted|) && a < b <= |order|
    ensures Total(wanted, order[a..b]) / (b - a) as real
            == Average(Flat(At(wanted, order), gap), a, b) + gap * (a + b - 1) as real / 2.0
  {
    TotalIsSum(wanted, order, a, b);
    MeanOf(At(wanted, order), gap, a, b);
  }

  /** Where a run ends and where it starts, when placed around a mean of its own. */
  lemma {:induction false} Ends(mean: real, average: real, gap: real, a: nat, b: nat)
    requires a < b && mean == average + gap * (a + b - 1) as real / 2.0
    ensures mean + gap * (b - a - 1) as real / 2.0 == average + gap * (b - 1) as real
    ensures mean - gap * (b - a - 1) as real / 2.0 == average + gap * a as real
  {
    var x, y := a as real, b as real;
    assert gap * (x + y - 1.0) / 2.0 + gap * (y - x - 1.0) / 2.0 == gap * (y - 1.0);
    assert gap * (x + y - 1.0) / 2.0 - gap * (y - x - 1.0) / 2.0 == gap * x;
  }

  /** The state of the loop over the labels: `cuts` are those of the runs, up to label `p`. */
  ghost predicate Running(u: seq<real>, runs: seq<seq<nat>>, order: seq<nat>, cuts: seq<nat>, p: nat)
  {
    Cuts(u, cuts) && RunsAre(runs, order, cuts) && Last(cuts) == p
  }

  /** A label of its own is a run. */
  lemma {:induction false} PushRun(u: seq<real>, runs: seq<seq<nat>>, order: seq<nat>, cuts: seq<nat>, p: nat)
    requires Running(u, runs, order, cuts, p) && p < |u| == |order|
    ensures Running(u, runs + [[order[p]]], order, cuts + [p + 1], p + 1)
    ensures Front(cuts + [p + 1]) == cuts
  {
    PushCut(u, cuts, p);
    PushOne(runs, order, cuts, p);
  }

  lemma {:induction false} PushOne(runs: seq<seq<nat>>, order: seq<nat>, cuts: seq<nat>, p: nat)
    requires RunsAre(runs, order, cuts) && cuts != [] && Last(cuts) == p && p < |order|
    ensures RunsAre(runs + [[order[p]]], order, cuts + [p + 1])
    ensures Front(cuts + [p + 1]) == cuts && Last(cuts + [p + 1]) == p + 1
  {
    var more, further := runs + [[order[p]]], cuts + [p + 1];
    assert Front(further) == cuts && Front(more) == runs && Last(more) == [order[p]];
    assert order[p..p + 1] == [order[p]];
  }

  lemma {:induction false} PushCut(u: seq<real>, cuts: seq<nat>, p: nat)
    requires Cuts(u, cuts) && Last(cuts) == p && p < |u|
    ensures Cuts(u, cuts + [p + 1])
  {
    Alone(u, p);
    assert Front(cuts + [p + 1]) == cuts;
  }

  lemma {:induction false} LastTwo(runs: seq<seq<nat>>, order: seq<nat>, cuts: seq<nat>, n: nat)
    requires RunsAre(runs, order, cuts) && |runs| == n > 1
    ensures |cuts| == n + 1 && cuts[n - 2] < cuts[n - 1] < cuts[n] <= |order|
    ensures runs[n - 2] == order[cuts[n - 2]..cuts[n - 1]] && runs[n - 1] == order[cuts[n - 1]..cuts[n]]
    ensures RunsAre(Front(Front(runs)), order, Front(Front(cuts)))
  {
    assert RunsAre(Front(runs), order, Front(cuts));
    assert Front(runs) != [];
    assert runs[n - 2] == Last(Front(runs));
    assert cuts[n - 1] == Last(Front(cuts)) && cuts[n - 2] == Last(Front(Front(cuts)));
  }

  /** The last two runs, made one. */
  lemma {:induction false} MergeRuns(runs: seq<seq<nat>>, order: seq<nat>, cuts: seq<nat>, n: nat)
    requires RunsAre(runs, order, cuts) && |runs| == n > 1
    ensures |cuts| == n + 1 && RunsAre(runs[..n - 2] + [runs[n - 2] + runs[n - 1]], order, cuts[..n - 1] + [cuts[n]])
  {
    LastTwo(runs, order, cuts, n);
    var fewer, fewerCuts := runs[..n - 2] + [runs[n - 2] + runs[n - 1]], cuts[..n - 1] + [cuts[n]];
    assert Front(fewer) == Front(Front(runs)) && Front(fewerCuts) == Front(Front(cuts));
    assert Last(fewer) == order[cuts[n - 2]..cuts[n]];
  }

  lemma {:induction false} MergeCuts(u: seq<real>, cuts: seq<nat>, n: nat)
    requires Cuts(u, cuts) && |cuts| == n + 1 && n > 1
    requires cuts[n - 2] < cuts[n - 1] < cuts[n] <= |u|
    requires Average(u, cuts[n - 2], cuts[n - 1]) >= Average(u, cuts[n - 1], cuts[n])
    ensures Cuts(u, cuts[..n - 1] + [cuts[n]])
    ensures Front(cuts[..n - 1] + [cuts[n]]) == Front(Front(cuts))
  {
    var from, middle, to := cuts[n - 2], cuts[n - 1], cuts[n];
    assert Cuts(u, Front(cuts)) && |Front(cuts)| > 1;
    assert Last(Front(cuts)) == middle && Last(Front(Front(cuts))) == from;
    assert Together(u, from, middle) && Together(u, middle, to);
    Merged(u, from, middle, to);
    assert Front(cuts[..n - 1] + [cuts[n]]) == Front(Front(cuts));
  }

  /** Whether the last two runs, placed on their own, are at least `gap` apart. */
  method Clear(wanted: seq<real>, gap: real, below: seq<nat>, above: seq<nat>, ghost order: seq<nat>, ghost a: nat, ghost b: nat, ghost c: nat)
    returns (clear: bool)
    requires Labels(order, |wanted|) && a < b < c <= |order|
    requires below == order[a..b] && above == order[b..c]
    ensures var u := Flat(At(wanted, order), gap); clear <==> Average(u, a, b) <= Average(u, b, c)
  {
    var top := Total(wanted, below) / |below| as real + gap * (|below| - 1) as real / 2.0;
    var bottom := Total(wanted, above) / |above| as real - gap * (|above| - 1) as real / 2.0;
    RunMean(wanted, order, gap, a, b);
    RunMean(wanted, order, gap, b, c);
    ghost var u := Flat(At(wanted, order), gap);
    Ends(Total(wanted, below) / |below| as real, Average(u, a, b), gap, a, b);
    Ends(Total(wanted, above) / |above| as real, Average(u, b, c), gap, b, c);
    GapStep(gap, b);
    clear := bottom - top >= gap;
  }

  /** The runs of labels that touch. */
  method Runs(wanted: seq<real>, gap: real, order: seq<nat>) returns (runs: seq<seq<nat>>, ghost cuts: seq<nat>)
    requires Labels(order, |wanted|) && |order| == |wanted|
    ensures var u := Flat(At(wanted, order), gap);
            Running(u, runs, order, cuts, |order|) && Ordered(u, cuts)
  {
    ghost var u := Flat(At(wanted, order), gap);
    runs := [];
    cuts := [0];
    for p := 0 to |order|
      invariant Running(u, runs, order, cuts, p) && Ordered(u, cuts)
    {
      PushRun(u, runs, order, cuts, p);
      runs, cuts := MergeBack(wanted, gap, order, runs + [[order[p]]], cuts + [p + 1], p + 1);
    }
  }

  /** Merges the last run with the one before, as long as it is not clear of it. */
  method MergeBack(wanted: seq<real>, gap: real, ghost order: seq<nat>, pushed: seq<seq<nat>>, ghost marks: seq<nat>, ghost p: nat)
    returns (runs: seq<seq<nat>>, ghost cuts: seq<nat>)
    requires Labels(order, |wanted|) && |order| == |wanted| && |pushed| > 0
    requires var u := Flat(At(wanted, order), gap);
             Running(u, pushed, order, marks, p) && Ordered(u, Front(marks))
    ensures var u := Flat(At(wanted, order), gap);
            Running(u, runs, order, cuts, p) && Ordered(u, cuts)
  {
    ghost var u := Flat(At(wanted, order), gap);
    runs, cuts := pushed, marks;
    while |runs| > 1
      invariant Running(u, runs, order, cuts, p)
      invariant |runs| > 0 && Ordered(u, Front(cuts))
      decreases |runs|
    {
      var n := |runs|;
      var below, above := runs[n - 2], runs[n - 1];
      LastTwo(runs, order, cuts, n);
      var clear := Clear(wanted, gap, below, above, order, cuts[n - 2], cuts[n - 1], cuts[n]);
      if clear {
        break;
      }
      MergeOn(u, runs, order, cuts, p, n);
      runs := runs[..n - 2] + [below + above];
      cuts := cuts[..n - 1] + [cuts[n]];
    }
    OrderedNow(u, runs, order, cuts, p);
  }

  /** Runs are in order once the last is clear of the one before, or is alone. */
  lemma {:induction false} OrderedNow(u: seq<real>, runs: seq<seq<nat>>, order: seq<nat>, cuts: seq<nat>, p: nat)
    requires Running(u, runs, order, cuts, p) && |runs| > 0 && |cuts| == |runs| + 1 && Ordered(u, Front(cuts))
    requires |runs| > 1 ==> Average(u, cuts[|runs| - 2], cuts[|runs| - 1]) <= Average(u, cuts[|runs| - 1], cuts[|runs|])
    ensures Ordered(u, cuts)
  {}

  lemma {:induction false} MergeOn(u: seq<real>, runs: seq<seq<nat>>, order: seq<nat>, cuts: seq<nat>, p: nat, n: nat)
    requires Running(u, runs, order, cuts, p) && |runs| == n > 1 && |cuts| == n + 1 && Ordered(u, Front(cuts))
    requires cuts[n - 2] < cuts[n - 1] < cuts[n] <= |u|
    requires Average(u, cuts[n - 2], cuts[n - 1]) >= Average(u, cuts[n - 1], cuts[n])
    ensures Running(u, runs[..n - 2] + [runs[n - 2] + runs[n - 1]], order, cuts[..n - 1] + [cuts[n]], p)
    ensures Ordered(u, Front(cuts[..n - 1] + [cuts[n]]))
  {
    MergeCuts(u, cuts, n);
    MergeRuns(runs, order, cuts, n);
  }

  /** The labels of the first runs are placed, each at its run's average once flattened. */
  ghost predicate Filled(placed: seq<real>, u: seq<real>, gap: real, order: seq<nat>, cuts: seq<nat>)
    requires Cuts(u, cuts) && Labels(order, |placed|) && |order| == |u|
  {
    |cuts| > 1 ==>
      var from, to := Last(Front(cuts)), Last(cuts);
      && Filled(placed, u, gap, order, Front(cuts))
      && forall k :: from <= k < to ==> placed[order[k]] == Average(u, from, to) + gap * k as real
  }

  /** Placing the labels of a later run moves none placed before. */
  lemma {:induction false} FilledKept(placed: seq<real>, now: seq<real>, u: seq<real>, gap: real, order: seq<nat>, cuts: seq<nat>)
    requires Cuts(u, cuts) && Labels(order, |placed|) && |order| == |u| && |now| == |placed|
    requires Filled(placed, u, gap, order, cuts)
    requires forall k :: 0 <= k < Last(cuts) && k < |order| ==> now[order[k]] == placed[order[k]]
    ensures Filled(now, u, gap, order, cuts)
    decreases |cuts|
  {
    if |cuts| > 1 {
      FilledKept(placed, now, u, gap, order, Front(cuts));
    }
  }

  lemma {:induction false} FilledPlaced(placed: seq<real>, u: seq<real>, gap: real, order: seq<nat>, cuts: seq<nat>)
    requires Cuts(u, cuts) && Labels(order, |placed|) && |order| == |u| == |placed|
    requires Filled(placed, u, gap, order, cuts)
    ensures PlacedAt(Flat(At(placed, order), gap), u, cuts)
    decreases |cuts|
  {
    if |cuts| > 1 {
      FilledPlaced(placed, u, gap, order, Front(cuts));
    }
  }

  /** The first `n` runs are those before the first `n + 1` cuts. */
  lemma {:induction false} StartOfRuns(u: seq<real>, runs: seq<seq<nat>>, order: seq<nat>, cuts: seq<nat>, n: nat)
    requires RunsAre(runs, order, cuts) && Cuts(u, cuts) && n <= |runs|
    ensures |cuts| == |runs| + 1
    ensures RunsAre(runs[..n], order, cuts[..n + 1]) && Cuts(u, cuts[..n + 1])
    decreases |runs|
  {
    if n == |runs| {
      assert runs[..n] == runs && cuts[..n + 1] == cuts;
    } else {
      StartOfRuns(u, Front(runs), order, Front(cuts), n);
      assert Front(runs)[..n] == runs[..n] && Front(cuts)[..n + 1] == cuts[..n + 1];
    }
  }

  /** The next run, between the last two of the cuts so far. */
  lemma {:induction false} NextRun(u: seq<real>, runs: seq<seq<nat>>, order: seq<nat>, cuts: seq<nat>, r: nat)
    requires RunsAre(runs, order, cuts) && Cuts(u, cuts) && r < |runs|
    ensures |cuts| == |runs| + 1 && Cuts(u, cuts[..r + 2]) && Front(cuts[..r + 2]) == cuts[..r + 1]
    ensures Last(cuts[..r + 2]) <= |order| && Last(cuts[..r + 1]) <= Last(cuts[..r + 2])
    ensures runs[r] == order[Last(cuts[..r + 1])..Last(cuts[..r + 2])]
  {
    StartOfRuns(u, runs, order, cuts, r + 1);
    assert Front(cuts[..r + 2]) == cuts[..r + 1] && Last(runs[..r + 1]) == runs[r];
  }

  /** Where the label `k` of a run goes, around the mean of what the run wants. */
  lemma {:induction false} Position(centre: real, average: real, gap: real, from: nat, to: nat, k: nat)
    requires from + k < to && centre == average + gap * (from + to - 1) as real / 2.0
    ensures centre + gap * (k as real - (to - from - 1) as real / 2.0) == average + gap * (from + k) as real
  {
    var x, y, z := from as real, to as real, k as real;
    assert gap * (z - (y - x - 1.0) / 2.0) + gap * (x + y - 1.0) / 2.0 == gap * (x + z);
  }

  /** Places the labels of one run around the mean of what they want. */
  method PlaceRun(wanted: seq<real>, gap: real, run: seq<nat>, placed: array<real>,
                  ghost order: seq<nat>, ghost from: nat, ghost to: nat, ghost average: real)
    requires placed.Length == |wanted| == |order| && Labels(order, |wanted|) && Once(order)
    requires from < to <= |order| && run == order[from..to]
    requires Total(wanted, run) / (to - from) as real == average + gap * (from + to - 1) as real / 2.0
    modifies placed
    ensures forall k :: from <= k < to ==> placed[order[k]] == average + gap * k as real
    ensures forall k :: 0 <= k < from ==> placed[order[k]] == old(placed[order[k]])
  {
    var centre := Total(wanted, run) / |run| as real;
    ghost var spots := Spots(average, gap, from, to);
    Positions(centre, average, gap, from, to);
    for k := 0 to |run|
      invariant forall i :: from <= i < from + k ==> placed[order[i]] == spots[i - from]
      invariant forall i :: 0 <= i < from ==> placed[order[i]] == old(placed[order[i]])
    {
      assert run[k] == order[from + k];
      placed[run[k]] := Around(centre, gap, |run|, k);
    }
  }

  /** Where label `k` of `n` goes around their centre. */
  function Around(centre: real, gap: real, n: nat, k: nat): real
  {
    centre + gap * (k as real - (n - 1) as real / 2.0)
  }

  /** Where the labels of a run go. */
  ghost function Spots(average: real, gap: real, from: nat, to: nat): (r: seq<real>)
    requires from < to
    ensures |r| == to - from && forall i :: 0 <= i < to - from ==> r[i] == average + gap * (from + i) as real
  {
    seq(to - from, i requires 0 <= i < to - from => average + gap * (from + i) as real)
  }

  lemma {:induction false} Positions(centre: real, average: real, gap: real, from: nat, to: nat)
    requires from < to && centre == average + gap * (from + to - 1) as real / 2.0
    ensures forall k: nat :: k < to - from ==> Around(centre, gap, to - from, k) == Spots(average, gap, from, to)[k]
  {
    forall k: nat | k < to - from ensures Around(centre, gap, to - from, k) == Spots(average, gap, from, to)[k] {
      Position(centre, average, gap, from, to, k);
    }
  }

  /** Places one more run, the last of those that `cuts` bound. */
  method PlaceNext(wanted: seq<real>, gap: real, run: seq<nat>, placed: array<real>,
                   ghost order: seq<nat>, ghost u: seq<real>, ghost cuts: seq<nat>)
    requires placed.Length == |wanted| == |order| && Labels(order, |wanted|) && Once(order)
    requires u == Flat(At(wanted, order), gap) && Cuts(u, cuts) && |cuts| > 1
    requires run == order[Last(Front(cuts))..Last(cuts)]
    requires Filled(placed[..], u, gap, order, Front(cuts))
    modifies placed
    ensures Filled(placed[..], u, gap, order, cuts)
  {
    ghost var was := placed[..];
    ghost var from, to := Last(Front(cuts)), Last(cuts);
    ghost var average := Average(u, from, to);
    RunMean(wanted, order, gap, from, to);
    PlaceRun(wanted, gap, run, placed, order, from, to, average);
    FilledKept(was, placed[..], u, gap, order, Front(cuts));
    FilledOn(placed[..], u, gap, order, cuts, average);
  }

  /** Places every run. */
  method PlaceRuns(wanted: seq<real>, gap: real, runs: seq<seq<nat>>, placed: array<real>,
                   ghost order: seq<nat>, ghost u: seq<real>, ghost cuts: seq<nat>)
    requires placed.Length == |wanted| == |order| && Labels(order, |wanted|) && Once(order)
    requires u == Flat(At(wanted, order), gap) && Cuts(u, cuts) && RunsAre(runs, order, cuts)
    modifies placed
    ensures Filled(placed[..], u, gap, order, cuts)
  {
    StartOfRuns(u, runs, order, cuts, 0);
    for r := 0 to |runs|
      invariant Cuts(u, cuts[..r + 1]) && Filled(placed[..], u, gap, order, cuts[..r + 1])
    {
      NextRun(u, runs, order, cuts, r);
      PlaceNext(wanted, gap, runs[r], placed, order, u, cuts[..r + 2]);
    }
    assert cuts[..|runs| + 1] == cuts;
  }

  lemma {:induction false} FilledOn(placed: seq<real>, u: seq<real>, gap: real, order: seq<nat>, cuts: seq<nat>, average: real)
    requires Cuts(u, cuts) && |cuts| > 1 && Labels(order, |placed|) && |order| == |u|
    requires Filled(placed, u, gap, order, Front(cuts))
    requires average == Average(u, Last(Front(cuts)), Last(cuts))
    requires forall k :: Last(Front(cuts)) <= k < Last(cuts) ==> placed[order[k]] == average + gap * k as real
    ensures Filled(placed, u, gap, order, cuts)
  {}

  /** Places the labels: of all placements with that gap, none has a smaller sum of squared distances. */
  method Spread(wanted: seq<real>, gap: real) returns (result: seq<real>)
    ensures |result| == |wanted|
    ensures BestInOrder(result, wanted, gap, SortedLabels(wanted, |wanted|))
    ensures gap >= 0.0 ==> Best(result, wanted, gap)
  {
    var order := SortedLabels(wanted, |wanted|);
    SortedLabelsOnce(wanted, |wanted|);
    ghost var u := Flat(At(wanted, order), gap);
    var runs, cuts := Runs(wanted, gap, order);
    var placed := new real[|wanted|](_ => 0.0);
    PlaceRuns(wanted, gap, runs, placed, order, u, cuts);
    result := placed[..];
    FilledPlaced(result, u, gap, order, cuts);
    AveragesBest(wanted, gap, order, result, cuts);
    if gap >= 0.0 {
      BestInOrderIsBest(wanted, gap, order, result);
    }
  }
}
