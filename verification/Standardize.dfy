/**
 Column standardisation of mpi/getinput.cpp over exact reals, with any function that is a square
 root.
 */
module Standardize {
  type Column = seq<real>

  ghost predicate IsSqrt(sqrt: real -> real) { forall x: real :: IsSqrtAt(sqrt, x) }

  ghost predicate IsSqrtAt(sqrt: real -> real, x: real) {
    x >= 0.0 ==> sqrt(x) >= 0.0 && sqrt(x) * sqrt(x) == x
  }

  function Sum(xs: Column): (s: real) {
    if xs == [] then 0.0 else Sum(xs[..|xs| - 1]) + xs[|xs| - 1]
  }

  function Squares(xs: Column, a: real): (ys: Column)
    ensures |ys| == |xs|
  {
    seq(|xs|, i requires 0 <= i < |xs| => (xs[i] - a) * (xs[i] - a))
  }

  /** Sum of squared differences from a. */
  function Spread(xs: Column, a: real): (s: real) { Sum(Squares(xs, a)) }

  function Mean(xs: Column): (m: real)
    requires xs != []
  {
    Sum(xs) / |xs| as real
  }

  /** `dev`, the variance. */
  function Variance(xs: Column): (v: real)
    requires xs != []
  {
    Spread(xs, Mean(xs)) / |xs| as real
  }

  predicate IsConstant(xs: Column) { forall i | 0 <= i < |xs| :: xs[i] == xs[0] }

  predicate AllZero(xs: Column) { forall i | 0 <= i < |xs| :: xs[i] == 0.0 }

  // ---------------------------------------------------------------- real arithmetic

  lemma Positive(a: real, b: real)
    requires a > 0.0 && b > 0.0
    ensures a * b > 0.0
  {
  }

  /** Reals have no zero divisors. */
  lemma ZeroProduct(a: real, b: real)
    requires a * b == 0.0
    ensures a == 0.0 || b == 0.0
  {
    if a > 0.0 && b > 0.0 {
      Positive(a, b);
    } else if a > 0.0 && b < 0.0 {
      Positive(a, -b);
    } else if a < 0.0 && b > 0.0 {
      Positive(-a, b);
    } else if a < 0.0 && b < 0.0 {
      Positive(-a, -b);
    }
  }

  lemma SquareZero(d: real)
    ensures d * d >= 0.0 && (d * d == 0.0 <==> d == 0.0)
  {
    if d * d == 0.0 { ZeroProduct(d, d); }
  }

  lemma Over(s: real, n: real)
    requires n > 0.0
    ensures s / n * n == s && (s / n == 0.0 <==> s == 0.0) && (s >= 0.0 ==> s / n >= 0.0)
  {
  }

  lemma Quotients(x: real, d: real, r: real)
    requires d != 0.0 && r != 0.0
    ensures x / d / r * (d * r) == x
  {
    var q := x / d;
    var y := q / r;
    assert q * d == x && y * r == q;
    assert y * (d * r) == y * r * d;
  }

  lemma SquareFactor(y: real, x: real, g: real, h: real)
    requires y * g == x && h == g * g
    ensures (y - 0.0) * (y - 0.0) * h == x * x
  {
    assert (y * y) * (g * g) == (y * g) * (y * g);
  }

  lemma ProductOfSquares(d: real, r: real, v: real, n: real)
    requires d * d == v && r * r == n
    ensures (d * r) * (d * r) == v * n
  {
    assert (d * r) * (d * r) == (d * d) * (r * r);
  }

  lemma Distribute(t: real, q: real, h: real, s: real, z: real)
    requires t * h == s && q * h == z
    ensures (t + q) * h == s + z
  {
  }

  lemma IsOne(x: real, h: real)
    requires x * h == h && h > 0.0
    ensures x == 1.0
  {
    assert (x - 1.0) * h == x * h - h;
    ZeroProduct(x - 1.0, h);
  }

  // ---------------------------------------------------------------- sums

  ghost predicate Multiplied(ps: Column, qs: Column, h: real) {
    |ps| == |qs| && forall i | 0 <= i < |ps| :: ps[i] * h == qs[i]
  }

  lemma MultipliedPrefix(ps: Column, qs: Column, h: real)
    requires Multiplied(ps, qs, h) && ps != []
    ensures var n := |ps| - 1; Multiplied(ps[..n], qs[..n], h) && ps[n] * h == qs[n]
  {
  }

  lemma {:induction false} Proportional(ps: Column, qs: Column, h: real)
    requires Multiplied(ps, qs, h)
    ensures Sum(ps) * h == Sum(qs)
  {
    if ps == [] {
    } else {
      var n := |ps| - 1;
      MultipliedPrefix(ps, qs, h);
      Proportional(ps[..n], qs[..n], h);
      Distribute(Sum(ps[..n]), ps[n], h, Sum(qs[..n]), qs[n]);
    }
  }

  lemma {:induction false} Shifted(xs: Column, ds: Column, a: real)
    requires |ds| == |xs| && forall i | 0 <= i < |xs| :: ds[i] == xs[i] - a
    ensures Sum(ds) == Sum(xs) - |xs| as real * a
  {
    if xs == [] {
    } else {
      var n := |xs| - 1;
      Shifted(xs[..n], ds[..n], a);
      assert |xs| as real == n as real + 1.0;
    }
  }

  lemma {:induction false} NonNegativeSum(ps: Column)
    requires forall i | 0 <= i < |ps| :: ps[i] >= 0.0
    ensures Sum(ps) >= 0.0 && (Sum(ps) == 0.0 <==> AllZero(ps))
  {
    if ps == [] {
    } else {
      NonNegativeSum(ps[..|ps| - 1]);
    }
  }

  /** The variance is zero exactly for constant columns. */
  lemma VarianceZeroIff(xs: Column)
    requires xs != []
    ensures Variance(xs) >= 0.0 && (Variance(xs) == 0.0 <==> IsConstant(xs))
  {
    var n, a := |xs| as real, Mean(xs);
    var ps := Squares(xs, a);
    forall i | 0 <= i < |xs| ensures ps[i] >= 0.0 && (ps[i] == 0.0 <==> xs[i] == a) { SquareZero(xs[i] - a); }
    NonNegativeSum(ps);
    Over(Spread(xs, a), n);
    if IsConstant(xs) { ConstantMean(xs); }
  }

  lemma ConstantMean(xs: Column)
    requires xs != [] && IsConstant(xs)
    ensures Mean(xs) == xs[0]
  {
    var n, c := |xs| as real, xs[0];
    Shifted(xs, seq(|xs|, _ => 0.0), c);
    ZeroSum(seq(|xs|, _ => 0.0));
    assert Sum(xs) == n * c;
    Over(Sum(xs), n);
    assert (Mean(xs) - c) * n == 0.0;
    ZeroProduct(Mean(xs) - c, n);
  }

  lemma {:induction false} ZeroSum(xs: Column)
    requires AllZero(xs)
    ensures Sum(xs) == 0.0
  {
    if xs == [] {
    } else {
      ZeroSum(xs[..|xs| - 1]);
    }
  }

  // ---------------------------------------------------------------- the standardised column

  /** What the loop writes back: differences from a, divided by d and by r. */
  function Scaled(xs: Column, a: real, d: real, r: real): (ys: Column)
    requires d != 0.0 && r != 0.0
    ensures |ys| == |xs|
  {
    seq(|xs|, i requires 0 <= i < |xs| => (xs[i] - a) / d / r)
  }

  /** The values ys are the differences of xs from a, divided by g. */
  ghost predicate DividedBy(xs: Column, ys: Column, a: real, g: real) {
    |xs| == |ys| && forall i | 0 <= i < |xs| :: ys[i] * g == xs[i] - a
  }

  lemma SumVanishes(xs: Column, ys: Column, a: real, g: real, h: real)
    requires DividedBy(xs, ys, a, g) && Sum(xs) == |xs| as real * a && g * g == h > 0.0
    ensures Sum(ys) == 0.0
  {
    var ds := seq(|xs|, i requires 0 <= i < |xs| => xs[i] - a);
    Shifted(xs, ds, a);
    Proportional(ys, ds, g);
    ZeroProduct(Sum(ys), g);
  }

  lemma SquaresProportional(xs: Column, ys: Column, a: real, g: real, h: real, i: nat)
    requires i < |xs| == |ys| && g * g == h && ys[i] * g == xs[i] - a
    ensures Squares(ys, 0.0)[i] * h == Squares(xs, a)[i]
  {
    SquareFactor(ys[i], xs[i] - a, g, h);
  }

  lemma SpreadIsOne(xs: Column, ys: Column, a: real, g: real, h: real)
    requires DividedBy(xs, ys, a, g) && g * g == h > 0.0 && h == Spread(xs, a)
    ensures Spread(ys, 0.0) == 1.0
  {
    forall i | 0 <= i < |xs| ensures Squares(ys, 0.0)[i] * h == Squares(xs, a)[i] {
      SquaresProportional(xs, ys, a, g, h, i);
    }
    Proportional(Squares(ys, 0.0), Squares(xs, a), h);
    IsOne(Spread(ys, 0.0), h);
  }

  lemma ScaledTimes(xs: Column, a: real, d: real, r: real, g: real)
    requires d != 0.0 && r != 0.0 && g == d * r
    ensures DividedBy(xs, Scaled(xs, a, d, r), a, g)
  {
    forall i | 0 <= i < |xs| ensures Scaled(xs, a, d, r)[i] * g == xs[i] - a { Quotients(xs[i] - a, d, r); }
  }

  lemma Root(sqrt: real -> real, x: real)
    requires IsSqrt(sqrt) && x > 0.0
    ensures sqrt(x) != 0.0 && sqrt(x) * sqrt(x) == x
  {
    assert IsSqrtAt(sqrt, x);
    SquareZero(sqrt(x));
  }

  lemma MeanTimes(xs: Column)
    requires xs != []
    ensures Sum(xs) == |xs| as real * Mean(xs)
  {
    Over(Sum(xs), |xs| as real);
  }

  lemma VarianceTimes(xs: Column)
    requires xs != []
    ensures Variance(xs) * |xs| as real == Spread(xs, Mean(xs))
  {
    Over(Spread(xs, Mean(xs)), |xs| as real);
  }

  lemma Roots(xs: Column, sqrt: real -> real)
    requires IsSqrt(sqrt) && xs != [] && !IsConstant(xs)
    ensures var d, r := sqrt(Variance(xs)), sqrt(|xs| as real);
            && d != 0.0 && r != 0.0 && (d * r) * (d * r) == Spread(xs, Mean(xs)) > 0.0
    ensures Sum(xs) == |xs| as real * Mean(xs)
  {
    VarianceZeroIff(xs);
    MeanTimes(xs);
    VarianceTimes(xs);
    RootsOf(sqrt, Variance(xs), |xs| as real);
  }

  lemma RootsOf(sqrt: real -> real, v: real, n: real)
    requires IsSqrt(sqrt) && v > 0.0 && n > 0.0
    ensures sqrt(v) != 0.0 && sqrt(n) != 0.0
    ensures (sqrt(v) * sqrt(n)) * (sqrt(v) * sqrt(n)) == v * n > 0.0
  {
    Root(sqrt, v);
    Root(sqrt, n);
    ProductOfSquares(sqrt(v), sqrt(n), v, n);
    Positive(v, n);
  }

  /** A column that is not constant ends up with sum 0 and sum of squares 1. */
  lemma StandardizedSums(xs: Column, sqrt: real -> real)
    requires IsSqrt(sqrt) && xs != [] && !IsConstant(xs)
    ensures var d, r := sqrt(Variance(xs)), sqrt(|xs| as real);
            && d != 0.0 && r != 0.0
            && Normed(Scaled(xs, Mean(xs), d, r)) && Stretched(xs, Scaled(xs, Mean(xs), d, r))
  {
    var a, d, r := Mean(xs), sqrt(Variance(xs)), sqrt(|xs| as real);
    Roots(xs, sqrt);
    VarianceZeroIff(xs);
    ScaledTimes(xs, a, d, r, d * r);
    NormedBy(xs, Scaled(xs, a, d, r), a, d * r, Spread(xs, a));
    NormedIf(Scaled(xs, a, d, r));
    StretchedIf(xs, Scaled(xs, a, d, r), sqrt, d, r);
  }

  lemma StretchedIf(xs: Column, ys: Column, sqrt: real -> real, d: real, r: real)
    requires IsSqrt(sqrt) && xs != [] && d == sqrt(Variance(xs)) && r == sqrt(|xs| as real) && d != 0.0 && r != 0.0
    requires Variance(xs) >= 0.0 && DividedBy(xs, ys, Mean(xs), d * r)
    ensures Stretched(xs, ys)
  {
    assert IsSqrtAt(sqrt, Variance(xs)) && IsSqrtAt(sqrt, |xs| as real);
    Positive(d, r);
    assert Factor(xs, ys, d * r);
  }

  lemma NormedBy(xs: Column, ys: Column, a: real, g: real, h: real)
    requires DividedBy(xs, ys, a, g) && g * g == h > 0.0 && h == Spread(xs, a)
    requires Sum(xs) == |xs| as real * a
    ensures Sum(ys) == 0.0 && Spread(ys, 0.0) == 1.0
  {
    SumVanishes(xs, ys, a, g, h);
    SpreadIsOne(xs, ys, a, g, h);
  }

  /** Sum 0 and sum of squares 1. */
  ghost predicate Normed(xs: Column) {
    Sum(xs) == 0.0 && Sum(seq(|xs|, i requires 0 <= i < |xs| => xs[i] * xs[i])) == 1.0
  }

  /** The values are the distances of the old ones from their mean, divided by a positive number. */
  ghost predicate Stretched(was: Column, now: Column) {
    was != [] && exists g: real :: Factor(was, now, g)
  }

  ghost predicate Factor(was: Column, now: Column, g: real)
    requires was != []
  {
    g > 0.0 && |now| == |was| && forall i | 0 <= i < |was| :: now[i] * g == was[i] - Mean(was)
  }

  /** So the order of the values stays as it was. */
  lemma OrderKept(was: Column, now: Column, i: nat, j: nat)
    requires Stretched(was, now) && i < |was| && j < |was|
    ensures was[i] < was[j] <==> now[i] < now[j]
  {
    var g: real :| Factor(was, now, g);
    if now[i] < now[j] { Positive(now[j] - now[i], g); }
    if now[j] < now[i] { Positive(now[i] - now[j], g); }
  }

  lemma NormedIf(xs: Column)
    requires Sum(xs) == 0.0 && Spread(xs, 0.0) == 1.0
    ensures Normed(xs)
  {
    SquaresAre(xs, seq(|xs|, i requires 0 <= i < |xs| => xs[i] * xs[i]));
  }

  lemma SquaresAre(xs: Column, qs: Column)
    requires |qs| == |xs| && forall i | 0 <= i < |xs| :: qs[i] == xs[i] * xs[i]
    ensures Squares(xs, 0.0) == qs
  {
    forall i | 0 <= i < |xs| ensures Squares(xs, 0.0)[i] == qs[i] { LessNothing(xs[i]); }
  }

  lemma LessNothing(x: real)
    ensures (x - 0.0) * (x - 0.0) == x * x
  {
  }

  // ---------------------------------------------------------------- what the moments are

  /** `Sum` adds up. */
  lemma {:induction false} SumIs(a: Column, b: Column, x: real)
    ensures Sum(a + b) == Sum(a) + Sum(b) && Sum([x]) == x
  {
    assert [x][..0] == [];
    if b == [] {
      assert a + b == a;
    } else {
      var n := |b| - 1;
      SumIs(a, b[..n], x);
      assert (a + b)[..|a| + n] == a + b[..n];
    }
  }

  lemma Binomial(x: real, a: real)
    ensures (x - a) * (x - a) == x * x - 2.0 * (a * x) + a * a
  {
  }

  lemma OneMore(n: real, k: real)
    ensures (n + 1.0) * k == n * k + k
  {
  }

  ghost predicate Expanded(ps: Column, qs: Column, rs: Column, k: real) {
    |ps| == |qs| == |rs| && forall i | 0 <= i < |ps| :: ps[i] == qs[i] - 2.0 * rs[i] + k
  }

  lemma {:induction false} Expands(ps: Column, qs: Column, rs: Column, k: real)
    requires Expanded(ps, qs, rs, k)
    ensures Sum(ps) == Sum(qs) - 2.0 * Sum(rs) + |ps| as real * k
  {
    if ps == [] {
    } else {
      var n := |ps| - 1;
      Expands(ps[..n], qs[..n], rs[..n], k);
      OneMore(n as real, k);
      assert |ps| as real == n as real + 1.0;
    }
  }

  /** The variance v in terms of the entries alone: n times the sum q of the squares, less the square
      of the sum s, is n*n*v. */
  lemma VarianceIs(xs: Column, n: real, s: real, q: real, v: real)
    requires xs != [] && n == |xs| as real && s == Sum(xs) && v == Variance(xs)
    requires q == Sum(seq(|xs|, i requires 0 <= i < |xs| => xs[i] * xs[i]))
    ensures n * q - s * s == n * n * v
  {
    var a, d := MomentsAre(xs, seq(|xs|, i requires 0 <= i < |xs| => xs[i] * xs[i]), n, s, q, v);
    Collected(n, a, s, q, d, v);
  }

  lemma MomentsAre(xs: Column, qs: Column, n: real, s: real, q: real, v: real) returns (a: real, d: real)
    requires xs != [] && |qs| == |xs| && forall i | 0 <= i < |xs| :: qs[i] == xs[i] * xs[i]
    requires n == |xs| as real && s == Sum(xs) && v == Variance(xs) && q == Sum(qs)
    ensures s == n * a && v * n == d && d == q - 2.0 * (a * s) + n * (a * a)
  {
    a := Mean(xs);
    var sr := SpreadIs(xs, qs, a);
    MultiplesSum(xs, a, s, sr);
    d := Spread(xs, a);
    MeanAndVariance(xs, n, s, v, a, d);
    Gather(n, a, s, q, sr, d);
  }

  lemma Gather(n: real, a: real, s: real, q: real, sr: real, d: real)
    requires s * a == sr && d == q - 2.0 * sr + n * (a * a)
    ensures d == q - 2.0 * (a * s) + n * (a * a)
  {
  }

  lemma MultiplesSum(xs: Column, a: real, s: real, sr: real)
    requires s == Sum(xs) && sr == Sum(Multiples(xs, a))
    ensures s * a == sr
  {
    Proportional(xs, Multiples(xs, a), a);
  }

  lemma SpreadIs(xs: Column, qs: Column, a: real) returns (sr: real)
    requires |qs| == |xs| && forall i | 0 <= i < |xs| :: qs[i] == xs[i] * xs[i]
    ensures sr == Sum(Multiples(xs, a)) && Spread(xs, a) == Sum(qs) - 2.0 * sr + |xs| as real * (a * a)
  {
    var rs, k := Multiples(xs, a), a * a;
    SquaresExpand(xs, qs, Squares(xs, a), rs, a, k);
    Expands(Squares(xs, a), qs, rs, k);
    sr := Sum(rs);
  }

  function Multiples(xs: Column, a: real): (rs: Column)
    ensures Multiplied(xs, rs, a)
  {
    seq(|xs|, i requires 0 <= i < |xs| => xs[i] * a)
  }

  lemma SquaresExpand(xs: Column, qs: Column, ps: Column, rs: Column, a: real, k: real)
    requires |qs| == |xs| && forall i | 0 <= i < |xs| :: qs[i] == xs[i] * xs[i]
    requires ps == Squares(xs, a) && rs == Multiples(xs, a) && k == a * a
    ensures Expanded(ps, qs, rs, k)
  {
    forall i | 0 <= i < |xs| ensures ps[i] == qs[i] - 2.0 * rs[i] + k { Binomial(xs[i], a); }
  }

  lemma MeanAndVariance(xs: Column, n: real, s: real, v: real, a: real, d: real)
    requires xs != [] && n == |xs| as real && s == Sum(xs) && v == Variance(xs) && a == Mean(xs) && d == Spread(xs, a)
    ensures s == n * a && v * n == d
  {
    MeanTimes(xs);
    VarianceTimes(xs);
  }

  lemma Collected(n: real, a: real, s: real, q: real, d: real, v: real)
    requires s == n * a && v * n == d && d == q - 2.0 * (a * s) + n * (a * a)
    ensures n * q - s * s == n * n * v
  {
    Spreads(n, q, a * s, n * (a * a));
    Moves(n, a, s);
    Thrice(n, v);
  }

  lemma Spreads(n: real, q: real, x: real, y: real)
    ensures n * (q - 2.0 * x + y) == n * q - 2.0 * (n * x) + n * y
  {
  }

  lemma Moves(n: real, a: real, s: real)
    requires s == n * a
    ensures n * (a * s) == s * s && n * (n * (a * a)) == s * s
  {
    Assoc(n, a, s);
    Assoc(n, a, a);
    Assoc(a, n, s);
    assert n * (n * (a * a)) == n * (s * a) == n * (a * s);
  }

  lemma Assoc(x: real, y: real, z: real)
    ensures x * (y * z) == (x * y) * z
  {
  }

  lemma Thrice(n: real, v: real)
    ensures n * n * v == n * (v * n)
  {
  }

  // ---------------------------------------------------------------- in place

  /** Column i of a row-major matrix. */
  function Col(m: array2<real>, i: nat): (xs: Column)
    requires i < m.Length1
    reads m
    ensures |xs| == m.Length0 && forall j | 0 <= j < m.Length0 :: xs[j] == m[j, i]
  {
    seq(m.Length0, j requires 0 <= j < m.Length0 reads m => m[j, i])
  }

  function Row(m: array2<real>, i: nat): (xs: Column)
    requires i < m.Length0
    reads m
  {
    seq(m.Length1, j requires 0 <= j < m.Length1 reads m => m[i, j])
  }

  lemma SumPrefix(xs: Column, j: nat)
    requires j < |xs|
    ensures Sum(xs[..j + 1]) == Sum(xs[..j]) + xs[j]
  {
    assert xs[..j + 1][..j] == xs[..j];
  }

  /** The two accumulating loops: mean, then variance. */
  method Moments(xs: Column) returns (avg: real, dev: real)
    requires xs != []
    ensures avg == Mean(xs) && dev == Variance(xs)
  {
    var total := 0.0;
    for j := 0 to |xs|
      invariant total == Sum(xs[..j])
    {
      SumPrefix(xs, j);
      total := total + xs[j];
    }
    assert xs[..|xs|] == xs;
    avg := total / |xs| as real;
    dev := Deviation(xs, avg);
  }

  function ShareOf(x: real, a: real, n: real): (r: real)
    requires n > 0.0
  {
    (x - a) * (x - a) / n
  }

  /** What the second loop adds up. */
  ghost function Shares(xs: Column, a: real): (ts: Column)
    requires xs != []
    ensures |ts| == |xs|
  {
    seq(|xs|, i requires 0 <= i < |xs| => ShareOf(xs[i], a, |xs| as real))
  }

  lemma ShareTimes(xs: Column, a: real, i: nat)
    requires i < |xs|
    ensures Shares(xs, a)[i] * |xs| as real == Squares(xs, a)[i]
  {
    Over((xs[i] - a) * (xs[i] - a), |xs| as real);
  }

  lemma SharesTimes(xs: Column, a: real)
    requires xs != []
    ensures Sum(Shares(xs, a)) * |xs| as real == Spread(xs, a)
  {
    SharesTimesEach(xs, a);
    Proportional(Shares(xs, a), Squares(xs, a), |xs| as real);
  }

  lemma SharesTimesEach(xs: Column, a: real)
    requires xs != []
    ensures Multiplied(Shares(xs, a), Squares(xs, a), |xs| as real)
  {
    forall i | 0 <= i < |xs| ensures Shares(xs, a)[i] * |xs| as real == Squares(xs, a)[i] { ShareTimes(xs, a, i); }
  }

  lemma SharesSum(xs: Column, a: real)
    requires xs != []
    ensures Sum(Shares(xs, a)) == Spread(xs, a) / |xs| as real
  {
    SharesTimes(xs, a);
    Ratio(Sum(Shares(xs, a)), |xs| as real, Spread(xs, a));
  }

  lemma Ratio(x: real, n: real, s: real)
    requires n > 0.0 && x * n == s
    ensures x == s / n
  {
    Over(s, n);
    assert (x - s / n) * n == 0.0;
    ZeroProduct(x - s / n, n);
  }

  method Deviation(xs: Column, avg: real) returns (dev: real)
    requires xs != []
    ensures dev == Spread(xs, avg) / |xs| as real
  {
    ghost var ts := Shares(xs, avg);
    dev := 0.0;
    for j := 0 to |xs|
      invariant dev == Sum(ts[..j])
    {
      SumPrefix(ts, j);
      var share := Share(xs, avg, j);
      dev := dev + share;
    }
    assert ts[..|xs|] == ts;
    SharesSum(xs, avg);
  }

  method Share(xs: Column, avg: real, j: nat) returns (r: real)
    requires j < |xs|
    ensures r == Shares(xs, avg)[j]
  {
    r := ShareOf(xs[j], avg, |xs| as real);
  }

  /** What becomes of a column: centred and normed if it is not constant, and accepted as it is
      if it is all zero. */
  ghost predicate Standard(was: Column, now: Column) {
    if IsConstant(was) then AllZero(was) && now == was else Normed(now) && Stretched(was, now)
  }

  ghost predicate SameElsewhere(m: array2<real>, rows: seq<Column>, i: nat)
    requires |rows| == m.Length1
    reads m
  {
    forall k: nat | k < m.Length1 && k != i :: Col(m, k) == rows[k]
  }

  ghost function Cols(m: array2<real>): (cs: seq<Column>)
    reads m
    ensures |cs| == m.Length1 && forall k: nat | k < m.Length1 :: cs[k] == Col(m, k)
  {
    seq(m.Length1, k requires 0 <= k < m.Length1 reads m => Col(m, k))
  }

  /** The loop that writes a column back. */
  method WriteBack(m: array2<real>, i: nat, avg: real, stdev: real, r: real)
    requires i < m.Length1 && stdev != 0.0 && r != 0.0
    modifies m
    ensures Col(m, i) == Scaled(old(Col(m, i)), avg, stdev, r)
    ensures SameElsewhere(m, old(Cols(m)), i)
  {
    ghost var xs := Col(m, i);
    for j := 0 to m.Length0
      invariant forall a | 0 <= a < m.Length0 :: m[a, i] == if a < j then (xs[a] - avg) / stdev / r else xs[a]
      invariant forall a, k | 0 <= a < m.Length0 && 0 <= k < m.Length1 && k != i :: m[a, k] == old(m[a, k])
    {
      m[j, i] := (m[j, i] - avg) / stdev / r;
    }
  }

  /** The loop that rejects a constant column that is not zero. */
  method IsZeroColumn(m: array2<real>, i: nat) returns (ok: bool)
    requires i < m.Length1
    ensures ok <==> AllZero(Col(m, i))
  {
    for row := 0 to m.Length0
      invariant forall j | 0 <= j < row :: Col(m, i)[j] == 0.0
    {
      if m[row, i] != 0.0 {
        assert Col(m, i)[row] != 0.0;
        return false;
      }
    }
    return true;
  }

  /** One column of `standardizeInput`; `false` is the exit on a constant column that is not
      zero. */
  method StandardizeColumn(m: array2<real>, i: nat, sqrt: real -> real) returns (ok: bool)
    requires i < m.Length1 && m.Length0 > 0 && IsSqrt(sqrt)
    modifies m
    ensures ok ==> Standard(old(Col(m, i)), Col(m, i))
    ensures !ok ==> IsConstant(old(Col(m, i))) && !AllZero(old(Col(m, i)))
    ensures SameElsewhere(m, old(Cols(m)), i)
  {
    var xs := Col(m, i);
    var avg, dev := Moments(xs);
    VarianceZeroIff(xs);
    var stdev := sqrt(dev);
    assert stdev == 0.0 <==> dev == 0.0 by {
      assert IsSqrtAt(sqrt, dev);
      SquareZero(stdev);
    }
    if stdev == 0.0 {
      ok := IsZeroColumn(m, i);
    } else {
      StandardizedSums(xs, sqrt);
      WriteBack(m, i, avg, stdev, sqrt(m.Length0 as real));
      ok := true;
    }
  }

  /** `Exit`: the program ends at that column.  `Finished` says whether Y is not-a-number, which
      is what dividing by a zero deviation yields. */
  datatype Outcome = Exit(col: nat) | Finished(yIsNan: bool)

  /** `standardizeInput` */
  method StandardizeInput(m: array2<real>, y: array<real>, sqrt: real -> real) returns (r: Outcome)
    requires y.Length == m.Length0 && IsSqrt(sqrt)
    modifies m, y
    ensures m.Length0 > 0 && r.Finished? ==> forall i: nat | i < m.Length1 :: Standard(old(Col(m, i)), Col(m, i))
    ensures m.Length0 > 0 && r.Exit? ==>
              && r.col < m.Length1 && IsConstant(old(Col(m, r.col))) && !AllZero(old(Col(m, r.col)))
              && forall k: nat | k < r.col :: Standard(old(Col(m, k)), Col(m, k))
    ensures m.Length0 > 0 && r.Finished? ==> (r.yIsNan <==> IsConstant(old(y[..])))
    ensures m.Length0 > 0 && r == Finished(false) ==> Normed(y[..]) && Stretched(old(y[..]), y[..])
  {
    if m.Length0 == 0 {
      return Finished(false);
    }
    ghost var was := Cols(m);
    for i := 0 to m.Length1
      invariant y[..] == old(y[..])
      invariant forall k: nat | k < i :: Standard(was[k], Col(m, k))
      invariant forall k: nat | i <= k < m.Length1 :: Col(m, k) == was[k]
    {
      var ok := StandardizeColumn(m, i, sqrt);
      if !ok {
        return Exit(i);
      }
    }
    var nan := StandardizeY(y, sqrt);
    return Finished(nan);
  }

  method StandardizeY(y: array<real>, sqrt: real -> real) returns (nan: bool)
    requires y.Length > 0 && IsSqrt(sqrt)
    modifies y
    ensures nan <==> IsConstant(old(y[..]))
    ensures !nan ==> Normed(y[..]) && Stretched(old(y[..]), y[..])
  {
    var xs := y[..];
    var avg, dev := Moments(xs);
    VarianceZeroIff(xs);
    var stdev := sqrt(dev);
    assert stdev == 0.0 <==> dev == 0.0 by {
      assert IsSqrtAt(sqrt, dev);
      SquareZero(stdev);
    }
    if stdev == 0.0 {
      return true;
    }
    StandardizedSums(xs, sqrt);
    var r := sqrt(y.Length as real);
    for i := 0 to y.Length
      invariant forall a | 0 <= a < y.Length :: y[a] == if a < i then (xs[a] - avg) / stdev / r else xs[a]
    {
      y[i] := (y[i] - avg) / stdev / r;
    }
    assert y[..] == Scaled(xs, avg, stdev, r);
    return false;
  }

  /** `makecm`: the column-major copy; its rows are the columns of the matrix. */
  method MakeCm(x: array2<real>) returns (cm: array2<real>)
    ensures cm.Length0 == x.Length1 && cm.Length1 == x.Length0
    ensures forall row, col | 0 <= row < x.Length0 && 0 <= col < x.Length1 :: cm[col, row] == x[row, col]
    ensures forall col: nat | col < x.Length1 :: Row(cm, col) == Col(x, col)
  {
    cm := new real[x.Length1, x.Length0]((i, j) => 0.0);
    for row := 0 to x.Length0
      invariant forall a, b | 0 <= a < row && 0 <= b < x.Length1 :: cm[b, a] == x[a, b]
    {
      for col := 0 to x.Length1
        invariant forall a, b | 0 <= a < row && 0 <= b < x.Length1 :: cm[b, a] == x[a, b]
        invariant forall b | 0 <= b < col :: cm[b, row] == x[row, b]
      {
        cm[col, row] := x[row, col];
      }
    }
  }
}
