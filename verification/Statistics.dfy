/**
 The numeric guarantees, over ideal reals: cosine similarity and human/LLM correlation lie in
 [-1, 1], and Welch's t-test has bounded degrees of freedom and is antisymmetric in its groups.
 Square roots and the normal distribution function are parameters.
 */
module Statistics {
  import opened Basics

  ghost predicate IsSquareRoot(sqrt: real -> real) {
    forall x: real :: x >= 0.0 ==> sqrt(x) >= 0.0 && sqrt(x) * sqrt(x) == x
  }

  function Sum(a: seq<real>): real { if a == [] then 0.0 else a[0] + Sum(a[1..]) }

  /** `sum(x * y for x, y in zip(a, b))` */
  function Dot(a: seq<real>, b: seq<real>): real {
    if a == [] || b == [] then 0.0 else a[0] * b[0] + Dot(a[1..], b[1..])
  }

  // ---------------------------------------------------------------- Cauchy-Schwarz

  ghost function Combine(s: real, a: seq<real>, t: real, b: seq<real>): seq<real>
    requires |a| == |b|
  {
    if a == [] then [] else [s * a[0] - t * b[0]] + Combine(s, a[1..], t, b[1..])
  }

  lemma {:induction false} DotSelfNonNegative(a: seq<real>)
    ensures Dot(a, a) >= 0.0
  {
    if a != [] { DotSelfNonNegative(a[1..]); assert a[0] * a[0] >= 0.0; }
  }

  lemma ExpandSquare(s: real, x: real, t: real, y: real)
    ensures (s * x - t * y) * (s * x - t * y) == s * s * (x * x) - 2.0 * (s * t * (x * y)) + t * t * (y * y)
  {}

  lemma Distribute(c: real, u: real, v: real)
    ensures c * (u + v) == c * u + c * v
  {}

  ghost function Quadratic(s: real, a: real, t: real, b: real, d: real): real {
    s * s * a - 2.0 * (s * t * d) + t * t * b
  }

  /** One more pair of components in the square of the combination. */
  lemma QuadraticStep(s: real, x: real, t: real, y: real, z: real, a: real, b: real, d: real)
    requires z == s * x - t * y
    ensures z * z + Quadratic(s, a, t, b, d) == Quadratic(s, x * x + a, t, y * y + b, x * y + d)
  {
    ExpandSquare(s, x, t, y);
    Distribute(s * s, x * x, a);
    Distribute(s * t, x * y, d);
    Distribute(t * t, y * y, b);
  }

  lemma DotStep(a: seq<real>, b: seq<real>, x: real, y: real)
    requires a != [] && b != [] && a[0] == x && b[0] == y
    ensures Dot(a, b) == x * y + Dot(a[1..], b[1..])
  {}

  lemma {:induction false} CombineNorm(s: real, a: seq<real>, t: real, b: seq<real>)
    requires |a| == |b|
    ensures |Combine(s, a, t, b)| == |a|
    ensures Dot(Combine(s, a, t, b), Combine(s, a, t, b))
         == Quadratic(s, Dot(a, a), t, Dot(b, b), Dot(a, b))
  {
    if a != [] {
      var c, x, y := Combine(s, a, t, b), a[0], b[0];
      var z := s * x - t * y;
      CombineNorm(s, a[1..], t, b[1..]);
      assert c[1..] == Combine(s, a[1..], t, b[1..]);
      DotStep(c, c, z, z);
      DotStep(a, a, x, x);
      DotStep(b, b, y, y);
      DotStep(a, b, x, y);
      QuadraticStep(s, x, t, y, z, Dot(a[1..], a[1..]), Dot(b[1..], b[1..]), Dot(a[1..], b[1..]));
    }
  }

  lemma ProductPositive(x: real, y: real, z: real)
    requires z == x * y && ((x > 0.0 && y > 0.0) || (x < 0.0 && y < 0.0))
    ensures z > 0.0
  {}

  lemma SquareZero(x: real, z: real)
    requires z == x * x && z <= 0.0
    ensures x == 0.0
  {
    if x != 0.0 { ProductPositive(x, x, z); }
  }

  lemma {:induction false} ZeroNormZeroDot(a: seq<real>, b: seq<real>)
    requires |a| == |b| && Dot(b, b) == 0.0
    ensures Dot(a, b) == 0.0
  {
    if b != [] {
      DotSelfNonNegative(b[1..]);
      SquareZero(b[0], b[0] * b[0]);
      ZeroNormZeroDot(a[1..], b[1..]);
    }
  }

  lemma PositiveFactor(c: real, x: real)
    requires c > 0.0 && c * x >= 0.0
    ensures x >= 0.0
  {
    if x < 0.0 { Scale(x, 0.0, c); }
  }

  predicate WithinNorms(dot: real, a: real, b: real) { dot * dot <= a * b }

  lemma NormGap(a: real, b: real, d: real, c: real)
    requires b > 0.0 && c >= 0.0 && c == Quadratic(b, a, d, b, d)
    ensures WithinNorms(d, a, b)
  {
    assert c == b * (a * b - d * d);
    PositiveFactor(b, a * b - d * d);
  }

  lemma CauchySchwarzPositive(a: seq<real>, b: seq<real>)
    requires |a| == |b| && Dot(b, b) > 0.0
    ensures WithinNorms(Dot(a, b), Dot(a, a), Dot(b, b))
  {
    var c := Combine(Dot(b, b), a, Dot(a, b), b);
    CombineNorm(Dot(b, b), a, Dot(a, b), b);
    DotSelfNonNegative(c);
    NormGap(Dot(a, a), Dot(b, b), Dot(a, b), Dot(c, c));
  }

  /** The square of a dot product is at most the product of the squared norms. */
  lemma CauchySchwarz(a: seq<real>, b: seq<real>)
    requires |a| == |b|
    ensures WithinNorms(Dot(a, b), Dot(a, a), Dot(b, b))
  {
    DotSelfNonNegative(b);
    if Dot(b, b) > 0.0 {
      CauchySchwarzPositive(a, b);
    } else {
      ZeroNormZeroDot(a, b);
      assert Dot(a, a) * Dot(b, b) == 0.0;
    }
  }

  /** A number over the product of two norms, where neither is zero. */
  function Ratio(x: real, u: real, v: real): real
    requires u != 0.0 && v != 0.0
  {
    assert u * v != 0.0;
    x / (u * v)
  }

  lemma RatioInUnitInterval(x: real, u: real, v: real)
    requires u > 0.0 && v > 0.0 && WithinNorms(x, u * u, v * v)
    ensures -1.0 <= Ratio(x, u, v) <= 1.0
  {
    var w := u * v;
    ProductPositive(u, v, w);
    SquareOfProduct(u, v, w);
    BetweenRoots(x, w);
    QuotientBounds(x, w);
  }

  lemma SquareOfProduct(u: real, v: real, w: real)
    requires w == u * v
    ensures (u * u) * (v * v) == w * w
  {
    assert (u * u) * (v * v) == u * (u * (v * v)) == u * ((u * v) * v) == (u * v) * (u * v);
  }

  lemma BetweenRoots(x: real, w: real)
    requires w > 0.0 && x * x <= w * w
    ensures -w <= x <= w
  {
    if x > w { SquareOrder(x, w); }
    if -x > w { SquareOrder(-x, w); }
  }

  lemma SquareOrder(x: real, w: real)
    requires x > w > 0.0
    ensures x * x > w * w
  {
    assert x * x > x * w && x * w > w * w;
  }

  lemma QuotientBounds(x: real, w: real)
    requires w > 0.0 && -w <= x <= w
    ensures -1.0 <= x / w <= 1.0
  {}

  // ---------------------------------------------------------------- cosine similarity

  /** From the dot product and the two squared norms. */
  function Cosine(dot: real, a: real, b: real, sqrt: real -> real): real {
    var normA, normB := sqrt(a), sqrt(b);
    if normA == 0.0 || normB == 0.0 then 0.0 else Ratio(dot, normA, normB)
  }

  function CosineSimilarity(a: seq<real>, b: seq<real>, sqrt: real -> real): real {
    if |a| != |b| || a == [] then 0.0 else Cosine(Dot(a, b), Dot(a, a), Dot(b, b), sqrt)
  }

  lemma CosineBounds(dot: real, a: real, b: real, sqrt: real -> real)
    requires IsSquareRoot(sqrt) && a >= 0.0 && b >= 0.0 && WithinNorms(dot, a, b)
    ensures -1.0 <= Cosine(dot, a, b, sqrt) <= 1.0
  {
    var normA, normB := sqrt(a), sqrt(b);
    assert normA * normA == a && normB * normB == b;
    if normA > 0.0 && normB > 0.0 { RatioInUnitInterval(dot, normA, normB); }
  }

  lemma CosineInUnitInterval(a: seq<real>, b: seq<real>, sqrt: real -> real)
    requires IsSquareRoot(sqrt)
    ensures -1.0 <= CosineSimilarity(a, b, sqrt) <= 1.0
  {
    if |a| == |b| {
      DotSelfNonNegative(a);
      DotSelfNonNegative(b);
      CauchySchwarz(a, b);
      CosineBounds(Dot(a, b), Dot(a, a), Dot(b, b), sqrt);
    }
  }

  /** Similarity is symmetric, and 1 for a non-zero vector against itself. */
  lemma CosineSymmetric(a: seq<real>, b: seq<real>, sqrt: real -> real)
    requires IsSquareRoot(sqrt)
    ensures CosineSimilarity(a, b, sqrt) == CosineSimilarity(b, a, sqrt)
    ensures Dot(a, a) > 0.0 ==> CosineSimilarity(a, a, sqrt) == 1.0
  {
    DotCommutes(a, b);
    CosineSwap(Dot(a, b), Dot(a, a), Dot(b, b), sqrt);
    if Dot(a, a) > 0.0 { CosineSelf(Dot(a, a), sqrt); }
  }

  lemma CosineSwap(dot: real, a: real, b: real, sqrt: real -> real)
    ensures Cosine(dot, a, b, sqrt) == Cosine(dot, b, a, sqrt)
  {
    assert sqrt(a) * sqrt(b) == sqrt(b) * sqrt(a);
  }

  lemma CosineSelf(a: real, sqrt: real -> real)
    requires IsSquareRoot(sqrt) && a > 0.0
    ensures Cosine(a, a, a, sqrt) == 1.0
  {
    var s := sqrt(a);
    assert s * s == a;
    QuotientIs(a, s * s, 1.0);
  }

  lemma {:induction false} DotCommutes(a: seq<real>, b: seq<real>)
    ensures Dot(a, b) == Dot(b, a)
  {
    if a != [] && b != [] { DotCommutes(a[1..], b[1..]); }
  }

  lemma RootOfZero(s: real)
    requires s * s == 0.0
    ensures s == 0.0
  {
    SquareZero(s, s * s);
  }

  /** Vectors of different lengths, and a vector of length zero against any other, are not alike at all. */
  lemma CosineOfNothing(a: seq<real>, b: seq<real>, sqrt: real -> real)
    requires IsSquareRoot(sqrt)
    ensures |a| != |b| || a == [] || Dot(a, a) == 0.0 || Dot(b, b) == 0.0 ==> CosineSimilarity(a, b, sqrt) == 0.0
  {
    if Dot(a, a) == 0.0 { RootOfZero(sqrt(0.0)); }
    if Dot(b, b) == 0.0 { RootOfZero(sqrt(0.0)); }
  }

  ghost function Negated(a: seq<real>): seq<real> { if a == [] then [] else [-a[0]] + Negated(a[1..]) }

  lemma NegateProduct(x: real, y: real)
    ensures x * -y == -(x * y) && (-x) * (-y) == x * y
  {}

  lemma {:induction false} DotNegated(a: seq<real>, b: seq<real>)
    requires |a| == |b|
    ensures |Negated(b)| == |b|
    ensures Dot(a, Negated(b)) == -Dot(a, b)
    ensures Dot(Negated(b), Negated(b)) == Dot(b, b)
  {
    if b != [] {
      var n := Negated(b);
      DotNegated(a[1..], b[1..]);
      assert n[0] == -b[0] && n[1..] == Negated(b[1..]);
      DotStep(a, n, a[0], -b[0]);
      DotStep(n, n, -b[0], -b[0]);
      NegateProduct(a[0], b[0]);
      NegateProduct(b[0], b[0]);
    }
  }

  lemma NegativeQuotientIs(x: real, m: real)
    requires m > 0.0 && x == -m
    ensures x / m == -1.0
  {}

  lemma RatioOfNegative(x: real, s: real)
    requires s != 0.0 && x > 0.0 && s * s == x
    ensures Ratio(x, s, s) == 1.0 && Ratio(-x, s, s) == -1.0
  {
    QuotientIs(x, s * s, 1.0);
    NegativeQuotientIs(-x, s * s);
  }

  lemma RootNotZero(s: real, v: real)
    requires s * s == v && v > 0.0
    ensures s != 0.0
  {}

  lemma OppositeCosine(d: real, sqrt: real -> real)
    requires IsSquareRoot(sqrt) && d > 0.0
    ensures Cosine(-d, d, d, sqrt) == -1.0
  {
    var s := sqrt(d);
    RootNotZero(s, d);
    RatioOfNegative(d, s);
  }

  /** A non-zero vector is as unlike its opposite as can be. */
  lemma CosineOfOpposite(a: seq<real>, sqrt: real -> real)
    requires IsSquareRoot(sqrt) && Dot(a, a) > 0.0
    ensures CosineSimilarity(a, Negated(a), sqrt) == -1.0
  {
    DotNegated(a, a);
    OppositeCosine(Dot(a, a), sqrt);
  }

  // ---------------------------------------------------------------- human / LLM correlation

  function Deviations(a: seq<real>, mean: real): seq<real> {
    if a == [] then [] else [a[0] - mean] + Deviations(a[1..], mean)
  }

  function Mean(a: seq<real>): real
    requires a != []
  {
    Sum(a) / |a| as real
  }

  /** A covariance over the two standard deviations, given as variances; 0 when either vanishes. */
  function Standardise(covariance: real, u: real, v: real, sqrt: real -> real): real {
    var hStd, lStd := sqrt(u), sqrt(v);
    if hStd > 0.0 && lStd > 0.0 then Ratio(covariance, hStd, lStd) else 0.0
  }

  /** The simplified Pearson coefficient of the judge's calibration. */
  function Correlation(human: seq<real>, llm: seq<real>, sqrt: real -> real): real
    requires human != [] && |human| == |llm|
  {
    if |human| == 1 then 0.0
    else
      var h, l := Deviations(human, Mean(human)), Deviations(llm, Mean(llm));
      var m := (|human| - 1) as real;
      Standardise(Dot(h, l) / m, Dot(h, h) / m, Dot(l, l) / m, sqrt)
  }

  lemma {:induction false} DeviationsLength(a: seq<real>, mean: real)
    ensures |Deviations(a, mean)| == |a|
  {
    if a != [] { DeviationsLength(a[1..], mean); }
  }

  lemma QuotientIs(x: real, m: real, z: real)
    requires m > 0.0 && x == z * m
    ensures x / m == z
  {}

  lemma EqualProducts(x: real, y: real, u: real, v: real)
    requires x == u && y == v
    ensures x * y == u * v
  {}

  lemma CancelFactor(c: real, x: real, y: real)
    requires c > 0.0 && c * x <= c * y
    ensures x <= y
  {
    if y < x { Scale(y, x, c); }
  }

  lemma ScaleDown(x: real, a: real, b: real, m: real, d: real, u: real, v: real)
    requires m > 0.0 && d == x * m && u == a * m && v == b * m && WithinNorms(d, u, v)
    ensures WithinNorms(x, a, b)
  {
    var c := m * m;
    ProductPositive(m, m, c);
    EqualProducts(d, d, x * m, x * m);
    EqualProducts(u, v, a * m, b * m);
    assert (x * m) * (x * m) == c * (x * x);
    assert (a * m) * (b * m) == c * (a * b);
    CancelFactor(c, x * x, a * b);
  }

  lemma DivideOrder(x: real, y: real, m: real)
    requires m > 0.0 && x <= y
    ensures x / m <= y / m
  {}

  lemma StandardiseBounds(x: real, u: real, v: real, sqrt: real -> real)
    requires IsSquareRoot(sqrt) && u >= 0.0 && v >= 0.0 && WithinNorms(x, u, v)
    ensures -1.0 <= Standardise(x, u, v, sqrt) <= 1.0
  {
    var hStd, lStd := sqrt(u), sqrt(v);
    assert hStd * hStd == u && lStd * lStd == v;
    if hStd > 0.0 && lStd > 0.0 { RatioInUnitInterval(x, hStd, lStd); }
  }

  lemma ScaledBounds(dot: real, a: real, b: real, m: real, sqrt: real -> real)
    requires IsSquareRoot(sqrt) && m > 0.0 && a >= 0.0 && b >= 0.0 && WithinNorms(dot, a, b)
    ensures -1.0 <= Standardise(dot / m, a / m, b / m, sqrt) <= 1.0
  {
    var x, u, v := dot / m, a / m, b / m;
    DivideOrder(0.0, a, m);
    DivideOrder(0.0, b, m);
    assert x * m == dot && u * m == a && v * m == b;
    ScaleDown(x, u, v, m, dot, a, b);
    StandardiseBounds(x, u, v, sqrt);
  }

  lemma DeviationsBounds(h: seq<real>, l: seq<real>, m: real, sqrt: real -> real)
    requires IsSquareRoot(sqrt) && |h| == |l| && m > 0.0
    ensures -1.0 <= Standardise(Dot(h, l) / m, Dot(h, h) / m, Dot(l, l) / m, sqrt) <= 1.0
  {
    DotSelfNonNegative(h);
    DotSelfNonNegative(l);
    CauchySchwarz(h, l);
    ScaledBounds(Dot(h, l), Dot(h, h), Dot(l, l), m, sqrt);
  }

  lemma CorrelationInUnitInterval(human: seq<real>, llm: seq<real>, sqrt: real -> real)
    requires IsSquareRoot(sqrt) && human != [] && |human| == |llm|
    ensures -1.0 <= Correlation(human, llm, sqrt) <= 1.0
  {
    if |human| > 1 {
      DeviationsLength(human, Mean(human));
      DeviationsLength(llm, Mean(llm));
      DeviationsBounds(Deviations(human, Mean(human)), Deviations(llm, Mean(llm)), (|human| - 1) as real, sqrt);
    }
  }

  lemma {:induction false} SumOfDeviations(a: seq<real>, mean: real)
    ensures Sum(Deviations(a, mean)) == Sum(a) - mean * |a| as real
  {
    if a != [] {
      var d := Deviations(a, mean);
      SumOfDeviations(a[1..], mean);
      assert d[0] == a[0] - mean && d[1..] == Deviations(a[1..], mean);
      assert mean * |a| as real == mean + mean * |a[1..]| as real;
    }
  }

  /** The deviations from the mean cancel out. */
  lemma DeviationsCancel(a: seq<real>)
    requires a != []
    ensures Sum(Deviations(a, Mean(a))) == 0.0
  {
    SumOfDeviations(a, Mean(a));
    assert Mean(a) * |a| as real == Sum(a);
  }

  lemma {:induction false} SumNegated(a: seq<real>)
    ensures |Negated(a)| == |a| && Sum(Negated(a)) == -Sum(a)
  {
    if a != [] {
      SumNegated(a[1..]);
      assert Negated(a)[1..] == Negated(a[1..]);
    }
  }

  lemma {:induction false} DeviationsNegated(a: seq<real>, mean: real)
    ensures Deviations(Negated(a), -mean) == Negated(Deviations(a, mean))
  {
    if a != [] {
      DeviationsNegated(a[1..], mean);
      assert Negated(a)[1..] == Negated(a[1..]) && Negated(a)[0] == -a[0];
      var d := Deviations(a, mean);
      assert d[0] == a[0] - mean && d[1..] == Deviations(a[1..], mean);
    }
  }

  lemma MeanNegated(a: seq<real>)
    requires a != []
    ensures Negated(a) != [] && Mean(Negated(a)) == -Mean(a)
  {
    SumNegated(a);
    NegatedRatio(Sum(a), Sum(Negated(a)), |a| as real);
  }

  lemma NegatedRatio(x: real, y: real, s: real)
    requires y == -x && s > 0.0
    ensures y / s == -(x / s)
  {}

  lemma QuotientBack(x: real, m: real)
    requires m > 0.0
    ensures x / m * m == x
  {}

  lemma SignOfProduct(q: real, s: real, x: real)
    requires s > 0.0 && x == q * s
    ensures (q > 0.0 <==> x > 0.0) && (q < 0.0 <==> x < 0.0)
  {
    if q > 0.0 {
      ProductPositive(q, s, x);
    } else if q < 0.0 {
      ProductPositive(q, -s, -x);
    }
  }

  lemma SignOfQuotient(x: real, s: real)
    requires s > 0.0
    ensures (x / s > 0.0 <==> x > 0.0) && (x / s < 0.0 <==> x < 0.0) && x / s * s == x
  {
    QuotientBack(x, s);
    SignOfProduct(x / s, s, x);
  }

  lemma StandardiseSelf(d: real, m: real, sqrt: real -> real)
    requires IsSquareRoot(sqrt) && d > 0.0 && m > 0.0
    ensures Standardise(d / m, d / m, d / m, sqrt) == 1.0 && Standardise(-d / m, d / m, d / m, sqrt) == -1.0
  {
    var v := d / m;
    SignOfQuotient(d, m);
    assert -d / m == -v;
    var s := sqrt(v);
    RootNotZero(s, v);
    RatioOfNegative(v, s);
  }

  lemma ZeroOver(x: real, m: real)
    requires m > 0.0 && x == 0.0
    ensures x / m == 0.0
  {}

  lemma StandardiseNothing(c: real, x: real, y: real, m: real, sqrt: real -> real)
    requires IsSquareRoot(sqrt) && m > 0.0 && (x == 0.0 || y == 0.0)
    ensures Standardise(c / m, x / m, y / m, sqrt) == 0.0
  {
    if x == 0.0 { ZeroOver(x, m); } else { ZeroOver(y, m); }
    RootOfZero(sqrt(0.0));
  }

  /** One score, or scores that never vary, correlate with nothing. */
  lemma CorrelationOfNothing(human: seq<real>, llm: seq<real>, sqrt: real -> real)
    requires IsSquareRoot(sqrt) && human != [] && |human| == |llm|
    requires var h, l := Deviations(human, Mean(human)), Deviations(llm, Mean(llm));
             |human| == 1 || Dot(h, h) == 0.0 || Dot(l, l) == 0.0
    ensures Correlation(human, llm, sqrt) == 0.0
  {
    if |human| > 1 {
      var h, l := Deviations(human, Mean(human)), Deviations(llm, Mean(llm));
      StandardiseNothing(Dot(h, l), Dot(h, h), Dot(l, l), (|human| - 1) as real, sqrt);
    }
  }

  /** A judge who always agrees correlates fully, one who always says the opposite fully the other way. */
  lemma CorrelationOfExtremes(human: seq<real>, sqrt: real -> real)
    requires IsSquareRoot(sqrt) && |human| >= 2
    requires var h := Deviations(human, Mean(human)); Dot(h, h) > 0.0
    ensures Correlation(human, human, sqrt) == 1.0
    ensures |Negated(human)| == |human| && Correlation(human, Negated(human), sqrt) == -1.0
  {
    var h, l := Deviations(human, Mean(human)), Negated(human);
    var m := (|human| - 1) as real;
    SumNegated(human);
    MeanNegated(human);
    DeviationsNegated(human, Mean(human));
    DeviationsLength(human, Mean(human));
    DotNegated(h, h);
    StandardiseSelf(Dot(h, h), m, sqrt);
    assert Deviations(l, Mean(l)) == Negated(h);
  }

  // ---------------------------------------------------------------- Welch's t-test

  /** The group's variance over its size. */
  function VarianceOfMean(group: seq<real>): real
    requires |group| >= 2
  {
    var d := Deviations(group, Mean(group));
    Twice(Dot(d, d), (|group| - 1) as real, |group| as real)
  }

  function Twice(x: real, m: real, n: real): real
    requires m > 0.0 && n > 0.0
  {
    x / m / n
  }

  /** Welch-Satterthwaite, from the two variances of the mean and the group sizes less one. */
  function DegreesOfFreedom(a: real, b: real, p: real, q: real): real
    requires p > 0.0 && q > 0.0
  {
    var denominator := a * a / p + b * b / q;
    if denominator > 0.0 then (a + b) * (a + b) / denominator else 1.0
  }

  function Clamp(p: real): real { if p < 0.0 then 0.0 else if p > 1.0 then 1.0 else p }

  function Abs(x: real): real { if x < 0.0 then -x else x }

  /** The statistic and the p-value; cdf stands for the normal distribution function. */
  function WelchTest(group1: seq<real>, group2: seq<real>, sqrt: real -> real, cdf: real -> real): (real, real) {
    if |group1| < 2 || |group2| < 2 then (0.0, 1.0)
    else
      var a, b := VarianceOfMean(group1), VarianceOfMean(group2);
      var se := sqrt(a + b);
      if se < 0.0000000001 then (0.0, 1.0)
      else
        var t := (Mean(group1) - Mean(group2)) / se;
        var df := DegreesOfFreedom(a, b, (|group1| - 1) as real, (|group2| - 1) as real);
        var p := if df > 30.0 then 2.0 * (1.0 - cdf(Abs(t))) else 2.0 * (1.0 - cdf(Abs(t) * 0.9));
        (t, Clamp(p))
  }

  /** Swapping the groups negates the statistic and keeps the p-value, which is a probability. */
  lemma WelchSwap(group1: seq<real>, group2: seq<real>, sqrt: real -> real, cdf: real -> real)
    ensures var (t, p) := WelchTest(group1, group2, sqrt, cdf);
            var (t', p') := WelchTest(group2, group1, sqrt, cdf);
            t' == -t && p' == p && 0.0 <= p <= 1.0
  {
    if |group1| >= 2 && |group2| >= 2 {
      var a, b := VarianceOfMean(group1), VarianceOfMean(group2);
      var p, q := (|group1| - 1) as real, (|group2| - 1) as real;
      assert a + b == b + a;
      DegreesSwap(a, b, p, q);
      var se := sqrt(a + b);
      if se >= 0.0000000001 { NegatedQuotient(Mean(group1), Mean(group2), se); }
    }
  }

  /** v is x over m over n. */
  predicate IsTwice(v: real, x: real, m: real, n: real) { v * n * m == x }

  lemma TwoQuotients(x: real, m: real, n: real)
    requires m > 0.0 && n > 0.0
    ensures IsTwice(Twice(x, m, n), x, m, n)
  {
    QuotientBack(x, m);
    QuotientBack(x / m, n);
  }

  /** The variance of the mean: squared deviations over n - 1, over n. */
  lemma VarianceMeans(group: seq<real>)
    requires |group| >= 2
    ensures var d := Deviations(group, Mean(group));
            IsTwice(VarianceOfMean(group), Dot(d, d), (|group| - 1) as real, |group| as real)
  {
    var d := Deviations(group, Mean(group));
    TwoQuotients(Dot(d, d), (|group| - 1) as real, |group| as real);
  }

  /**
   Too little data or too little spread says nothing. Otherwise the statistic is the difference of
   the means in standard errors, so positive exactly when the first group's mean is the greater,
   and the p-value is the two-sided one, held between 0 and 1.
   */
  lemma WelchMeans(group1: seq<real>, group2: seq<real>, sqrt: real -> real, cdf: real -> real)
    ensures |group1| < 2 || |group2| < 2 ==> WelchTest(group1, group2, sqrt, cdf) == (0.0, 1.0)
    ensures |group1| >= 2 && |group2| >= 2 ==>
              var (t, p) := WelchTest(group1, group2, sqrt, cdf);
              var a, b := VarianceOfMean(group1), VarianceOfMean(group2);
              var se, size := sqrt(a + b), if t < 0.0 then -t else t;
              var df := DegreesOfFreedom(a, b, (|group1| - 1) as real, (|group2| - 1) as real);
              var tail := 2.0 * (1.0 - cdf(if df > 30.0 then size else size * 0.9));
              if se < 0.0000000001 then t == 0.0 && p == 1.0
              else
                && t * se == Mean(group1) - Mean(group2) && (t > 0.0 <==> Mean(group1) > Mean(group2))
                && p == if tail < 0.0 then 0.0 else if tail > 1.0 then 1.0 else tail
  {
    if |group1| >= 2 && |group2| >= 2 {
      var se := sqrt(VarianceOfMean(group1) + VarianceOfMean(group2));
      if se >= 0.0000000001 { SignOfQuotient(Mean(group1) - Mean(group2), se); }
    }
  }

  lemma DegreesSwap(a: real, b: real, p: real, q: real)
    requires p > 0.0 && q > 0.0
    ensures DegreesOfFreedom(a, b, p, q) == DegreesOfFreedom(b, a, q, p)
  {
    assert (a + b) * (a + b) == (b + a) * (b + a);
  }

  /** Without any spread the degrees of freedom are set to one. */
  lemma DegreesOfNothing(p: real, q: real)
    requires p > 0.0 && q > 0.0
    ensures DegreesOfFreedom(0.0, 0.0, p, q) == 1.0
  {
    assert 0.0 * 0.0 / p + 0.0 * 0.0 / q == 0.0;
  }

  lemma NegatedQuotient(x: real, y: real, s: real)
    requires s > 0.0
    ensures (y - x) / s == -((x - y) / s)
  {}

  lemma DegreesBounds(a: real, b: real, p: real, q: real)
    requires a >= 0.0 && b >= 0.0 && a + b > 0.0 && p > 0.0 && q > 0.0
    ensures (if p <= q then p else q) <= DegreesOfFreedom(a, b, p, q) <= p + q
  {
    var u, v := DenominatorIs(a, b, p, q);
    RatioBounds(u, v, p, q, a, b);
    DegreesBetween(a, b, p, q, u * a + v * b, if p <= q then p else q, p + q);
  }

  lemma DenominatorIs(a: real, b: real, p: real, q: real) returns (u: real, v: real)
    requires a >= 0.0 && b >= 0.0 && p > 0.0 && q > 0.0
    ensures a == u * p && b == v * q && u >= 0.0 && v >= 0.0
    ensures a * a / p + b * b / q == u * a + v * b
  {
    u, v := a / p, b / q;
    QuotientOfSquare(a, p);
    QuotientOfSquare(b, q);
  }

  lemma DegreesBetween(a: real, b: real, p: real, q: real, d: real, lo: real, hi: real)
    requires p > 0.0 && q > 0.0 && d == a * a / p + b * b / q && d > 0.0
    requires lo * d <= (a + b) * (a + b) <= hi * d
    ensures lo <= DegreesOfFreedom(a, b, p, q) <= hi
  {
    DivideBetween((a + b) * (a + b), d, lo, hi);
    DegreesAre(a, b, p, q, d);
  }

  lemma RatioBounds(u: real, v: real, p: real, q: real, a: real, b: real)
    requires p > 0.0 && q > 0.0 && a == u * p && b == v * q && a >= 0.0 && b >= 0.0 && a + b > 0.0
    requires u >= 0.0 && v >= 0.0
    ensures u * a + v * b > 0.0
    ensures (if p <= q then p else q) * (u * a + v * b) <= (a + b) * (a + b) <= (p + q) * (u * a + v * b)
  {
    PositiveDenominator(a, b, u, v, p, q);
    UpperDegrees(u, v, p, q, a, b);
    LowerDegrees(u, v, p, q, a, b, if p <= q then p else q);
  }

  lemma DegreesAre(a: real, b: real, p: real, q: real, d: real)
    requires p > 0.0 && q > 0.0 && d == a * a / p + b * b / q && d > 0.0
    ensures DegreesOfFreedom(a, b, p, q) == (a + b) * (a + b) / d
  {}

  lemma QuotientOfSquare(a: real, p: real)
    requires p > 0.0
    ensures a * a / p == a / p * a
  {
    assert a / p * p == a;
    assert a / p * a * p == a * a;
  }

  lemma PositiveDenominator(a: real, b: real, u: real, v: real, p: real, q: real)
    requires a >= 0.0 && b >= 0.0 && a + b > 0.0 && p > 0.0 && q > 0.0
    requires a == u * p && b == v * q && u >= 0.0 && v >= 0.0
    ensures u * a + v * b > 0.0
  {
    assert u * a >= 0.0 && v * b >= 0.0;
    if a > 0.0 {
      assert u > 0.0;
      assert u * a > 0.0;
    } else {
      assert v > 0.0;
      assert v * b > 0.0;
    }
  }

  lemma UpperDegrees(u: real, v: real, p: real, q: real, a: real, b: real)
    requires p > 0.0 && q > 0.0 && a == u * p && b == v * q
    ensures (a + b) * (a + b) <= (p + q) * (u * a + v * b)
  {
    var x := (u - v) * (u - v);
    assert x >= 0.0;
    assert p * q * x >= 0.0;
    calc {
      (p + q) * (u * a + v * b) - (a + b) * (a + b);
      p * (u * a) + p * (v * b) + q * (u * a) + q * (v * b) - (a * a + 2.0 * (a * b) + b * b);
      { assert p * (u * a) == a * a && q * (v * b) == b * b; }
      p * (v * b) + q * (u * a) - 2.0 * (a * b);
      { assert p * (v * b) == p * q * (v * v); assert q * (u * a) == p * q * (u * u); assert a * b == p * q * (u * v); }
      p * q * (v * v) + p * q * (u * u) - 2.0 * (p * q * (u * v));
      { assert x == v * v + u * u - 2.0 * (u * v); }
      p * q * x;
    }
  }

  lemma LowerDegrees(u: real, v: real, p: real, q: real, a: real, b: real, m: real)
    requires p > 0.0 && q > 0.0 && a == u * p && b == v * q && a >= 0.0 && b >= 0.0
    requires 0.0 < m <= p && m <= q && u >= 0.0 && v >= 0.0
    ensures m * (u * a + v * b) <= (a + b) * (a + b)
  {
    assert u * a >= 0.0 && v * b >= 0.0 && a * b >= 0.0;
    assert m * (u * a) <= p * (u * a) == a * a;
    assert m * (v * b) <= q * (v * b) == b * b;
    assert m * (u * a + v * b) == m * (u * a) + m * (v * b);
    assert (a + b) * (a + b) == a * a + 2.0 * (a * b) + b * b;
  }

  lemma DivideBetween(x: real, d: real, lo: real, hi: real)
    requires d > 0.0 && lo * d <= x <= hi * d
    ensures lo <= x / d <= hi
  {
    var r := x / d;
    assert r * d == x;
    if r < lo { Scale(r, lo, d); }
    if r > hi { Scale(hi, r, d); }
  }

  lemma VarianceNonNegative(group: seq<real>)
    requires |group| >= 2
    ensures VarianceOfMean(group) >= 0.0
  {
    DotSelfNonNegative(Deviations(group, Mean(group)));
  }

  /**
   Whenever the test gets as far as the degrees of freedom, they lie between the smaller group's
   size less one and the two sizes together less two.
   */
  lemma {:induction false} WelchDegreesBounds(group1: seq<real>, group2: seq<real>, sqrt: real -> real)
    requires IsSquareRoot(sqrt) && |group1| >= 2 && |group2| >= 2
    requires sqrt(VarianceOfMean(group1) + VarianceOfMean(group2)) >= 0.0000000001
    ensures var n1, n2 := |group1|, |group2|;
            var df := DegreesOfFreedom(VarianceOfMean(group1), VarianceOfMean(group2), (n1 - 1) as real, (n2 - 1) as real);
            (if n1 <= n2 then n1 - 1 else n2 - 1) as real <= df <= (n1 + n2 - 2) as real
  {
    VarianceNonNegative(group1);
    VarianceNonNegative(group2);
    var a, b := VarianceOfMean(group1), VarianceOfMean(group2);
    var se := sqrt(a + b);
    ProductPositive(se, se, a + b);
    DegreesBounds(a, b, (|group1| - 1) as real, (|group2| - 1) as real);
  }
}
