/** The league's scores, services/league/app/scoring.py, over the reals; the final rounding to two decimals
    is left out. */
module Scoring {
  import opened Json

  type Vector = seq<real>

  // ---- sums ----------------------------------------------------------------------------

  /** sum(x * y for x, y in zip(a, b)): the longer vector is cut. */
  function Dot(a: Vector, b: Vector): real {
    if a == [] || b == [] then 0.0 else a[0] * b[0] + Dot(a[1..], b[1..])
  }

  lemma {:induction false} SquaresNonnegative(a: Vector)
    ensures Dot(a, a) >= 0.0
  {
    if a != [] {
      SquaresNonnegative(a[1..]);
      Square(a[0]);
    }
  }

  lemma Square(x: real)
    ensures x * x >= 0.0
  {}

  lemma NotBothPositive(x: real, y: real)
    requires x * y <= 0.0 && y > 0.0
    ensures x <= 0.0
  {
    if x > 0.0 { NonzeroProduct(x, y); }
  }

  lemma SquareOfZero(x: real)
    requires x * x <= 0.0
    ensures x == 0.0
  {
    if x > 0.0 { NotBothPositive(x, x); }
    if x < 0.0 { NotBothPositive(-x, -x); }
  }

  lemma SameSquare(x: real, y: real)
    requires x == y || x == -y
    ensures x * x == y * y
  {}

  /** If d * d <= a * b then the quadratic form with these coefficients is not negative. */
  lemma Form(a: real, b: real, d: real, x: real, y: real)
    requires a >= 0.0 && b >= 0.0 && d * d <= a * b
    ensures 2.0 * d * (x * y) <= a * (y * y) + b * (x * x)
  {
    Square(x);
    if a == 0.0 {
      assert a * b == 0.0;
      SquareOfZero(d);
      Product(b, x * x);
      assert 2.0 * d * (x * y) == 0.0 && a * (y * y) == 0.0;
    } else {
      var form := a * (y * y) + b * (x * x) - 2.0 * d * (x * y);
      var u, slack := a * y - d * x, a * b - d * d;
      Square(u);
      assert u * u == a * a * (y * y) - 2.0 * (a * d) * (x * y) + d * d * (x * x);
      assert a * form == u * u + slack * (x * x);
      assert slack * (x * x) >= 0.0;
      Positive(a, form);
    }
  }

  lemma Positive(a: real, b: real)
    requires a > 0.0 && a * b >= 0.0
    ensures b >= 0.0
  {}

  /** The square of d is at most the product of p and q. */
  predicate IsBounded(d: real, p: real, q: real) { d * d <= p * q }

  lemma DotUnfolds(a: Vector, b: Vector)
    requires a != [] && b != []
    ensures Dot(a, b) == a[0] * b[0] + Dot(a[1..], b[1..])
  {}

  lemma DotOfEmpty(a: Vector, b: Vector)
    requires a == [] || b == []
    ensures IsBounded(Dot(a, b), Dot(a, a), Dot(b, b))
  {
    SquaresNonnegative(a);
    SquaresNonnegative(b);
    Product(Dot(a, a), Dot(b, b));
  }

  /** The inequality of Cauchy and Schwarz. */
  lemma {:induction false} CauchySchwarz(a: Vector, b: Vector)
    ensures IsBounded(Dot(a, b), Dot(a, a), Dot(b, b))
  {
    if a == [] || b == [] {
      DotOfEmpty(a, b);
    } else {
      var a', b' := a[1..], b[1..];
      CauchySchwarz(a', b');
      SquaresNonnegative(a');
      SquaresNonnegative(b');
      CauchySchwarzStep(a[0], b[0], Dot(a', b'), Dot(a', a'), Dot(b', b'));
      DotUnfolds(a, b);
      DotUnfolds(a, a);
      DotUnfolds(b, b);
    }
  }

  lemma Product(a: real, b: real)
    requires a >= 0.0 && b >= 0.0
    ensures a * b >= 0.0
  {}

  lemma CauchySchwarzStep(x: real, y: real, d: real, p: real, q: real)
    requires p >= 0.0 && q >= 0.0 && IsBounded(d, p, q)
    ensures IsBounded(x * y + d, x * x + p, y * y + q)
  {
    Form(p, q, d, x, y);
    assert (x * y + d) * (x * y + d) == (x * y) * (x * y) + 2.0 * d * (x * y) + d * d;
    assert (x * x + p) * (y * y + q) == (x * y) * (x * y) + q * (x * x) + p * (y * y) + p * q;
  }

  // ---- cosine distance --------------------------------------------------------------------

  /** math.sqrt of the sum of squares. */
  predicate IsNorm(a: Vector, norm: real) { norm >= 0.0 && norm * norm == Dot(a, a) }

  function CosineDistance(a: Vector, b: Vector, normA: real, normB: real): real
    requires IsNorm(a, normA) && IsNorm(b, normB)
  {
    if normA == 0.0 || normB == 0.0 then 1.0
    else
      NonzeroProduct(normA, normB);
      1.0 - Dot(a, b) / (normA * normB)
  }

  lemma NonzeroProduct(a: real, b: real)
    requires a >= 0.0 && b >= 0.0 && a != 0.0 && b != 0.0
    ensures a * b > 0.0
  {}

  lemma AbsFromSquares(d: real, m: real)
    requires m >= 0.0 && d * d <= m * m
    ensures -m <= d <= m
  {
    SameSquare(d, -d);
    if d > m { Larger(d, m); }
    if -d > m { Larger(-d, m); }
  }

  lemma Larger(d: real, m: real)
    requires d > m >= 0.0
    ensures d * d > m * m
  {
    NonzeroProduct(d - m, d + m);
    assert d * d - m * m == (d - m) * (d + m);
  }

  lemma Quotient(d: real, m: real)
    requires m > 0.0 && -m <= d <= m
    ensures -1.0 <= d / m <= 1.0
  {}

  /** The distance of any two vectors, of whatever lengths, lies in [0, 2]. */
  lemma DistanceBounds(a: Vector, b: Vector, normA: real, normB: real)
    requires IsNorm(a, normA) && IsNorm(b, normB)
    ensures 0.0 <= CosineDistance(a, b, normA, normB) <= 2.0
  {
    if normA != 0.0 && normB != 0.0 {
      var m := normA * normB;
      NonzeroProduct(normA, normB);
      CauchySchwarz(a, b);
      assert m * m == (normA * normA) * (normB * normB);
      AbsFromSquares(Dot(a, b), m);
      Quotient(Dot(a, b), m);
    }
  }

  function Scale(c: real, a: Vector): Vector {
    if a == [] then [] else [c * a[0]] + Scale(c, a[1..])
  }

  lemma DotStep(x: real, a: Vector, y: real, b: Vector)
    ensures Dot([x] + a, [y] + b) == x * y + Dot(a, b)
  {
    assert ([x] + a)[1..] == a && ([y] + b)[1..] == b;
  }

  lemma Factor(c: real, x: real, y: real, d: real)
    ensures x * (c * y) + c * d == c * (x * y + d)
    ensures (c * x) * y + c * d == c * (x * y + d)
  {}

  lemma {:induction false} DotScale(c: real, a: Vector, b: Vector)
    ensures Dot(a, Scale(c, b)) == c * Dot(a, b)
    ensures Dot(Scale(c, a), b) == c * Dot(a, b)
  {
    if a != [] && b != [] {
      DotScale(c, a[1..], b[1..]);
      assert a == [a[0]] + a[1..] && b == [b[0]] + b[1..];
      DotStep(a[0], a[1..], c * b[0], Scale(c, b[1..]));
      DotStep(c * a[0], Scale(c, a[1..]), b[0], b[1..]);
      Factor(c, a[0], b[0], Dot(a[1..], b[1..]));
    }
  }

  lemma FactorTwice(c: real, x: real, d: real)
    ensures (c * x) * (c * x) + c * (c * d) == c * (c * (x * x + d))
  {
    Factor(c, x, c * x, c * d);
    Factor(c, x, x, d);
  }

  lemma {:induction false} SquareOfMultiple(c: real, a: Vector)
    ensures Dot(Scale(c, a), Scale(c, a)) == c * (c * Dot(a, a))
  {
    if a != [] {
      SquareOfMultiple(c, a[1..]);
      assert a == [a[0]] + a[1..];
      DotStep(a[0], a[1..], a[0], a[1..]);
      DotStep(c * a[0], Scale(c, a[1..]), c * a[0], Scale(c, a[1..]));
      FactorTwice(c, a[0], Dot(a[1..], a[1..]));
    }
  }

  lemma DotOfMultiple(c: real, a: Vector)
    ensures Dot(a, Scale(c, a)) == c * Dot(a, a)
    ensures Dot(Scale(c, a), Scale(c, a)) == c * (c * Dot(a, a))
  {
    DotScale(c, a, a);
    SquareOfMultiple(c, a);
  }

  /** The norm grows by the size of the factor. */
  lemma NormOfMultiple(c: real, norm: real, normC: real, d: real)
    requires norm >= 0.0 && normC >= 0.0 && norm * norm == d && normC * normC == c * (c * d)
    ensures normC == (if c > 0.0 then c else -c) * norm
  {
    var size := if c > 0.0 then c else -c;
    Product(size, norm);
    SameSquares(c, size, norm, normC, d);
    AbsFromSquares(normC, size * norm);
    AbsFromSquares(size * norm, normC);
  }

  lemma SameSquares(c: real, size: real, norm: real, normC: real, d: real)
    requires size == c || size == -c
    requires norm * norm == d && normC * normC == c * (c * d)
    ensures (size * norm) * (size * norm) == normC * normC
  {
    assert (size * norm) * (size * norm) == (size * size) * d;
  }

  lemma QuotientOfMultiple(c: real, norm: real, normC: real, d: real, dot: real)
    requires c != 0.0 && norm > 0.0 && norm * norm == d && dot == c * d
    requires normC == (if c > 0.0 then c else -c) * norm
    ensures normC > 0.0 && norm * normC > 0.0
    ensures dot / (norm * normC) == if c > 0.0 then 1.0 else -1.0
  {
    var size := if c > 0.0 then c else -c;
    NonzeroProduct(size, norm);
    NonzeroProduct(norm, normC);
    assert norm * normC == size * d;
  }

  lemma DistanceFrom(a: Vector, b: Vector, normA: real, normB: real, q: real)
    requires IsNorm(a, normA) && IsNorm(b, normB) && normA > 0.0 && normB > 0.0 && normA * normB > 0.0
    requires Dot(a, b) / (normA * normB) == q
    ensures CosineDistance(a, b, normA, normB) == 1.0 - q
  {}

  lemma MultipleQuotient(c: real, norm: real, normC: real, d: real, dot: real, dotC: real)
    requires c != 0.0 && norm > 0.0 && normC >= 0.0 && norm * norm == d && normC * normC == dotC
    requires dot == c * d && dotC == c * (c * d)
    ensures normC > 0.0 && norm * normC > 0.0
    ensures dot / (norm * normC) == if c > 0.0 then 1.0 else -1.0
  {
    NormOfMultiple(c, norm, normC, d);
    QuotientOfMultiple(c, norm, normC, d, dot);
  }

  /** A positive multiple of a vector has distance 0 from it, a negative one 2. */
  lemma DistanceOfMultiple(a: Vector, c: real, norm: real, normC: real)
    requires IsNorm(a, norm) && norm > 0.0 && c != 0.0 && IsNorm(Scale(c, a), normC)
    ensures CosineDistance(a, Scale(c, a), norm, normC) == if c > 0.0 then 0.0 else 2.0
  {
    var b := Scale(c, a);
    DotOfMultiple(c, a);
    MultipleQuotient(c, norm, normC, Dot(a, a), Dot(a, b), Dot(b, b));
    DistanceFrom(a, b, norm, normC, if c > 0.0 then 1.0 else -1.0);
  }

  // ---- creativity -----------------------------------------------------------------------------

  function Min(a: real, b: real): real { if b < a then b else a }

  function Max(a: real, b: real): real { if b > a then b else a }

  function ScoreCreativity(distance: real): real { Min(100.0, Max(0.0, distance * 50.0)) }

  /** Of a cosine distance the clamping takes nothing away. */
  lemma CreativityNeedsNoClamp(a: Vector, b: Vector, normA: real, normB: real)
    requires IsNorm(a, normA) && IsNorm(b, normB)
    ensures var d := CosineDistance(a, b, normA, normB);
            ScoreCreativity(d) == 50.0 * d && 0.0 <= ScoreCreativity(d) <= 100.0
  {
    DistanceBounds(a, b, normA, normB);
  }

  // ---- the other clamped scores -----------------------------------------------------------------------

  /** score_efficiency */
  function ScoreEfficiency(actual: real, median: real): real {
    if median == 0.0 then 50.0 else Min(100.0, Max(0.0, median / Max(actual, 1.0) * 50.0))
  }

  /** score_improvement_rate */
  function ScoreImprovement(current: real, prior: Option<real>): real {
    if prior.None? || prior.value == 0.0 then 50.0
    else Min(100.0, Max(0.0, 50.0 + (current - prior.value) / prior.value * 100.0))
  }

  /** score_robustness */
  function ScoreRobustness(passed: nat, total: nat): real {
    if total == 0 then 0.0 else Min(100.0, passed as real * 100.0 / total as real)
  }

  lemma RatioGap(m: real, a: real, b: real)
    requires a > 0.0 && b > 0.0 && a * b > 0.0
    ensures m / a - m / b == m * (b - a) / (a * b)
  {
    var x, y := m / a, m / b;
    assert x * a == m && y * b == m;
    assert (x - y) * (a * b) == x * a * b - y * b * a;
    assert (x - y) * (a * b) == m * (b - a);
  }

  lemma RatioAntitone(m: real, a: real, b: real)
    requires m >= 0.0 && 0.0 < a <= b
    ensures m / b <= m / a
  {
    Product(m, b - a);
    NonzeroProduct(a, b);
    RatioGap(m, a, b);
    RatioNonnegative(m * (b - a), a * b);
  }

  lemma RatioNonnegative(a: real, b: real)
    requires a >= 0.0 && b > 0.0
    ensures a / b >= 0.0
  {}

  lemma RatioMonotone(a: real, b: real, c: real)
    requires a <= b && c > 0.0
    ensures a / c <= b / c
  {
    RatioNonnegative(b - a, c);
    assert b / c - a / c == (b - a) / c;
  }

  lemma HalfOfWhole(m: real)
    requires m > 0.0
    ensures m / m * 50.0 == 50.0
  {
    assert m / m == 1.0;
  }

  /** Using more never scores better, and using just the median scores fifty. */
  lemma EfficiencyMeaning(actual: real, more: real, median: real)
    requires actual <= more && median >= 0.0
    ensures ScoreEfficiency(more, median) <= ScoreEfficiency(actual, median)
    ensures median >= 1.0 ==> ScoreEfficiency(median, median) == 50.0
  {
    RatioAntitone(median, Max(actual, 1.0), Max(more, 1.0));
    if median >= 1.0 { HalfOfWhole(median); }
  }

  /** Over a positive best, a higher score never rates lower and the same score rates fifty. */
  lemma ImprovementMeaning(current: real, better: real, prior: real)
    requires current <= better && prior > 0.0
    ensures ScoreImprovement(current, Some(prior)) <= ScoreImprovement(better, Some(prior))
    ensures ScoreImprovement(prior, Some(prior)) == 50.0
  {
    RatioMonotone(current - prior, better - prior, prior);
  }

  /** All of them stay within [0, 100], so that CompositeBounds applies. */
  lemma ScoresInRange(actual: real, median: real, current: real, prior: Option<real>, passed: nat, total: nat, d: real)
    ensures 0.0 <= ScoreEfficiency(actual, median) <= 100.0
    ensures 0.0 <= ScoreImprovement(current, prior) <= 100.0
    ensures 0.0 <= ScoreRobustness(passed, total) <= 100.0
    ensures 0.0 <= ScoreCreativity(d) <= 100.0
  {
    if total > 0 { RatioNonnegative(passed as real * 100.0, total as real); }
  }

  // ---- the crowd ---------------------------------------------------------------------------------

  predicate AllAtLeast(vectors: seq<Vector>, length: nat) { forall v :: v in vectors ==> |v| >= length }

  function ColumnSum(vectors: seq<Vector>, i: nat): real
    requires AllAtLeast(vectors, i + 1)
  {
    if vectors == [] then 0.0
    else
      assert vectors[0] in vectors;
      vectors[0][i] + ColumnSum(vectors[1..], i)
  }

  function Average(sum: real, n: nat): real
    requires n > 0
  {
    sum / n as real
  }

  function Times(n: nat, x: real): real { n as real * x }

  /** centroid: no vectors, or one shorter than the first, is an error. */
  function Centroid(vectors: seq<Vector>): Option<Vector> {
    if vectors == [] || !AllAtLeast(vectors, |vectors[0]|) then None
    else Some(seq(|vectors[0]|, i requires 0 <= i < |vectors[0]| => Average(ColumnSum(vectors, i), |vectors|)))
  }

  lemma TimesStep(n: nat, x: real)
    ensures Times(n + 1, x) == x + Times(n, x)
    ensures Times(0, x) == 0.0
  {
    assert (n + 1) as real * x == n as real * x + 1.0 * x;
  }

  lemma AverageOfSame(n: nat, x: real)
    requires n > 0
    ensures Average(Times(n, x), n) == x
  {}

  lemma {:induction false} ColumnSumOfSame(vectors: seq<Vector>, v: Vector, i: nat)
    requires i < |v| && forall w :: w in vectors ==> w == v
    ensures ColumnSum(vectors, i) == Times(|vectors|, v[i])
  {
    if vectors == [] {
      TimesStep(0, v[i]);
    } else {
      assert vectors[0] in vectors;
      assert forall w :: w in vectors[1..] ==> w in vectors;
      ColumnSumOfSame(vectors[1..], v, i);
      TimesStep(|vectors| - 1, v[i]);
    }
  }

  lemma {:induction false} ScaleByOne(v: Vector)
    ensures Scale(1.0, v) == v
  {
    if v != [] { ScaleByOne(v[1..]); }
  }

  /** Who does as everybody does has no creativity. */
  lemma CopyScoresNothing(vectors: seq<Vector>, v: Vector, norm: real)
    requires vectors != [] && (forall w :: w in vectors ==> w == v) && IsNorm(v, norm) && norm > 0.0
    ensures Centroid(vectors) == Some(v)
    ensures ScoreCreativity(CosineDistance(v, v, norm, norm)) == 0.0
  {
    assert vectors[0] in vectors && AllAtLeast(vectors, |v|);
    var mean := Centroid(vectors).value;
    forall i: nat | i < |v|
      ensures mean[i] == v[i]
    {
      ColumnSumOfSame(vectors, v, i);
      AverageOfSame(|vectors|, v[i]);
    }
    assert mean == v;
    ScaleByOne(v);
    DistanceOfMultiple(v, 1.0, norm, norm);
  }

  // ---- the composite --------------------------------------------------------------------------------

  type Weights = seq<(string, real)>

  function WeightSum(weights: Weights): real {
    if weights == [] then 0.0 else weights[0].1 + WeightSum(weights[1..])
  }

  function ScoreOf(scores: map<string, real>, dim: string): real { if dim in scores then scores[dim] else 0.0 }

  function Sum(terms: seq<real>): real {
    if terms == [] then 0.0 else terms[0] + Sum(terms[1..])
  }

  function Term(scores: map<string, real>, w: (string, real)): real { ScoreOf(scores, w.0) * w.1 }

  function Terms(scores: map<string, real>, weights: Weights): seq<real> {
    seq(|weights|, i requires 0 <= i < |weights| => Term(scores, weights[i]))
  }

  function Weighted(scores: map<string, real>, weights: Weights): real { Sum(Terms(scores, weights)) }

  predicate IsAccepted(weights: Weights) { -0.01 <= WeightSum(weights) - 1.0 <= 0.01 }

  /** compute_composite before rounding. */
  function Composite(scores: map<string, real>, weights: Weights): Option<real> {
    if IsAccepted(weights) then Some(Weighted(scores, weights) * 10.0) else None
  }

  predicate InRange(scores: map<string, real>) { forall d :: d in scores ==> 0.0 <= scores[d] <= 100.0 }

  predicate Nonnegative(weights: Weights) { forall w :: w in weights ==> w.1 >= 0.0 }

  lemma Between(s: real, w: real)
    requires 0.0 <= s <= 100.0 && w >= 0.0
    ensures 0.0 <= s * w <= 100.0 * w
  {}

  lemma ScoreInRange(scores: map<string, real>, dim: string)
    requires InRange(scores)
    ensures 0.0 <= ScoreOf(scores, dim) <= 100.0
  {}

  lemma {:induction false} SumBounds(terms: seq<real>, weights: Weights)
    requires |terms| == |weights|
    requires forall i :: 0 <= i < |terms| ==> 0.0 <= terms[i] <= 100.0 * weights[i].1
    ensures 0.0 <= Sum(terms) <= 100.0 * WeightSum(weights)
  {
    if terms != [] { SumBounds(terms[1..], weights[1..]); }
  }

  lemma TermBounds(scores: map<string, real>, w: (string, real))
    requires InRange(scores) && w.1 >= 0.0
    ensures 0.0 <= Term(scores, w) <= 100.0 * w.1
  {
    var s, t := ScoreOf(scores, w.0), w.1;
    ScoreInRange(scores, w.0);
    Between(s, t);
    assert Term(scores, w) == s * t;
  }

  lemma WeightedBounds(scores: map<string, real>, weights: Weights)
    requires InRange(scores) && Nonnegative(weights)
    ensures 0.0 <= Weighted(scores, weights) <= 100.0 * WeightSum(weights)
  {
    forall i: nat | i < |weights|
      ensures 0.0 <= Terms(scores, weights)[i] <= 100.0 * weights[i].1
    {
      assert weights[i] in weights;
      TermBounds(scores, weights[i]);
    }
    SumBounds(Terms(scores, weights), weights);
  }

  /** The tolerance on the weights shows in the range: up to 1010, and 1000 for weights that sum to one. */
  lemma CompositeBounds(scores: map<string, real>, weights: Weights)
    requires InRange(scores) && Nonnegative(weights) && IsAccepted(weights)
    ensures 0.0 <= Composite(scores, weights).value <= 1010.0
    ensures WeightSum(weights) == 1.0 ==> Composite(scores, weights).value <= 1000.0
  {
    WeightedBounds(scores, weights);
  }

  /** Neither bound can be lowered. */
  lemma CompositeBoundReached()
    ensures Composite(map["speed" := 100.0], [("speed", 1.01)]) == Some(1010.0)
    ensures Composite(map["speed" := 100.0], [("speed", 1.0)]) == Some(1000.0)
  {
    var a, b: Weights := [("speed", 1.01)], [("speed", 1.0)];
    assert a[1..] == [] && b[1..] == [];
    assert Terms(map["speed" := 100.0], a) == [101.0] && Terms(map["speed" := 100.0], b) == [100.0];
  }

  predicate DistinctNames(weights: Weights) {
    forall i, j :: 0 <= i < j < |weights| ==> weights[i].0 != weights[j].0
  }

  lemma {:induction false} SumOfOne(terms: seq<real>, k: nat)
    requires k < |terms| && forall i :: 0 <= i < |terms| && i != k ==> terms[i] == 0.0
    ensures Sum(terms) == terms[k]
  {
    if k == 0 {
      SumOfNone(terms[1..]);
    } else {
      SumOfOne(terms[1..], k - 1);
    }
  }

  lemma {:induction false} SumOfNone(terms: seq<real>)
    requires forall i :: 0 <= i < |terms| ==> terms[i] == 0.0
    ensures Sum(terms) == 0.0
  {
    if terms != [] { SumOfNone(terms[1..]); }
  }

  /** Full marks in one dimension alone earn ten times a hundred times its weight. */
  lemma OneDimension(weights: Weights, k: nat)
    requires DistinctNames(weights) && k < |weights|
    ensures Weighted(map[weights[k].0 := 100.0], weights) == 100.0 * weights[k].1
  {
    var scores := map[weights[k].0 := 100.0];
    var terms := Terms(scores, weights);
    forall i: nat | i < |weights|
      ensures terms[i] == if i == k then 100.0 * weights[k].1 else 0.0
    {
      var s, w := ScoreOf(scores, weights[i].0), weights[i].1;
      assert s == if i == k then 100.0 else 0.0;
      assert terms[i] == s * w;
    }
    SumOfOne(terms, k);
  }

  ghost predicate StaysInRange(weights: Weights) {
    forall scores :: InRange(scores) ==> 0.0 <= Weighted(scores, weights) * 10.0 <= 1010.0
  }

  /** Of accepted weights on distinct dimensions the composite stays in its range, whatever the scores,
      exactly when none is negative. */
  lemma CompositeInRangeIff(weights: Weights)
    requires IsAccepted(weights) && DistinctNames(weights)
    ensures StaysInRange(weights) <==> Nonnegative(weights)
  {
    if Nonnegative(weights) {
      forall scores | InRange(scores)
        ensures 0.0 <= Weighted(scores, weights) * 10.0 <= 1010.0
      {
        CompositeBounds(scores, weights);
      }
    } else {
      var k :| 0 <= k < |weights| && weights[k].1 < 0.0;
      OneDimension(weights, k);
      assert InRange(map[weights[k].0 := 100.0]);
    }
  }

  /** Weights on exactly the seven dimensions that a season asks for, which it accepts
      (services/league/app/routers/seasons.py); only the later update of weights turns negative ones down. */
  const LOPSIDED: Weights := [
    ("speed", 2.0), ("quality", -1.0), ("robustness", 0.0), ("token_efficiency", 0.0),
    ("cost_efficiency", 0.0), ("improvement_rate", 0.0), ("creativity", 0.0)]

  lemma {:induction false} ZeroWeights(weights: Weights)
    requires forall i :: 0 <= i < |weights| ==> weights[i].1 == 0.0
    ensures WeightSum(weights) == 0.0
  {
    if weights != [] { ZeroWeights(weights[1..]); }
  }

  /** They take the composite to twice its documented range and below zero. */
  lemma NegativeWeightEscapes()
    ensures Composite(map["speed" := 100.0], LOPSIDED) == Some(2000.0)
    ensures Composite(map["quality" := 100.0], LOPSIDED) == Some(-1000.0)
  {
    var rest := LOPSIDED[1..][1..];
    ZeroWeights(rest);
    assert WeightSum(LOPSIDED[1..]) == -1.0 + WeightSum(rest);
    NamesAreDistinct();
    OneDimension(LOPSIDED, 0);
    OneDimension(LOPSIDED, 1);
  }

  lemma NamesAreDistinct()
    ensures DistinctNames(LOPSIDED)
  {
    assert |LOPSIDED[0].0| == 5 && |LOPSIDED[1].0| == 7 && |LOPSIDED[2].0| == 10 && |LOPSIDED[3].0| == 16;
    assert |LOPSIDED[4].0| == 15 && |LOPSIDED[5].0| == 16 && |LOPSIDED[6].0| == 10;
    assert LOPSIDED[3].0[0] == 't' && LOPSIDED[5].0[0] == 'i' && LOPSIDED[2].0[0] == 'r' && LOPSIDED[6].0[0] == 'c';
  }

  lemma Rising(s: real, t: real, w: real)
    requires s <= t && w >= 0.0
    ensures s * w <= t * w
  {}

  lemma {:induction false} SumMonotone(a: seq<real>, b: seq<real>)
    requires |a| == |b| && forall i :: 0 <= i < |a| ==> a[i] <= b[i]
    ensures Sum(a) <= Sum(b)
  {
    if a != [] { SumMonotone(a[1..], b[1..]); }
  }

  /** No score, rising, lowers the composite. */
  lemma CompositeMonotone(scores: map<string, real>, scores': map<string, real>, weights: Weights)
    requires Nonnegative(weights)
    requires forall w :: w in weights ==> ScoreOf(scores, w.0) <= ScoreOf(scores', w.0)
    ensures Weighted(scores, weights) <= Weighted(scores', weights)
  {
    forall i | 0 <= i < |weights|
      ensures Terms(scores, weights)[i] <= Terms(scores', weights)[i]
    {
      assert weights[i] in weights;
      Rising(ScoreOf(scores, weights[i].0), ScoreOf(scores', weights[i].0), weights[i].1);
    }
    SumMonotone(Terms(scores, weights), Terms(scores', weights));
  }

  // ---- the formulas, free of quotients and clamps ---------------------------------------------

  /** The products of the components both vectors have, added up. */
  lemma DotMeaning(x: real, a: Vector, y: real, b: Vector)
    ensures Dot([], b) == 0.0 && Dot(a, []) == 0.0
    ensures Dot([x] + a, [y] + b) == x * y + Dot(a, b)
  {
    assert ([x] + a)[1..] == a && ([y] + b)[1..] == b;
  }

  lemma QuotientTimes(p: real, q: real)
    requires q != 0.0
    ensures p / q * q == p
  {}

  lemma DistanceMeaning(a: Vector, b: Vector, normA: real, normB: real)
    requires IsNorm(a, normA) && IsNorm(b, normB)
    ensures normA == 0.0 || normB == 0.0 ==> CosineDistance(a, b, normA, normB) == 1.0
    ensures normA != 0.0 && normB != 0.0 ==>
              (1.0 - CosineDistance(a, b, normA, normB)) * (normA * normB) == Dot(a, b)
  {
    if normA != 0.0 && normB != 0.0 {
      NonzeroProduct(normA, normB);
      QuotientTimes(Dot(a, b), normA * normB);
    }
  }

  /** s is the quotient of p and q, or the end of [0, 100] it lies beyond. */
  predicate IsClamped(s: real, p: real, q: real) {
    (s == 0.0 && p <= 0.0) || (s == 100.0 && p >= 100.0 * q) || (0.0 <= s <= 100.0 && s * q == p)
  }

  lemma Clamped(p: real, q: real)
    requires q > 0.0
    ensures IsClamped(Min(100.0, Max(0.0, p / q)), p, q)
  {
    var r := p / q;
    QuotientTimes(p, q);
    if r >= 100.0 { Above(r, q); }
    if r <= 0.0 { Below(r, q); }
  }

  lemma Above(r: real, q: real)
    requires q > 0.0 && r >= 100.0
    ensures r * q >= 100.0 * q
  {}

  lemma Below(r: real, q: real)
    requires q > 0.0 && r <= 0.0
    ensures r * q <= 0.0
  {}

  /** Fifty times the median over what was used, of which less than one counts as one. */
  lemma EfficiencyIs(actual: real, median: real, used: real)
    requires used == if actual < 1.0 then 1.0 else actual
    ensures median == 0.0 ==> ScoreEfficiency(actual, median) == 50.0
    ensures median != 0.0 ==> IsClamped(ScoreEfficiency(actual, median), 50.0 * median, used)
  {
    if median != 0.0 {
      Clamped(50.0 * median, used);
      Factored(median, used);
    }
  }

  lemma Factored(m: real, q: real)
    requires q > 0.0
    ensures m / q * 50.0 == (50.0 * m) / q
  {
    QuotientTimes(m, q);
    assert (m / q * 50.0) * q == 50.0 * m;
    Quotients(m / q * 50.0, 50.0 * m, q);
  }

  lemma Quotients(r: real, p: real, q: real)
    requires q > 0.0 && r * q == p
    ensures r == p / q
  {}

  /** Without a best so far, fifty; over another one fifty and a point for every hundredth of it gained. */
  lemma ImprovementIs(current: real, prior: Option<real>)
    ensures prior == None || prior == Some(0.0) ==> ScoreImprovement(current, prior) == 50.0
    ensures prior.Some? && prior.value > 0.0 ==>
              IsClamped(ScoreImprovement(current, prior), 100.0 * current - 50.0 * prior.value, prior.value)
    ensures prior.Some? && prior.value < 0.0 ==>
              IsClamped(ScoreImprovement(current, prior), 50.0 * prior.value - 100.0 * current, -prior.value)
  {
    if prior.Some? && prior.value != 0.0 {
      var p := prior.value;
      var r := 50.0 + (current - p) / p * 100.0;
      QuotientTimes(current - p, p);
      assert r * p == 100.0 * current - 50.0 * p;
      if p > 0.0 {
        Clamped(100.0 * current - 50.0 * p, p);
        Quotients(r, 100.0 * current - 50.0 * p, p);
      } else {
        assert r * -p == 50.0 * p - 100.0 * current;
        Clamped(50.0 * p - 100.0 * current, -p);
        Quotients(r, 50.0 * p - 100.0 * current, -p);
      }
    }
  }

  /** The share of variants passed, of a hundred; none without variants. */
  lemma RobustnessIs(passed: nat, total: nat)
    ensures total == 0 ==> ScoreRobustness(passed, total) == 0.0
    ensures 0 < total && passed <= total ==> ScoreRobustness(passed, total) * total as real == 100.0 * passed as real
    ensures 0 < total && passed > total ==> ScoreRobustness(passed, total) == 100.0
  {
    if total > 0 {
      var p, q := passed as real * 100.0, total as real;
      QuotientTimes(p, q);
      if p / q > 100.0 { Above(p / q, q); }
      if passed > total { NotBelow(p / q, q, p); }
    }
  }

  lemma NotBelow(r: real, q: real, p: real)
    requires q > 0.0 && r * q == p && p >= 100.0 * q
    ensures r >= 100.0
  {
    assert (r - 100.0) * q == p - 100.0 * q;
    FactorNonnegative(r - 100.0, q);
  }

  lemma FactorNonnegative(a: real, q: real)
    requires q > 0.0 && a * q >= 0.0
    ensures a >= 0.0
  {}

  /** Fifty points for each unit of distance, up to a hundred. */
  lemma CreativityIs(distance: real)
    ensures ScoreCreativity(distance)
            == if distance <= 0.0 then 0.0 else if distance >= 2.0 then 100.0 else 50.0 * distance
  {}

  lemma {:induction false} ColumnSumJoins(a: seq<Vector>, b: seq<Vector>, i: nat)
    requires AllAtLeast(a, i + 1) && AllAtLeast(b, i + 1)
    ensures AllAtLeast(a + b, i + 1) && ColumnSum(a + b, i) == ColumnSum(a, i) + ColumnSum(b, i)
    ensures |b| == 1 ==> ColumnSum(b, i) == (assert b[0] in b; b[0][i])
  {
    if |b| == 1 { assert b[0] in b && b[1..] == []; }
    if a == [] {
      assert a + b == b;
    } else {
      assert (a + b)[1..] == a[1..] + b && a[0] in a && (a + b)[0] == a[0];
      assert forall v :: v in a[1..] ==> v in a;
      ColumnSumJoins(a[1..], b, i);
    }
  }

  /** There is a centroid unless there is no vector, or one shorter than the first; its components times the number
      of vectors are the sums of theirs. */
  lemma CentroidMeaning(vectors: seq<Vector>, i: nat)
    ensures Centroid(vectors).Some? <==> vectors != [] && forall v :: v in vectors ==> |v| >= |vectors[0]|
    ensures Centroid(vectors).Some? ==> |Centroid(vectors).value| == |vectors[0]|
    ensures Centroid(vectors).Some? && i < |vectors[0]| ==>
              AllAtLeast(vectors, i + 1) && Centroid(vectors).value[i] * |vectors| as real == ColumnSum(vectors, i)
  {
    if Centroid(vectors).Some? && i < |vectors[0]| {
      assert AllAtLeast(vectors, i + 1);
      QuotientTimes(ColumnSum(vectors, i), |vectors| as real);
    }
  }

  lemma {:induction false} SumJoins(a: seq<real>, b: seq<real>)
    ensures Sum(a + b) == Sum(a) + Sum(b)
  {
    if a == [] {
      assert a + b == b;
    } else {
      assert (a + b)[1..] == a[1..] + b;
      SumJoins(a[1..], b);
    }
  }

  lemma {:induction false} WeightSumJoins(a: Weights, b: Weights)
    ensures WeightSum(a + b) == WeightSum(a) + WeightSum(b)
  {
    if a == [] {
      assert a + b == b;
    } else {
      assert (a + b)[1..] == a[1..] + b;
      WeightSumJoins(a[1..], b);
    }
  }

  /** One dimension more adds its weight to the sum of weights, and its score, none counting as zero, times the
      weight to the sum of scores. */
  lemma OneMoreDimension(scores: map<string, real>, weights: Weights, dim: string, score: real, w: real)
    requires score == if dim in scores then scores[dim] else 0.0
    ensures WeightSum([]) == 0.0 && WeightSum(weights + [(dim, w)]) == WeightSum(weights) + w
    ensures Weighted(scores, []) == 0.0
    ensures Weighted(scores, weights + [(dim, w)]) == Weighted(scores, weights) + score * w
  {
    WeightSumJoins(weights, [(dim, w)]);
    assert [(dim, w)][1..] == [];
    assert Term(scores, (dim, w)) == score * w;
    assert Terms(scores, weights + [(dim, w)]) == Terms(scores, weights) + [Term(scores, (dim, w))];
    SumJoins(Terms(scores, weights), [score * w]);
    assert [score * w][1..] == [];
  }

  /** Ten times that sum, if the weights sum to one within a hundredth. */
  lemma CompositeIs(scores: map<string, real>, weights: Weights)
    ensures Composite(scores, weights).Some? <==> 0.99 <= WeightSum(weights) <= 1.01
    ensures Composite(scores, weights).Some? ==> Composite(scores, weights).value == 10.0 * Weighted(scores, weights)
  {}
}
