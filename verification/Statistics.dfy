/** The variance in one pass, over exact reals: Welford's recurrence against the two-pass definition. */
module Statistics {
  import opened Ordering
  import opened Outcomes
  import opened Reduction

  /** How many numbers, their mean, and the sum of squared deviations from it. */
  datatype Moments = Moments(n: nat, mean: real, m2: real)

  const NONE: Moments := Moments(0, 0.0, 0.0)

  /** One number more, as `welford` takes it. */
  function Take(s: Moments, x: real): Moments {
    var n := s.n + 1;
    var d := x - s.mean;
    var mean := s.mean + d / (n as real);
    Moments(n, mean, s.m2 + d * (x - mean))
  }

  function OnePass(xs: seq<real>): Moments {
    if xs == [] then NONE else Take(OnePass(xs[..|xs| - 1]), xs[|xs| - 1])
  }

  // ----- the definition -----------------------------------------------------------------------

  function SumBy(xs: seq<real>, f: real -> real): real {
    if xs == [] then 0.0 else SumBy(xs[..|xs| - 1], f) + f(xs[|xs| - 1])
  }

  function SquaredFrom(m: real): real -> real { (x: real) => (x - m) * (x - m) }

  function Itself(): real -> real { (x: real) => x }

  function SumOf(xs: seq<real>): real { SumBy(xs, Itself()) }

  function SquaresOf(xs: seq<real>): real { SumBy(xs, SquaredFrom(0.0)) }

  /** The sum of squared deviations from `m`: the second pass. */
  function Deviations(xs: seq<real>, m: real): real { SumBy(xs, SquaredFrom(m)) }

  function MeanOf(xs: seq<real>): real
    requires xs != []
  {
    SumOf(xs) / (|xs| as real)
  }

  // ----- the algebra --------------------------------------------------------------------------

  /** `m` is the mean of `n` numbers of sum `s`. */
  predicate IsMean(n: real, m: real, s: real) { n * m == s }

  /** `dev` is what the squares, summing to `q`, leave over the mean. */
  predicate FromMean(n: real, m: real, q: real, dev: real) { dev == q - n * (m * m) }

  predicate Expanded(dev: real, q: real, s: real, n: real, m: real) { dev == q - 2.0 * m * s + n * (m * m) }

  lemma ExpandStep(dev: real, q: real, s: real, n: real, x: real, m: real)
    requires Expanded(dev, q, s, n, m)
    ensures Expanded(dev + SquaredFrom(m)(x), q + SquaredFrom(0.0)(x), s + x, n + 1.0, m)
  {
  }

  lemma ExpandedAtMean(dev: real, q: real, s: real, n: real, m: real)
    requires Expanded(dev, q, s, n, m) && IsMean(n, m, s)
    ensures FromMean(n, m, q, dev)
  {
  }

  lemma DivideBack(a: real, b: real)
    requires b != 0.0
    ensures b * (a / b) == a
  {
  }

  lemma Cancel(b: real, k: real, l: real)
    requires b != 0.0 && b * k == b * l
    ensures k == l
  {
    DivideBack(b * k, b);
    assert b * (k - l) == 0.0;
  }

  /** The identity behind the recurrence: `n` numbers of mean `m`, one more `x`, and the new mean `k`. */
  lemma MeanMoves(n: real, m: real, x: real, k: real)
    requires x == (n + 1.0) * k - n * m
    ensures x * x - (n + 1.0) * (k * k) == (x - m) * (x - k) - n * (m * m)
  {
    assert x * k == (n + 1.0) * (k * k) - n * (m * k);
    assert x * m == (n + 1.0) * (m * k) - n * (m * m);
    assert (x - m) * (x - k) == x * x - x * k - x * m + m * k;
  }

  /** The new mean, as the recurrence moves it. */
  lemma MeanStep(n: real, m: real, x: real, k: real)
    requires n >= 0.0 && (n + 1.0) * k == n * m + x
    ensures m + (x - m) / (n + 1.0) == k
  {
    var d := (x - m) / (n + 1.0);
    DivideBack(x - m, n + 1.0);
    assert (n + 1.0) * (m + d) == (n + 1.0) * m + (n + 1.0) * d;
    Cancel(n + 1.0, m + d, k);
  }

  /** One number more: the recurrence lands on the new mean and the deviations from it. */
  lemma TakeMoves(s: Moments, x: real, sum: real, q: real, k: real, dev: real)
    requires IsMean(s.n as real, s.mean, sum) && FromMean(s.n as real, s.mean, q, s.m2)
    requires IsMean(s.n as real + 1.0, k, sum + x) && FromMean(s.n as real + 1.0, k, q + SquaredFrom(0.0)(x), dev)
    ensures Take(s, x) == Moments(s.n + 1, k, dev)
  {
    var n := s.n as real;
    assert (s.n + 1) as real == n + 1.0;
    MeanStep(n, s.mean, x, k);
    MeanMoves(n, s.mean, x, k);
  }

  // ----- one pass is two passes ---------------------------------------------------------------

  lemma {:induction false} DeviationsExpand(xs: seq<real>, m: real)
    ensures Expanded(Deviations(xs, m), SquaresOf(xs), SumOf(xs), |xs| as real, m)
  {
    if xs != [] {
      var front, x := xs[..|xs| - 1], xs[|xs| - 1];
      DeviationsExpand(front, m);
      ExpandStep(Deviations(front, m), SquaresOf(front), SumOf(front), |front| as real, x, m);
    }
  }

  lemma SquareNonNegative(d: real)
    ensures d * d >= 0.0
  {
  }

  lemma {:induction false} DeviationsNonNegative(xs: seq<real>, m: real)
    ensures Deviations(xs, m) >= 0.0
  {
    if xs != [] {
      DeviationsNonNegative(xs[..|xs| - 1], m);
      SquareNonNegative(xs[|xs| - 1] - m);
    }
  }

  /** Deviations from the mean itself. */
  lemma DeviationsFromMean(xs: seq<real>)
    requires xs != []
    ensures IsMean(|xs| as real, MeanOf(xs), SumOf(xs))
    ensures FromMean(|xs| as real, MeanOf(xs), SquaresOf(xs), Deviations(xs, MeanOf(xs)))
  {
    DivideBack(SumOf(xs), |xs| as real);
    DeviationsExpand(xs, MeanOf(xs));
    ExpandedAtMean(Deviations(xs, MeanOf(xs)), SquaresOf(xs), SumOf(xs), |xs| as real, MeanOf(xs));
  }

  /** One pass keeps the count, the mean and the sum of squared deviations from that mean, exactly. */
  lemma {:induction false} OnePassIsTwoPass(xs: seq<real>)
    ensures OnePass(xs) == if xs == [] then NONE else Moments(|xs|, MeanOf(xs), Deviations(xs, MeanOf(xs)))
  {
    if xs != [] {
      var front, x := xs[..|xs| - 1], xs[|xs| - 1];
      OnePassIsTwoPass(front);
      if front != [] { DeviationsFromMean(front); }
      DeviationsFromMean(xs);
      TakeMoves(OnePass(front), x, SumOf(front), SquaresOf(front), MeanOf(xs), Deviations(xs, MeanOf(xs)));
    }
  }

  // ----- order does not matter ----------------------------------------------------------------

  lemma {:induction false} SumsConcat(a: seq<real>, b: seq<real>, f: real -> real)
    ensures SumBy(a + b, f) == SumBy(a, f) + SumBy(b, f)
  {
    if b == [] {
      assert a + b == a;
    } else {
      SumsConcat(a, b[..|b| - 1], f);
      assert (a + b)[..|a + b| - 1] == a + b[..|b| - 1];
    }
  }

  lemma SumsWithout(b: seq<real>, i: nat, f: real -> real)
    requires i < |b|
    ensures SumBy(b, f) == SumBy(b[..i] + b[i + 1..], f) + f(b[i])
  {
    SumsConcat(b[..i], b[i + 1..], f);
    assert b == b[..i + 1] + b[i + 1..] && b[..i + 1][..i] == b[..i];
    SumsConcat(b[..i + 1], b[i + 1..], f);
  }

  lemma {:induction false} SumsIgnoreOrder(a: seq<real>, b: seq<real>, f: real -> real)
    requires multiset(a) == multiset(b)
    ensures SumBy(a, f) == SumBy(b, f) && |a| == |b|
  {
    assert |multiset(a)| == |a| && |multiset(b)| == |b|;
    if a != [] {
      assert a[|a| - 1] in multiset(b);
      var i :| 0 <= i < |b| && b[i] == a[|a| - 1];
      WithoutOne(a, b, i);
      SumsIgnoreOrder(a[..|a| - 1], b[..i] + b[i + 1..], f);
      SumsWithout(b, i, f);
    }
  }

  /** The same numbers in any order come to the same moments. */
  lemma OrderDoesNotMatter(a: seq<real>, b: seq<real>)
    requires multiset(a) == multiset(b)
    ensures OnePass(a) == OnePass(b)
  {
    OnePassIsTwoPass(a);
    OnePassIsTwoPass(b);
    SumsIgnoreOrder(a, b, Itself());
    if a != [] { SumsIgnoreOrder(a, b, SquaredFrom(MeanOf(a))); }
  }

  // ----- as an aggregator ---------------------------------------------------------------------

  /** `numberOf`: nothing for a null, a number, or an error; a text may spell one. */
  function NumberOf(v: Value, parse: string -> Option<real>): Result<Option<real>, string> {
    match v
    case Nil => Ok(None)
    case Number(n) => Ok(Some(n))
    case Text(s) => (match parse(s) case Some(n) => Ok(Some(n)) case None => Err(s))
    case _ => Err("not a number")
  }

  function TakeField(s: Moments, v: Value, parse: string -> Option<real>): Result<Moments, string> {
    match NumberOf(v, parse)
    case Err(e) => Err(e)
    case Ok(None) => Ok(s)
    case Ok(Some(x)) => Ok(Take(s, x))
  }

  /** The sample variance: of one point there is none. */
  function SampleVariance(s: Moments): Value {
    if s.n < 2 then Nil else Number(s.m2 / ((s.n - 1) as real))
  }

  function Variance(field: string, parse: string -> Option<real>): Accumulator<Moments> {
    Accumulator(NONE, (s: Moments, row: Row) => TakeField(s, Get(row, field), parse),
                (s: Moments) => Ok(SampleVariance(s)))
  }

  /** The numbers of a field, or nothing when some value is not one. */
  function Numbers(rows: seq<Row>, field: string, parse: string -> Option<real>): Option<seq<real>> {
    if rows == [] then Some([]) else
    var before := Numbers(rows[..|rows| - 1], field, parse);
    match NumberOf(Get(rows[|rows| - 1], field), parse)
    case Err(_) => None
    case Ok(None) => before
    case Ok(Some(x)) => if before.None? then None else Some(before.value + [x])
  }

  /** A value counts as this number: a number, or a text that spells one. */
  predicate Spells(v: Value, parse: string -> Option<real>, x: real) {
    v == Number(x) || (v.Text? && parse(v.s) == Some(x))
  }

  /** The numbers of some rows: of each row what its field spells, and nothing of one without the field or with a
      null. */
  ghost predicate AreNumbers(rows: seq<Row>, field: string, parse: string -> Option<real>, xs: seq<real>)
    decreases |rows|
  {
    if rows == [] then xs == [] else
    var n := |rows| - 1;
    if field !in rows[n] || rows[n][field] == Nil then AreNumbers(rows[..n], field, parse, xs)
    else xs != [] && Spells(rows[n][field], parse, xs[|xs| - 1]) && AreNumbers(rows[..n], field, parse, xs[..|xs| - 1])
  }

  lemma {:induction false} NumbersAre(rows: seq<Row>, field: string, parse: string -> Option<real>, xs: seq<real>)
    ensures Numbers(rows, field, parse) == Some(xs) <==> AreNumbers(rows, field, parse, xs)
    decreases |rows|
  {
    if rows != [] {
      var n := |rows| - 1;
      NumbersAre(rows[..n], field, parse, xs);
      if xs != [] {
        NumbersAre(rows[..n], field, parse, xs[..|xs| - 1]);
        assert xs == xs[..|xs| - 1] + [xs[|xs| - 1]];
      }
    }
  }

  lemma TakeOnePass(xs: seq<real>, x: real)
    ensures OnePass(xs + [x]) == Take(OnePass(xs), x)
  {
    assert (xs + [x])[..|xs|] == xs;
  }

  /** Over any rows the aggregator fails exactly when some value is not a number, and else holds the moments of the
      numbers there are. */
  lemma {:induction false} VarianceOver(rows: seq<Row>, field: string, parse: string -> Option<real>)
    ensures Over(Variance(field, parse), rows) ==
            match Numbers(rows, field, parse) case None => None case Some(xs) => Some(OnePass(xs))
  {
    if rows != [] {
      var front, row := rows[..|rows| - 1], rows[|rows| - 1];
      VarianceOver(front, field, parse);
      var before := Numbers(front, field, parse);
      var v := NumberOf(Get(row, field), parse);
      if before.Some? && v.Ok? && v.value.Some? { TakeOnePass(before.value, v.value.value); }
    }
  }

  /** What the column holds: the two-pass sample variance, which is not negative. */
  lemma VarianceIsTwoPass(rows: seq<Row>, field: string, parse: string -> Option<real>)
    requires Numbers(rows, field, parse).Some?
    ensures var xs, over := Numbers(rows, field, parse).value, Over(Variance(field, parse), rows);
      && over.Some?
      && Variance(field, parse).value(over.value) ==
           Ok(if |xs| < 2 then Nil else Number(Deviations(xs, MeanOf(xs)) / ((|xs| - 1) as real)))
      && (|xs| >= 2 ==> Deviations(xs, MeanOf(xs)) / ((|xs| - 1) as real) >= 0.0)
  {
    var xs := Numbers(rows, field, parse).value;
    VarianceOver(rows, field, parse);
    OnePassIsTwoPass(xs);
    if xs != [] { DeviationsNonNegative(xs, MeanOf(xs)); }
  }
}
