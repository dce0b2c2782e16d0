/** Mean and variance per group from one pass over the scores, over exact reals. The standard deviation
    is stated by its square. */
module Groupwise {
  import opened Wrappers
  import opened RealArithmetic

  /** A score and its group. */
  type Row = (real, nat)

  function Sum(xs: seq<real>): real {
    if xs == [] then 0.0 else Sum(xs[..|xs| - 1]) + xs[|xs| - 1]
  }

  function Square(x: real): real {
    x * x
  }

  function SumOfSquares(xs: seq<real>): real {
    if xs == [] then 0.0 else SumOfSquares(xs[..|xs| - 1]) + Square(xs[|xs| - 1])
  }

  function Mean(xs: seq<real>): real
    requires xs != []
  {
    Sum(xs) / |xs| as real
  }

  /** The sum of squared deviations from m. */
  function SquaredDeviations(xs: seq<real>, m: real): real {
    if xs == [] then 0.0
    else SquaredDeviations(xs[..|xs| - 1], m) + Square(xs[|xs| - 1] - m)
  }

  /** The unbiased variance. */
  function Variance(xs: seq<real>): real
    requires |xs| >= 2
  {
    SquaredDeviations(xs, Mean(xs)) / (|xs| - 1) as real
  }

  /** The scores of group g, in row order. */
  function Members(rows: seq<Row>, g: nat): seq<real> {
    if rows == [] then []
    else
      var rest, last := Members(rows[..|rows| - 1], g), rows[|rows| - 1];
      if last.1 == g then rest + [last.0] else rest
  }

  function Max(x: real, y: real): real {
    if x >= y then x else y
  }

  /** The number of groups: one more than the largest group index. */
  function Groups(rows: seq<Row>): nat {
    if rows == [] then 0
    else
      var rest, g := Groups(rows[..|rows| - 1]), rows[|rows| - 1].1;
      if g + 1 > rest then g + 1 else rest
  }

  function Zip(scores: seq<real>, groups: seq<nat>): (r: seq<Row>)
    requires |scores| == |groups|
    ensures |r| == |scores|
  {
    seq(|scores|, i requires 0 <= i < |scores| => (scores[i], groups[i]))
  }

  /** The mean, the square of the standard deviation, and the count of one group. */
  datatype Stats = Stats(mean: real, std2: real, count: nat)

  /** What a group is due: its true mean and its unbiased variance with a floor; 0 and 1 for at most one row. */
  function Due(xs: seq<real>, eps: real): Stats {
    if |xs| <= 1 then Stats(0.0, 1.0, |xs|)
    else Stats(Mean(xs), Max(Variance(xs), eps), |xs|)
  }

  /** The one-pass numerator of the variance. */
  function Spread(n: real, s1: real, s2: real): real
    requires n > 0.0
  {
    s2 - s1 * s1 / n
  }

  function Expanded(n: real, s1: real, s2: real, m: real): real {
    s2 - 2.0 * m * s1 + m * m * n
  }

  /** Deviations from any m, from the two sums. */
  lemma {:induction false} Expand(xs: seq<real>, m: real)
    ensures SquaredDeviations(xs, m) == Expanded(|xs| as real, Sum(xs), SumOfSquares(xs), m)
  {
    if xs != [] {
      var rest, x := xs[..|xs| - 1], xs[|xs| - 1];
      Expand(rest, m);
      assert Square(x - m) == Square(x) - 2.0 * m * x + m * m;
      assert m * m * |xs| as real == m * m * |rest| as real + m * m;
      assert 2.0 * m * Sum(xs) == 2.0 * m * Sum(rest) + 2.0 * m * x;
    }
  }

  lemma {:induction false} NonNegative(xs: seq<real>, m: real)
    ensures SquaredDeviations(xs, m) >= 0.0
  {
    if xs != [] {
      NonNegative(xs[..|xs| - 1], m);
      SquareNonNegative(xs[|xs| - 1] - m);
    }
  }

  lemma SquareNonNegative(x: real)
    ensures Square(x) >= 0.0
  {
  }

  /** s2 - s1 * s1 / n is the sum of squared deviations from the mean, so it is not negative. */
  lemma OnePass(xs: seq<real>)
    requires xs != []
    ensures Spread(|xs| as real, Sum(xs), SumOfSquares(xs)) == SquaredDeviations(xs, Mean(xs)) >= 0.0
  {
    Expand(xs, Mean(xs));
    NonNegative(xs, Mean(xs));
    TwoSums(|xs| as real, Sum(xs), SumOfSquares(xs));
  }

  /** The squared differences of every x to every y, added up. */
  function Differences(xs: seq<real>, ys: seq<real>): real {
    if xs == [] then 0.0 else Differences(xs[..|xs| - 1], ys) + SquaredDeviations(ys, xs[|xs| - 1])
  }

  lemma {:induction false} DifferencesFromSums(xs: seq<real>, ys: seq<real>, n: real, s1: real, s2: real)
    requires n == |ys| as real && s1 == Sum(ys) && s2 == SumOfSquares(ys)
    ensures Differences(xs, ys) == SumDifferences(|xs| as real, Sum(xs), SumOfSquares(xs), n, s1, s2)
  {
    if xs != [] {
      var rest, x := xs[..|xs| - 1], xs[|xs| - 1];
      DifferencesFromSums(rest, ys, n, s1, s2);
      Expand(ys, x);
      OneMoreScore(|rest| as real, Sum(rest), SumOfSquares(rest), x, n, s1, s2);
    }
  }

  function SumDifferences(m: real, sum: real, squares: real, n: real, s1: real, s2: real): real {
    m * s2 - 2.0 * sum * s1 + squares * n
  }

  lemma OneMoreScore(m: real, sum: real, squares: real, x: real, n: real, s1: real, s2: real)
    ensures SumDifferences(m + 1.0, sum + x, squares + Square(x), n, s1, s2) ==
            SumDifferences(m, sum, squares, n, s1, s2) + Expanded(n, s1, s2, x)
  {
    assert (m + 1.0) * s2 == m * s2 + s2;
    assert 2.0 * (sum + x) * s1 == 2.0 * sum * s1 + 2.0 * x * s1;
    assert (squares + x * x) * n == squares * n + x * x * n;
  }

  lemma SpreadTimes(n: real, s1: real, s2: real, spread: real)
    requires n > 0.0 && spread == Spread(n, s1, s2)
    ensures SumDifferences(n, s1, s2, n, s1, s2) == 2.0 * n * spread
  {
    DivTimes(s1 * s1, n);
    var q := s1 * s1 / n;
    assert 2.0 * n * (s2 - q) == 2.0 * n * s2 - 2.0 * (n * q);
  }

  /** The variance is half the mean squared difference of two different scores: over all ordered pairs, of which
      n * (n - 1) are of different scores, the squared differences add up to twice as much. */
  lemma VarianceByPairs(xs: seq<real>, n: real, m: real, total: real)
    requires |xs| >= 2 && n == |xs| as real && m == (|xs| - 1) as real && total == m * Variance(xs)
    ensures 2.0 * n * total == Differences(xs, xs)
  {
    TotalDeviations(xs, m, total);
    OnePass(xs);
    DifferencesFromSums(xs, xs, n, Sum(xs), SumOfSquares(xs));
    SpreadTimes(n, Sum(xs), SumOfSquares(xs), total);
  }

  lemma TotalDeviations(xs: seq<real>, m: real, total: real)
    requires |xs| >= 2 && m == (|xs| - 1) as real && total == m * Variance(xs)
    ensures total == SquaredDeviations(xs, Mean(xs))
  {
    VarianceTimes(SquaredDeviations(xs, Mean(xs)), m, Variance(xs), total);
  }

  lemma VarianceTimes(deviations: real, m: real, v: real, total: real)
    requires m > 0.0 && v == deviations / m && total == m * v
    ensures total == deviations
  {
    DivTimes(deviations, m);
  }

  lemma TwoSums(n: real, s1: real, s2: real)
    requires n > 0.0
    ensures Spread(n, s1, s2) == Expanded(n, s1, s2, s1 / n)
  {
    var m := s1 / n;
    DivTimes(s1, n);
    assert m * m * n == m * s1;
    assert m * s1 * n == s1 * s1;
    DivIs(s1 * s1, n, m * s1);
    assert 2.0 * m * s1 == m * s1 + m * s1;
  }

  /** The formulas after the pass, with their clamps, and the case of at most one row. */
  function FromSums(count: nat, s1: real, s2: real, eps: real): Stats {
    var n := Max(count as real, 1.0);
    var mean := s1 / n;
    var variance := Spread(n, s1, s2) / Max(count as real - 1.0, 1.0);
    if count <= 1 then Stats(0.0, 1.0, count) else Stats(mean, Max(variance, eps), count)
  }

  /** The one-pass formulas give every group what it is due. */
  lemma FromSumsIsDue(xs: seq<real>, eps: real)
    ensures FromSums(|xs|, Sum(xs), SumOfSquares(xs), eps) == Due(xs, eps)
  {
    if |xs| >= 2 {
      OnePass(xs);
      var n := |xs| as real;
      assert Max(n, 1.0) == n && Max(n - 1.0, 1.0) == (|xs| - 1) as real;
    }
  }

  // ----- the pass over the rows

  lemma MembersNext(rows: seq<Row>, i: nat, g: nat)
    requires i < |rows|
    ensures Members(rows[..i + 1], g) ==
            if rows[i].1 == g then Members(rows[..i], g) + [rows[i].0] else Members(rows[..i], g)
  {
    assert rows[..i + 1][..i] == rows[..i];
  }

  lemma SumsNext(xs: seq<real>, x: real)
    ensures Sum(xs + [x]) == Sum(xs) + x && SumOfSquares(xs + [x]) == SumOfSquares(xs) + Square(x)
  {
    assert (xs + [x])[..|xs|] == xs;
  }

  lemma {:induction false} GroupsAbove(rows: seq<Row>, i: nat)
    requires i < |rows|
    ensures rows[i].1 < Groups(rows)
  {
    if i < |rows| - 1 {
      GroupsAbove(rows[..|rows| - 1], i);
    }
  }

  /** Counts, sums and sums of squares per group, accumulated in place. */
  method Accumulate(rows: seq<Row>) returns (count: seq<nat>, s1: seq<real>, s2: seq<real>)
    ensures |count| == |s1| == |s2| == Groups(rows)
    ensures forall g | 0 <= g < |count| ::
              var xs := Members(rows, g); count[g] == |xs| && s1[g] == Sum(xs) && s2[g] == SumOfSquares(xs)
  {
    var n := Groups(rows);
    count, s1, s2 := seq(n, _ => 0), seq(n, _ => 0.0), seq(n, _ => 0.0);
    for i := 0 to |rows|
      invariant |count| == |s1| == |s2| == n
      invariant forall g | 0 <= g < n ::
                  var xs := Members(rows[..i], g); count[g] == |xs| && s1[g] == Sum(xs) && s2[g] == SumOfSquares(xs)
    {
      var (score, at) := rows[i];
      GroupsAbove(rows, i);
      SumsNext(Members(rows[..i], at), score);
      forall g | 0 <= g < n ensures Members(rows[..i + 1], g) ==
          if g == at then Members(rows[..i], g) + [score] else Members(rows[..i], g)
      {
        MembersNext(rows, i, g);
      }
      count, s1, s2 := count[at := count[at] + 1], s1[at := s1[at] + score], s2[at := s2[at] + Square(score)];
    }
    assert rows[..|rows|] == rows;
  }

  /** `group_mean_std`; None where there are not as many groups as scores. */
  method GroupMeanStd(scores: seq<real>, groups: seq<nat>, eps: real) returns (r: Option<seq<Stats>>)
    ensures r.None? <==> |scores| != |groups|
    ensures r.Some? ==>
              && |r.value| == Groups(Zip(scores, groups))
              && forall g | 0 <= g < |r.value| :: r.value[g] == Due(Members(Zip(scores, groups), g), eps)
    ensures r.Some? ==>
              forall g | 0 <= g < |r.value| ::
                var xs, s := Members(Zip(scores, groups), g), r.value[g];
                && s.count == |xs|
                && (|xs| <= 1 ==> s.mean == 0.0 && s.std2 == 1.0)
                && (|xs| >= 2 ==> s.mean == Mean(xs) && s.std2 == if Variance(xs) >= eps then Variance(xs) else eps)
  {
    if |scores| != |groups| {
      return None;
    }
    var rows := Zip(scores, groups);
    var count, s1, s2 := Accumulate(rows);
    var stats: seq<Stats> := [];
    for g := 0 to |count|
      invariant |stats| == g
      invariant forall j | 0 <= j < g :: stats[j] == Due(Members(rows, j), eps)
    {
      FromSumsIsDue(Members(rows, g), eps);
      stats := stats + [FromSums(count[g], s1[g], s2[g], eps)];
    }
    r := Some(stats);
  }

  // ----- the order of the rows does not matter

  lemma {:induction false} MembersBag(rows: seq<Row>, g: nat, x: real)
    ensures multiset(Members(rows, g))[x] == multiset(rows)[(x, g)]
  {
    if rows != [] {
      var rest, last := rows[..|rows| - 1], rows[|rows| - 1];
      assert rows == rest + [last];
      MembersBag(rest, g, x);
    }
  }

  /** Removing the first occurrence of x. */
  function Without(xs: seq<real>, x: real): seq<real>
    requires x in xs
  {
    var last := xs[|xs| - 1];
    if last == x then xs[..|xs| - 1]
    else
      assert xs == xs[..|xs| - 1] + [last];
      Without(xs[..|xs| - 1], x) + [last]
  }

  lemma {:induction false} WithoutSums(xs: seq<real>, x: real)
    requires x in xs
    ensures Sum(xs) == Sum(Without(xs, x)) + x && SumOfSquares(xs) == SumOfSquares(Without(xs, x)) + Square(x)
  {
    var rest, last := xs[..|xs| - 1], xs[|xs| - 1];
    if last != x {
      assert xs == rest + [last];
      WithoutSums(rest, x);
      SumsNext(Without(rest, x), last);
    }
  }

  lemma {:induction false} WithoutBag(xs: seq<real>, x: real)
    requires x in xs
    ensures multiset(xs) == multiset(Without(xs, x)) + multiset{x} && |Without(xs, x)| == |xs| - 1
  {
    var rest, last := xs[..|xs| - 1], xs[|xs| - 1];
    assert xs == rest + [last];
    if last != x {
      WithoutBag(rest, x);
    }
  }

  lemma {:induction false} SumsOfBag(xs: seq<real>, ys: seq<real>)
    requires multiset(xs) == multiset(ys)
    ensures Sum(xs) == Sum(ys) && SumOfSquares(xs) == SumOfSquares(ys) && |xs| == |ys|
    decreases |xs|
  {
    assert |multiset(xs)| == |xs| && |multiset(ys)| == |ys|;
    if xs != [] {
      var rest, x := xs[..|xs| - 1], xs[|xs| - 1];
      BagOfRest(xs, ys);
      WithoutSums(ys, x);
      SumsOfBag(rest, Without(ys, x));
    }
  }

  lemma BagOfRest(xs: seq<real>, ys: seq<real>)
    requires xs != [] && multiset(xs) == multiset(ys)
    ensures var x := xs[|xs| - 1];
            x in ys && multiset(xs[..|xs| - 1]) == multiset(Without(ys, x)) && |Without(ys, x)| == |ys| - 1
  {
    var rest, x := xs[..|xs| - 1], xs[|xs| - 1];
    assert xs == rest + [x];
    assert x in multiset(ys);
    WithoutBag(ys, x);
    assert multiset(rest) == multiset(xs) - multiset{x};
  }

  /** The number of groups is the least bound on the group indices. */
  lemma {:induction false} GroupsIs(rows: seq<Row>)
    ensures forall row | row in rows :: row.1 < Groups(rows)
    ensures Groups(rows) > 0 ==> exists row :: row in rows && row.1 + 1 == Groups(rows)
  {
    if rows != [] {
      var rest, last := rows[..|rows| - 1], rows[|rows| - 1];
      GroupsIs(rest);
      assert rows == rest + [last];
    }
  }

  lemma GroupsOfBag(rows: seq<Row>, other: seq<Row>)
    requires multiset(rows) == multiset(other)
    ensures Groups(rows) == Groups(other)
  {
    GroupsIs(rows);
    GroupsIs(other);
    forall row ensures row in rows <==> row in other {
      assert row in rows <==> row in multiset(rows);
      assert row in other <==> row in multiset(other);
    }
  }

  /** Permuting the rows changes neither the number of groups nor mean nor variance nor count of any group. */
  lemma RowOrderIrrelevant(rows: seq<Row>, other: seq<Row>, g: nat, eps: real)
    requires multiset(rows) == multiset(other)
    ensures Groups(rows) == Groups(other)
    ensures Due(Members(rows, g), eps) == Due(Members(other, g), eps)
  {
    var xs, ys := Members(rows, g), Members(other, g);
    forall x ensures multiset(xs)[x] == multiset(ys)[x] {
      MembersBag(rows, g, x);
      MembersBag(other, g, x);
    }
    assert multiset(xs) == multiset(ys);
    GroupsOfBag(rows, other);
    SumsOfBag(xs, ys);
    FromSumsIsDue(xs, eps);
    FromSumsIsDue(ys, eps);
  }
}
