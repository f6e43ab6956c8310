/** The report and code scores: weighted averages on exact numbers, rounded to hundredths. */
module Scoring {
  import opened Rounding
  import opened Sums

  // --- Code score ---------------------------------------------------------------------

  const CORRECTNESS_WEIGHT: real := 0.40
  const READABILITY_WEIGHT: real := 0.15
  const OPTIMIZATION_WEIGHT: real := 0.20
  const EDGE_CASE_WEIGHT: real := 0.15
  const QUALITY_WEIGHT: real := 0.10

  function ComputeOverallCodeScore(correctness: real, readability: real, optimization: real, edgeCase: real): real {
    Round2(correctness * CORRECTNESS_WEIGHT + readability * READABILITY_WEIGHT + optimization * OPTIMIZATION_WEIGHT
           + edgeCase * EDGE_CASE_WEIGHT + readability * QUALITY_WEIGHT)
  }

  /** The five weights are four: code quality is the readability score again, so readability counts a quarter. */
  lemma {:induction false} ReadabilityCountsTwice(c: real, r: real, o: real, e: real)
    ensures ComputeOverallCodeScore(c, r, o, e) == Round2(0.40 * c + 0.25 * r + 0.20 * o + 0.15 * e)
  {
    assert c * CORRECTNESS_WEIGHT + r * READABILITY_WEIGHT + o * OPTIMIZATION_WEIGHT + e * EDGE_CASE_WEIGHT + r * QUALITY_WEIGHT
           == 0.40 * c + 0.25 * r + 0.20 * o + 0.15 * e;
  }

  /** The code score is an average: it stays between the least and the greatest part, up to half a hundredth,
      and inside any interval of whole hundredths that holds all parts. */
  lemma {:induction false} CodeScoreIsAverage(c: real, r: real, o: real, e: real, low: real, high: real)
    requires low <= c <= high && low <= r <= high && low <= o <= high && low <= e <= high
    ensures low - 0.005 <= ComputeOverallCodeScore(c, r, o, e) <= high + 0.005
    ensures IsHundredths(low) && IsHundredths(high) ==> low <= ComputeOverallCodeScore(c, r, o, e) <= high
  {
    RoundedWithin(low, c * 0.40 + r * 0.15 + o * 0.20 + e * 0.15 + r * 0.10, high);
  }

  lemma {:induction false} RoundedWithin(low: real, x: real, high: real)
    requires low <= x <= high
    ensures low - 0.005 <= Round2(x) <= high + 0.005
    ensures IsHundredths(low) && IsHundredths(high) ==> low <= Round2(x) <= high
  {
    NearestHundredth(x);
    if IsHundredths(low) && IsHundredths(high) {
      Round2Within(low, x, high);
    }
  }

  lemma {:induction false} CodeScoreMonotone(c: real, r: real, o: real, e: real, c': real, r': real, o': real, e': real)
    requires c <= c' && r <= r' && o <= o' && e <= e'
    ensures ComputeOverallCodeScore(c, r, o, e) <= ComputeOverallCodeScore(c', r', o', e')
  {
    Round2Monotone(c * 0.40 + r * 0.15 + o * 0.20 + e * 0.15 + r * 0.10,
                   c' * 0.40 + r' * 0.15 + o' * 0.20 + e' * 0.15 + r' * 0.10);
  }

  // --- Section and round scores ----------------------------------------------------------

  function Itself(x: real): real { x }

  function One(x: real): real { 1.0 }

  /** Both the section score and the round composite are this plain average. */
  function ComputeAverage(scores: seq<real>): real
    requires scores != []
  {
    Round2(Total(Itself, scores) / |scores| as real)
  }

  lemma {:induction false} CountOnes(scores: seq<real>)
    ensures Total(One, scores) == |scores| as real
  {
    if scores != [] {
      CountOnes(scores[1..]);
    }
  }

  /** Every score counts the same: the average is the sum over the number, rounded. */
  lemma {:induction false} AverageIsMean(scores: seq<real>)
    requires scores != []
    ensures ComputeAverage(scores) == Round2(Total((x: real) => x, scores) / |scores| as real)
  {
    hide Round2;
    TotalSame(Itself, (x: real) => x, scores);
  }

  lemma {:induction false} AverageWithin(scores: seq<real>, low: real, high: real)
    requires scores != [] && forall i :: 0 <= i < |scores| ==> low <= scores[i] <= high
    ensures low - 0.005 <= ComputeAverage(scores) <= high + 0.005
    ensures IsHundredths(low) && IsHundredths(high) ==> low <= ComputeAverage(scores) <= high
  {
    CountOnes(scores);
    WeightedBounds(Itself, One, Itself, scores, low, high);
    QuotientBetween(low, Total(Itself, scores), high, |scores| as real);
    RoundedWithin(low, Total(Itself, scores) / |scores| as real, high);
  }

  // --- Interview score -----------------------------------------------------------------------

  datatype Composite = Composite(score: real, weight: real)

  function Score(c: Composite): real { c.score }

  function Weight(c: Composite): real { c.weight }

  function Product(c: Composite): real { c.score * c.weight }

  function ComputeOverallScore(rounds: seq<Composite>): real {
    var totalWeight := Total(Weight, rounds);
    if totalWeight == 0.0 then 0.0 else Round2(Total(Product, rounds) / totalWeight)
  }

  /** A round counts by its weight; without any weight the score is zero. */
  lemma {:induction false} OverallScoreIsWeightedMean(rounds: seq<Composite>)
    ensures var (weights, products) := (Total((c: Composite) => c.weight, rounds), Total((c: Composite) => c.score * c.weight, rounds));
      ComputeOverallScore(rounds) == if weights == 0.0 then 0.0 else Round2(products / weights)
  {
    hide Round2;
    TotalSame(Weight, (c: Composite) => c.weight, rounds);
    TotalSame(Product, (c: Composite) => c.score * c.weight, rounds);
  }

  predicate NonNegative(rounds: seq<Composite>) { forall i :: 0 <= i < |rounds| ==> rounds[i].weight >= 0.0 }

  /** The interview score stays between the least and the greatest round score, up to half a hundredth. */
  lemma {:induction false} OverallScoreIsAverage(rounds: seq<Composite>, low: real, high: real)
    requires NonNegative(rounds) && Total(Weight, rounds) != 0.0
    requires forall i :: 0 <= i < |rounds| ==> low <= rounds[i].score <= high
    ensures low - 0.005 <= ComputeOverallScore(rounds) <= high + 0.005
    ensures IsHundredths(low) && IsHundredths(high) ==> low <= ComputeOverallScore(rounds) <= high
  {
    TotalNonNegative(Weight, rounds);
    WeightedBounds(Score, Weight, Product, rounds, low, high);
    QuotientBetween(low, Total(Product, rounds), high, Total(Weight, rounds));
    RoundedWithin(low, Total(Product, rounds) / Total(Weight, rounds), high);
  }

  /** Raising any round's score never lowers the interview score. */
  lemma {:induction false} OverallScoreMonotone(rounds: seq<Composite>, better: seq<Composite>)
    requires NonNegative(rounds) && |rounds| == |better|
    requires forall i :: 0 <= i < |rounds| ==> rounds[i].score <= better[i].score && rounds[i].weight == better[i].weight
    ensures ComputeOverallScore(rounds) <= ComputeOverallScore(better)
  {
    TotalNonNegative(Weight, rounds);
    TotalMonotone(Weight, rounds, Weight, better);
    TotalMonotone(Weight, better, Weight, rounds);
    forall i | 0 <= i < |rounds|
      ensures Product(rounds[i]) <= Product(better[i])
    {
      ScaledBetween(rounds[i].score, rounds[i].score, better[i].score, rounds[i].weight);
    }
    TotalMonotone(Product, rounds, Product, better);
    var total := Total(Weight, rounds);
    if total != 0.0 {
      QuotientMonotone(Total(Product, rounds), Total(Product, better), total);
      Round2Monotone(Total(Product, rounds) / total, Total(Product, better) / total);
    }
  }

  /** The interview score does not depend on the order of the rounds. */
  lemma {:induction false} OverallScorePermuted(rounds: seq<Composite>, shuffled: seq<Composite>)
    requires multiset(rounds) == multiset(shuffled)
    ensures ComputeOverallScore(rounds) == ComputeOverallScore(shuffled)
  {
    TotalPermuted(Weight, rounds, shuffled);
    TotalPermuted(Product, rounds, shuffled);
  }

  function Scaled(rounds: seq<Composite>, k: real): seq<Composite> {
    if rounds == [] then []
    else [Composite(rounds[0].score, k * rounds[0].weight)] + Scaled(rounds[1..], k)
  }

  lemma {:induction false} ScaledHead(rounds: seq<Composite>, k: real)
    requires rounds != []
    ensures Scaled(rounds, k) == [Composite(rounds[0].score, k * rounds[0].weight)] + Scaled(rounds[1..], k)
    ensures Scaled(rounds, k)[1..] == Scaled(rounds[1..], k)
  {}

  lemma {:induction false} ScaledProduct(c: Composite, k: real)
    ensures Product(Composite(c.score, k * c.weight)) == k * Product(c)
  {}

  /** Scaling the terms by `k` scales the sum, given that it does so for the rest. */
  lemma {:induction false} ScaledTotal(f: Composite -> real, rounds: seq<Composite>, scaled: seq<Composite>, k: real)
    requires rounds != [] && scaled != [] && f(scaled[0]) == k * f(rounds[0])
    requires Total(f, scaled[1..]) == k * Total(f, rounds[1..])
    ensures Total(f, scaled) == k * Total(f, rounds)
  {
    Spread(k, f(rounds[0]), Total(f, rounds[1..]));
  }

  lemma {:induction false} ScaledSums(rounds: seq<Composite>, k: real)
    ensures Total(Weight, Scaled(rounds, k)) == k * Total(Weight, rounds)
    ensures Total(Product, Scaled(rounds, k)) == k * Total(Product, rounds)
  {
    if rounds == [] {
      assert Scaled(rounds, k) == [];
    } else {
      hide Total, Scaled;
      ScaledSums(rounds[1..], k);
      ScaledHead(rounds, k);
      ScaledProduct(rounds[0], k);
      ScaledTotal(Weight, rounds, Scaled(rounds, k), k);
      ScaledTotal(Product, rounds, Scaled(rounds, k), k);
    }
  }

  /** Only the proportions of the weights matter. */
  lemma {:induction false} OverallScoreScaled(rounds: seq<Composite>, k: real)
    requires k != 0.0
    ensures ComputeOverallScore(Scaled(rounds, k)) == ComputeOverallScore(rounds)
  {
    hide Total, Scaled, Round2;
    ScaledSums(rounds, k);
    var (p, w) := (Total(Product, rounds), Total(Weight, rounds));
    if w != 0.0 {
      CancelFactor(p, w, k);
      assert k * p == p * k && k * w == w * k;
      assert Total(Product, Scaled(rounds, k)) / Total(Weight, Scaled(rounds, k)) == p / w;
    }
  }
}
