/** The area under the ROC curve of a calibration report: a sort followed by an average-rank
    sum, proved to count (fatal, non-fatal) pairs. */
module RankSum {
  import opened Prelude
  import opened Sequences

  datatype Observation = Observation(prediction: real, fatal: bool)

  predicate ByPrediction(a: Observation, b: Observation) {
    a.prediction <= b.prediction
  }

  // ----- the quadratic definition, in half points so that it stays in the integers

  /** Two half points to p for beating n, one for a tie. */
  function HalfPoints(p: Observation, n: Observation): int {
    if n.prediction < p.prediction then 2 else if n.prediction == p.prediction then 1 else 0
  }

  function Indicator(fatal: bool): Observation -> int {
    (o: Observation) => if o.fatal == fatal then 1 else 0
  }

  function Count(fatal: bool, s: seq<Observation>): int {
    Sum(Indicator(fatal), s)
  }

  function PointsFrom(p: Observation, fatal: bool): Observation -> int {
    (n: Observation) => if n.fatal == fatal then HalfPoints(p, n) else 0
  }

  /** The half points of p against everyone in s of the given class. */
  function Against(p: Observation, fatal: bool, s: seq<Observation>): int {
    Sum(PointsFrom(p, fatal), s)
  }

  function AgainstIfFatal(fatal: bool, s: seq<Observation>): Observation -> int {
    (p: Observation) => if p.fatal then Against(p, fatal, s) else 0
  }

  /** Over all (fatal, non-fatal) pairs: two for each correctly ranked one, one for each tie. */
  function PairScore(s: seq<Observation>): int {
    Sum(AgainstIfFatal(false, s), s)
  }

  // ----- properties of the quadratic definition

  lemma PairScorePermutation(a: seq<Observation>, b: seq<Observation>)
    requires multiset(a) == multiset(b)
    ensures PairScore(a) == PairScore(b)
    ensures forall fatal :: Count(fatal, a) == Count(fatal, b)
  {
    forall fatal {
      SumPermutation(Indicator(fatal), a, b);
    }
    forall p | p in a
      ensures AgainstIfFatal(false, a)(p) == AgainstIfFatal(false, b)(p)
    {
      SumPermutation(PointsFrom(p, false), a, b);
    }
    SumExtensional(AgainstIfFatal(false, a), AgainstIfFatal(false, b), a);
    SumPermutation(AgainstIfFatal(false, b), a, b);
  }

  lemma {:induction false} SumOfClass(k: int, fatal: bool, g: Observation -> int, s: seq<Observation>)
    requires forall x :: x in s ==> g(x) == if x.fatal == fatal then k else 0
    ensures Sum(g, s) == k * Count(fatal, s)
  {
    if s != [] {
      assert s[0] in s;
      SumOfClass(k, fatal, g, s[1..]);
      if s[0].fatal == fatal {
        OneMore(k, Count(fatal, s[1..]));
      }
    }
  }

  function Constant(k: int, fatal: bool): Observation -> int {
    (o: Observation) => if o.fatal == fatal then k else 0
  }

  lemma AgainstBounds(p: Observation, fatal: bool, s: seq<Observation>)
    ensures 0 <= Against(p, fatal, s) <= 2 * Count(fatal, s)
  {
    SumMonotone(PointsFrom(p, fatal), Constant(2, fatal), s);
    SumMonotone(Constant(0, fatal), PointsFrom(p, fatal), s);
    SumOfClass(2, fatal, Constant(2, fatal), s);
    SumOfClass(0, fatal, Constant(0, fatal), s);
  }

  lemma PairScoreBounds(s: seq<Observation>)
    ensures 0 <= PairScore(s) <= 2 * Count(false, s) * Count(true, s)
  {
    var k := 2 * Count(false, s);
    forall p | p in s
      ensures Constant(0, true)(p) <= AgainstIfFatal(false, s)(p) <= Constant(k, true)(p)
    {
      AgainstBounds(p, false, s);
    }
    SumMonotone(AgainstIfFatal(false, s), Constant(k, true), s);
    SumMonotone(Constant(0, true), AgainstIfFatal(false, s), s);
    SumOfClass(k, true, Constant(k, true), s);
    SumOfClass(0, true, Constant(0, true), s);
  }

  lemma CountsAddUp(s: seq<Observation>)
    ensures Count(true, s) + Count(false, s) == |s|
    ensures 0 <= Count(true, s) && 0 <= Count(false, s)
  {
    var one := (o: Observation) => 1;
    SumAdd(Indicator(true), Indicator(false), one, s);
    SumBounds(one, 1, 1, s);
    SumBounds(Indicator(true), 0, 1, s);
    SumBounds(Indicator(false), 0, 1, s);
  }

  /** Among themselves, P fatal observations share P * P half points. */
  lemma {:induction false} FatalAmongThemselves(s: seq<Observation>)
    ensures Sum(AgainstIfFatal(true, s), s) == Count(true, s) * Count(true, s)
  {
    if s != [] {
      var x, t := s[0], s[1..];
      var p := Count(true, t);
      FatalAmongThemselves(t);
      var toX := (o: Observation) => if o.fatal && x.fatal then HalfPoints(o, x) else 0;
      SumAdd(toX, AgainstIfFatal(true, t), AgainstIfFatal(true, s), t);
      // what the others score against x and x against the others adds up to two each
      if x.fatal {
        SumAdd(toX, PointsFrom(x, true), Constant(2, true), t);
        SumOfClass(2, true, Constant(2, true), t);
        assert (p + 1) * (p + 1) == p * p + 2 * p + 1;
      } else {
        SumBounds(toX, 0, 0, t);
      }
    }
  }

  // ----- the rank of an observation

  function PointsFromAll(p: Observation): Observation -> int {
    (n: Observation) => HalfPoints(p, n)
  }

  /** Twice the average rank of p in s, counted pair by pair. */
  function DoubledRank(p: Observation, s: seq<Observation>): int {
    1 + Sum(PointsFromAll(p), s)
  }

  function DoubledRankIfFatal(s: seq<Observation>): Observation -> int {
    (p: Observation) => if p.fatal then DoubledRank(p, s) else 0
  }

  lemma RankSplits(p: Observation, s: seq<Observation>)
    ensures DoubledRank(p, s) == 1 + Against(p, true, s) + Against(p, false, s)
  {
    SumAdd(PointsFrom(p, true), PointsFrom(p, false), PointsFromAll(p), s);
  }

  /** The rank sum of the fatal observations is their own triangle number plus the pair score. */
  lemma RankSumIsPairScore(s: seq<Observation>)
    ensures Sum(DoubledRankIfFatal(s), s)
         == Count(true, s) * (Count(true, s) + 1) + PairScore(s)
  {
    var both := (p: Observation) => AgainstIfFatal(true, s)(p) + AgainstIfFatal(false, s)(p);
    SumAdd(AgainstIfFatal(true, s), AgainstIfFatal(false, s), both, s);
    forall p | p in s
      ensures DoubledRankIfFatal(s)(p) == Indicator(true)(p) + both(p)
    {
      RankSplits(p, s);
    }
    SumAdd(Indicator(true), both, DoubledRankIfFatal(s), s);
    FatalAmongThemselves(s);
  }

  lemma {:induction false} SumConstant(f: Observation -> int, k: int, s: seq<Observation>)
    requires forall i :: 0 <= i < |s| ==> f(s[i]) == k
    ensures Sum(f, s) == k * |s|
  {
    if s != [] {
      SumConstant(f, k, s[1..]);
      OneMore(k, |s[1..]|);
    }
  }

  predicate Ascending(s: seq<Observation>) {
    forall i, j :: 0 <= i < j < |s| ==> s[i].prediction <= s[j].prediction
  }

  /** index..end is a maximal run of equal predictions. */
  predicate IsTiedBlock(s: seq<Observation>, index: nat, end: nat) {
    && index < end <= |s|
    && (forall k :: 0 <= k < index ==> s[k].prediction < s[index].prediction)
    && (forall k :: index <= k < end ==> s[k].prediction == s[index].prediction)
    && (forall k :: end <= k < |s| ==> s[k].prediction > s[index].prediction)
  }

  /** A block of ties shares the average of its positions. */
  lemma TiedBlockRank(s: seq<Observation>, index: nat, end: nat, t: nat)
    requires IsTiedBlock(s, index, end) && index <= t < end
    ensures DoubledRank(s[t], s) == index + 1 + end
  {
    var f := PointsFromAll(s[t]);
    SumConstant(f, 2, s[..index]);
    SumConstant(f, 1, s[index..end]);
    SumConstant(f, 0, s[end..]);
    assert s == s[..index] + (s[index..end] + s[end..]);
    SumConcat(f, s[..index], s[index..end] + s[end..]);
    SumConcat(f, s[index..end], s[end..]);
  }

  lemma RankSumStep(s: seq<Observation>, index: nat, end: nat, t: nat)
    requires IsTiedBlock(s, index, end) && index <= t < end
    ensures Sum(DoubledRankIfFatal(s), s[..t + 1])
         == Sum(DoubledRankIfFatal(s), s[..t]) + if s[t].fatal then index + 1 + end else 0
  {
    TiedBlockRank(s, index, end, t);
    SumSnoc(DoubledRankIfFatal(s), s[..t], s[t]);
    assert s[..t + 1] == s[..t] + [s[t]];
  }

  lemma SortedAscends(s: seq<Observation>)
    ensures Ascending(SortBy(ByPrediction, s))
  {
    var r := SortBy(ByPrediction, s);
    SortBySorted(ByPrediction, s);
    forall i, j | 0 <= i < j < |r|
      ensures r[i].prediction <= r[j].prediction
    {
      SortedAt(ByPrediction, r, i, j);
    }
  }

  // ----- the algorithm

  function AucOf(rankSum: real, positives: int, negatives: int): real
    requires positives > 0 && negatives > 0
  {
    assert positives * negatives > 0;
    (rankSum - (positives * (positives + 1)) as real / 2.0) / (positives * negatives) as real
  }

  /** x * P * N counts the correctly ranked (fatal, non-fatal) pairs plus half the tied ones. */
  ghost predicate IsAuc(x: real, s: seq<Observation>) {
    && x * (2 * Count(true, s) * Count(false, s)) as real == PairScore(s) as real
    && 0.0 <= x <= 1.0
  }

  /** Gives each fatal observation of a block of ties the average rank of the block. */
  method AddTiedRanks(sorted: seq<Observation>, index: nat, end: nat, before: real) returns (positiveRankSum: real)
    requires IsTiedBlock(sorted, index, end)
    requires 2.0 * before == Sum(DoubledRankIfFatal(sorted), sorted[..index]) as real
    ensures 2.0 * positiveRankSum == Sum(DoubledRankIfFatal(sorted), sorted[..end]) as real
  {
    positiveRankSum := before;
    var averageRank := (index + 1 + end) as real / 2.0;
    var tiedIndex := index;
    while tiedIndex < end
      invariant index <= tiedIndex <= end
      invariant 2.0 * positiveRankSum == Sum(DoubledRankIfFatal(sorted), sorted[..tiedIndex]) as real
    {
      RankSumStep(sorted, index, end, tiedIndex);
      if sorted[tiedIndex].fatal {
        positiveRankSum := positiveRankSum + averageRank;
      }
      tiedIndex := tiedIndex + 1;
    }
  }

  /** The end of the block of ties that starts at index. */
  method TiedEnd(sorted: seq<Observation>, index: nat) returns (end: nat)
    requires index < |sorted| && Ascending(sorted)
    requires forall k :: 0 <= k < index ==> sorted[k].prediction < sorted[index].prediction
    ensures IsTiedBlock(sorted, index, end)
  {
    end := index + 1;
    while end < |sorted| && sorted[end].prediction == sorted[index].prediction
      invariant index < end <= |sorted|
      invariant forall k :: index <= k < end ==> sorted[k].prediction == sorted[index].prediction
    {
      end := end + 1;
    }
  }

  /** The walk over the blocks of ties. */
  method SumPositiveRanks(sorted: seq<Observation>) returns (positiveRankSum: real)
    requires Ascending(sorted)
    ensures 2.0 * positiveRankSum == Sum(DoubledRankIfFatal(sorted), sorted) as real
  {
    positiveRankSum := 0.0;
    var index := 0;
    while index < |sorted|
      invariant 0 <= index <= |sorted|
      invariant index < |sorted| ==> forall k :: 0 <= k < index ==> sorted[k].prediction < sorted[index].prediction
      invariant 2.0 * positiveRankSum == Sum(DoubledRankIfFatal(sorted), sorted[..index]) as real
    {
      var end := TiedEnd(sorted, index);
      positiveRankSum := AddTiedRanks(sorted, index, end, positiveRankSum);
      index := end;
    }
    assert sorted[..|sorted|] == sorted;
  }

  /** calculateAuc: the rank sum yields the pair count; there is no area when a class is empty. */
  method CalculateAuc(observations: seq<Observation>) returns (r: Option<real>)
    ensures r.None? <==> Count(true, observations) == 0 || Count(false, observations) == 0
    ensures r.Some? ==> IsAuc(r.value, observations)
  {
    CountsAddUp(observations);
    var positives := Count(true, observations);
    var negatives := |observations| - positives;
    if positives == 0 || negatives == 0 {
      return None;
    }
    var sorted := SortBy(ByPrediction, observations);
    SortedAscends(observations);
    var positiveRankSum := SumPositiveRanks(sorted);
    RankSumGivesAuc(observations, sorted, positiveRankSum);
    return Some(AucOf(positiveRankSum, positives, negatives));
  }

  lemma RankSumGivesAuc(s: seq<Observation>, sorted: seq<Observation>, rankSum: real)
    requires multiset(s) == multiset(sorted)
    requires Count(true, s) > 0 && Count(false, s) > 0
    requires 2.0 * rankSum == Sum(DoubledRankIfFatal(sorted), sorted) as real
    ensures IsAuc(AucOf(rankSum, Count(true, s), Count(false, s)), s)
  {
    RankSumIsPairScore(sorted);
    PairScorePermutation(s, sorted);
    PairScoreBounds(s);
    Normalised(rankSum, Count(true, s), Count(false, s), PairScore(s));
  }

  lemma Normalised(rankSum: real, positives: int, negatives: int, score: int)
    requires positives > 0 && negatives > 0
    requires 2.0 * rankSum == (positives * (positives + 1) + score) as real
    requires 0 <= score <= 2 * negatives * positives
    ensures AucOf(rankSum, positives, negatives) * (2 * positives * negatives) as real == score as real
    ensures 0.0 <= AucOf(rankSum, positives, negatives) <= 1.0
  {
    assert positives * negatives > 0;
    var triangle, product := positives * (positives + 1), positives * negatives;
    assert 2 * positives * negatives == 2 * product == 2 * negatives * positives;
    Quotient(rankSum - triangle as real / 2.0, product as real);
  }

  lemma Quotient(x: real, area: real)
    requires area > 0.0 && 0.0 <= x <= area
    ensures x / area * (2.0 * area) == 2.0 * x
    ensures 0.0 <= x / area <= 1.0
  {
    assert x / area * area == x;
  }

  /** The result depends on which observations there are, not on their order. */
  lemma AucIgnoresOrder(a: seq<Observation>, b: seq<Observation>, x: real, y: real)
    requires multiset(a) == multiset(b)
    requires Count(true, a) > 0 && Count(false, a) > 0
    requires IsAuc(x, a) && IsAuc(y, b)
    ensures x == y
  {
    PairScorePermutation(a, b);
    var area := 2 * Count(true, a) * Count(false, a);
    assert Count(true, a) * Count(false, a) > 0;
    assert (x - y) * area as real == 0.0;
  }
}
