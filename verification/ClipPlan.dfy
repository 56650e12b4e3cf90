/** Splitting an order into clips. */
module ClipPlan {
  import opened Prelude
  import opened Sequences

  /** Math.max(1, Math.floor(x)) */
  function AtLeastOne(x: real): (r: int)
    ensures r >= 1
  {
    IntMax(1, x.Floor)
  }

  function CeilDiv(a: nat, b: nat): nat
    requires b > 0
  {
    (a + b - 1) / b
  }

  /** The clips of an even split: the first total % count of them are one larger. */
  function Even(total: nat, count: nat): (clips: seq<int>)
    requires count > 0
    ensures |clips| == count
  {
    seq(count, i => total / count + if i < total - total / count * count then 1 else 0)
  }

  predicate IsPositive(clip: int) {
    clip > 0
  }

  function Request(requested: Numeric): nat {
    if requested.NotReal? || requested.value <= 0.0 then 0 else requested.value.Floor
  }

  function Capacity(maxClip: real, maxClips: real): int {
    AtLeastOne(maxClip) * AtLeastOne(maxClips)
  }

  function ClipCount(contracts: nat, clip: nat, clips: nat): nat
    requires clip > 0
  {
    IntMin(clips, IntMax(1, CeilDiv(contracts, clip)))
  }

  function FirstClip(capped: int, clip: int, clips: int, probe: real): int {
    IntMin(IntMin(clip, capped), IntMax(AtLeastOne(probe), capped - clip * (clips - 1)))
  }

  /** The clips of a request within the capacity, after a probe clip if there is one. */
  function Split(capped: nat, clip: nat, clips: nat, probe: Option<real>): seq<int>
    requires clip >= 1 && clips >= 1 && 1 <= capped <= clip * clips
  {
    match probe
    case None => Filter(IsPositive, Even(capped, ClipCount(capped, clip, clips)))
    case Some(size) =>
      var first := FirstClip(capped, clip, clips, size);
      FirstFits(capped, clip, clips, size);
      var remaining := capped - first;
      if remaining <= 0 || clips == 1 then [first]
      else Filter(IsPositive, [first] + Even(remaining, ClipCount(remaining, clip, clips - 1)))
  }

  /** deriveKalshiPrimaryClipPlan */
  function DeriveClipPlan(requested: Numeric, maxClip: real, maxClips: real, probe: Option<real>): seq<int> {
    var request := Request(requested);
    if request <= 0 then []
    else
      var clip, clips := AtLeastOne(maxClip), AtLeastOne(maxClips);
      Split(CappedRequest(request, clip, clips), clip, clips, probe)
  }

  function CappedRequest(request: nat, clip: int, clips: int): (r: nat)
    requires request >= 1 && clip >= 1 && clips >= 1
    ensures 1 <= r <= request && r <= clip * clips
  {
    ProductAtLeastOne(clip, clips);
    IntMin(request, clip * clips)
  }

  lemma ProductAtLeastOne(x: int, y: int)
    requires x >= 1 && y >= 1
    ensures x * y >= 1
  {
    assert x * y == x * (y - 1) + x && x * (y - 1) >= 0;
  }

  /** The first clip leaves no more than the other clips can hold. */
  lemma FirstFits(capped: int, clip: int, clips: int, probe: real)
    requires clip >= 1 && clips >= 1 && 1 <= capped <= clip * clips
    ensures 1 <= FirstClip(capped, clip, clips, probe) <= clip
    ensures 0 <= capped - FirstClip(capped, clip, clips, probe) <= clip * (clips - 1)
  {
    assert clip * clips == clip * (clips - 1) + clip;
    assert clip * (clips - 1) >= 0;
  }

  // ----- even splits

  predicate IsSplit(clips: seq<int>, total: int, clip: int) {
    && Sum(Identity, clips) == total
    && forall c :: c in clips ==> 1 <= c <= clip
  }

  predicate IsEven(clips: seq<int>) {
    forall c, d :: c in clips && d in clips ==> c - d <= 1
  }

  function Identity(x: int): int { x }

  /** Dividing: total is base * count plus a remainder below count. */
  lemma Divides(total: nat, count: nat)
    requires count > 0
    ensures 0 <= total - total / count * count < count
  {
    assert total == total / count * count + total % count;
  }

  lemma CeilDivides(a: nat, b: nat)
    requires b > 0
    ensures a <= b * CeilDiv(a, b) <= a + b - 1
  {
    var q := CeilDiv(a, b);
    assert a + b - 1 == b * q + (a + b - 1) % b;
  }

  lemma MulGap(b: nat, x: int, y: int)
    requires x < y
    ensures b * x + b <= b * y
  {
    assert b * y == b * x + b + b * (y - x - 1) && b * (y - x - 1) >= 0;
  }

  lemma QuotientAtMost(total: nat, count: nat, clip: nat)
    requires count > 0 && total <= clip * count
    ensures total / count <= clip
    ensures total / count == clip ==> total == clip * count
  {
    Divides(total, count);
    if total / count > clip {
      MulGap(count, clip, total / count);
    }
  }

  lemma QuotientAtLeastOne(total: nat, count: nat)
    requires 0 < count <= total
    ensures total / count >= 1
  {
    Divides(total, count);
  }

  lemma {:induction false} SumOfSteps(base: int, extra: nat, n: nat, clips: seq<int>)
    requires |clips| == n
    requires forall i :: 0 <= i < n ==> clips[i] == base + if i < extra then 1 else 0
    ensures Sum(Identity, clips) == base * n + IntMin(extra, n)
  {
    if n > 0 {
      var init, last := clips[..n - 1], clips[n - 1];
      assert clips == init + [last];
      SumOfSteps(base, extra, n - 1, init);
      SumSnoc(Identity, init, last);
      OneMore(base, n - 1);
    }
  }

  /** Splitting evenly over enough clips, but no more than there are contracts. */
  lemma EvenSplits(total: nat, count: nat, clip: nat)
    requires 0 < count <= total <= clip * count
    ensures IsSplit(Even(total, count), total, clip) && IsEven(Even(total, count))
  {
    var base := total / count;
    var extra := total - base * count;
    Divides(total, count);
    QuotientAtMost(total, count, clip);
    QuotientAtLeastOne(total, count);
    SumOfSteps(base, extra, count, Even(total, count));
  }

  /** As many clips as are needed. */
  lemma CountFits(contracts: nat, clip: nat, clips: nat)
    requires contracts >= 1 && clip >= 1 && contracts <= clip * clips
    ensures 1 <= ClipCount(contracts, clip, clips) <= contracts
    ensures ClipCount(contracts, clip, clips) <= clips
    ensures contracts <= clip * ClipCount(contracts, clip, clips)
  {
    CeilDivides(contracts, clip);
    AtMostContracts(contracts, clip, CeilDiv(contracts, clip));
  }

  lemma AtMostContracts(contracts: nat, clip: nat, q: nat)
    requires contracts >= 1 && clip >= 1 && clip * q <= contracts + clip - 1
    ensures q <= contracts
  {
    assert (clip - 1) * (contracts - 1) >= 0;
    assert clip * contracts >= contracts + clip - 1;
    if q > contracts {
      MulGap(clip, contracts, q);
    }
  }

  lemma EvenPlan(capped: nat, clip: nat, clips: nat)
    requires 1 <= capped <= clip * clips && clip >= 1
    ensures var plan := Even(capped, ClipCount(capped, clip, clips));
            Filter(IsPositive, plan) == plan && IsSplit(plan, capped, clip) && IsEven(plan) && 1 <= |plan| <= clips
  {
    CountFits(capped, clip, clips);
    EvenSplits(capped, ClipCount(capped, clip, clips), clip);
    FilterAll(IsPositive, Even(capped, ClipCount(capped, clip, clips)));
  }

  lemma ProbePlan(capped: nat, clip: nat, clips: nat, first: int)
    requires clip >= 1 && clips >= 1 && 1 <= first <= clip && 0 <= capped - first <= clip * (clips - 1)
    ensures clips == 1 ==> capped == first
    ensures capped == first ==> IsSplit([first], capped, clip)
    ensures capped > first && clips > 1 ==>
              var rest := Even(capped - first, ClipCount(capped - first, clip, clips - 1));
              && Filter(IsPositive, [first] + rest) == [first] + rest && IsSplit([first] + rest, capped, clip)
              && IsEven(rest) && 1 <= |[first] + rest| <= clips
  {
    if capped > first && clips > 1 {
      var rest := Even(capped - first, ClipCount(capped - first, clip, clips - 1));
      EvenPlan(capped - first, clip, clips - 1);
      SumConcat(Identity, [first], rest);
      FilterAll(IsPositive, [first] + rest);
    }
  }

  predicate IsSoundPlan(plan: seq<int>, total: int, clip: int, clips: int, probed: bool) {
    && IsSplit(plan, total, clip) && 1 <= |plan| <= clips
    && IsEven(if probed then plan[1..] else plan)
  }

  lemma SplitIsSound(capped: nat, clip: nat, clips: nat, probe: Option<real>)
    requires clip >= 1 && clips >= 1 && 1 <= capped <= clip * clips
    ensures IsSoundPlan(Split(capped, clip, clips, probe), capped, clip, clips, probe.Some?)
  {
    match probe {
      case None => EvenPlan(capped, clip, clips);
      case Some(size) =>
        FirstFits(capped, clip, clips, size);
        ProbePlan(capped, clip, clips, FirstClip(capped, clip, clips, size));
    }
  }

  /** The plan for every positive request, with or without a probe clip: the clips add up to the
      request or the capacity, whichever is less; there are at most as many as allowed, none is
      empty or too large, and the evenly split ones differ by at most one. */
  lemma PlanIsSound(requested: Numeric, maxClip: real, maxClips: real, probe: Option<real>)
    requires Request(requested) >= 1
    ensures IsSoundPlan(DeriveClipPlan(requested, maxClip, maxClips, probe),
                        IntMin(Request(requested), Capacity(maxClip, maxClips)),
                        AtLeastOne(maxClip), AtLeastOne(maxClips), probe.Some?)
  {
    var clip, clips := AtLeastOne(maxClip), AtLeastOne(maxClips);
    SplitIsSound(CappedRequest(Request(requested), clip, clips), clip, clips, probe);
  }
}
