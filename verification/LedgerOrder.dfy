/** The ledger does not depend on the order in which legs, fills and settlements arrive.

    Acceptance is decided record by record and by pairwise comparison. The keys that sort accepted
    evidence are distinct, because duplicates are refused, and so there is only one sorted order.
    Which error is reported does depend on the order. */
module LedgerOrder {
  import opened Prelude
  import opened Sequences
  import opened FixedPoint
  import opened Ledger

  // ----- what checking a list amounts to

  /** A check that looks at a record itself and at whether two of its keys were seen before. */
  ghost predicate SeparatesAt<S, T(!new), K, L>(
    check: (S, seq<S>) -> Checked<T>, stands: S -> bool, fix: S -> T, k: S -> K, l: S -> L, s: S, earlier: seq<S>)
  {
    && (check(s, earlier).Ok? <==> stands(s) && k(s) !in Map(k, earlier) && l(s) !in Map(l, earlier))
    && (check(s, earlier).Ok? ==> check(s, earlier).value == fix(s))
  }

  ghost predicate Separates<S(!new), T(!new), K, L>(
    check: (S, seq<S>) -> Checked<T>, stands: S -> bool, fix: S -> T, k: S -> K, l: S -> L)
  {
    forall s, earlier :: SeparatesAt(check, stands, fix, k, l, s, earlier)
  }

  ghost predicate Acceptable<S, K, L>(stands: S -> bool, k: S -> K, l: S -> L, items: seq<S>) {
    && (forall s :: s in items ==> stands(s))
    && NoDuplicates(Map(k, items)) && NoDuplicates(Map(l, items))
  }

  lemma AcceptableSnoc<S, K, L>(stands: S -> bool, k: S -> K, l: S -> L, items: seq<S>, s: S)
    ensures Acceptable(stands, k, l, items + [s]) <==>
              && Acceptable(stands, k, l, items)
              && stands(s) && k(s) !in Map(k, items) && l(s) !in Map(l, items)
  {
    MapSnoc(k, items, s);
    MapSnoc(l, items, s);
    NoDuplicatesSnoc(Map(k, items), k(s));
    NoDuplicatesSnoc(Map(l, items), l(s));
    assert forall t :: t in items + [s] <==> t in items || t == s;
  }

  lemma {:induction false} CheckAllMeans<S(!new), T(!new), K, L>(
    check: (S, seq<S>) -> Checked<T>, stands: S -> bool, fix: S -> T, k: S -> K, l: S -> L, items: seq<S>)
    requires Separates(check, stands, fix, k, l)
    ensures CheckAll(check, items).Ok? <==> Acceptable(stands, k, l, items)
    ensures CheckAll(check, items).Ok? ==> CheckAll(check, items).value == Map(fix, items)
  {
    if items != [] {
      var init, last := items[..|items| - 1], items[|items| - 1];
      assert items == init + [last];
      CheckAllMeans(check, stands, fix, k, l, init);
      assert SeparatesAt(check, stands, fix, k, l, last, init);
      AcceptableSnoc(stands, k, l, init, last);
      MapSnoc(fix, init, last);
    }
  }

  lemma AcceptableIgnoresOrder<S, K, L>(stands: S -> bool, k: S -> K, l: S -> L, a: seq<S>, b: seq<S>)
    requires multiset(a) == multiset(b)
    ensures Acceptable(stands, k, l, a) <==> Acceptable(stands, k, l, b)
  {
    SameElements(a, b);
    MapPermutation(k, a, b);
    MapPermutation(l, a, b);
    NoDuplicatesPermutation(Map(k, a), Map(k, b));
    NoDuplicatesPermutation(Map(l, a), Map(l, b));
  }

  /** Where one of the checked keys shows in the sorting key, the checked records are in order. */
  lemma KnownByKey<S(!new), T(!new), K>(
    fix: S -> T, k: S -> K, leq: (T, T) -> bool, key: T -> seq<KeyPart>, items: seq<S>)
    requires SortsByKey(leq, key) && NoDuplicates(Map(k, items))
    requires forall s, t :: key(fix(s)) == key(fix(t)) ==> k(s) == k(t)
    ensures Orders(leq, multiset(Map(fix, items)))
  {
    var m := Map(fix, items);
    forall x, y | x in multiset(m) && y in multiset(m) && key(x) == key(y)
      ensures x == y
    {
      var i :| 0 <= i < |m| && m[i] == x;
      var j :| 0 <= j < |m| && m[j] == y;
      DistinctImages(k, items, items[i], items[j]);
    }
    KeysOrder(leq, key, multiset(m));
  }

  lemma ListIgnoresOrder<S(!new), T(!new), K, L>(
    check: (S, seq<S>) -> Checked<T>, stands: S -> bool, fix: S -> T, k: S -> K, l: S -> L,
    leq: (T, T) -> bool, key: T -> seq<KeyPart>, a: seq<S>, b: seq<S>)
    requires multiset(a) == multiset(b)
    requires Separates(check, stands, fix, k, l) && SortsByKey(leq, key)
    requires forall s, t :: key(fix(s)) == key(fix(t)) ==> k(s) == k(t)
    ensures CheckAll(check, a).Ok? <==> CheckAll(check, b).Ok?
    ensures CheckAll(check, a).Ok? ==>
              && multiset(CheckAll(check, a).value) == multiset(CheckAll(check, b).value)
              && SortBy(leq, CheckAll(check, a).value) == SortBy(leq, CheckAll(check, b).value)
  {
    CheckAllMeans(check, stands, fix, k, l, a);
    CheckAllMeans(check, stands, fix, k, l, b);
    AcceptableIgnoresOrder(stands, k, l, a, b);
    if CheckAll(check, a).Ok? {
      MapPermutation(fix, a, b);
      KnownByKey(fix, k, leq, key, a);
      SortByCanonical(leq, Map(fix, a), Map(fix, b));
    }
  }

  // ----- legs

  function LegTest(intent: Intent): Leg -> bool {
    (leg: Leg) => CheckLeg(leg, [], intent).Ok?
  }

  function SameLeg(leg: Leg): Leg { leg }

  lemma LegCheckSeparates(intent: Intent)
    ensures Separates(LegCheck(intent), LegTest(intent), SameLeg, LegId, LegVenue)
  {
    forall leg, earlier
      ensures SeparatesAt(LegCheck(intent), LegTest(intent), SameLeg, LegId, LegVenue, leg, earlier)
    {
    }
  }

  lemma LegKeys()
    ensures SortsByKey(LegLeq, LegKey)
    ensures forall s, t :: LegKey(SameLeg(s)) == LegKey(SameLeg(t)) ==> LegId(s) == LegId(t)
  {
    forall s, t | LegKey(SameLeg(s)) == LegKey(SameLeg(t))
      ensures LegId(s) == LegId(t)
    {
      assert LegKey(s)[1] == LegKey(t)[1];
    }
  }

  lemma LegsIgnoreOrder(intent: Intent, a: seq<Leg>, b: seq<Leg>)
    requires multiset(a) == multiset(b)
    ensures ValidLegs(intent, a).Ok? <==> ValidLegs(intent, b).Ok?
    ensures ValidLegs(intent, a).Ok? ==> ValidLegs(intent, a) == ValidLegs(intent, b)
  {
    LegCheckSeparates(intent);
    LegKeys();
    ListIgnoresOrder(LegCheck(intent), LegTest(intent), SameLeg, LegId, LegVenue, LegLeq, LegKey, a, b);
    SameElements(a, b);
    if CheckAll(LegCheck(intent), a).Ok? {
      SameElements(CheckAll(LegCheck(intent), a).value, CheckAll(LegCheck(intent), b).value);
    }
  }

  // ----- fills

  function FillTest(ctx: Context): Fill -> bool {
    (fill: Fill) => CheckFill(fill, [], ctx).Ok?
  }

  function FixedOf(ctx: Context): Fill -> FixedFill {
    (fill: Fill) => if FixFill(fill, ctx).Ok? then FixFill(fill, ctx).value else FixedFill(fill, 0, 0, 0, 0)
  }

  lemma FillCheckSeparates(ctx: Context)
    ensures Separates(FillCheck(ctx), FillTest(ctx), FixedOf(ctx), FillId, TradeKey)
  {
    forall fill, earlier
      ensures SeparatesAt(FillCheck(ctx), FillTest(ctx), FixedOf(ctx), FillId, TradeKey, fill, earlier)
    {
    }
  }

  lemma FillKeys(ctx: Context)
    ensures SortsByKey(FillLeq, FillKey)
    ensures forall s, t :: FillKey(FixedOf(ctx)(s)) == FillKey(FixedOf(ctx)(t)) ==> FillId(s) == FillId(t)
  {
    forall s, t | FillKey(FixedOf(ctx)(s)) == FillKey(FixedOf(ctx)(t))
      ensures FillId(s) == FillId(t)
    {
      assert FillKey(FixedOf(ctx)(s))[6] == FillKey(FixedOf(ctx)(t))[6];
    }
  }

  lemma FillsIgnoreOrder(ctx: Context, a: seq<Fill>, b: seq<Fill>)
    requires multiset(a) == multiset(b)
    ensures ValidFills(ctx, a).Ok? <==> ValidFills(ctx, b).Ok?
    ensures ValidFills(ctx, a).Ok? ==> ValidFills(ctx, a) == ValidFills(ctx, b)
  {
    FillCheckSeparates(ctx);
    FillKeys(ctx);
    ListIgnoresOrder(FillCheck(ctx), FillTest(ctx), FixedOf(ctx), FillId, TradeKey, FillLeq, FillKey, a, b);
  }

  // ----- settlements

  function SettlementTest(ctx: Context): Settlement -> bool {
    (settlement: Settlement) => CheckSettlement(settlement, [], ctx).Ok?
  }

  function FixedSettlementOf(ctx: Context): Settlement -> FixedSettlement {
    (s: Settlement) => if FixSettlement(s, ctx).Ok? then FixSettlement(s, ctx).value else FixedSettlement(s, 0, 0, 0)
  }

  lemma SettlementCheckSeparates(ctx: Context)
    ensures Separates(SettlementCheck(ctx), SettlementTest(ctx), FixedSettlementOf(ctx), SettlementId, SettlementLeg)
  {
    forall s, earlier
      ensures SeparatesAt(SettlementCheck(ctx), SettlementTest(ctx), FixedSettlementOf(ctx), SettlementId,
                          SettlementLeg, s, earlier)
    {
    }
  }

  lemma SettlementKeys(ctx: Context)
    ensures SortsByKey(SettlementLeq, SettlementKey)
    ensures forall s, t :: SettlementKey(FixedSettlementOf(ctx)(s)) == SettlementKey(FixedSettlementOf(ctx)(t))
                           ==> SettlementId(s) == SettlementId(t)
  {
    forall s, t | SettlementKey(FixedSettlementOf(ctx)(s)) == SettlementKey(FixedSettlementOf(ctx)(t))
      ensures SettlementId(s) == SettlementId(t)
    {
      assert SettlementKey(FixedSettlementOf(ctx)(s))[4] == SettlementKey(FixedSettlementOf(ctx)(t))[4];
    }
  }

  lemma SettlementsIgnoreOrder(ctx: Context, a: seq<Settlement>, b: seq<Settlement>)
    requires multiset(a) == multiset(b)
    ensures ValidSettlements(ctx, a).Ok? <==> ValidSettlements(ctx, b).Ok?
    ensures ValidSettlements(ctx, a).Ok? ==> ValidSettlements(ctx, a) == ValidSettlements(ctx, b)
  {
    SettlementCheckSeparates(ctx);
    SettlementKeys(ctx);
    ListIgnoresOrder(SettlementCheck(ctx), SettlementTest(ctx), FixedSettlementOf(ctx), SettlementId, SettlementLeg,
                     SettlementLeq, SettlementKey, a, b);
  }

  // ----- the whole ledger

  ghost predicate IsReordering(a: LedgerInput, b: LedgerInput) {
    && b == a.(legs := b.legs, fills := b.fills, settlements := b.settlements)
    && multiset(a.legs) == multiset(b.legs)
    && multiset(a.fills) == multiset(b.fills)
    && multiset(a.settlements) == multiset(b.settlements)
  }

  lemma ContextIgnoresOrder(a: LedgerInput, b: LedgerInput)
    requires IsReordering(a, b)
    ensures ValidateContext(a).Ok? <==> ValidateContext(b).Ok?
    ensures ValidateContext(a).Ok? ==> ValidateContext(a) == ValidateContext(b)
  {
    assert |multiset(a.fills)| == |a.fills| && |multiset(b.fills)| == |b.fills|;
    var head := ValidateHead(a.version, a.capturedAt, a.completeness, a.intent);
    if head.Ok? {
      LegsIgnoreOrder(head.value, a.legs, b.legs);
    }
  }

  lemma EvidenceIgnoresOrder(ctx: Context, a: LedgerInput, b: LedgerInput)
    requires IsReordering(a, b)
    ensures ValidateEvidence(ctx, a).Ok? <==> ValidateEvidence(ctx, b).Ok?
    ensures ValidateEvidence(ctx, a).Ok? ==> ValidateEvidence(ctx, a) == ValidateEvidence(ctx, b)
  {
    FillsIgnoreOrder(ctx, a.fills, b.fills);
    SettlementsIgnoreOrder(ctx, a.settlements, b.settlements);
  }

  /** Reordering the input never changes acceptance, and an accepted input keeps its projection:
      amounts, proof and evidence. */
  lemma LedgerIgnoresOrder(a: LedgerInput, b: LedgerInput)
    requires IsReordering(a, b)
    ensures CalculateLedger(a).Ok? <==> CalculateLedger(b).Ok?
    ensures CalculateLedger(a).Ok? ==> CalculateLedger(a) == CalculateLedger(b)
  {
    ContextIgnoresOrder(a, b);
    if ValidateContext(a).Ok? {
      EvidenceIgnoresOrder(ValidateContext(a).value, a, b);
    }
  }
}
