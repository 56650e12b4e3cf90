/** Order books as the sizing search sees them: prepared once, then walked greedily for each
    size, with the worst fill that a limit order can come to. */
module BookWalk {
  import opened Prelude
  import opened Sequences
  import opened RealSums

  const TOLERANCE: real := 0.000001

  datatype RawLevel = RawLevel(price: Numeric, size: Numeric)
  datatype Level = Level(price: real, size: real)

  function SizeOf(level: Level): real { level.size }
  function PriceOf(level: Level): real { level.price }
  function NotionalOf(level: Level): real { level.size * level.price }

  function Depth(levels: seq<Level>): real { Total(SizeOf, levels) }
  function Notional(levels: seq<Level>): real { Total(NotionalOf, levels) }

  predicate Ascending(levels: seq<Level>) {
    forall i, j :: 0 <= i < j < |levels| ==> levels[i].price < levels[j].price
  }

  // ----- one level per price

  predicate IsUsable(level: RawLevel) {
    level.price.Real? && level.size.Real? && 0.0 < level.price.value < 1.0 && level.size.value > 0.0
  }

  function SizeAt(price: real): RawLevel -> real {
    (level: RawLevel) => if IsUsable(level) && level.price.value == price then level.size.value else 0.0
  }

  /** What the usable levels hold at a price. */
  function HeldAt(levels: seq<RawLevel>, price: real): real {
    Total(SizeAt(price), levels)
  }

  predicate IsQuotedAt(levels: seq<RawLevel>, price: real) {
    exists level :: level in levels && IsUsable(level) && level.price.value == price
  }

  /** One level for each quoted price, in ascending order, with all that is held there. */
  ghost predicate IsAggregated(levels: seq<RawLevel>, book: seq<Level>) {
    && Ascending(book)
    && (forall level :: level in book ==> IsQuotedAt(levels, level.price) && level.size == HeldAt(levels, level.price))
    && (forall price :: IsQuotedAt(levels, price) ==> exists level :: level in book && level.price == price)
  }

  function AddTo(book: seq<Level>, price: real, size: real): seq<Level> {
    if book == [] || price < book[0].price then [Level(price, size)] + book
    else if price == book[0].price then [Level(price, book[0].size + size)] + book[1..]
    else [book[0]] + AddTo(book[1..], price, size)
  }

  /** The usable levels merged one by one. */
  function Aggregate(levels: seq<RawLevel>): seq<Level> {
    if levels == [] then []
    else
      var last, book := levels[|levels| - 1], Aggregate(levels[..|levels| - 1]);
      if IsUsable(last) then AddTo(book, last.price.value, last.size.value) else book
  }

  /** What a book holds at a price. */
  function SizeIn(book: seq<Level>, price: real): real {
    if book == [] then 0.0 else if book[0].price == price then book[0].size else SizeIn(book[1..], price)
  }

  predicate IsListed(book: seq<Level>, price: real) {
    exists level :: level in book && level.price == price
  }

  lemma AscendingCons(level: Level, book: seq<Level>)
    requires Ascending(book) && (book != [] ==> level.price < book[0].price)
    ensures Ascending([level] + book)
  {
  }

  lemma {:induction false} AddToAscends(book: seq<Level>, price: real, size: real)
    requires Ascending(book)
    ensures Ascending(AddTo(book, price, size))
  {
    if book != [] && price >= book[0].price {
      if price == book[0].price {
        AscendingCons(Level(price, book[0].size + size), book[1..]);
      } else {
        AddToAscends(book[1..], price, size);
        AscendingCons(book[0], AddTo(book[1..], price, size));
      }
    } else {
      AscendingCons(Level(price, size), book);
    }
  }

  lemma ListedCons(level: Level, book: seq<Level>, price: real)
    ensures IsListed([level] + book, price) <==> level.price == price || IsListed(book, price)
    ensures SizeIn([level] + book, price) == if level.price == price then level.size else SizeIn(book, price)
  {
    assert ([level] + book)[1..] == book;
    if IsListed(book, price) {
      var x :| x in book && x.price == price;
      assert x in [level] + book;
    }
    if level.price == price {
      assert level in [level] + book;
    }
  }

  lemma {:induction false} AddToAdds(book: seq<Level>, price: real, size: real, at: real)
    requires Ascending(book)
    ensures IsListed(AddTo(book, price, size), at) <==> at == price || IsListed(book, at)
    ensures SizeIn(AddTo(book, price, size), at) == SizeIn(book, at) + if at == price then size else 0.0
  {
    if book == [] || price < book[0].price {
      ListedCons(Level(price, size), book, at);
      BelowIsUnlisted(book, price);
    } else {
      assert book == [book[0]] + book[1..];
      ListedCons(book[0], book[1..], at);
      if price == book[0].price {
        ListedCons(Level(price, book[0].size + size), book[1..], at);
      } else {
        AddToAdds(book[1..], price, size, at);
        ListedCons(book[0], AddTo(book[1..], price, size), at);
      }
    }
  }

  lemma {:induction false} BelowIsUnlisted(book: seq<Level>, price: real)
    requires Ascending(book) && (book != [] ==> price < book[0].price)
    ensures SizeIn(book, price) == 0.0
  {
    if book != [] {
      BelowIsUnlisted(book[1..], price);
    }
  }

  lemma {:induction false} LevelHasItsSize(book: seq<Level>, level: Level)
    requires Ascending(book) && level in book
    ensures SizeIn(book, level.price) == level.size
  {
    if level != book[0] {
      assert level in book[1..];
      var k :| 0 <= k < |book[1..]| && book[1..][k] == level;
      assert book[0].price < book[k + 1].price;
      LevelHasItsSize(book[1..], level);
    }
  }

  lemma {:induction false} AggregateCollects(levels: seq<RawLevel>, at: real)
    ensures Ascending(Aggregate(levels))
    ensures IsListed(Aggregate(levels), at) <==> IsQuotedAt(levels, at)
    ensures SizeIn(Aggregate(levels), at) == HeldAt(levels, at)
  {
    if levels != [] {
      var init, last := levels[..|levels| - 1], levels[|levels| - 1];
      AggregateCollects(init, at);
      assert levels == init + [last];
      TotalSnoc(SizeAt(at), init, last);
      assert forall x :: x in levels <==> x in init || x == last;
      if IsUsable(last) {
        AddToAscends(Aggregate(init), last.price.value, last.size.value);
        AddToAdds(Aggregate(init), last.price.value, last.size.value, at);
      }
    }
  }

  lemma AggregateIsAggregated(levels: seq<RawLevel>)
    ensures IsAggregated(levels, Aggregate(levels))
  {
    var book := Aggregate(levels);
    AggregateCollects(levels, 0.0);
    forall level | level in book
      ensures IsQuotedAt(levels, level.price) && level.size == HeldAt(levels, level.price)
    {
      AggregateCollects(levels, level.price);
      LevelHasItsSize(book, level);
    }
    forall price | IsQuotedAt(levels, price)
      ensures exists level :: level in book && level.price == price
    {
      AggregateCollects(levels, price);
    }
  }

  predicate SameLevels(a: seq<Level>, b: seq<Level>) {
    (forall level :: level in a ==> level in b) && (forall level :: level in b ==> level in a)
  }

  lemma AggregatedSame(levels: seq<RawLevel>, a: seq<Level>, b: seq<Level>)
    requires IsAggregated(levels, a) && IsAggregated(levels, b)
    ensures SameLevels(a, b)
  {
  }

  lemma AscendingDistinct(book: seq<Level>)
    requires Ascending(book)
    ensures NoDuplicates(book)
  {
  }

  lemma SameHead(a: seq<Level>, b: seq<Level>)
    requires a != [] && b != []
    requires Ascending(a) && Ascending(b) && multiset(a) == multiset(b)
    ensures a[0] == b[0]
  {
    assert a[0] in multiset(b) && b[0] in multiset(a);
  }

  /** An ascending book is known by its levels. */
  lemma {:induction false} AscendingUnique(a: seq<Level>, b: seq<Level>)
    requires Ascending(a) && Ascending(b) && multiset(a) == multiset(b)
    ensures a == b
  {
    assert |multiset(a)| == |a| && |multiset(b)| == |b|;
    if a != [] {
      SameHead(a, b);
      TailMultiset(a);
      TailMultiset(b);
      AscendingUnique(a[1..], b[1..]);
      assert a == [a[0]] + a[1..] && b == [b[0]] + b[1..];
    }
  }

  lemma AggregatedUnique(levels: seq<RawLevel>, book: seq<Level>)
    requires IsAggregated(levels, book)
    ensures book == Aggregate(levels)
  {
    AggregateIsAggregated(levels);
    AggregatedSame(levels, book, Aggregate(levels));
    AscendingDistinct(book);
    AscendingDistinct(Aggregate(levels));
    SameSetMultiset(book, Aggregate(levels));
    AscendingUnique(book, Aggregate(levels));
  }

  // ----- the cheapest part of a book

  /** Levels taken from the front until no more than the tolerance is left to take. */
  function Take(levels: seq<Level>, amount: real): seq<Level> {
    if levels == [] || amount <= TOLERANCE then []
    else
      var size := Min(levels[0].size, amount);
      [Level(levels[0].price, size)] + Take(levels[1..], amount - size)
  }

  predicate HasPositiveSizes(levels: seq<Level>) {
    forall level :: level in levels ==> level.size > 0.0
  }

  /** The front of the book, whole but for its last level. */
  predicate IsTrimmedPrefix(levels: seq<Level>, taken: seq<Level>) {
    && |taken| <= |levels|
    && (forall i :: 0 <= i < |taken| ==> taken[i].price == levels[i].price && 0.0 < taken[i].size <= levels[i].size)
    && (forall i :: 0 <= i < |taken| - 1 ==> taken[i] == levels[i])
  }

  lemma {:induction false} TakeIsPrefix(levels: seq<Level>, amount: real)
    requires HasPositiveSizes(levels)
    ensures IsTrimmedPrefix(levels, Take(levels, amount))
  {
    if levels != [] && amount > TOLERANCE {
      assert levels[0] in levels;
      TakeIsPrefix(levels[1..], amount - Min(levels[0].size, amount));
    }
  }

  lemma {:induction false} DepthNonNegative(levels: seq<Level>)
    requires HasPositiveSizes(levels)
    ensures Depth(levels) >= 0.0
    ensures levels != [] ==> Depth(levels) > 0.0
  {
    if levels != [] {
      assert levels[0] in levels;
      DepthNonNegative(levels[1..]);
    }
  }

  /** How much is taken: the amount or the whole book, up to the tolerance. */
  lemma {:induction false} TakenDepth(levels: seq<Level>, amount: real)
    requires HasPositiveSizes(levels) && amount >= 0.0
    ensures Min(amount - TOLERANCE, Depth(levels)) <= Depth(Take(levels, amount)) <= Min(amount, Depth(levels))
  {
    DepthNonNegative(levels);
    if levels != [] && amount > TOLERANCE {
      assert levels[0] in levels;
      TakenDepth(levels[1..], amount - Min(levels[0].size, amount));
    }
  }

  /** Some way of taking from the levels, one amount per level. */
  predicate IsAllocation(levels: seq<Level>, amounts: seq<real>) {
    |amounts| == |levels| && forall i :: 0 <= i < |amounts| ==> 0.0 <= amounts[i] <= levels[i].size
  }

  function Allocated(amounts: seq<real>): real {
    if amounts == [] then 0.0 else amounts[0] + Allocated(amounts[1..])
  }

  function Cost(levels: seq<Level>, amounts: seq<real>): real
    requires |levels| == |amounts|
  {
    if levels == [] then 0.0 else amounts[0] * levels[0].price + Cost(levels[1..], amounts[1..])
  }

  lemma {:induction false} AllocatedNonNegative(levels: seq<Level>, amounts: seq<real>)
    requires IsAllocation(levels, amounts)
    ensures Allocated(amounts) >= 0.0
  {
    if levels != [] {
      AllocatedNonNegative(levels[1..], amounts[1..]);
    }
  }

  /** The greedy walk as an allocation. */
  function Greedy(levels: seq<Level>, amount: real): (amounts: seq<real>)
    ensures |amounts| == |levels|
  {
    if levels == [] then []
    else
      var size := if amount <= TOLERANCE then 0.0 else Min(levels[0].size, amount);
      [size] + Greedy(levels[1..], if amount <= TOLERANCE then amount else amount - size)
  }

  lemma {:induction false} GreedyTakesNothing(levels: seq<Level>, amount: real)
    requires amount <= TOLERANCE
    ensures Allocated(Greedy(levels, amount)) == 0.0 && Cost(levels, Greedy(levels, amount)) == 0.0
    ensures forall i :: 0 <= i < |levels| ==> Greedy(levels, amount)[i] == 0.0
  {
    if levels != [] {
      GreedyTakesNothing(levels[1..], amount);
    }
  }

  lemma {:induction false} GreedyIsTake(levels: seq<Level>, amount: real)
    ensures Allocated(Greedy(levels, amount)) == Depth(Take(levels, amount))
    ensures Cost(levels, Greedy(levels, amount)) == Notional(Take(levels, amount))
  {
    if amount <= TOLERANCE {
      GreedyTakesNothing(levels, amount);
    } else if levels != [] {
      var rest := amount - Min(levels[0].size, amount);
      GreedyIsTake(levels[1..], rest);
      assert Take(levels, amount)[1..] == Take(levels[1..], rest);
      assert Greedy(levels, amount)[1..] == Greedy(levels[1..], rest);
    }
  }

  /** Wherever the amounts exceed the others the price is at least the pivot, and at most it
      wherever they fall short. */
  predicate Dearer(levels: seq<Level>, amounts: seq<real>, others: seq<real>, pivot: real)
    requires |levels| == |amounts| == |others|
  {
    && (forall i :: 0 <= i < |levels| && amounts[i] > others[i] ==> levels[i].price >= pivot)
    && (forall i :: 0 <= i < |levels| && amounts[i] < others[i] ==> levels[i].price <= pivot)
  }

  lemma DearerCons(levels: seq<Level>, amounts: seq<real>, others: seq<real>, pivot: real)
    requires levels != [] && |levels| == |amounts| == |others|
    requires amounts[0] > others[0] ==> levels[0].price >= pivot
    requires amounts[0] < others[0] ==> levels[0].price <= pivot
    requires Dearer(levels[1..], amounts[1..], others[1..], pivot)
    ensures Dearer(levels, amounts, others, pivot)
  {
    forall i | 0 <= i < |levels|
      ensures amounts[i] > others[i] ==> levels[i].price >= pivot
      ensures amounts[i] < others[i] ==> levels[i].price <= pivot
    {
      if i > 0 {
        assert levels[1..][i - 1] == levels[i] && amounts[1..][i - 1] == amounts[i] && others[1..][i - 1] == others[i];
      }
    }
  }

  predicate PricedFrom(levels: seq<Level>, floor: real) {
    forall i :: 0 <= i < |levels| ==> levels[i].price >= floor
  }

  /** Beside a walk that takes nothing, any allocation is dearer. */
  lemma NothingIsCheaper(levels: seq<Level>, amount: real, amounts: seq<real>, floor: real)
    requires IsAllocation(levels, amounts) && PricedFrom(levels, floor) && (levels == [] || amount <= TOLERANCE)
    ensures Dearer(levels, amounts, Greedy(levels, amount), floor)
  {
    if levels != [] {
      GreedyTakesNothing(levels, amount);
    }
  }

  /** Some price of the book separates what the greedy walk took whole from what it left. */
  lemma {:induction false} GreedyPivot(levels: seq<Level>, amount: real, amounts: seq<real>, floor: real)
    returns (pivot: real)
    requires Ascending(levels) && IsAllocation(levels, amounts) && PricedFrom(levels, floor)
    ensures pivot >= floor && Dearer(levels, amounts, Greedy(levels, amount), pivot)
  {
    if levels == [] || amount <= TOLERANCE {
      pivot := floor;
      NothingIsCheaper(levels, amount, amounts, floor);
    } else {
      var p, rest := levels[0].price, amount - Min(levels[0].size, amount);
      assert PricedFrom(levels[1..], p);
      assert Greedy(levels, amount)[1..] == Greedy(levels[1..], rest);
      if amount < levels[0].size {
        pivot := p;
        NothingIsCheaper(levels[1..], rest, amounts[1..], p);
      } else {
        pivot := GreedyPivot(levels[1..], rest, amounts[1..], p);
      }
      DearerCons(levels, amounts, Greedy(levels, amount), pivot);
    }
  }

  /** a costs no less than b would, priced at pivot throughout. */
  predicate PaysFor(a: real, b: real, pivot: real, excess: real) {
    a - b >= pivot * excess
  }

  lemma PayStep(p: real, pivot: real, a: real, b: real, costA: real, costB: real, excess: real,
                newA: real, newB: real, newExcess: real)
    requires (a > b ==> p >= pivot) && (a < b ==> p <= pivot)
    requires newA == a * p + costA && newB == b * p + costB && newExcess == excess + (a - b)
    requires PaysFor(costA, costB, pivot, excess)
    ensures PaysFor(newA, newB, pivot, newExcess)
  {
    assert (p - pivot) * (a - b) >= 0.0;
    assert pivot * newExcess == pivot * excess + pivot * (a - b);
  }

  lemma {:induction false} DearerCostsMore(levels: seq<Level>, amounts: seq<real>, others: seq<real>, pivot: real)
    requires |levels| == |amounts| == |others| && Dearer(levels, amounts, others, pivot)
    ensures PaysFor(Cost(levels, amounts), Cost(levels, others), pivot, Allocated(amounts) - Allocated(others))
  {
    if levels != [] {
      DearerCostsMore(levels[1..], amounts[1..], others[1..], pivot);
      PayStep(levels[0].price, pivot, amounts[0], others[0],
              Cost(levels[1..], amounts[1..]), Cost(levels[1..], others[1..]),
              Allocated(amounts[1..]) - Allocated(others[1..]), Cost(levels, amounts), Cost(levels, others),
              Allocated(amounts) - Allocated(others));
    }
  }

  lemma NoExcessNoGain(a: real, b: real, pivot: real, excess: real)
    requires PaysFor(a, b, pivot, excess) && pivot >= 0.0 && excess >= 0.0
    ensures a >= b
  {
  }

  /** The greedy walk is optimal: no allocation of at least as much from the same levels costs less. */
  lemma GreedyIsCheapest(levels: seq<Level>, amount: real, amounts: seq<real>)
    requires Ascending(levels) && PricedFrom(levels, 0.0)
    requires IsAllocation(levels, amounts) && Allocated(amounts) >= Depth(Take(levels, amount))
    ensures Cost(levels, amounts) >= Notional(Take(levels, amount))
  {
    var greedy := Greedy(levels, amount);
    GreedyIsTake(levels, amount);
    var pivot := GreedyPivot(levels, amount, amounts, 0.0);
    DearerCostsMore(levels, amounts, greedy, pivot);
    NoExcessNoGain(Cost(levels, amounts), Cost(levels, greedy), pivot, Allocated(amounts) - Allocated(greedy));
  }

  // ----- prepareBook

  datatype BookInput = BookInput(
    levels: seq<RawLevel>, maxPrice: Option<Numeric>, depthSafetyFactor: Option<Numeric>,
    depthHeadroom: Option<Numeric>)

  datatype PreparedBook = PreparedBook(displayedDepth: real, executableDepth: real, levels: seq<Level>)

  predicate IsWithinPrice(input: BookInput, price: real) {
    match input.maxPrice
    case None => true
    case Some(NotReal) => price <= TOLERANCE
    case Some(Real(most)) => price <= most + TOLERANCE
  }

  function SafetyFactor(input: BookInput): (r: real)
    ensures 0.0 <= r <= 1.0
  {
    match input.depthSafetyFactor
    case None => 1.0
    case Some(NotReal) => 0.0
    case Some(Real(factor)) => Min(1.0, Max(0.0, factor))
  }

  function Headroom(input: BookInput, depth: real): real {
    match input.depthHeadroom
    case None => 0.0
    case Some(NotReal) => depth
    case Some(Real(headroom)) => Max(0.0, headroom)
  }

  function WithinPrice(input: BookInput): Level -> bool {
    (level: Level) => IsWithinPrice(input, level.price)
  }

  function Scaled(factor: real): Level -> Level {
    (level: Level) => Level(level.price, level.size * factor)
  }

  predicate IsSizeable(level: Level) {
    level.size > TOLERANCE
  }

  /** The levels within the price limit, scaled by the safety factor. */
  function Adjust(input: BookInput, book: seq<Level>): seq<Level> {
    Filter(IsSizeable, Map(Scaled(SafetyFactor(input)), Filter(WithinPrice(input), book)))
  }

  function AdjustedLevels(input: BookInput): seq<Level> {
    Adjust(input, Aggregate(input.levels))
  }

  function Budget(input: BookInput, depth: real): real {
    Max(0.0, depth - Headroom(input, depth))
  }

  function ExecutableBudget(input: BookInput): real {
    Budget(input, Depth(AdjustedLevels(input)))
  }

  function Prepared(input: BookInput): PreparedBook {
    var levels := Take(AdjustedLevels(input), ExecutableBudget(input));
    PreparedBook(Depth(Aggregate(input.levels)), Depth(levels), levels)
  }

  lemma HeldNothing(levels: seq<RawLevel>, price: real)
    requires !IsQuotedAt(levels, price)
    ensures HeldAt(levels, price) == 0.0
  {
    var none := (level: RawLevel) => 0.0;
    TotalMonotone(SizeAt(price), none, levels);
    TotalMonotone(none, SizeAt(price), levels);
    TotalNone(levels);
  }

  lemma {:induction false} TotalNone(levels: seq<RawLevel>)
    ensures Total((level: RawLevel) => 0.0, levels) == 0.0
  {
    if levels != [] {
      TotalNone(levels[1..]);
    }
  }

  /** The Map of the source: what is held at each price, with the prices in order of appearance. */
  method CollectByPrice(levels: seq<RawLevel>) returns (prices: seq<real>, sizes: map<real, real>)
    ensures NoDuplicates(prices)
    ensures forall p :: p in prices <==> IsQuotedAt(levels, p)
    ensures forall p :: p in prices <==> p in sizes
    ensures forall p :: p in sizes ==> sizes[p] == HeldAt(levels, p)
  {
    prices, sizes := [], map[];
    var i := 0;
    while i < |levels|
      invariant 0 <= i <= |levels|
      invariant NoDuplicates(prices)
      invariant forall p :: p in prices <==> IsQuotedAt(levels[..i], p)
      invariant forall p :: p in prices <==> p in sizes
      invariant forall p :: p in sizes ==> sizes[p] == HeldAt(levels[..i], p)
    {
      var level := levels[i];
      assert levels[..i + 1] == levels[..i] + [level];
      forall p
        ensures HeldAt(levels[..i + 1], p) == HeldAt(levels[..i], p) + SizeAt(p)(level)
      {
        TotalSnoc(SizeAt(p), levels[..i], level);
      }
      if IsUsable(level) {
        var price := level.price.value;
        if price in sizes {
          sizes := sizes[price := sizes[price] + level.size.value];
        } else {
          HeldNothing(levels[..i], price);
          prices := prices + [price];
          sizes := sizes[price := level.size.value];
        }
      }
      i := i + 1;
    }
    assert levels[..i] == levels;
  }

  function PriceLeq(): (Level, Level) -> bool {
    (a: Level, b: Level) => a.price <= b.price
  }

  lemma SortedAscends(book: seq<Level>)
    requires Sorted(PriceLeq(), book) && NoDuplicates(Map(PriceOf, book))
    ensures Ascending(book)
  {
    forall i, j | 0 <= i < j < |book|
      ensures book[i].price < book[j].price
    {
      SortedAt(PriceLeq(), book, i, j);
      assert Map(PriceOf, book)[i] != Map(PriceOf, book)[j];
    }
  }

  function Lookup(sizes: map<real, real>): real -> Level {
    (price: real) => Level(price, if price in sizes then sizes[price] else 0.0)
  }

  /** Sorting the collected entries by price aggregates the levels. */
  lemma SortedEntries(levels: seq<RawLevel>, prices: seq<real>, sizes: map<real, real>)
    requires NoDuplicates(prices)
    requires forall p :: p in prices <==> IsQuotedAt(levels, p)
    requires forall p :: p in prices <==> p in sizes
    requires forall p :: p in sizes ==> sizes[p] == HeldAt(levels, p)
    ensures SortBy(PriceLeq(), Map(Lookup(sizes), prices)) == Aggregate(levels)
  {
    var entries := Map(Lookup(sizes), prices);
    var book := SortBy(PriceLeq(), entries);
    SortBySorted(PriceLeq(), entries);
    assert Map(PriceOf, entries) == prices;
    MapPermutation(PriceOf, book, entries);
    NoDuplicatesPermutation(Map(PriceOf, book), prices);
    SortedAscends(book);
    SameElements(book, entries);
    forall level | level in book
      ensures IsQuotedAt(levels, level.price) && level.size == HeldAt(levels, level.price)
    {
      var k :| 0 <= k < |entries| && entries[k] == level;
      assert prices[k] in prices;
    }
    forall price | IsQuotedAt(levels, price)
      ensures exists level :: level in book && level.price == price
    {
      var k :| 0 <= k < |prices| && prices[k] == price;
      assert entries[k] in book;
    }
    AggregatedUnique(levels, book);
  }

  /** The loop that fills the executable levels. */
  method TakeLevels(levels: seq<Level>, amount: real) returns (taken: seq<Level>)
    ensures taken == Take(levels, amount)
  {
    taken := [];
    var remaining := amount;
    var i := 0;
    while i < |levels| && remaining > TOLERANCE
      invariant 0 <= i <= |levels|
      invariant taken + Take(levels[i..], remaining) == Take(levels, amount)
    {
      var size := Min(levels[i].size, remaining);
      assert levels[i..][1..] == levels[i + 1..];
      taken := taken + [Level(levels[i].price, size)];
      remaining := remaining - size;
      i := i + 1;
    }
  }

  /** The loop that merges the levels, and the sort after it. */
  method AggregateLevels(levels: seq<RawLevel>) returns (book: seq<Level>)
    ensures book == Aggregate(levels)
  {
    var prices, sizes := CollectByPrice(levels);
    SortedEntries(levels, prices, sizes);
    book := SortBy(PriceLeq(), Map(Lookup(sizes), prices));
  }

  method PrepareBook(input: BookInput) returns (book: PreparedBook)
    ensures book == Prepared(input)
  {
    var normalized := AggregateLevels(input.levels);
    var adjusted := Adjust(input, normalized);
    var executable := TakeLevels(adjusted, Budget(input, Depth(adjusted)));
    return PreparedBook(Depth(normalized), Depth(executable), executable);
  }

  // ----- what a prepared book is

  lemma {:induction false} FilterAscends(keep: Level -> bool, book: seq<Level>)
    requires Ascending(book)
    ensures Ascending(Filter(keep, book))
  {
    if book != [] {
      FilterAscends(keep, book[1..]);
      var rest := Filter(keep, book[1..]);
      if keep(book[0]) {
        forall i | 0 <= i < |rest|
          ensures book[0].price < rest[i].price
        {
          assert rest[i] in rest;
        }
        assert Filter(keep, book) == [book[0]] + rest;
      }
    }
  }

  lemma AdjustedIsSound(input: BookInput)
    ensures Ascending(AdjustedLevels(input)) && HasPositiveSizes(AdjustedLevels(input))
    ensures forall level :: level in AdjustedLevels(input) ==>
                              0.0 < level.price < 1.0 && IsWithinPrice(input, level.price)
  {
    var book := Aggregate(input.levels);
    AggregateIsAggregated(input.levels);
    var within := Filter(WithinPrice(input), book);
    FilterAscends(WithinPrice(input), book);
    var scaled := Map(Scaled(SafetyFactor(input)), within);
    assert Ascending(scaled);
    FilterAscends(IsSizeable, scaled);
    forall level | level in AdjustedLevels(input)
      ensures 0.0 < level.price < 1.0 && IsWithinPrice(input, level.price)
    {
      var k :| 0 <= k < |scaled| && scaled[k] == level;
      assert within[k] in within;
    }
  }

  lemma AdjustedDepth(input: BookInput)
    ensures 0.0 <= ExecutableBudget(input) <= Depth(AdjustedLevels(input))
  {
    AdjustedIsSound(input);
    DepthNonNegative(AdjustedLevels(input));
  }

  /** A prepared book runs strictly upwards in price; it is the front of the adjusted book, whole
      but for its last level, as deep as the headroom allows up to the tolerance, and nothing as
      deep can be bought from the adjusted book for less. */
  lemma PreparedIsCheapest(input: BookInput)
    ensures Ascending(Prepared(input).levels)
    ensures IsTrimmedPrefix(AdjustedLevels(input), Prepared(input).levels)
    ensures ExecutableBudget(input) - TOLERANCE <= Prepared(input).executableDepth <= ExecutableBudget(input)
    ensures forall amounts :: IsAllocation(AdjustedLevels(input), amounts)
                              && Allocated(amounts) >= Prepared(input).executableDepth
                              ==> Cost(AdjustedLevels(input), amounts) >= Notional(Prepared(input).levels)
  {
    var adjusted := AdjustedLevels(input);
    AdjustedIsSound(input);
    AdjustedDepth(input);
    TakeIsPrefix(adjusted, ExecutableBudget(input));
    TakenDepth(adjusted, ExecutableBudget(input));
    forall amounts | IsAllocation(adjusted, amounts) && Allocated(amounts) >= Prepared(input).executableDepth
      ensures Cost(adjusted, amounts) >= Notional(Prepared(input).levels)
    {
      assert PricedFrom(adjusted, 0.0) by {
        assert forall i :: 0 <= i < |adjusted| ==> adjusted[i] in adjusted;
      }
      GreedyIsCheapest(adjusted, ExecutableBudget(input), amounts);
    }
  }
}
