/** The Kalshi order book of the realtime feed: snapshots, numbered deltas, and the venue's own book
    that it must follow. */
module KalshiBook {
  import opened Prelude
  import opened RealSums

  /** Sizes by the text of their price. */
  type Levels = map<Text, real>

  datatype LevelSide = YesSide | NoSide
  datatype Sides = Sides(yes: Levels, no: Levels)
  datatype Book = Book(sides: Sides, number: Option<int>)

  function SideOf(sides: Sides, side: LevelSide): Levels {
    if side.YesSide? then sides.yes else sides.no
  }

  function WithSide(sides: Sides, side: LevelSide, levels: Levels): Sides {
    if side.YesSide? then sides.(yes := levels) else sides.(no := levels)
  }

  function SizeAt(levels: Levels, price: Text): real {
    if price in levels then levels[price] else 0.0
  }

  function WithSize(levels: Levels, price: Text, size: real): Levels {
    if size <= 0.0 then levels - {price} else levels[price := size]
  }

  // ----- messages

  datatype RawLevel = RawLevel(price: Text, priceIsNumber: bool, size: Numeric)

  /** A place in a snapshot message where levels may be found, with the sequence number found there. */
  datatype Candidate = Candidate(levels: Option<(seq<RawLevel>, seq<RawLevel>)>, number: Option<int>)

  datatype Message =
    | Snapshot(
        envelopeNumber: Option<int>, orderbookFp: Option<Candidate>, orderbook: Option<Candidate>, direct: Candidate)
    | Delta(number: Option<int>, side: Option<LevelSide>, price: Option<Text>, delta: Option<real>)
    | Closed

  /** A level that a snapshot sets. */
  predicate IsLevel(level: RawLevel) {
    level.priceIsNumber && level.size.Real? && level.size.value > 0.0
  }

  /** replaceLevelMap after normalizeWsLevelPairs: the last positive size of each price. */
  function LevelMap(levels: seq<RawLevel>): Levels {
    if levels == [] then map[]
    else
      var last, rest := levels[|levels| - 1], LevelMap(levels[..|levels| - 1]);
      if IsLevel(last) then rest[last.price := last.size.value] else rest
  }

  function HasLevels(candidate: Option<Candidate>): bool {
    candidate.Some? && candidate.value.levels.Some?
  }

  /** normalizeKalshiWsOrderbook: the first place with levels; only the outermost one has the
      envelope's sequence number. */
  function ChosenCandidate(m: Message): Option<Candidate>
    requires m.Snapshot?
  {
    if HasLevels(m.orderbookFp) then m.orderbookFp
    else if HasLevels(m.orderbook) then m.orderbook
    else if m.direct.levels.Some? then
      Some(if m.envelopeNumber.Some? then m.direct.(number := m.envelopeNumber) else m.direct)
    else None
  }

  // ----- the feed as a state machine

  datatype Feed = Feed(book: Option<Book>, ready: bool, inSync: bool)

  function BookOf(c: Candidate): Book
    requires c.levels.Some?
  {
    Book(Sides(LevelMap(c.levels.value.0), LevelMap(c.levels.value.1)), c.number)
  }

  function ApplySnapshot(f: Feed, m: Message): Feed
    requires m.Snapshot?
  {
    match ChosenCandidate(m)
    case None => f
    case Some(c) => Feed(Some(BookOf(c)), true, true)
  }

  predicate IsGap(book: Book, number: Option<int>) {
    number.Some? && book.number.Some? && number.value != book.number.value + 1
  }

  predicate IsWellFormed(m: Message)
    requires m.Delta?
  {
    m.side.Some? && m.price.Some? && m.delta.Some?
  }

  /** Whether applyKalshiDelta applies the delta. */
  predicate Accepts(f: Feed, m: Message)
    requires m.Delta?
  {
    f.book.Some? && f.ready && !IsGap(f.book.value, m.number) && IsWellFormed(m)
  }

  /** applyKalshiDeltaLevel */
  function AddToLevel(levels: Levels, price: Text, delta: real): Levels {
    WithSize(levels, price, Round4(SizeAt(levels, price) + delta))
  }

  function AddToBook(book: Book, m: Message): Book
    requires m.Delta? && IsWellFormed(m)
  {
    var levels := AddToLevel(SideOf(book.sides, m.side.value), m.price.value, m.delta.value);
    Book(WithSide(book.sides, m.side.value, levels), if m.number.Some? then m.number else book.number)
  }

  function ApplyDelta(f: Feed, m: Message): Feed
    requires m.Delta?
  {
    if Accepts(f, m) then f.(book := Some(AddToBook(f.book.value, m)), inSync := true) else f.(inSync := false)
  }

  function Apply(f: Feed, m: Message): Feed {
    match m
    case Snapshot(_, _, _, _) => ApplySnapshot(f, m)
    case Delta(_, _, _, _) => ApplyDelta(f, m)
    case Closed => f.(ready := false)
  }

  const EMPTY := Feed(None, false, true)

  function Run(messages: seq<Message>): Feed {
    if messages == [] then EMPTY else Apply(Run(messages[..|messages| - 1]), messages[|messages| - 1])
  }

  // ----- stored sizes are positive

  predicate IsPositive(levels: Levels) {
    forall p :: p in levels ==> levels[p] > 0.0
  }

  predicate HasPositiveSizes(f: Feed) {
    f.book.Some? ==> IsPositive(f.book.value.sides.yes) && IsPositive(f.book.value.sides.no)
  }

  lemma {:induction false} LevelMapPositive(levels: seq<RawLevel>)
    ensures IsPositive(LevelMap(levels))
  {
    if levels != [] {
      LevelMapPositive(levels[..|levels| - 1]);
    }
  }

  /** Whatever the messages: every stored size is above zero. */
  lemma {:induction false} SizesStayPositive(messages: seq<Message>)
    ensures HasPositiveSizes(Run(messages))
  {
    if messages != [] {
      var m := messages[|messages| - 1];
      SizesStayPositive(messages[..|messages| - 1]);
      if m.Snapshot? && ChosenCandidate(m).Some? {
        LevelMapPositive(ChosenCandidate(m).value.levels.value.0);
        LevelMapPositive(ChosenCandidate(m).value.levels.value.1);
      }
    }
  }

  // ----- the deltas since the last snapshot

  /** A run that remembers the last snapshot's book and the deltas applied to it. */
  datatype Trace = Trace(feed: Feed, base: Option<Book>, applied: seq<Message>)

  function TraceStep(t: Trace, m: Message): Trace {
    var next := Apply(t.feed, m);
    if m.Snapshot? && ChosenCandidate(m).Some? then Trace(next, next.book, [])
    else if m.Delta? && Accepts(t.feed, m) then Trace(next, t.base, t.applied + [m])
    else Trace(next, t.base, t.applied)
  }

  function TraceOf(messages: seq<Message>): Trace {
    if messages == [] then Trace(EMPTY, None, [])
    else TraceStep(TraceOf(messages[..|messages| - 1]), messages[|messages| - 1])
  }

  function AddAll(book: Book, deltas: seq<Message>): Book
    requires forall m :: m in deltas ==> m.Delta? && IsWellFormed(m)
  {
    if deltas == [] then book else AddToBook(AddAll(book, deltas[..|deltas| - 1]), deltas[|deltas| - 1])
  }

  /** The message has its sequence number where the feed looks for it. */
  predicate IsNumbered(m: Message) {
    match m
    case Snapshot(_, _, _, _) => ChosenCandidate(m).Some? ==> ChosenCandidate(m).value.number.Some?
    case Delta(number, _, _, _) => number.Some?
    case Closed => true
  }

  predicate AllNumbered(messages: seq<Message>) {
    forall m :: m in messages ==> IsNumbered(m)
  }

  /** The book is the last snapshot's with the deltas numbered from the next one on, none left out,
      none twice, in order. */
  predicate IsUnbroken(t: Trace) {
    && (t.feed.book.Some? <==> t.base.Some?)
    && (t.base.None? ==> t.applied == [])
    && (forall m :: m in t.applied ==> m.Delta? && IsWellFormed(m))
    && (t.base.Some? ==>
          && t.base.value.number.Some?
          && t.feed.book == Some(AddAll(t.base.value, t.applied))
          && t.feed.book.value.number == Some(t.base.value.number.value + |t.applied|)
          && (forall i :: 0 <= i < |t.applied| ==> t.applied[i].number == Some(t.base.value.number.value + 1 + i)))
  }

  lemma TraceStepUnbroken(t: Trace, m: Message)
    requires IsUnbroken(t) && IsNumbered(m)
    ensures IsUnbroken(TraceStep(t, m))
  {
    if m.Delta? && Accepts(t.feed, m) {
      assert (t.applied + [m])[..|t.applied|] == t.applied;
    }
  }

  lemma {:induction false} DeltasAreUnbroken(messages: seq<Message>)
    requires AllNumbered(messages)
    ensures IsUnbroken(TraceOf(messages)) && TraceOf(messages).feed == Run(messages)
  {
    if messages != [] {
      var init, m := messages[..|messages| - 1], messages[|messages| - 1];
      DeltasAreUnbroken(init);
      TraceStepUnbroken(TraceOf(init), m);
    }
  }

  // ----- the venue's book

  datatype Change = Change(side: LevelSide, price: Text, delta: real)

  /** The venue: a book, and its changes numbered from one. */
  datatype Exchange = Exchange(start: Sides, changes: seq<Change>)

  function ChangedSize(sides: Sides, c: Change): real {
    SizeAt(SideOf(sides, c.side), c.price) + c.delta
  }

  /** The venue adds exactly; a level with nothing left is gone. */
  function Changed(sides: Sides, c: Change): Sides {
    WithSide(sides, c.side, WithSize(SideOf(sides, c.side), c.price, ChangedSize(sides, c)))
  }

  function VenueBook(venue: Exchange, n: nat): Sides
    requires n <= |venue.changes|
  {
    if n == 0 then venue.start else Changed(VenueBook(venue, n - 1), venue.changes[n - 1])
  }

  /** Sizes are whole multiples of 1e-4. */
  predicate IsOnGrid(size: real) {
    Round4(size) == size
  }

  /** The size that change n + 1 leaves is nothing or on the grid. */
  predicate ChangeIsOnGrid(venue: Exchange, n: nat)
    requires n < |venue.changes|
  {
    var size := ChangedSize(VenueBook(venue, n), venue.changes[n]);
    size <= 0.0 || IsOnGrid(size)
  }

  predicate VenueIsOnGrid(venue: Exchange) {
    forall n :: 0 <= n < |venue.changes| ==> ChangeIsOnGrid(venue, n)
  }

  /** A list that names each level of a book, and no other; it may also hold entries that count for
      nothing. */
  ghost predicate Lists(levels: seq<RawLevel>, book: Levels) {
    && (forall l :: l in levels && IsLevel(l) ==> l.price in book && book[l.price] == l.size.value)
    && (forall p :: p in book ==> exists l :: l in levels && IsLevel(l) && l.price == p)
  }

  /** What the venue sends: its book under its number, or one of its changes under that one's. The
      network may lose, repeat and reorder messages, and garble deltas. */
  ghost predicate IsGenuine(venue: Exchange, m: Message) {
    match m
    case Snapshot(_, _, _, _) =>
      ChosenCandidate(m).Some? ==>
        var c := ChosenCandidate(m).value;
        && c.number.Some? && 0 <= c.number.value <= |venue.changes|
        && Lists(c.levels.value.0, VenueBook(venue, c.number.value).yes)
        && Lists(c.levels.value.1, VenueBook(venue, c.number.value).no)
    case Delta(number, side, price, delta) =>
      IsWellFormed(m) ==>
        && number.Some? && 1 <= number.value <= |venue.changes|
        && venue.changes[number.value - 1] == Change(side.value, price.value, delta.value)
    case Closed => true
  }

  /** The book of a ready feed is the venue's as of the local number. */
  predicate Tracks(venue: Exchange, f: Feed) {
    f.ready ==>
      && f.book.Some?
      && var book := f.book.value;
      && book.number.Some? && 0 <= book.number.value <= |venue.changes|
      && book.sides == VenueBook(venue, book.number.value)
  }

  lemma {:induction false} ListedSize(levels: seq<RawLevel>, book: Levels, p: Text)
    requires forall l :: l in levels && IsLevel(l) ==> l.price in book && book[l.price] == l.size.value
    ensures p in LevelMap(levels) <==> exists l :: l in levels && IsLevel(l) && l.price == p
    ensures p in LevelMap(levels) ==> p in book && LevelMap(levels)[p] == book[p]
  {
    if levels != [] {
      var init, last := levels[..|levels| - 1], levels[|levels| - 1];
      assert levels == init + [last];
      assert forall l :: l in levels <==> l in init || l == last;
      ListedSize(init, book, p);
      if IsLevel(last) && last.price == p {
        assert last in levels;
      }
    }
  }

  lemma ListedBook(levels: seq<RawLevel>, book: Levels)
    requires Lists(levels, book)
    ensures LevelMap(levels) == book
  {
    forall p
      ensures p in LevelMap(levels) <==> p in book
      ensures p in book ==> LevelMap(levels)[p] == book[p]
    {
      ListedSize(levels, book, p);
    }
  }

  /** One delta: the local book follows the venue's exactly when the new size is on the grid. */
  lemma DeltaTracksIff(venue: Exchange, f: Feed, m: Message)
    requires m.Delta? && Accepts(f, m) && m.number.Some?
    requires Tracks(venue, f) && IsGenuine(venue, m) && m.number.value == f.book.value.number.value + 1
    ensures Tracks(venue, ApplyDelta(f, m)) <==> ChangeIsOnGrid(venue, f.book.value.number.value)
  {
    var n := f.book.value.number.value;
    var sides, c := VenueBook(venue, n), venue.changes[n];
    LevelAgreesIff(SideOf(sides, c.side), c.price, ChangedSize(sides, c));
    SidesDiffer(sides, c.side, WithSize(SideOf(sides, c.side), c.price, Round4(ChangedSize(sides, c))),
                WithSize(SideOf(sides, c.side), c.price, ChangedSize(sides, c)));
  }

  lemma SidesDiffer(sides: Sides, side: LevelSide, a: Levels, b: Levels)
    ensures WithSide(sides, side, a) == WithSide(sides, side, b) <==> a == b
  {
  }

  lemma LevelAgreesIff(levels: Levels, price: Text, size: real)
    ensures WithSize(levels, price, Round4(size)) == WithSize(levels, price, size) <==> size <= 0.0 || IsOnGrid(size)
  {
    var local, exact := WithSize(levels, price, Round4(size)), WithSize(levels, price, size);
    if size > 0.0 && !IsOnGrid(size) {
      assert price in exact && exact[price] == size;
      assert price in local ==> local[price] == Round4(size);
    }
  }

  lemma SnapshotTracks(venue: Exchange, f: Feed, m: Message)
    requires m.Snapshot? && ChosenCandidate(m).Some? && IsGenuine(venue, m)
    ensures Tracks(venue, Apply(f, m))
  {
    var c := ChosenCandidate(m).value;
    ListedBook(c.levels.value.0, VenueBook(venue, c.number.value).yes);
    ListedBook(c.levels.value.1, VenueBook(venue, c.number.value).no);
  }

  lemma StepTracks(venue: Exchange, f: Feed, m: Message)
    requires VenueIsOnGrid(venue) && Tracks(venue, f) && IsGenuine(venue, m)
    ensures Tracks(venue, Apply(f, m))
  {
    match m
    case Snapshot(_, _, _, _) =>
      if ChosenCandidate(m).Some? {
        SnapshotTracks(venue, f, m);
      }
    case Delta(_, _, _, _) =>
      if Accepts(f, m) {
        DeltaTracksIff(venue, f, m);
      }
    case Closed =>
  }

  // ----- runs over many sessions

  /** The session that follows these messages: a closed socket ends one. */
  function SessionAfter(messages: seq<Message>): nat {
    if messages == [] then 0
    else SessionAfter(messages[..|messages| - 1]) + if messages[|messages| - 1].Closed? then 1 else 0
  }

  /** Each message is what the venue sends in the session it arrives in. Every session has its own
      book and its own numbering. */
  ghost predicate AllGenuine(venues: nat -> Exchange, messages: seq<Message>) {
    messages == [] ||
    (var init := messages[..|messages| - 1];
     AllGenuine(venues, init) && IsGenuine(venues(SessionAfter(init)), messages[|messages| - 1]))
  }

  ghost predicate RunTracksVenue(venues: nat -> Exchange, messages: seq<Message>) {
    Tracks(venues(SessionAfter(messages)), Run(messages))
  }

  /** Over every run of genuine messages, however they are lost, repeated or reordered, a ready feed
      has the book of the current session's venue as of the local number. */
  lemma {:induction false} RunTracks(venues: nat -> Exchange, messages: seq<Message>)
    requires (forall k :: VenueIsOnGrid(venues(k))) && AllGenuine(venues, messages)
    ensures RunTracksVenue(venues, messages)
  {
    if messages != [] {
      var init, m := messages[..|messages| - 1], messages[|messages| - 1];
      RunTracks(venues, init);
      StepTracks(venues(SessionAfter(init)), Run(init), m);
    }
  }

  /** A venue starts from a book: a level with nothing left is not in it. */
  predicate StartsPositive(venue: Exchange) {
    IsPositive(venue.start.yes) && IsPositive(venue.start.no)
  }

  lemma {:induction false} VenueStaysPositive(venue: Exchange, n: nat)
    requires n <= |venue.changes| && StartsPositive(venue)
    ensures IsPositive(VenueBook(venue, n).yes) && IsPositive(VenueBook(venue, n).no)
  {
    if n > 0 {
      VenueStaysPositive(venue, n - 1);
    }
  }

  /** Every book can be sent. */
  lemma {:induction false} ListingOf(book: Levels) returns (levels: seq<RawLevel>)
    requires IsPositive(book)
    ensures Lists(levels, book)
    decreases |book|
  {
    if book == map[] {
      levels := [];
    } else {
      var p :| p in book;
      assert book.Keys == (book - {p}).Keys + {p};
      var others := ListingOf(book - {p});
      var level := RawLevel(p, true, Real(book[p]));
      levels := others + [level];
      AddsLevel(others, book, level);
    }
  }

  lemma AddsLevel(others: seq<RawLevel>, book: Levels, level: RawLevel)
    requires level.price in book && IsLevel(level) && book[level.price] == level.size.value
    requires Lists(others, book - {level.price})
    ensures Lists(others + [level], book)
  {
    var levels := others + [level];
    forall l | l in levels && IsLevel(l)
      ensures l.price in book && book[l.price] == l.size.value
    {
      assert l in others || l == level;
    }
    forall p | p in book
      ensures exists l :: l in levels && IsLevel(l) && l.price == p
    {
      if p == level.price {
        assert levels[|others|] == level;
      } else {
        assert p in book - {level.price};
        var l :| l in others && IsLevel(l) && l.price == p;
        assert l in levels;
      }
    }
  }

  function Closes(k: nat): seq<Message> {
    if k == 0 then [] else Closes(k - 1) + [Closed]
  }

  lemma Append(venues: nat -> Exchange, messages: seq<Message>, m: Message)
    requires AllGenuine(venues, messages) && IsGenuine(venues(SessionAfter(messages)), m)
    ensures AllGenuine(venues, messages + [m]) && Run(messages + [m]) == Apply(Run(messages), m)
    ensures SessionAfter(messages + [m]) == SessionAfter(messages) + if m.Closed? then 1 else 0
  {
    assert (messages + [m])[..|messages|] == messages;
  }

  lemma {:induction false} ClosesLead(venues: nat -> Exchange, k: nat)
    ensures AllGenuine(venues, Closes(k)) && SessionAfter(Closes(k)) == k
  {
    if k > 0 {
      ClosesLead(venues, k - 1);
      Append(venues, Closes(k - 1), Closed);
    }
  }

  /** What the venue sends as its change n + 1. */
  function DeltaOf(venue: Exchange, n: nat): Message
    requires n < |venue.changes|
  {
    var c := venue.changes[n];
    Delta(Some(n + 1), Some(c.side), Some(c.price), Some(c.delta))
  }

  /** The venue's book under its number can always be sent. */
  lemma SnapshotOf(venue: Exchange, n: nat) returns (m: Message)
    requires n <= |venue.changes| && StartsPositive(venue)
    ensures m.Snapshot? && IsGenuine(venue, m)
    ensures ChosenCandidate(m).Some? && ChosenCandidate(m).value.number == Some(n)
  {
    VenueStaysPositive(venue, n);
    var yes := ListingOf(VenueBook(venue, n).yes);
    var no := ListingOf(VenueBook(venue, n).no);
    m := Snapshot(None, None, None, Candidate(Some((yes, no)), Some(n)));
  }

  /** A change off the grid, the snapshot before it, and the sessions before that. */
  lemma Diverges(venues: nat -> Exchange, k: nat, n: nat) returns (messages: seq<Message>)
    requires n < |venues(k).changes| && StartsPositive(venues(k)) && !ChangeIsOnGrid(venues(k), n)
    ensures AllGenuine(venues, messages) && !RunTracksVenue(venues, messages)
  {
    var venue := venues(k);
    ClosesLead(venues, k);
    var snapshot := SnapshotOf(venue, n);
    var delta := DeltaOf(venue, n);
    Append(venues, Closes(k), snapshot);
    var before := Closes(k) + [snapshot];
    SnapshotTracks(venue, Run(Closes(k)), snapshot);
    Append(venues, before, delta);
    DeltaTracksIff(venue, Run(before), delta);
    messages := before + [delta];
  }

  /** The local book follows the venue on every run exactly when each change of each session leaves
      nothing or a multiple of 1e-4. */
  lemma RunsTrackIff(venues: nat -> Exchange)
    requires forall k :: StartsPositive(venues(k))
    ensures (forall messages :: AllGenuine(venues, messages) ==> RunTracksVenue(venues, messages))
       <==> (forall k :: VenueIsOnGrid(venues(k)))
  {
    if k :| !VenueIsOnGrid(venues(k)) {
      var n :| 0 <= n < |venues(k).changes| && !ChangeIsOnGrid(venues(k), n);
      var messages := Diverges(venues, k, n);
    } else {
      forall messages | AllGenuine(venues, messages)
        ensures RunTracksVenue(venues, messages)
      {
        RunTracks(venues, messages);
      }
    }
  }

  /** A first contract of 0.00005: the feed rounds it to 0.0001. */
  lemma SmallChangeDiverges(messages: seq<Message>)
    requires messages == [Snapshot(None, None, None, Candidate(Some(([], [])), Some(0))),
                          Delta(Some(1), Some(YesSide), Some([48]), Some(0.00005))]
    ensures var venue := Exchange(Sides(map[], map[]), [Change(YesSide, [48], 0.00005)]);
            AllGenuine(_ => venue, messages) && !RunTracksVenue(_ => venue, messages)
  {
    var venue := Exchange(Sides(map[], map[]), [Change(YesSide, [48], 0.00005)]);
    Append(_ => venue, [], messages[0]);
    Append(_ => venue, [messages[0]], messages[1]);
    assert messages == [] + [messages[0]] + [messages[1]];
  }

  // ----- a snapshot that loses its number

  /** The place whose levels are taken, if it is nested, repeats the envelope's number. */
  predicate KeepsNumber(m: Message)
    requires m.Snapshot?
  {
    if HasLevels(m.orderbookFp) then m.orderbookFp.value.number == m.envelopeNumber
    else if HasLevels(m.orderbook) then m.orderbook.value.number == m.envelopeNumber
    else true
  }

  /** Of all numbered deltas, the feed takes exactly those with the next number. */
  ghost predicate CatchesGaps(f: Feed, n: int) {
    forall d: Message {:trigger Accepts(f, d)} ::
      d.Delta? && IsWellFormed(d) && d.number.Some? ==> (Accepts(f, d) <==> d.number.value == n + 1)
  }

  /** After a snapshot with number n, every delta from beyond a gap is refused exactly when the
      snapshot's levels are not nested or the nested place repeats n. */
  lemma GapIsCaughtIff(f: Feed, m: Message)
    requires m.Snapshot? && m.envelopeNumber.Some? && ChosenCandidate(m).Some?
    ensures CatchesGaps(Apply(f, m), m.envelopeNumber.value) <==> KeepsNumber(m)
  {
    var after, n := Apply(f, m), m.envelopeNumber.value;
    if after.book.value.number != Some(n) {
      var other := if after.book.value.number.Some? then after.book.value.number.value + 1 else n + 2;
      assert Accepts(after, Delta(Some(other), Some(YesSide), Some([48]), Some(1.0)));
    }
  }

  /** A snapshot whose levels are nested, numbered in its envelope only: the book ends up without a
      number, and a delta from beyond a gap is taken. */
  lemma NestedSnapshotMissesGap()
    ensures var snapshot := Snapshot(Some(5), None, Some(Candidate(Some(([], [])), None)), Candidate(None, None));
            var delta := Delta(Some(9), Some(YesSide), Some([48]), Some(1.0));
            && Run([snapshot]).book.Some? && Run([snapshot]).book.value.number.None?
            && Accepts(Run([snapshot]), delta)
  {
    var snapshot := Snapshot(Some(5), None, Some(Candidate(Some(([], [])), None)), Candidate(None, None));
    assert [snapshot][..0] == [];
  }

  // ----- the feed itself

  class KalshiRealtimeFeed {
    var orderbook: Option<Book>
    var wsOrderbookReady: bool
    var orderbookInSync: bool

    ghost function Abstract(): Feed
      reads this
    {
      Feed(orderbook, wsOrderbookReady, orderbookInSync)
    }

    constructor ()
      ensures Abstract() == EMPTY
    {
      orderbook, wsOrderbookReady, orderbookInSync := None, false, true;
    }

    static method ReplaceLevelMap(next: seq<RawLevel>) returns (levels: Levels)
      ensures levels == LevelMap(next)
    {
      levels := map[];
      for i := 0 to |next|
        invariant levels == LevelMap(next[..i])
      {
        assert next[..i + 1][..i] == next[..i];
        if next[i].priceIsNumber && next[i].size.Real? && next[i].size.value > 0.0 {
          levels := levels[next[i].price := next[i].size.value];
        }
      }
      assert next[..|next|] == next;
    }

    method OnSnapshot(m: Message) returns (accepted: bool)
      requires m.Snapshot?
      modifies this
      ensures Abstract() == ApplySnapshot(old(Abstract()), m)
      ensures accepted <==> ChosenCandidate(m).Some?
    {
      var chosen := ChosenCandidate(m);
      if chosen.None? {
        return false;
      }
      var yes := ReplaceLevelMap(chosen.value.levels.value.0);
      var no := ReplaceLevelMap(chosen.value.levels.value.1);
      orderbook := Some(Book(Sides(yes, no), chosen.value.number));
      orderbookInSync := true;
      wsOrderbookReady := true;
      return true;
    }

    method OnDelta(m: Message) returns (accepted: bool)
      requires m.Delta?
      modifies this
      ensures Abstract() == ApplyDelta(old(Abstract()), m)
      ensures accepted <==> Accepts(old(Abstract()), m)
    {
      if orderbook.None? || !wsOrderbookReady {
        orderbookInSync := false;
        return false;
      }
      var book := orderbook.value;
      if m.number.Some? && book.number.Some? && m.number.value != book.number.value + 1 {
        orderbookInSync := false;
        return false;
      }
      if m.side.None? || m.price.None? || m.delta.None? {
        orderbookInSync := false;
        return false;
      }
      var sides := book.sides;
      if m.side.value.YesSide? {
        sides := sides.(yes := AddToLevel(sides.yes, m.price.value, m.delta.value));
      } else {
        sides := sides.(no := AddToLevel(sides.no, m.price.value, m.delta.value));
      }
      orderbook := Some(Book(sides, if m.number.Some? then m.number else book.number));
      orderbookInSync := true;
      return true;
    }

    method OnClose()
      modifies this
      ensures Abstract() == Apply(old(Abstract()), Closed)
    {
      wsOrderbookReady := false;
    }
  }
}
