/** The private fill tracker: a bounded buffer of recent fills, an index of their keys, and the
    waiters that later fills may resolve. */
module FillTracker {
  import opened Prelude
  import opened Sequences

  const BUFFER_LIMIT: nat := 512
  const WAITER_LIMIT: nat := 256
  const MAX_WAIT_MS: int := 30_000
  const RETENTION_MS: int := 300_000

  /** The fields of a fill that the tracker looks at. */
  datatype Fill = Fill(
    venue: Venue, venueOrderId: Text, clientOrderId: Option<Text>, tradeId: Text, marketRef: Option<Text>,
    capturedAt: int)

  /** A request to read or to wait for fills; what is absent matches everything. */
  datatype Request = Request(
    venue: Option<Venue>, venueOrderId: Option<Text>, clientOrderId: Option<Text>, marketRef: Option<Text>,
    afterCapturedAt: Option<int>)

  datatype Waiter = Waiter(id: int, request: Request)

  /** A call of a waiter's resolve function. */
  datatype Settled = Settled(waiter: Waiter, fill: Option<Fill>)

  /** What wait returns: a promise already resolved, or one that a waiter stands for. */
  datatype Waiting = Resolved(fill: Option<Fill>) | Pending(id: int)

  // ----- matching

  function TrimStart(t: Text): Text {
    if t != [] && IsWhitespace(t[0]) then TrimStart(t[1..]) else t
  }

  function TrimEnd(t: Text): Text {
    if t != [] && IsWhitespace(t[|t| - 1]) then TrimEnd(t[..|t| - 1]) else t
  }

  function Lowered(c: CodeUnit): CodeUnit {
    if 65 <= c <= 90 then c + 32 else c
  }

  /** normalizeIdentifier */
  function Normalize(id: Option<Text>): Option<Text> {
    if id.None? then None
    else
      var trimmed := TrimEnd(TrimStart(id.value));
      if trimmed == [] then None else Some(Map(Lowered, trimmed))
  }

  const SEPARATOR: Text := [58]
  const NULL_NAME: Text := [110, 117, 108, 108]

  function IdentifierText(id: Text): Text {
    var normalized := Normalize(Some(id));
    if normalized.Some? then normalized.value else NULL_NAME
  }

  function FillKey(fill: Fill): Text {
    VenueName(fill.venue) + SEPARATOR + IdentifierText(fill.venueOrderId) + SEPARATOR + IdentifierText(fill.tradeId)
  }

  predicate Matches(fill: Fill, request: Request) {
    var market := Normalize(request.marketRef);
    var order, clientOrder := Normalize(request.venueOrderId), Normalize(request.clientOrderId);
    && (request.venue.Some? ==> fill.venue == request.venue.value)
    && (request.afterCapturedAt.Some? ==> fill.capturedAt > request.afterCapturedAt.value)
    && (market.Some? ==> Normalize(fill.marketRef) == market)
    && (|| (order.None? && clientOrder.None?)
        || (order.Some? && Normalize(Some(fill.venueOrderId)) == order)
        || (clientOrder.Some? && Normalize(fill.clientOrderId) == clientOrder))
  }

  function Matching(request: Request): Fill -> bool {
    (fill: Fill) => Matches(fill, request)
  }

  function WaitsFor(fill: Fill): Waiter -> bool {
    (waiter: Waiter) => Matches(fill, waiter.request)
  }

  /** A waiter that a disconnect of the venue's market, or of all its markets, leaves hanging. */
  function IsCutOff(venue: Venue, marketRef: Option<Text>): Waiter -> bool {
    (waiter: Waiter) =>
      var requested, disconnected := Normalize(waiter.request.marketRef), Normalize(marketRef);
      waiter.request.venue == Some(venue) && (requested.None? || disconnected.None? || requested == disconnected)
  }

  function Everyone(): Waiter -> bool {
    (waiter: Waiter) => true
  }

  // ----- the tracker as a state machine; the index is not part of its state

  datatype State = State(fills: seq<Fill>, waiters: seq<Waiter>, nextId: int, settled: seq<Settled>)

  function IsRecent(now: int): Fill -> bool {
    (fill: Fill) => fill.capturedAt >= now - RETENTION_MS
  }

  function Prune(s: State, now: int): State {
    s.(fills := Filter(IsRecent(now), s.fills))
  }

  function Not(p: Waiter -> bool): Waiter -> bool {
    (waiter: Waiter) => !p(waiter)
  }

  function SettleWith(fill: Option<Fill>): Waiter -> Settled {
    (waiter: Waiter) => Settled(waiter, fill)
  }

  /** Resolves all waiters of a kind, oldest first. */
  function Settle(s: State, p: Waiter -> bool, fill: Option<Fill>): State {
    s.(waiters := Filter(Not(p), s.waiters), settled := s.settled + Map(SettleWith(fill), Filter(p, s.waiters)))
  }

  function Newest(fills: seq<Fill>): seq<Fill> {
    if |fills| <= BUFFER_LIMIT then fills else fills[..BUFFER_LIMIT]
  }

  predicate IsKnown(s: State, fill: Fill) {
    FillKey(fill) in Map(FillKey, s.fills)
  }

  function Ingest(s: State, fill: Fill): State {
    var p := Prune(s, fill.capturedAt);
    if IsKnown(p, fill) then p
    else Settle(p.(fills := Newest([fill] + p.fills)), WaitsFor(fill), Some(fill))
  }

  function ReadLimit(limit: Option<real>): int {
    var floor := if limit.None? then 50 else limit.value.Floor;
    if floor < 1 then 1 else if floor > BUFFER_LIMIT then BUFFER_LIMIT else floor
  }

  function FirstUpTo(fills: seq<Fill>, limit: int): seq<Fill>
    requires limit >= 0
  {
    if |fills| <= limit then fills else fills[..limit]
  }

  function Timeout(timeoutMs: Numeric): int {
    if timeoutMs.NotReal? || timeoutMs.value.Floor < 0 then 0
    else if timeoutMs.value.Floor > MAX_WAIT_MS then MAX_WAIT_MS
    else timeoutMs.value.Floor
  }

  function FirstMatch(fills: seq<Fill>, request: Request): (r: Option<Fill>)
    ensures r.Some? ==> r.value in fills && Matches(r.value, request)
    ensures r.None? ==> forall fill :: fill in fills ==> !Matches(fill, request)
  {
    if fills == [] then None
    else if Matches(fills[0], request) then Some(fills[0])
    else FirstMatch(fills[1..], request)
  }

  function SettleOldest(s: State): State {
    if s.waiters == [] then s
    else s.(waiters := s.waiters[1..], settled := s.settled + [Settled(s.waiters[0], None)])
  }

  function Register(s: State, request: Request): State {
    var r := if |s.waiters| >= WAITER_LIMIT then SettleOldest(s) else s;
    r.(waiters := r.waiters + [Waiter(s.nextId, request)], nextId := s.nextId + 1)
  }

  function Wait(s: State, request: Request, timeoutMs: Numeric, now: int): State {
    var p := Prune(s, now);
    if FirstMatch(p.fills, request).Some? || Timeout(timeoutMs) == 0 then p else Register(p, request)
  }

  function WaitResult(s: State, request: Request, timeoutMs: Numeric, now: int): Waiting {
    var existing := FirstMatch(Prune(s, now).fills, request);
    if existing.Some? || Timeout(timeoutMs) == 0 then Resolved(existing) else Pending(s.nextId)
  }

  function HasId(id: int): Waiter -> bool {
    (waiter: Waiter) => waiter.id == id
  }

  datatype Event =
    | Ingested(fill: Fill)
    | ReadAt(now: int)
    | Waited(request: Request, timeoutMs: Numeric, now: int)
    | WaitersCleared(venue: Venue, marketRef: Option<Text>)
    | AllCleared
    | TimedOut(id: int)

  function Step(s: State, e: Event): State {
    match e
    case Ingested(fill) => Ingest(s, fill)
    case ReadAt(now) => Prune(s, now)
    case Waited(request, timeoutMs, now) => Wait(s, request, timeoutMs, now)
    case WaitersCleared(venue, marketRef) => Settle(s, IsCutOff(venue, marketRef), None)
    case AllCleared => Settle(s, Everyone(), None)
    case TimedOut(id) => Settle(s, HasId(id), None)
  }

  const INITIAL := State([], [], 1, [])

  function Run(events: seq<Event>): State {
    if events == [] then INITIAL else Step(Run(events[..|events| - 1]), events[|events| - 1])
  }

  // ----- what every run keeps

  function WaiterId(waiter: Waiter): int { waiter.id }
  function SettledId(entry: Settled): int { entry.waiter.id }

  /** Every waiter ever registered is pending or was resolved, once. */
  predicate HasDistinctIds(s: State) {
    && NoDuplicates(Map(WaiterId, s.waiters) + Map(SettledId, s.settled))
    && (forall w :: w in s.waiters ==> w.id < s.nextId)
    && (forall e :: e in s.settled ==> e.waiter.id < s.nextId)
  }

  predicate IsFaithful(entry: Settled) {
    entry.fill.Some? ==> Matches(entry.fill.value, entry.waiter.request)
  }

  /** No waiter hangs while a fill that it waits for is in the buffer. */
  predicate NoLostWakeup(s: State) {
    forall w, fill :: w in s.waiters && fill in s.fills ==> !Matches(fill, w.request)
  }

  predicate Inv(s: State) {
    && NoDuplicates(Map(FillKey, s.fills))
    && |s.fills| <= BUFFER_LIMIT && |s.waiters| <= WAITER_LIMIT
    && HasDistinctIds(s)
    && (forall e :: e in s.settled ==> IsFaithful(e))
    && NoLostWakeup(s)
  }

  function Ids(waiters: seq<Waiter>, settled: seq<Settled>): seq<int> {
    Map(WaiterId, waiters) + Map(SettledId, settled)
  }

  lemma PruneKeeps(s: State, now: int)
    requires Inv(s)
    ensures Inv(Prune(s, now))
  {
    FilterDistinct(FillKey, IsRecent(now), s.fills);
  }

  lemma SettledIds(moved: seq<Waiter>, settled: seq<Settled>, fill: Option<Fill>)
    ensures Map(SettledId, settled + Map(SettleWith(fill), moved)) == Map(SettledId, settled) + Map(WaiterId, moved)
  {
    MapConcat(SettledId, settled, Map(SettleWith(fill), moved));
    assert Map(SettledId, Map(SettleWith(fill), moved)) == Map(WaiterId, moved);
  }

  /** Moving waiters to the resolved ones keeps the ids together. */
  lemma MovedIds(before: seq<Waiter>, kept: seq<Waiter>, moved: seq<Waiter>, settled: seq<Settled>, fill: Option<Fill>)
    requires multiset(before) == multiset(kept) + multiset(moved)
    ensures multiset(Ids(kept, settled + Map(SettleWith(fill), moved))) == multiset(Ids(before, settled))
  {
    SettledIds(moved, settled, fill);
    MapPermutation(WaiterId, before, kept + moved);
    MapConcat(WaiterId, kept, moved);
    Rotate(Map(WaiterId, before), Map(WaiterId, kept), Map(WaiterId, moved), Map(SettledId, settled));
  }

  lemma Rotate<T>(all: seq<T>, a: seq<T>, b: seq<T>, c: seq<T>)
    requires multiset(all) == multiset(a + b)
    ensures multiset(a + (c + b)) == multiset(all + c)
  {
  }

  predicate MayGet(p: Waiter -> bool, waiters: seq<Waiter>, fill: Option<Fill>) {
    forall w :: w in waiters && p(w) && fill.Some? ==> Matches(fill.value, w.request)
  }

  lemma SettleKeepsIds(s: State, p: Waiter -> bool, fill: Option<Fill>)
    requires HasDistinctIds(s)
    ensures HasDistinctIds(Settle(s, p, fill))
  {
    var kept, moved := Filter(Not(p), s.waiters), Filter(p, s.waiters);
    FilterParts(Not(p), p, s.waiters);
    MovedIds(s.waiters, kept, moved, s.settled, fill);
    NoDuplicatesPermutation(Ids(kept, s.settled + Map(SettleWith(fill), moved)), Ids(s.waiters, s.settled));
    forall e | e in Map(SettleWith(fill), moved)
      ensures e.waiter.id < s.nextId
    {
      var i :| 0 <= i < |moved| && Map(SettleWith(fill), moved)[i] == e;
      assert moved[i] in moved;
    }
  }

  lemma SettleIsFaithful(s: State, p: Waiter -> bool, fill: Option<Fill>)
    requires (forall e :: e in s.settled ==> IsFaithful(e)) && MayGet(p, s.waiters, fill)
    ensures forall e :: e in Settle(s, p, fill).settled ==> IsFaithful(e)
  {
    var moved := Filter(p, s.waiters);
    forall e | e in Map(SettleWith(fill), moved)
      ensures IsFaithful(e)
    {
      var i :| 0 <= i < |moved| && Map(SettleWith(fill), moved)[i] == e;
      assert moved[i] in moved;
    }
  }

  lemma SettleKeeps(s: State, p: Waiter -> bool)
    requires Inv(s)
    ensures Inv(Settle(s, p, None))
  {
    SettleKeepsIds(s, p, None);
    SettleIsFaithful(s, p, None);
  }

  lemma PrefixDistinct<T>(s: seq<T>, n: nat)
    requires NoDuplicates(s) && n <= |s|
    ensures NoDuplicates(s[..n])
  {
  }

  lemma NewestKeysDistinct(fill: Fill, fills: seq<Fill>)
    requires NoDuplicates(Map(FillKey, fills)) && FillKey(fill) !in Map(FillKey, fills)
    ensures NoDuplicates(Map(FillKey, Newest([fill] + fills)))
  {
    var all := [fill] + fills;
    MapConcat(FillKey, [fill], fills);
    NoDuplicatesCons(FillKey(fill), Map(FillKey, fills));
    if |all| > BUFFER_LIMIT {
      PrefixDistinct(Map(FillKey, all), BUFFER_LIMIT);
      assert Map(FillKey, all[..BUFFER_LIMIT]) == Map(FillKey, all)[..BUFFER_LIMIT];
    }
  }

  lemma IngestKeeps(s: State, fill: Fill)
    requires Inv(s)
    ensures Inv(Ingest(s, fill))
  {
    PruneKeeps(s, fill.capturedAt);
    var p := Prune(s, fill.capturedAt);
    if !IsKnown(p, fill) {
      var added := p.(fills := Newest([fill] + p.fills));
      NewestKeysDistinct(fill, p.fills);
      SettleKeepsIds(added, WaitsFor(fill), Some(fill));
      SettleIsFaithful(added, WaitsFor(fill), Some(fill));
      IngestWakes(p, fill);
    }
  }

  /** Taking in a new fill leaves nobody waiting for it. */
  lemma IngestWakes(p: State, fill: Fill)
    requires NoLostWakeup(p)
    ensures NoLostWakeup(Settle(p.(fills := Newest([fill] + p.fills)), WaitsFor(fill), Some(fill)))
  {
    var fills := Newest([fill] + p.fills);
    forall f | f in fills
      ensures f == fill || f in p.fills
    {
    }
  }

  lemma OldestKeeps(s: State)
    requires Inv(s) && s.waiters != []
    ensures Inv(SettleOldest(s)) && |SettleOldest(s).waiters| == |s.waiters| - 1
  {
    var w := s.waiters[0];
    assert s.waiters == [w] + s.waiters[1..];
    MovedIds(s.waiters, s.waiters[1..], [w], s.settled, None);
    assert Map(SettleWith(None), [w]) == [Settled(w, None)];
    NoDuplicatesPermutation(Ids(s.waiters[1..], s.settled + [Settled(w, None)]), Ids(s.waiters, s.settled));
  }

  lemma FreshId(waiters: seq<Waiter>, settled: seq<Settled>, request: Request, id: int)
    requires NoDuplicates(Ids(waiters, settled)) && id !in Ids(waiters, settled)
    ensures NoDuplicates(Ids(waiters + [Waiter(id, request)], settled))
  {
    var w := Waiter(id, request);
    MapSnoc(WaiterId, waiters, w);
    NoDuplicatesCons(id, Ids(waiters, settled));
    NoDuplicatesPermutation([id] + Ids(waiters, settled), Ids(waiters + [w], settled));
  }

  lemma RegisterKeeps(s: State, request: Request)
    requires Inv(s) && forall fill :: fill in s.fills ==> !Matches(fill, request)
    ensures Inv(Register(s, request))
  {
    if |s.waiters| >= WAITER_LIMIT {
      OldestKeeps(s);
    }
    var r := if |s.waiters| >= WAITER_LIMIT then SettleOldest(s) else s;
    IdsBelowNext(r);
    FreshId(r.waiters, r.settled, request, s.nextId);
  }

  lemma IdsBelowNext(s: State)
    requires HasDistinctIds(s)
    ensures forall id :: id in Ids(s.waiters, s.settled) ==> id < s.nextId
  {
    forall id | id in Ids(s.waiters, s.settled)
      ensures id < s.nextId
    {
      if id in Map(WaiterId, s.waiters) {
        var i :| 0 <= i < |s.waiters| && Map(WaiterId, s.waiters)[i] == id;
        assert s.waiters[i] in s.waiters;
      } else {
        var i :| 0 <= i < |s.settled| && Map(SettledId, s.settled)[i] == id;
        assert s.settled[i] in s.settled;
      }
    }
  }

  lemma WaitKeeps(s: State, request: Request, timeoutMs: Numeric, now: int)
    requires Inv(s)
    ensures Inv(Wait(s, request, timeoutMs, now))
  {
    PruneKeeps(s, now);
    var p := Prune(s, now);
    if FirstMatch(p.fills, request).None? && Timeout(timeoutMs) != 0 {
      RegisterKeeps(p, request);
    }
  }

  /** Waiters resolved with nothing. */
  lemma EmptyHandedKeeps(s: State, e: Event)
    requires Inv(s) && (e.WaitersCleared? || e.AllCleared? || e.TimedOut?)
    ensures Inv(Step(s, e))
  {
    var p := match e
             case WaitersCleared(venue, marketRef) => IsCutOff(venue, marketRef)
             case TimedOut(id) => HasId(id)
             case _ => Everyone();
    SettleKeeps(s, p);
  }

  lemma StepKeeps(s: State, e: Event)
    requires Inv(s)
    ensures Inv(Step(s, e))
  {
    match e
    case Ingested(fill) => IngestKeeps(s, fill);
    case ReadAt(now) => PruneKeeps(s, now);
    case Waited(request, timeoutMs, now) => WaitKeeps(s, request, timeoutMs, now);
    case _ => EmptyHandedKeeps(s, e);
  }

  /** Over every run: the keys of the buffered fills are distinct, buffer and waiters are bounded,
      every waiter is resolved at most once and only with a fill that it waits for, and no pending
      waiter waits for a fill that is in the buffer. */
  lemma {:induction false} RunKeeps(events: seq<Event>)
    ensures Inv(Run(events))
  {
    if events != [] {
      RunKeeps(events[..|events| - 1]);
      StepKeeps(Run(events[..|events| - 1]), events[|events| - 1]);
    }
  }

  /** Who is resolved stays resolved, with the same fill. */
  lemma StepExtends(s: State, e: Event)
    ensures s.settled <= Step(s, e).settled && s.nextId <= Step(s, e).nextId
  {
  }

  /** A new fill resolves exactly the waiters that wait for it, and with itself. */
  lemma IngestResolves(s: State, fill: Fill, waiter: Waiter)
    requires Inv(s) && waiter in s.waiters && !IsKnown(Prune(s, fill.capturedAt), fill)
    ensures if Matches(fill, waiter.request)
            then Settled(waiter, Some(fill)) in Ingest(s, fill).settled && waiter !in Ingest(s, fill).waiters
            else waiter in Ingest(s, fill).waiters
  {
    var moved := Filter(WaitsFor(fill), s.waiters);
    if Matches(fill, waiter.request) {
      assert waiter in moved;
      var i :| 0 <= i < |moved| && moved[i] == waiter;
      assert Map(SettleWith(Some(fill)), moved)[i] == Settled(waiter, Some(fill));
    }
  }

  // ----- the tracker itself

  /** The index holds the keys of the elements, which all differ. */
  ghost predicate Indexes<F, K(!new)>(key: F -> K, seen: map<K, int>, s: seq<F>) {
    && NoDuplicates(Map(key, s))
    && (forall k :: k in seen <==> k in Map(key, s))
  }

  function Without<K>(seen: map<K, int>, k: K): map<K, int> {
    seen - {k}
  }

  /** Dropping one element and its key. */
  lemma IndexDrops<F, K(!new)>(key: F -> K, seen: map<K, int>, a: seq<F>, x: F, b: seq<F>)
    requires Indexes(key, seen, a + ([x] + b))
    ensures Indexes(key, Without(seen, key(x)), a + b)
  {
    MapConcat(key, a, [x] + b);
    MapConcat(key, [x], b);
    MapConcat(key, a, b);
    assert Map(key, [x]) == [key(x)];
    OnceInside(Map(key, a), key(x), Map(key, b));
    WithoutOne(Map(key, a), key(x), Map(key, b));
  }

  lemma WithoutOne<K>(a: seq<K>, x: K, b: seq<K>)
    requires NoDuplicates(a + ([x] + b))
    ensures NoDuplicates(a + b)
  {
    var whole, rest := a + ([x] + b), a + b;
    forall i, j | 0 <= i < j < |rest|
      ensures rest[i] != rest[j]
    {
      assert rest[i] == whole[if i < |a| then i else i + 1];
      assert rest[j] == whole[if j < |a| then j else j + 1];
    }
  }

  lemma IndexAdds<F, K(!new)>(key: F -> K, seen: map<K, int>, s: seq<F>, x: F, time: int)
    requires Indexes(key, seen, s) && key(x) !in seen
    ensures Indexes(key, seen[key(x) := time], [x] + s)
  {
    MapConcat(key, [x], s);
    NoDuplicatesCons(key(x), Map(key, s));
    assert Map(key, [x]) == [key(x)];
  }

  lemma AdvanceFront<T>(front: seq<T>, rest: seq<T>)
    requires rest != []
    ensures rest == [rest[0]] + rest[1..]
    ensures front + rest == front + ([rest[0]] + rest[1..]) == (front + [rest[0]]) + rest[1..]
  {
  }

  /** The state of the loop that keeps some elements and forgets the keys of the others. */
  ghost predicate Keeping<F, K(!new)>(
    key: F -> K, keep: F -> bool, seen: map<K, int>, front: seq<F>, kept: seq<F>, rest: seq<F>)
  {
    kept == Filter(keep, front) && Indexes(key, seen, kept + rest)
  }

  lemma KeepsElement<F, K(!new)>(
    key: F -> K, keep: F -> bool, seen: map<K, int>, front: seq<F>, kept: seq<F>, x: F, rest: seq<F>)
    requires Keeping(key, keep, seen, front, kept, [x] + rest) && keep(x)
    ensures Keeping(key, keep, seen, front + [x], kept + [x], rest)
  {
    FilterSnoc(keep, front, x);
    assert kept + ([x] + rest) == (kept + [x]) + rest;
  }

  lemma ForgetsElement<F, K(!new)>(
    key: F -> K, keep: F -> bool, seen: map<K, int>, front: seq<F>, kept: seq<F>, x: F, rest: seq<F>)
    requires Keeping(key, keep, seen, front, kept, [x] + rest) && !keep(x)
    ensures Keeping(key, keep, Without(seen, key(x)), front + [x], kept, rest)
  {
    FilterSnoc(keep, front, x);
    IndexDrops(key, seen, kept, x, rest);
  }

  lemma KeptAll<F, K(!new)>(key: F -> K, keep: F -> bool, seen: map<K, int>, s: seq<F>, front: seq<F>, kept: seq<F>)
    requires Keeping(key, keep, seen, front, kept, []) && front + [] == s
    ensures kept == Filter(keep, s) && Indexes(key, seen, kept)
  {
    assert front == s && kept + [] == kept;
  }

  method KeepIndexed<F, K(!new)>(key: F -> K, keep: F -> bool, seen: map<K, int>, s: seq<F>)
    returns (kept: seq<F>, left: map<K, int>)
    requires Indexes(key, seen, s)
    ensures kept == Filter(keep, s) && Indexes(key, left, kept)
  {
    kept, left := [], seen;
    var rest := s;
    ghost var front: seq<F> := [];
    assert [] + s == s;
    while rest != []
      invariant front + rest == s
      invariant Keeping(key, keep, left, front, kept, rest)
      decreases |rest|
    {
      var x, tail := rest[0], rest[1..];
      AdvanceFront(front, rest);
      if keep(x) {
        KeepsElement(key, keep, left, front, kept, x, tail);
        kept := kept + [x];
      } else {
        ForgetsElement(key, keep, left, front, kept, x, tail);
        left := Without(left, key(x));
      }
      front := front + [x];
      rest := tail;
    }
    KeptAll(key, keep, left, s, front, kept);
  }

  lemma DropsLast<F, K(!new)>(key: F -> K, seen: map<K, int>, s: seq<F>, n: nat)
    requires 0 < n <= |s| && Indexes(key, seen, s[..n])
    ensures Indexes(key, Without(seen, key(s[n - 1])), s[..n - 1])
  {
    assert s[..n] == s[..n - 1] + ([s[n - 1]] + []) && s[..n - 1] + [] == s[..n - 1];
    IndexDrops(key, seen, s[..n - 1], s[n - 1], []);
  }

  /** The loop that drops elements from the end, and their keys, until no more than the limit are left. */
  method LimitIndexed<F, K(!new)>(key: F -> K, limit: nat, seen: map<K, int>, s: seq<F>)
    returns (kept: seq<F>, left: map<K, int>)
    requires Indexes(key, seen, s)
    ensures kept == (if |s| <= limit then s else s[..limit]) && Indexes(key, left, kept)
  {
    left := seen;
    var n := |s|;
    assert s[..n] == s;
    while n > limit
      invariant n <= |s| && (n < limit ==> n == |s|)
      invariant Indexes(key, left, s[..n])
    {
      DropsLast(key, left, s, n);
      left := Without(left, key(s[n - 1]));
      n := n - 1;
    }
    kept := s[..n];
  }

  function FindWaiter(waiters: seq<Waiter>, id: int): Option<Waiter> {
    if waiters == [] then None else if waiters[0].id == id then Some(waiters[0]) else FindWaiter(waiters[1..], id)
  }

  /** The state of the loop over a snapshot of the waiters: those in front are dealt with. */
  ghost predicate Settling(
    p: Waiter -> bool, fill: Option<Fill>, before: seq<Settled>, front: seq<Waiter>, rest: seq<Waiter>,
    waiters: seq<Waiter>, settled: seq<Settled>)
  {
    && waiters == Filter(Not(p), front) + rest
    && settled == before + Map(SettleWith(fill), Filter(p, front))
  }

  lemma SettlingStep(p: Waiter -> bool, fill: Option<Fill>, before: seq<Settled>, all: seq<Waiter>,
                     front: seq<Waiter>, rest: seq<Waiter>, waiters: seq<Waiter>, settled: seq<Settled>)
    requires rest != [] && front + rest == all && NoDuplicates(Map(WaiterId, all))
    requires Settling(p, fill, before, front, rest, waiters, settled)
    ensures front + [rest[0]] + rest[1..] == all && rest[0].id in Map(WaiterId, waiters)
    ensures if p(rest[0])
            then
              Settling(p, fill, before, front + [rest[0]], rest[1..], Filter(Not(HasId(rest[0].id)), waiters),
                       settled + [Settled(rest[0], fill)])
            else Settling(p, fill, before, front + [rest[0]], rest[1..], waiters, settled)
  {
    AdvanceFront(front, rest);
    Mapped(WaiterId, waiters, rest[0]);
    if p(rest[0]) {
      SettlesNext(p, fill, before, front, rest[0], rest[1..], waiters, settled);
    } else {
      PassesNext(p, fill, before, front, rest[0], rest[1..], waiters, settled);
    }
  }

  lemma RemovedById(p: Waiter -> bool, front: seq<Waiter>, w: Waiter, rest: seq<Waiter>)
    requires NoDuplicates(Map(WaiterId, front + ([w] + rest)))
    ensures Filter(Not(HasId(w.id)), Filter(p, front) + ([w] + rest)) == Filter(p, front) + rest
  {
    DistinctAround(WaiterId, front, w, rest);
    FilterDrops(Not(HasId(w.id)), Filter(p, front), w, rest);
  }

  lemma SettlesNext(p: Waiter -> bool, fill: Option<Fill>, before: seq<Settled>, front: seq<Waiter>, w: Waiter,
                    rest: seq<Waiter>, waiters: seq<Waiter>, settled: seq<Settled>)
    requires NoDuplicates(Map(WaiterId, front + ([w] + rest))) && p(w)
    requires Settling(p, fill, before, front, [w] + rest, waiters, settled)
    ensures Settling(p, fill, before, front + [w], rest, Filter(Not(HasId(w.id)), waiters),
                     settled + [Settled(w, fill)])
  {
    FilterSnoc(p, front, w);
    FilterSnoc(Not(p), front, w);
    RemovedById(Not(p), front, w, rest);
    MapSnoc(SettleWith(fill), Filter(p, front), w);
  }

  lemma Regroup(a: seq<Waiter>, w: Waiter, rest: seq<Waiter>)
    ensures a + ([w] + rest) == (a + [w]) + rest
  {
  }

  lemma PassesNext(p: Waiter -> bool, fill: Option<Fill>, before: seq<Settled>, front: seq<Waiter>, w: Waiter,
                   rest: seq<Waiter>, waiters: seq<Waiter>, settled: seq<Settled>)
    requires Settling(p, fill, before, front, [w] + rest, waiters, settled) && !p(w)
    ensures Settling(p, fill, before, front + [w], rest, waiters, settled)
  {
    FilterSnoc(p, front, w);
    FilterSnoc(Not(p), front, w);
    Regroup(Filter(Not(p), front), w, rest);
  }

  lemma SettledAll(p: Waiter -> bool, fill: Option<Fill>, before: seq<Settled>, all: seq<Waiter>, front: seq<Waiter>,
                   waiters: seq<Waiter>, settled: seq<Settled>)
    requires Settling(p, fill, before, front, [], waiters, settled) && front + [] == all
    requires NoDuplicates(Map(WaiterId, all))
    ensures waiters == Filter(Not(p), all) && settled == before + Map(SettleWith(fill), Filter(p, all))
    ensures NoDuplicates(Map(WaiterId, waiters)) && forall w :: w in waiters ==> w in all
  {
    assert front == all && Filter(Not(p), front) + [] == Filter(Not(p), front);
    FilterDistinct(WaiterId, Not(p), all);
  }

  lemma {:induction false} FindsWaiter(waiters: seq<Waiter>, id: int)
    ensures var found := FindWaiter(waiters, id);
            if found.None? then (forall w :: w in waiters ==> w.id != id)
            else found.value in waiters && found.value.id == id
  {
    if waiters != [] {
      FindsWaiter(waiters[1..], id);
    }
  }

  /** Resolving the waiter with an id is resolving all with that id. */
  lemma FindSettles(s: State, id: int)
    requires NoDuplicates(Map(WaiterId, s.waiters))
    ensures var found := FindWaiter(s.waiters, id);
            Settle(s, HasId(id), None)
            == if found.None? then s
               else s.(waiters := Filter(Not(HasId(id)), s.waiters),
                       settled := s.settled + [Settled(found.value, None)])
  {
    FindsWaiter(s.waiters, id);
    var found := FindWaiter(s.waiters, id);
    if found.None? {
      FilterNone(HasId(id), s.waiters);
      FilterAll(Not(HasId(id)), s.waiters);
    } else {
      var i :| 0 <= i < |s.waiters| && s.waiters[i] == found.value;
      assert s.waiters == s.waiters[..i] + ([found.value] + s.waiters[i + 1..]);
      DistinctAround(WaiterId, s.waiters[..i], found.value, s.waiters[i + 1..]);
      FilterPicks(HasId(id), s.waiters[..i], found.value, s.waiters[i + 1..]);
      assert Map(SettleWith(None), [found.value]) == [Settled(found.value, None)];
    }
  }

  /** Removing the oldest waiter by its id leaves the rest. */
  lemma OldestAlone(waiters: seq<Waiter>)
    requires waiters != [] && NoDuplicates(Map(WaiterId, waiters))
    ensures Filter(Not(HasId(waiters[0].id)), waiters) == waiters[1..]
    ensures NoDuplicates(Map(WaiterId, waiters[1..]))
    ensures waiters[0].id in Map(WaiterId, waiters)
  {
    assert waiters == [] + ([waiters[0]] + waiters[1..]);
    DistinctAround(WaiterId, [], waiters[0], waiters[1..]);
    FilterDrops(Not(HasId(waiters[0].id)), [], waiters[0], waiters[1..]);
    FilterDistinct(WaiterId, Not(HasId(waiters[0].id)), waiters);
    Mapped(WaiterId, waiters, waiters[0]);
  }

  lemma NewWaiterDistinct(waiters: seq<Waiter>, w: Waiter)
    requires NoDuplicates(Map(WaiterId, waiters)) && forall v :: v in waiters ==> v.id != w.id
    ensures NoDuplicates(Map(WaiterId, waiters + [w]))
  {
    MapSnoc(WaiterId, waiters, w);
    forall i | 0 <= i < |waiters|
      ensures Map(WaiterId, waiters)[i] != w.id
    {
      assert waiters[i] in waiters;
    }
  }

  class RealtimeOrderFillTracker {
    var recentFills: seq<Fill>
    var seenFillKeys: map<Text, int>
    var waiters: seq<Waiter>  // in order of registration, as the source's Map iterates
    var nextWaiterId: int
    var settled: seq<Settled>  // the calls of the waiters' resolve functions so far

    ghost predicate FillsIndexed()
      reads this`recentFills, this`seenFillKeys
    {
      Indexes(FillKey, seenFillKeys, recentFills)
    }

    ghost predicate WaitersDistinct()
      reads this`waiters, this`nextWaiterId
    {
      NoDuplicates(Map(WaiterId, waiters)) && forall w :: w in waiters ==> w.id < nextWaiterId
    }

    ghost predicate Valid()
      reads this
    {
      FillsIndexed() && WaitersDistinct()
    }

    ghost function Abstract(): State
      reads this
    {
      State(recentFills, waiters, nextWaiterId, settled)
    }

    constructor ()
      ensures Valid() && Abstract() == INITIAL
    {
      recentFills, seenFillKeys, waiters, nextWaiterId, settled := [], map[], [], 1, [];
    }

    method PruneFills(now: int)
      requires Valid()
      modifies this`recentFills, this`seenFillKeys
      ensures Valid() && Abstract() == Prune(old(Abstract()), now)
    {
      recentFills, seenFillKeys := KeepIndexed(FillKey, IsRecent(now), seenFillKeys, recentFills);
    }

    method SettleWaiter(waiter: Waiter, fill: Option<Fill>)
      modifies this`waiters, this`settled
      ensures if waiter.id in old(Map(WaiterId, waiters))
              then
                && waiters == Filter(Not(HasId(waiter.id)), old(waiters))
                && settled == old(settled) + [Settled(waiter, fill)]
              else waiters == old(waiters) && settled == old(settled)
    {
      if waiter.id in Map(WaiterId, waiters) {
        waiters := Filter(Not(HasId(waiter.id)), waiters);
        settled := settled + [Settled(waiter, fill)];
      }
    }

    /** The loop over a snapshot of the waiters. */
    method SettleMatching(p: Waiter -> bool, fill: Option<Fill>)
      requires WaitersDistinct()
      modifies this`waiters, this`settled
      ensures WaitersDistinct() && Abstract() == Settle(old(Abstract()), p, fill)
    {
      ghost var before, all := Abstract(), waiters;
      var rest := waiters;
      ghost var front: seq<Waiter> := [];
      assert [] + all == all;
      while rest != []
        invariant front + rest == all
        invariant Settling(p, fill, before.settled, front, rest, waiters, settled)
        decreases |rest|
      {
        SettlingStep(p, fill, before.settled, all, front, rest, waiters, settled);
        if p(rest[0]) {
          SettleWaiter(rest[0], fill);
        }
        front, rest := front + [rest[0]], rest[1..];
      }
      SettledAll(p, fill, before.settled, all, front, waiters, settled);
      assert Abstract() == before.(waiters := waiters, settled := settled);
    }

    method IngestFill(fill: Fill) returns (accepted: bool)
      requires Valid()
      modifies this
      ensures Valid() && Abstract() == Ingest(old(Abstract()), fill)
      ensures accepted <==> !IsKnown(Prune(old(Abstract()), fill.capturedAt), fill)
    {
      PruneFills(fill.capturedAt);
      if FillKey(fill) in seenFillKeys {
        return false;
      }
      BufferFill(fill);
      SettleMatching(WaitsFor(fill), Some(fill));
      return true;
    }

    method BufferFill(fill: Fill)
      requires Valid() && FillKey(fill) !in seenFillKeys
      modifies this`recentFills, this`seenFillKeys
      ensures Valid() && recentFills == Newest([fill] + old(recentFills))
    {
      IndexAdds(FillKey, seenFillKeys, recentFills, fill, fill.capturedAt);
      seenFillKeys := seenFillKeys[FillKey(fill) := fill.capturedAt];
      recentFills := [fill] + recentFills;
      recentFills, seenFillKeys := LimitIndexed(FillKey, BUFFER_LIMIT, seenFillKeys, recentFills);
    }

    method ReadFills(request: Request, limit: Option<real>, now: int) returns (fills: seq<Fill>)
      requires Valid()
      modifies this
      ensures Valid() && Abstract() == Prune(old(Abstract()), now)
      ensures fills == FirstUpTo(Filter(Matching(request), recentFills), ReadLimit(limit))
    {
      PruneFills(now);
      return FirstUpTo(Filter(Matching(request), recentFills), ReadLimit(limit));
    }

    method WaitForFill(request: Request, timeoutMs: Numeric, now: int) returns (r: Waiting)
      requires Valid()
      modifies this
      ensures Valid() && Abstract() == Wait(old(Abstract()), request, timeoutMs, now)
      ensures r == WaitResult(old(Abstract()), request, timeoutMs, now)
    {
      PruneFills(now);
      var existing := FirstMatch(recentFills, request);
      if existing.Some? {
        return Resolved(existing);
      }
      if Timeout(timeoutMs) == 0 {
        return Resolved(None);
      }
      RegisterWaiter(request);
      return Pending(nextWaiterId - 1);
    }

    method RegisterWaiter(request: Request)
      requires Valid()
      modifies this`waiters, this`settled, this`nextWaiterId
      ensures Valid() && Abstract() == Register(old(Abstract()), request)
    {
      if |waiters| >= WAITER_LIMIT {
        OldestAlone(waiters);
        SettleWaiter(waiters[0], None);
      }
      NewWaiterDistinct(waiters, Waiter(nextWaiterId, request));
      waiters := waiters + [Waiter(nextWaiterId, request)];
      nextWaiterId := nextWaiterId + 1;
    }

    method ClearWaiters(venue: Venue, marketRef: Option<Text>)
      requires Valid()
      modifies this
      ensures Valid() && Abstract() == Settle(old(Abstract()), IsCutOff(venue, marketRef), None)
    {
      SettleMatching(IsCutOff(venue, marketRef), None);
    }

    method ClearAllWaiters()
      requires Valid()
      modifies this
      ensures Valid() && Abstract() == Settle(old(Abstract()), Everyone(), None)
    {
      SettleMatching(Everyone(), None);
    }

    /** A waiter's timer fires. */
    method OnTimeout(id: int)
      requires Valid()
      modifies this
      ensures Valid() && Abstract() == Settle(old(Abstract()), HasId(id), None)
    {
      FindSettles(Abstract(), id);
      FilterDistinct(WaiterId, Not(HasId(id)), waiters);
      var waiter := FindWaiter(waiters, id);
      FindsWaiter(waiters, id);
      if waiter.Some? {
        Mapped(WaiterId, waiters, waiter.value);
        SettleWaiter(waiter.value, None);
      }
    }
  }
}
