/** The circuit-breaker policy: the effective impact of incidents, their aggregation by scope, and
    who may resolve them.

    Incidents are grouped by the identity of their scope. Aggregates do not depend on the order in
    which incidents with distinct ids arrive, and grouping loses no impact: the worst relevant
    aggregate is exactly as bad as the worst relevant incident. */
module Breakers {
  import opened Prelude
  import opened Sequences
  import JsonText

  datatype Scope = Global | OfAsset(asset: Asset) | OfSlot(slotAsset: Asset, slotKey: Text)
  datatype Impact = Degraded | Cooldown | Blocked
  datatype Policy = Owner | Operator
  datatype Proof = Proof(owner: Text, confirmedAt: Numeric, evidenceId: Text)
  datatype Exposure = NoExposure | Unresolved | ResolvedBy(proof: Proof)

  /** A timestamp of null is not real. */
  datatype Incident = Incident(
    id: Text, scope: Scope, owner: Text, incidentKey: Text, reason: Text, impact: Impact, policy: Policy,
    intentId: Option<Text>, exposure: Exposure, revision: int, triggeredAt: Numeric, cooldownUntil: Numeric,
    isResolved: bool)

  datatype Entry = Entry(incident: Incident, impact: Impact)

  datatype Aggregate = Aggregate(
    scope: Scope, worstImpact: Impact, dominantIncidentId: Text, dominantReason: Text, triggeredAt: real,
    cooldownUntil: Option<real>, activeIncidentCount: int, incidentIds: seq<Text>, incidentKeys: seq<Text>,
    intentIds: seq<Text>, owners: seq<Text>, reasons: seq<Text>, blockingIncidentIds: seq<Text>,
    cooldownIncidentIds: seq<Text>, degradedIncidentIds: seq<Text>, manualKillActive: bool,
    requiresOperatorAcknowledgement: bool)

  // ----- identities

  const OPERATOR: Text := [111, 112, 101, 114, 97, 116, 111, 114]
  const MANUAL_KILL: Text := [109, 97, 110, 117, 97, 108, 45, 107, 105, 108, 108]

  function AssetName(asset: Asset): Text {
    match asset
    case BTC => [98, 116, 99]
    case ETH => [101, 116, 104]
    case SOL => [115, 111, 108]
    case XRP => [120, 114, 112]
    case DOGE => [100, 111, 103, 101]
    case BNB => [98, 110, 98]
    case HYPE => [104, 121, 112, 101]
  }

  /** getScopeIdentityParts */
  function ScopeParts(scope: Scope): JsonText.Json {
    match scope
    case Global => JsonText.Arr([JsonText.Str([48, 45, 103, 108, 111, 98, 97, 108])])
    case OfAsset(asset) =>
      JsonText.Arr([JsonText.Str([49, 45, 97, 115, 115, 101, 116]), JsonText.Str(AssetName(asset))])
    case OfSlot(asset, slotKey) =>
      JsonText.Arr([JsonText.Str([50, 45, 115, 108, 111, 116]), JsonText.Str(AssetName(asset)), JsonText.Str(slotKey)])
  }

  function ScopeIdentity(scope: Scope): Text {
    JsonText.Print(ScopeParts(scope))
  }

  function IncidentIdentity(i: Incident): Text {
    JsonText.Print(JsonText.Arr([ScopeParts(i.scope), JsonText.Str(i.owner), JsonText.Str(i.incidentKey)]))
  }

  lemma AssetNamesDiffer(a: Asset, b: Asset)
    requires AssetName(a) == AssetName(b)
    ensures a == b
  {
    assert AssetName(a)[0] == AssetName(b)[0];
    assert AssetName(a)[1] == AssetName(b)[1];
  }

  lemma PartsDiffer(a: Scope, b: Scope)
    requires ScopeParts(a) == ScopeParts(b)
    ensures a == b
  {
    var x, y := ScopeParts(a).items, ScopeParts(b).items;
    assert x[0] == y[0];
    if !a.Global? && !b.Global? {
      assert x[1] == y[1];
      if a.OfAsset? {
        AssetNamesDiffer(a.asset, b.asset);
      } else {
        assert x[2] == y[2];
        AssetNamesDiffer(a.slotAsset, b.slotAsset);
      }
    }
  }

  lemma PartsAreClean(scope: Scope)
    ensures JsonText.IsClean(ScopeParts(scope))
  {
  }

  /** The text that incidents are grouped by tells scopes apart. */
  lemma ScopeIdentityIsInjective(a: Scope, b: Scope)
    ensures ScopeIdentity(a) == ScopeIdentity(b) <==> a == b
  {
    if ScopeIdentity(a) == ScopeIdentity(b) {
      PartsAreClean(a);
      PartsAreClean(b);
      SamePrint(ScopeParts(a), ScopeParts(b));
      PartsDiffer(a, b);
    }
  }

  lemma SamePrint(v: JsonText.Json, w: JsonText.Json)
    requires JsonText.IsClean(v) && JsonText.IsClean(w)
    ensures JsonText.Print(v) == JsonText.Print(w) ==> v == w
  {
    if JsonText.Print(v) == JsonText.Print(w) {
      JsonText.PrintIsInjective(v, w);
    }
  }

  // ----- effective impact

  predicate IsManualKill(i: Incident) {
    i.scope.Global? && i.owner == OPERATOR && i.incidentKey == MANUAL_KILL && i.policy.Operator?
  }

  predicate HasText(t: Text) {
    exists c :: c in t && !IsWhitespace(c)
  }

  predicate IsValidProof(i: Incident, proof: Proof, now: real) {
    && proof.owner == i.owner && HasText(proof.evidenceId)
    && proof.confirmedAt.Real? && i.triggeredAt.Real?
    && i.triggeredAt.value <= proof.confirmedAt.value <= now
  }

  predicate HasUnresolvedExposure(i: Incident, now: real) {
    match i.exposure
    case NoExposure => false
    case Unresolved => true
    case ResolvedBy(proof) => !IsValidProof(i, proof, now)
  }

  /** getEffectiveCircuitBreakerImpact */
  function EffectiveImpact(i: Incident, now: real): Option<Impact> {
    if i.isResolved then None
    else if IsManualKill(i) || HasUnresolvedExposure(i, now) then Some(Blocked)
    else if !i.impact.Cooldown? then Some(i.impact)
    else if i.cooldownUntil.NotReal? then Some(Blocked)
    else if now < i.cooldownUntil.value then Some(Cooldown)
    else None
  }

  function Severity(impact: Impact): int {
    match impact case Degraded => 1 case Cooldown => 2 case Blocked => 3
  }

  function Worse(worst: Option<Impact>, impact: Option<Impact>): Option<Impact> {
    if impact.Some? && (worst.None? || Severity(impact.value) > Severity(worst.value)) then impact else worst
  }

  function WorstOf(impacts: seq<Option<Impact>>): Option<Impact> {
    if impacts == [] then None else Worse(WorstOf(impacts[..|impacts| - 1]), impacts[|impacts| - 1])
  }

  method GetWorst(impacts: seq<Option<Impact>>) returns (worst: Option<Impact>)
    ensures worst == WorstOf(impacts)
  {
    worst := None;
    for i := 0 to |impacts|
      invariant worst == WorstOf(impacts[..i])
    {
      assert impacts[..i + 1][..i] == impacts[..i];
      if impacts[i].Some? && (worst.None? || Severity(impacts[i].value) > Severity(worst.value)) {
        worst := impacts[i];
      }
    }
    assert impacts[..|impacts|] == impacts;
  }

  predicate NoneWorse(impacts: seq<Option<Impact>>, worst: Option<Impact>) {
    forall m :: m in impacts && m.Some? ==> worst.Some? && Severity(m.value) <= Severity(worst.value)
  }

  /** The worst impact is one of them, and none is worse. */
  lemma {:induction false} WorstIsWorst(impacts: seq<Option<Impact>>)
    ensures NoneWorse(impacts, WorstOf(impacts))
    ensures WorstOf(impacts).Some? ==> WorstOf(impacts) in impacts
  {
    if impacts != [] {
      var init, last := impacts[..|impacts| - 1], impacts[|impacts| - 1];
      WorstIsWorst(init);
      assert impacts == init + [last];
      assert forall m :: m in impacts <==> m in init || m == last;
    }
  }

  lemma WorstUnique(impacts: seq<Option<Impact>>, worst: Option<Impact>)
    requires NoneWorse(impacts, worst) && (worst.Some? ==> worst in impacts)
    ensures worst == WorstOf(impacts)
  {
    WorstIsWorst(impacts);
  }

  lemma WorstIgnoresOrder(a: seq<Option<Impact>>, b: seq<Option<Impact>>)
    requires multiset(a) == multiset(b)
    ensures WorstOf(a) == WorstOf(b)
  {
    SameElements(a, b);
    WorstIsWorst(a);
    WorstUnique(b, WorstOf(a));
  }

  // ----- the fields of an aggregate

  function IncidentId(e: Entry): Text { e.incident.id }
  function IncidentKeyOf(e: Entry): Text { e.incident.incidentKey }
  function OwnerOf(e: Entry): Text { e.incident.owner }
  function ReasonOf(e: Entry): Text { e.incident.reason }
  function ImpactOf(e: Entry): Option<Impact> { Some(e.impact) }

  predicate HasIntent(e: Entry) { e.incident.intentId.Some? }

  function IntentOf(e: Entry): Text {
    if e.incident.intentId.Some? then e.incident.intentId.value else []
  }

  /** A timestamp that is not real counts as the last safe integer. */
  function TriggerTime(e: Entry): real {
    if e.incident.triggeredAt.Real? then e.incident.triggeredAt.value else MAX_SAFE_INTEGER as real
  }

  function HasImpact(impact: Impact): Entry -> bool {
    (e: Entry) => e.impact == impact
  }

  predicate IsCoolingUntil(e: Entry) {
    e.impact.Cooldown? && e.incident.cooldownUntil.Real?
  }

  function CooldownEnd(e: Entry): real {
    if e.incident.cooldownUntil.Real? then e.incident.cooldownUntil.value else 0.0
  }

  function IdentityKey(e: Entry): seq<KeyPart> {
    [Name(IncidentIdentity(e.incident)), Name(e.incident.id)]
  }

  predicate IdentityLeq(a: Entry, b: Entry) {
    KeyLeq(IdentityKey(a), IdentityKey(b))
  }

  /** compareDominantIncident: manual kills first, then by impact, time and identity. */
  function DominanceKey(e: Entry): seq<KeyPart> {
    [Rank(if IsManualKill(e.incident) then 0 else 1), Rank(3 - Severity(e.impact)), Amount(TriggerTime(e)),
     Name(IncidentIdentity(e.incident)), Name(e.incident.id)]
  }

  predicate DominanceLeq(a: Entry, b: Entry) {
    KeyLeq(DominanceKey(a), DominanceKey(b))
  }

  function Least(times: seq<real>): real
    requires times != []
  {
    if |times| == 1 then times[0]
    else
      var rest := Least(times[1..]);
      if times[0] <= rest then times[0] else rest
  }

  function Greatest(times: seq<real>): Option<real> {
    if times == [] then None
    else
      var rest := Greatest(times[1..]);
      if rest.None? || times[0] >= rest.value then Some(times[0]) else rest
  }

  function TextOrder(): (Text, Text) -> bool {
    (a: Text, b: Text) => TextLeq(a, b)
  }

  function UniqueSorted(texts: seq<Text>): seq<Text> {
    SortBy(TextOrder(), Unique(texts))
  }

  function IdsWith(entries: seq<Entry>, impact: Impact): seq<Text> {
    SortBy(TextOrder(), Map(IncidentId, Filter(HasImpact(impact), entries)))
  }

  function Dominant(entries: seq<Entry>): Entry
    requires entries != []
  {
    assert |multiset(SortBy(DominanceLeq, entries))| == |multiset(entries)|;
    SortBy(DominanceLeq, entries)[0]
  }

  /** buildScopeAggregate */
  function Build(entries: seq<Entry>): Aggregate
    requires entries != []
  {
    var dominant := Dominant(entries).incident;
    Aggregate(
      dominant.scope, WorstImpact(entries), dominant.id, dominant.reason, Least(Map(TriggerTime, entries)),
      Greatest(Map(CooldownEnd, Filter(IsCoolingUntil, entries))), |entries|,
      Map(IncidentId, SortBy(IdentityLeq, entries)), UniqueSorted(Map(IncidentKeyOf, entries)),
      UniqueSorted(Map(IntentOf, Filter(HasIntent, entries))), UniqueSorted(Map(OwnerOf, entries)),
      UniqueSorted(Map(ReasonOf, entries)), IdsWith(entries, Blocked), IdsWith(entries, Cooldown),
      IdsWith(entries, Degraded), exists e :: e in entries && IsManualKill(e.incident),
      exists e :: e in entries && e.incident.policy.Operator?)
  }

  function WorstImpact(entries: seq<Entry>): Impact
    requires entries != []
  {
    WorstIsWorst(Map(ImpactOf, entries));
    assert Map(ImpactOf, entries)[0] in Map(ImpactOf, entries);
    WorstOf(Map(ImpactOf, entries)).value
  }

  // ----- aggregation

  function IsActive(now: real): Incident -> bool {
    (i: Incident) => EffectiveImpact(i, now).Some?
  }

  function ToEntry(now: real): Incident -> Entry {
    (i: Incident) => Entry(i, if EffectiveImpact(i, now).Some? then EffectiveImpact(i, now).value else Degraded)
  }

  function ActiveEntries(incidents: seq<Incident>, now: real): seq<Entry> {
    Map(ToEntry(now), Filter(IsActive(now), incidents))
  }

  function GroupKey(e: Entry): Text {
    ScopeIdentity(e.incident.scope)
  }

  const EMPTY_AGGREGATE := Aggregate(
    Global, Degraded, [], [], 0.0, None, 0, [], [], [], [], [], [], [], [], false, false)

  /** No group is empty. */
  function BuildGroup(group: seq<Entry>): Aggregate {
    if group == [] then EMPTY_AGGREGATE else Build(group)
  }

  function AggregateOf(entries: seq<Entry>): Text -> Aggregate {
    GroupImage(GroupKey, BuildGroup, entries)
  }

  function ScopeLeq(): (Aggregate, Aggregate) -> bool {
    (a: Aggregate, b: Aggregate) => TextLeq(ScopeIdentity(a.scope), ScopeIdentity(b.scope))
  }

  /** aggregateCircuitBreakerIncidents, group by group. */
  function Aggregates(incidents: seq<Incident>, now: real): seq<Aggregate> {
    var entries := ActiveEntries(incidents, now);
    SortBy(ScopeLeq(), Map(AggregateOf(entries), Unique(Map(GroupKey, entries))))
  }

  /** The loop over the incidents, with its map of groups. */
  method GroupByScope(incidents: seq<Incident>, now: real) returns (groups: map<Text, seq<Entry>>, keys: seq<Text>)
    ensures AreGroups(GroupKey, groups, keys, ActiveEntries(incidents, now))
  {
    groups, keys := map[], [];
    ghost var entries: seq<Entry> := [];
    for i := 0 to |incidents|
      invariant entries == ActiveEntries(incidents[..i], now)
      invariant AreGroups(GroupKey, groups, keys, entries)
    {
      var incident := incidents[i];
      ActiveNext(incidents, i, now);
      var impact := EffectiveImpact(incident, now);
      if impact.Some? {
        var entry := Entry(incident, impact.value);
        var key := GroupKey(entry);
        if key in groups {
          GroupGrows(GroupKey, groups, keys, entries, entry);
          groups := groups[key := groups[key] + [entry]];
        } else {
          GroupStarts(GroupKey, groups, keys, entries, entry);
          groups := groups[key := [entry]];
          keys := keys + [key];
        }
        entries := entries + [entry];
      }
    }
    assert incidents[..|incidents|] == incidents;
  }

  lemma ActiveNext(incidents: seq<Incident>, i: nat, now: real)
    requires i < |incidents|
    ensures ActiveEntries(incidents[..i + 1], now)
         == if EffectiveImpact(incidents[i], now).Some?
            then ActiveEntries(incidents[..i], now) + [Entry(incidents[i], EffectiveImpact(incidents[i], now).value)]
            else ActiveEntries(incidents[..i], now)
  {
    assert incidents[..i + 1] == incidents[..i] + [incidents[i]];
    FilterSnoc(IsActive(now), incidents[..i], incidents[i]);
    MapSnoc(ToEntry(now), Filter(IsActive(now), incidents[..i]), incidents[i]);
  }

  method AggregateIncidents(incidents: seq<Incident>, now: real) returns (aggregates: seq<Aggregate>)
    ensures aggregates == Aggregates(incidents, now)
  {
    var groups, keys := GroupByScope(incidents, now);
    var built := MapGroups(GroupKey, BuildGroup, groups, keys, ActiveEntries(incidents, now));
    return SortBy(ScopeLeq(), built);
  }

  // ----- the order of incidents does not matter

  lemma KeyedOrder(leq: (Entry, Entry) -> bool, key: Entry -> seq<KeyPart>, entries: seq<Entry>)
    requires SortsByKey(leq, key) && NoDuplicates(Map(IncidentId, entries))
    requires forall x, y :: key(x) == key(y) ==> IncidentId(x) == IncidentId(y)
    ensures Orders(leq, multiset(entries))
  {
    forall x, y | x in multiset(entries) && y in multiset(entries) && key(x) == key(y)
      ensures x == y
    {
      DistinctImages(IncidentId, entries, x, y);
    }
    KeysOrder(leq, key, multiset(entries));
  }

  lemma EntriesAreOrdered(entries: seq<Entry>)
    requires NoDuplicates(Map(IncidentId, entries))
    ensures Orders(IdentityLeq, multiset(entries)) && Orders(DominanceLeq, multiset(entries))
  {
    forall x, y | IdentityKey(x) == IdentityKey(y)
      ensures IncidentId(x) == IncidentId(y)
    {
      assert IdentityKey(x)[1] == IdentityKey(y)[1];
    }
    forall x, y | DominanceKey(x) == DominanceKey(y)
      ensures IncidentId(x) == IncidentId(y)
    {
      assert DominanceKey(x)[4] == DominanceKey(y)[4];
    }
    KeyedOrder(IdentityLeq, IdentityKey, entries);
    KeyedOrder(DominanceLeq, DominanceKey, entries);
  }

  lemma TextsAreOrdered(m: multiset<Text>)
    ensures Orders(TextOrder(), m)
  {
    forall x: Text, y: Text
      ensures TextLeq(x, y) || TextLeq(y, x)
      ensures TextLeq(x, y) && TextLeq(y, x) ==> x == y
    {
      TextLeqTotal(x, y);
    }
    forall x: Text, y: Text, z: Text | TextLeq(x, y) && TextLeq(y, z)
      ensures TextLeq(x, z)
    {
      TextLeqTransitive(x, y, z);
    }
  }

  lemma UniqueSortedIgnoresOrder(a: seq<Text>, b: seq<Text>)
    requires multiset(a) == multiset(b)
    ensures UniqueSorted(a) == UniqueSorted(b)
  {
    SameElements(a, b);
    SameSetMultiset(Unique(a), Unique(b));
    TextsAreOrdered(multiset(Unique(a)));
    SortByCanonical(TextOrder(), Unique(a), Unique(b));
  }

  lemma {:induction false} LeastIsLeast(times: seq<real>)
    requires times != []
    ensures Least(times) in times && forall t :: t in times ==> Least(times) <= t
  {
    if |times| > 1 {
      LeastIsLeast(times[1..]);
      assert forall t :: t in times <==> t == times[0] || t in times[1..];
    }
  }

  lemma {:induction false} GreatestIsGreatest(times: seq<real>)
    ensures times == [] <==> Greatest(times).None?
    ensures Greatest(times).Some? ==>
              Greatest(times).value in times && forall t :: t in times ==> t <= Greatest(times).value
  {
    if times != [] {
      GreatestIsGreatest(times[1..]);
      assert forall t :: t in times <==> t == times[0] || t in times[1..];
    }
  }

  lemma TimesIgnoreOrder(a: seq<real>, b: seq<real>)
    requires multiset(a) == multiset(b)
    ensures a != [] ==> b != [] && Least(a) == Least(b)
    ensures Greatest(a) == Greatest(b)
  {
    SameElements(a, b);
    GreatestIsGreatest(a);
    GreatestIsGreatest(b);
    if a != [] {
      LeastIsLeast(a);
      LeastIsLeast(b);
    }
  }

  lemma IdsIgnoreOrder(a: seq<Entry>, b: seq<Entry>, impact: Impact)
    requires multiset(a) == multiset(b)
    ensures IdsWith(a, impact) == IdsWith(b, impact)
  {
    var x, y := Filter(HasImpact(impact), a), Filter(HasImpact(impact), b);
    FilterPermutation(HasImpact(impact), a, b);
    MapPermutation(IncidentId, x, y);
    TextsAreOrdered(multiset(Map(IncidentId, x)));
    SortByCanonical(TextOrder(), Map(IncidentId, x), Map(IncidentId, y));
  }

  lemma TextFieldsIgnoreOrder(f: Entry -> Text, a: seq<Entry>, b: seq<Entry>)
    requires multiset(a) == multiset(b)
    ensures UniqueSorted(Map(f, a)) == UniqueSorted(Map(f, b))
  {
    MapPermutation(f, a, b);
    UniqueSortedIgnoresOrder(Map(f, a), Map(f, b));
  }

  lemma SortedFieldsIgnoreOrder(a: seq<Entry>, b: seq<Entry>)
    requires a != [] && b != [] && multiset(a) == multiset(b) && NoDuplicates(Map(IncidentId, a))
    ensures Dominant(a) == Dominant(b)
    ensures Map(IncidentId, SortBy(IdentityLeq, a)) == Map(IncidentId, SortBy(IdentityLeq, b))
  {
    EntriesAreOrdered(a);
    SortByCanonical(DominanceLeq, a, b);
    SortByCanonical(IdentityLeq, a, b);
  }

  lemma NumbersIgnoreOrder(a: seq<Entry>, b: seq<Entry>)
    requires a != [] && b != [] && multiset(a) == multiset(b)
    ensures WorstImpact(a) == WorstImpact(b)
    ensures Least(Map(TriggerTime, a)) == Least(Map(TriggerTime, b))
    ensures Greatest(Map(CooldownEnd, Filter(IsCoolingUntil, a)))
         == Greatest(Map(CooldownEnd, Filter(IsCoolingUntil, b)))
  {
    MapPermutation(ImpactOf, a, b);
    WorstIgnoresOrder(Map(ImpactOf, a), Map(ImpactOf, b));
    MapPermutation(TriggerTime, a, b);
    TimesIgnoreOrder(Map(TriggerTime, a), Map(TriggerTime, b));
    FilterPermutation(IsCoolingUntil, a, b);
    MapPermutation(CooldownEnd, Filter(IsCoolingUntil, a), Filter(IsCoolingUntil, b));
    TimesIgnoreOrder(Map(CooldownEnd, Filter(IsCoolingUntil, a)), Map(CooldownEnd, Filter(IsCoolingUntil, b)));
  }

  lemma BuildIgnoresOrder(a: seq<Entry>, b: seq<Entry>)
    requires a != [] && b != [] && multiset(a) == multiset(b) && NoDuplicates(Map(IncidentId, a))
    ensures Build(a) == Build(b)
  {
    SortedFieldsIgnoreOrder(a, b);
    NumbersIgnoreOrder(a, b);
    TextFieldsIgnoreOrder(IncidentKeyOf, a, b);
    TextFieldsIgnoreOrder(OwnerOf, a, b);
    TextFieldsIgnoreOrder(ReasonOf, a, b);
    FilterPermutation(HasIntent, a, b);
    TextFieldsIgnoreOrder(IntentOf, Filter(HasIntent, a), Filter(HasIntent, b));
    IdsIgnoreOrder(a, b, Blocked);
    IdsIgnoreOrder(a, b, Cooldown);
    IdsIgnoreOrder(a, b, Degraded);
    SameElements(a, b);
  }

  lemma BuildGroupIgnoresOrder(a: seq<Entry>, b: seq<Entry>)
    requires multiset(a) == multiset(b) && NoDuplicates(Map(IncidentId, a))
    ensures BuildGroup(a) == BuildGroup(b)
  {
    SameElements(a, b);
    if a != [] {
      BuildIgnoresOrder(a, b);
    }
  }

  lemma GroupIgnoresOrder(a: seq<Entry>, b: seq<Entry>, key: Text)
    requires multiset(a) == multiset(b) && NoDuplicates(Map(IncidentId, a))
    ensures AggregateOf(a)(key) == AggregateOf(b)(key)
  {
    FilterPermutation(HasImage(GroupKey, key), a, b);
    FilterDistinct(IncidentId, HasImage(GroupKey, key), a);
    BuildGroupIgnoresOrder(GroupOf(GroupKey, a, key), GroupOf(GroupKey, b, key));
  }

  function Id(i: Incident): Text { i.id }

  lemma ActiveEntriesPermute(a: seq<Incident>, b: seq<Incident>, now: real)
    requires multiset(a) == multiset(b) && NoDuplicates(Map(Id, a))
    ensures multiset(ActiveEntries(a, now)) == multiset(ActiveEntries(b, now))
    ensures NoDuplicates(Map(IncidentId, ActiveEntries(a, now)))
  {
    var x := Filter(IsActive(now), a);
    FilterPermutation(IsActive(now), a, b);
    MapPermutation(ToEntry(now), x, Filter(IsActive(now), b));
    FilterDistinct(Id, IsActive(now), a);
    assert Map(IncidentId, Map(ToEntry(now), x)) == Map(Id, x);
  }

  lemma KeysPermute(a: seq<Entry>, b: seq<Entry>)
    requires multiset(a) == multiset(b)
    ensures multiset(Unique(Map(GroupKey, a))) == multiset(Unique(Map(GroupKey, b)))
  {
    MapPermutation(GroupKey, a, b);
    SameElements(Map(GroupKey, a), Map(GroupKey, b));
    SameSetMultiset(Unique(Map(GroupKey, a)), Unique(Map(GroupKey, b)));
  }

  /** Groups of other scopes have other aggregates, and the scope orders them. */
  lemma AggregatesAreOrdered(f: Text -> Aggregate, keys: seq<Text>)
    requires forall key :: key in keys ==> ScopeIdentity(f(key).scope) == key
    ensures Orders(ScopeLeq(), multiset(Map(f, keys)))
  {
    var m := Map(f, keys);
    forall x: Aggregate, y: Aggregate
      | x in multiset(m) && y in multiset(m) && ScopeIdentity(x.scope) == ScopeIdentity(y.scope)
      ensures x == y
    {
      var i :| 0 <= i < |keys| && m[i] == x;
      var k :| 0 <= k < |keys| && m[k] == y;
      assert keys[i] in keys && keys[k] in keys;
    }
    ScopesOrder(multiset(m));
  }

  function ScopeKey(a: Aggregate): seq<KeyPart> {
    [Name(ScopeIdentity(a.scope))]
  }

  lemma ScopesOrder(m: multiset<Aggregate>)
    requires forall x, y :: x in m && y in m && ScopeIdentity(x.scope) == ScopeIdentity(y.scope) ==> x == y
    ensures Orders(ScopeLeq(), m)
  {
    forall x, y
      ensures ScopeLeq()(x, y) <==> KeyLeq(ScopeKey(x), ScopeKey(y))
    {
      OneName(ScopeIdentity(x.scope), ScopeIdentity(y.scope));
    }
    forall x, y | x in m && y in m && ScopeKey(x) == ScopeKey(y)
      ensures x == y
    {
      assert ScopeKey(x)[0] == ScopeKey(y)[0];
    }
    KeysOrder(ScopeLeq(), ScopeKey, m);
  }

  lemma OneName(a: Text, b: Text)
    ensures KeyLeq([Name(a)], [Name(b)]) <==> TextLeq(a, b)
  {
    TextLeqTotal(a, b);
  }

  lemma BuiltFields(group: seq<Entry>)
    requires group != []
    ensures Dominant(group) in group && BuildGroup(group).scope == Dominant(group).incident.scope
    ensures BuildGroup(group).worstImpact == WorstImpact(group)
  {
    DominantIsMember(group);
  }

  lemma GroupImageAt(entries: seq<Entry>, key: Text)
    ensures AggregateOf(entries)(key) == BuildGroup(GroupOf(GroupKey, entries, key))
  {
  }

  /** A group is one scope's, and so is its aggregate. */
  lemma GroupScope(entries: seq<Entry>, key: Text)
    requires key in Map(GroupKey, entries)
    ensures GroupOf(GroupKey, entries, key) != []
    ensures ScopeIdentity(AggregateOf(entries)(key).scope) == key
  {
    var group := GroupOf(GroupKey, entries, key);
    GroupMembers(GroupKey, entries, key);
    BuiltFields(group);
    GroupImageAt(entries, key);
    assert GroupKey(Dominant(group)) == key;
  }

  lemma DominantIsMember(entries: seq<Entry>)
    requires entries != []
    ensures Dominant(entries) in entries
  {
    var sorted := SortBy(DominanceLeq, entries);
    SameElements(sorted, entries);
    assert sorted[0] in sorted;
  }

  /** Aggregation does not depend on the order in which incidents with distinct ids arrive. */
  lemma AggregationIgnoresOrder(a: seq<Incident>, b: seq<Incident>, now: real)
    requires multiset(a) == multiset(b) && NoDuplicates(Map(Id, a))
    ensures Aggregates(a, now) == Aggregates(b, now)
  {
    var x, y := ActiveEntries(a, now), ActiveEntries(b, now);
    ActiveEntriesPermute(a, b, now);
    EntriesAggregateAlike(x, y);
  }

  lemma EntriesAggregateAlike(a: seq<Entry>, b: seq<Entry>)
    requires multiset(a) == multiset(b) && NoDuplicates(Map(IncidentId, a))
    ensures SortBy(ScopeLeq(), Map(AggregateOf(a), Unique(Map(GroupKey, a))))
         == SortBy(ScopeLeq(), Map(AggregateOf(b), Unique(Map(GroupKey, b))))
  {
    var keys, others := Unique(Map(GroupKey, a)), Unique(Map(GroupKey, b));
    KeysPermute(a, b);
    forall key | key in keys
      ensures ScopeIdentity(AggregateOf(a)(key).scope) == key
    {
      GroupScope(a, key);
    }
    AggregatesAreOrdered(AggregateOf(a), keys);
    forall key
      ensures AggregateOf(a)(key) == AggregateOf(b)(key)
    {
      GroupIgnoresOrder(a, b, key);
    }
    MapExtensional(AggregateOf(a), AggregateOf(b), others);
    MapPermutation(AggregateOf(a), keys, others);
    SortByCanonical(ScopeLeq(), Map(AggregateOf(a), keys), Map(AggregateOf(b), others));
  }

  // ----- the dominant incident

  /** An entry with its incident's effective impact. */
  predicate IsFaithful(e: Entry, now: real) {
    EffectiveImpact(e.incident, now) == Some(e.impact)
  }

  /** The dominant incident has the worst impact of its scope, and is a manual kill if there is one. */
  lemma DominantIsWorst(entries: seq<Entry>, now: real)
    requires entries != [] && forall e :: e in entries ==> IsFaithful(e, now)
    ensures Dominant(entries) in entries && Dominant(entries).impact == WorstImpact(entries)
    ensures (exists e :: e in entries && IsManualKill(e.incident)) ==> IsManualKill(Dominant(entries).incident)
  {
    var dominant := Dominant(entries);
    DominantIsMember(entries);
    forall e | e in entries
      ensures DominanceLeq(dominant, e)
    {
      DominantComesFirst(entries, e);
    }
    forall e | e in entries
      ensures Severity(e.impact) <= Severity(dominant.impact)
      ensures IsManualKill(e.incident) ==> IsManualKill(dominant.incident)
    {
      DominatesBySeverity(dominant, e, now);
    }
    SeverestIsWorst(entries, dominant);
  }

  lemma DominantComesFirst(entries: seq<Entry>, e: Entry)
    requires e in entries
    ensures DominanceLeq(Dominant(entries), e)
  {
    var sorted := SortBy(DominanceLeq, entries);
    KeysOrder(DominanceLeq, DominanceKey, multiset(entries));
    SortBySorted(DominanceLeq, entries);
    SameElements(sorted, entries);
    TailMultiset(sorted);
    assert e in multiset(sorted);
    KeyLeqTotal(DominanceKey(e), DominanceKey(e));
  }

  lemma DominatesBySeverity(dominant: Entry, e: Entry, now: real)
    requires IsFaithful(dominant, now) && IsFaithful(e, now) && DominanceLeq(dominant, e)
    ensures Severity(e.impact) <= Severity(dominant.impact)
    ensures IsManualKill(e.incident) ==> IsManualKill(dominant.incident)
  {
    var x, y := DominanceKey(dominant), DominanceKey(e);
    assert x[0] == y[0] || PartLeq(x[0], y[0]);
    if x[0] == y[0] {
      SecondPart(x, y);
    }
  }

  lemma SecondPart(x: seq<KeyPart>, y: seq<KeyPart>)
    requires |x| >= 2 && |y| >= 2 && KeyLeq(x, y) && x[0] == y[0]
    ensures x[1] == y[1] || PartLeq(x[1], y[1])
  {
    assert x[1..][0] == x[1] && y[1..][0] == y[1];
  }

  lemma SeverestIsWorst(entries: seq<Entry>, e: Entry)
    requires e in entries && forall other :: other in entries ==> Severity(other.impact) <= Severity(e.impact)
    ensures WorstImpact(entries) == e.impact
  {
    var impacts := Map(ImpactOf, entries);
    var i :| 0 <= i < |entries| && entries[i] == e;
    assert impacts[i] == Some(e.impact);
    forall m | m in impacts && m.Some?
      ensures Severity(m.value) <= Severity(e.impact)
    {
      var k :| 0 <= k < |impacts| && impacts[k] == m;
      assert entries[k] in entries;
    }
    WorstUnique(impacts, Some(e.impact));
  }

  // ----- the three id lists

  /** The lists of blocking, cooling and degraded incidents hold each active incident of the scope
      once. */
  lemma ListsPartition(entries: seq<Entry>)
    requires entries != []
    ensures var a := Build(entries);
            && multiset(a.blockingIncidentIds + a.cooldownIncidentIds + a.degradedIncidentIds)
            == multiset(Map(IncidentId, entries))
            && multiset(a.incidentIds) == multiset(Map(IncidentId, entries))
  {
    PartsByImpact(entries);
    var blocked, cooling := Filter(HasImpact(Blocked), entries), Filter(HasImpact(Cooldown), entries);
    var degraded := Filter(HasImpact(Degraded), entries);
    MapPermutation(IncidentId, entries, blocked + (cooling + degraded));
    MapConcat(IncidentId, blocked, cooling + degraded);
    MapConcat(IncidentId, cooling, degraded);
    MapPermutation(IncidentId, SortBy(IdentityLeq, entries), entries);
    SortedParts(Map(IncidentId, blocked), Map(IncidentId, cooling), Map(IncidentId, degraded));
  }

  lemma SortedParts(a: seq<Text>, b: seq<Text>, c: seq<Text>)
    ensures multiset(SortBy(TextOrder(), a) + SortBy(TextOrder(), b) + SortBy(TextOrder(), c)) == multiset(a + (b + c))
  {
  }

  lemma PartsByImpact(entries: seq<Entry>)
    ensures multiset(entries)
         == multiset(Filter(HasImpact(Blocked), entries)
                     + (Filter(HasImpact(Cooldown), entries) + Filter(HasImpact(Degraded), entries)))
  {
    var others := Filter(IsNotBlocked, entries);
    FilterParts(HasImpact(Blocked), IsNotBlocked, entries);
    FilterParts(HasImpact(Cooldown), HasImpact(Degraded), others);
    FilterTwice(IsNotBlocked, HasImpact(Cooldown), entries);
    FilterTwice(IsNotBlocked, HasImpact(Degraded), entries);
  }

  predicate IsNotBlocked(e: Entry) { !e.impact.Blocked? }

  /** Entries come from active incidents, with their effective impact. */
  lemma EntriesAreFaithful(incidents: seq<Incident>, now: real)
    ensures forall e :: e in ActiveEntries(incidents, now) ==> IsFaithful(e, now) && e.incident in incidents
  {
    var active, entries := Filter(IsActive(now), incidents), ActiveEntries(incidents, now);
    forall e | e in entries
      ensures IsFaithful(e, now) && e.incident in incidents
    {
      var i :| 0 <= i < |active| && entries[i] == e;
      assert active[i] in active;
    }
  }

  lemma ActiveHasEntry(incidents: seq<Incident>, now: real, i: Incident)
    requires i in incidents && EffectiveImpact(i, now).Some?
    ensures Entry(i, EffectiveImpact(i, now).value) in ActiveEntries(incidents, now)
  {
    var active := Filter(IsActive(now), incidents);
    assert i in active;
    var k :| 0 <= k < |active| && active[k] == i;
    assert Map(ToEntry(now), active)[k] == Entry(i, EffectiveImpact(i, now).value);
  }

  /** Every active incident is in exactly one group, that of its scope. */
  lemma OneGroupEach(incidents: seq<Incident>, now: real, i: Incident, key: Text)
    requires i in incidents && EffectiveImpact(i, now).Some?
    ensures Entry(i, EffectiveImpact(i, now).value) in GroupOf(GroupKey, ActiveEntries(incidents, now), key)
       <==> key == ScopeIdentity(i.scope)
  {
    var e := Entry(i, EffectiveImpact(i, now).value);
    ActiveHasEntry(incidents, now, i);
    InGroupIff(GroupKey, ActiveEntries(incidents, now), e, key);
    assert GroupKey(e) == ScopeIdentity(i.scope);
  }

  // ----- the worst relevant impact

  predicate IsRelevant(scope: Scope, asset: Asset, slotKey: Option<Text>) {
    match scope
    case Global => true
    case OfAsset(a) => a == asset
    case OfSlot(a, key) => a == asset && slotKey == Some(key)
  }

  function RelevantAggregate(asset: Asset, slotKey: Option<Text>): Aggregate -> bool {
    (a: Aggregate) => IsRelevant(a.scope, asset, slotKey)
  }

  function RelevantIncident(asset: Asset, slotKey: Option<Text>): Incident -> bool {
    (i: Incident) => IsRelevant(i.scope, asset, slotKey)
  }

  function AggregateImpact(a: Aggregate): Option<Impact> { Some(a.worstImpact) }

  function ImpactAt(now: real): Incident -> Option<Impact> {
    (i: Incident) => EffectiveImpact(i, now)
  }

  /** getWorstRelevantCircuitBreakerImpact */
  function WorstRelevant(aggregates: seq<Aggregate>, asset: Asset, slotKey: Option<Text>): Option<Impact> {
    WorstOf(RelevantImpacts(aggregates, asset, slotKey))
  }

  /** Every incident of a group has the group's scope. */
  lemma GroupHasOneScope(entries: seq<Entry>, key: Text, e: Entry)
    requires e in GroupOf(GroupKey, entries, key)
    ensures e in entries && AggregateOf(entries)(key).scope == e.incident.scope
    ensures key in Map(GroupKey, entries)
  {
    GroupMembers(GroupKey, entries, key);
    var i :| 0 <= i < |entries| && entries[i] == e;
    assert Map(GroupKey, entries)[i] == key;
    GroupScope(entries, key);
    assert GroupKey(e) == key;
    ScopeIdentityIsInjective(AggregateOf(entries)(key).scope, e.incident.scope);
  }

  /** Some incident of the group has the aggregate's impact, and none has a worse one. */
  lemma GroupImpact(entries: seq<Entry>, key: Text) returns (e: Entry)
    requires key in Map(GroupKey, entries)
    ensures e in GroupOf(GroupKey, entries, key) && e.impact == AggregateOf(entries)(key).worstImpact
    ensures forall x :: x in GroupOf(GroupKey, entries, key) ==> Severity(x.impact) <= Severity(e.impact)
  {
    var group := GroupOf(GroupKey, entries, key);
    GroupMembers(GroupKey, entries, key);
    BuiltFields(group);
    GroupImageAt(entries, key);
    e := WorstEntry(group);
  }

  lemma WorstEntry(entries: seq<Entry>) returns (e: Entry)
    requires entries != []
    ensures e in entries && e.impact == WorstImpact(entries)
    ensures forall x :: x in entries ==> Severity(x.impact) <= Severity(e.impact)
  {
    var impacts := Map(ImpactOf, entries);
    WorstIsWorst(impacts);
    assert impacts[0] in impacts;
    var k :| 0 <= k < |impacts| && impacts[k] == WorstOf(impacts);
    e := entries[k];
    forall x | x in entries
      ensures Severity(x.impact) <= Severity(e.impact)
    {
      var i :| 0 <= i < |entries| && entries[i] == x;
      assert impacts[i] in impacts;
    }
  }

  /** All aggregates, as the images of the groups' keys. */
  lemma AggregatesAre(incidents: seq<Incident>, now: real, a: Aggregate)
    ensures var entries := ActiveEntries(incidents, now);
            a in Aggregates(incidents, now) <==>
            exists key :: key in Map(GroupKey, entries) && a == AggregateOf(entries)(key)
  {
    var entries := ActiveEntries(incidents, now);
    var keys := Unique(Map(GroupKey, entries));
    var built := Map(AggregateOf(entries), keys);
    SameElements(Aggregates(incidents, now), built);
    if a in built {
      var i :| 0 <= i < |keys| && built[i] == a;
      assert keys[i] in keys;
    }
    forall key | key in Map(GroupKey, entries) && a == AggregateOf(entries)(key)
      ensures a in built
    {
      assert key in keys;
      var i :| 0 <= i < |keys| && keys[i] == key;
      assert built[i] == a;
    }
  }

  /** Each relevant incident's impact is no worse than that of a relevant aggregate. */
  lemma IncidentIsCovered(incidents: seq<Incident>, now: real, asset: Asset, slotKey: Option<Text>, i: Incident)
    returns (a: Aggregate)
    requires i in incidents && EffectiveImpact(i, now).Some? && IsRelevant(i.scope, asset, slotKey)
    ensures a in Aggregates(incidents, now) && IsRelevant(a.scope, asset, slotKey)
    ensures Severity(EffectiveImpact(i, now).value) <= Severity(a.worstImpact)
  {
    var entries := ActiveEntries(incidents, now);
    var e, key := Entry(i, EffectiveImpact(i, now).value), ScopeIdentity(i.scope);
    OneGroupEach(incidents, now, i, key);
    GroupHasOneScope(entries, key, e);
    var worst := GroupImpact(entries, key);
    a := AggregateOf(entries)(key);
    AggregatesAre(incidents, now, a);
  }

  /** Each relevant aggregate's impact is that of a relevant incident. */
  lemma AggregateIsCovered(incidents: seq<Incident>, now: real, asset: Asset, slotKey: Option<Text>, a: Aggregate)
    returns (i: Incident)
    requires a in Aggregates(incidents, now) && IsRelevant(a.scope, asset, slotKey)
    ensures i in incidents && IsRelevant(i.scope, asset, slotKey) && EffectiveImpact(i, now) == Some(a.worstImpact)
  {
    var entries := ActiveEntries(incidents, now);
    AggregatesAre(incidents, now, a);
    var key :| key in Map(GroupKey, entries) && a == AggregateOf(entries)(key);
    var worst := GroupImpact(entries, key);
    GroupHasOneScope(entries, key, worst);
    EntriesAreFaithful(incidents, now);
    i := worst.incident;
  }

  function RelevantImpacts(aggregates: seq<Aggregate>, asset: Asset, slotKey: Option<Text>): seq<Option<Impact>> {
    Map(AggregateImpact, SortBy(ScopeLeq(), Filter(RelevantAggregate(asset, slotKey), aggregates)))
  }

  lemma RelevantImpactIff(aggregates: seq<Aggregate>, asset: Asset, slotKey: Option<Text>, m: Option<Impact>)
    ensures m in RelevantImpacts(aggregates, asset, slotKey) <==>
            exists a :: a in aggregates && IsRelevant(a.scope, asset, slotKey) && Some(a.worstImpact) == m
  {
    var relevant := Filter(RelevantAggregate(asset, slotKey), aggregates);
    var sorted := SortBy(ScopeLeq(), relevant);
    SameElements(sorted, relevant);
    if m in RelevantImpacts(aggregates, asset, slotKey) {
      var k :| 0 <= k < |sorted| && Map(AggregateImpact, sorted)[k] == m;
      assert sorted[k] in sorted && sorted[k] in relevant;
    }
    forall a | a in aggregates && IsRelevant(a.scope, asset, slotKey) && Some(a.worstImpact) == m
      ensures m in RelevantImpacts(aggregates, asset, slotKey)
    {
      assert a in relevant && a in sorted;
      Mapped(AggregateImpact, sorted, a);
    }
  }

  function DirectImpacts(incidents: seq<Incident>, now: real, asset: Asset, slotKey: Option<Text>)
    : seq<Option<Impact>>
  {
    Map(ImpactAt(now), Filter(RelevantIncident(asset, slotKey), incidents))
  }

  lemma DirectIsCovered(incidents: seq<Incident>, now: real, asset: Asset, slotKey: Option<Text>, m: Option<Impact>)
    requires m in DirectImpacts(incidents, now, asset, slotKey) && m.Some?
    ensures var worst := WorstRelevant(Aggregates(incidents, now), asset, slotKey);
            worst.Some? && Severity(m.value) <= Severity(worst.value)
  {
    var mine := Filter(RelevantIncident(asset, slotKey), incidents);
    var k :| 0 <= k < |mine| && Map(ImpactAt(now), mine)[k] == m;
    assert mine[k] in mine;
    var a := IncidentIsCovered(incidents, now, asset, slotKey, mine[k]);
    RelevantImpactIff(Aggregates(incidents, now), asset, slotKey, Some(a.worstImpact));
    WorstIsWorst(RelevantImpacts(Aggregates(incidents, now), asset, slotKey));
  }

  lemma WorstIsAttained(incidents: seq<Incident>, now: real, asset: Asset, slotKey: Option<Text>)
    requires WorstRelevant(Aggregates(incidents, now), asset, slotKey).Some?
    ensures WorstRelevant(Aggregates(incidents, now), asset, slotKey) in DirectImpacts(incidents, now, asset, slotKey)
  {
    var worst := WorstRelevant(Aggregates(incidents, now), asset, slotKey);
    WorstIsWorst(RelevantImpacts(Aggregates(incidents, now), asset, slotKey));
    RelevantImpactIff(Aggregates(incidents, now), asset, slotKey, worst);
    var a :| a in Aggregates(incidents, now) && IsRelevant(a.scope, asset, slotKey) && Some(a.worstImpact) == worst;
    var i := AggregateIsCovered(incidents, now, asset, slotKey, a);
    assert i in Filter(RelevantIncident(asset, slotKey), incidents);
    Mapped(ImpactAt(now), Filter(RelevantIncident(asset, slotKey), incidents), i);
  }

  /** Grouping hides nothing: the worst impact among the relevant aggregates is the worst effective
      impact among the relevant incidents themselves. */
  lemma WorstRelevantIsDirect(incidents: seq<Incident>, now: real, asset: Asset, slotKey: Option<Text>)
    ensures WorstRelevant(Aggregates(incidents, now), asset, slotKey)
         == WorstOf(DirectImpacts(incidents, now, asset, slotKey))
  {
    var impacts := DirectImpacts(incidents, now, asset, slotKey);
    var worst := WorstRelevant(Aggregates(incidents, now), asset, slotKey);
    forall m | m in impacts && m.Some?
      ensures worst.Some? && Severity(m.value) <= Severity(worst.value)
    {
      DirectIsCovered(incidents, now, asset, slotKey, m);
    }
    if worst.Some? {
      WorstIsAttained(incidents, now, asset, slotKey);
    }
    WorstUnique(impacts, worst);
  }

  // ----- resolution

  datatype Denial =
    | AlreadyResolved | ConditionNotRecovered | CooldownActive | InvalidActor | InvalidRecoveryProof
    | OwnerMismatch | ResolutionPolicyMismatch | RevisionConflict | UnresolvedExposure

  datatype ResolveRequest = ResolveRequest(
    owner: Text, expectedRevision: int, now: real, conditionRecovered: bool, proof: Option<Proof>)

  function ExposureDenial(i: Incident, proof: Option<Proof>, now: real): Option<Denial> {
    match i.exposure
    case NoExposure => None
    case ResolvedBy(_) => if HasUnresolvedExposure(i, now) then Some(InvalidRecoveryProof) else None
    case Unresolved =>
      if proof.None? then Some(UnresolvedExposure)
      else if IsValidProof(i, proof.value, now) then None
      else Some(InvalidRecoveryProof)
  }

  /** evaluateOwnerAutoResolve; none where it allows the resolution. */
  function OwnerDenial(i: Incident, request: ResolveRequest): Option<Denial> {
    if i.isResolved then Some(AlreadyResolved)
    else if request.expectedRevision != i.revision then Some(RevisionConflict)
    else if !i.policy.Owner? then Some(ResolutionPolicyMismatch)
    else if !HasText(request.owner) then Some(InvalidActor)
    else if request.owner != i.owner then Some(OwnerMismatch)
    else if !request.conditionRecovered then Some(ConditionNotRecovered)
    else if ExposureDenial(i, request.proof, request.now).Some? then ExposureDenial(i, request.proof, request.now)
    else if i.impact.Cooldown? && (i.cooldownUntil.NotReal? || request.now < i.cooldownUntil.value)
    then Some(CooldownActive)
    else None
  }

  /** With the exposure proven, what is left of the incident's impact. */
  function Recovered(i: Incident, proof: Option<Proof>): Incident {
    if i.exposure.Unresolved? && proof.Some? then i.(exposure := ResolvedBy(proof.value)) else i
  }

  /** An owner may resolve an incident only once nothing but its own plain impact is left of it: no
      manual kill, no open exposure, and no cooldown that still runs or has no end. */
  lemma OwnerResolvesOnlyRecovered(i: Incident, request: ResolveRequest)
    requires OwnerDenial(i, request).None?
    ensures !i.isResolved && !IsManualKill(i) && request.owner == i.owner
    ensures var impact := EffectiveImpact(Recovered(i, request.proof), request.now);
            if i.impact.Cooldown? then impact.None? else impact == Some(i.impact)
  {
  }
}
