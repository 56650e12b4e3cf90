/** The canonical JSON printer behind request identities: object members are sorted by key and
    undefined members dropped. */
module CanonicalJson {
  import opened Prelude
  import opened Sequences
  import opened JsonText

  /** localeCompare's "not after": which order it is belongs to the host. */
  type Collation = (Text, Text) -> bool

  // ----- the printer

  datatype Member = Member(key: Text, text: Text)

  function MemberText(m: Member): Text {
    Quoted(m.key) + [COLON] + m.text
  }

  function MemberLeq(leq: Collation): (Member, Member) -> bool {
    (a: Member, b: Member) => leq(a.key, b.key)
  }

  /** canonicalizeJson; none where the source throws. Printing the members before sorting them makes
      no difference to the text, as sorting looks at keys alone. */
  function Canonicalize(leq: Collation, v: Json): Option<Text>
    decreases v, 1
  {
    match v
    case NonFinite => None
    case Undefined => None
    case Unsupported => None
    case Arr(items) =>
      var texts := CanonicalizeAll(leq, items);
      if texts.None? then None else Some([OPEN_ARRAY] + Join(texts.value) + [CLOSE_ARRAY])
    case Obj(entries) =>
      var members := CanonicalizeMembers(leq, entries);
      if members.None? then None
      else
        Some([OPEN_OBJECT] + Join(Map(MemberText, SortBy(MemberLeq(leq), members.value))) + [CLOSE_OBJECT])
    case _ => Some(Print(v))
  }

  function CanonicalizeAll(leq: Collation, items: seq<Json>): Option<seq<Text>>
    decreases items, 0
  {
    if items == [] then Some([])
    else
      var head, tail := Canonicalize(leq, items[0]), CanonicalizeAll(leq, items[1..]);
      if head.None? || tail.None? then None else Some([head.value] + tail.value)
  }

  function CanonicalizeMembers(leq: Collation, entries: seq<Entry>): Option<seq<Member>>
    decreases entries, 0
  {
    if entries == [] then Some([])
    else if entries[0].value.Undefined? then CanonicalizeMembers(leq, entries[1..])
    else
      var head, tail := Canonicalize(leq, entries[0].value), CanonicalizeMembers(leq, entries[1..]);
      if head.None? || tail.None? then None else Some([Member(entries[0].key, head.value)] + tail.value)
  }

  // ----- when two values are the same identity

  predicate IsKept(entry: Entry) {
    !entry.value.Undefined?
  }

  function KeyOf(entry: Entry): Text { entry.key }

  predicate DistinctKeys(entries: seq<Entry>) {
    NoDuplicates(Map(KeyOf, entries))
  }

  /** Numbers are numbers and no object has a key twice. */
  predicate IsWellFormed(v: Json) {
    match v
    case Num(token) => IsNumberText(token)
    case Arr(items) => forall i :: 0 <= i < |items| ==> IsWellFormed(items[i])
    case Obj(entries) => DistinctKeys(entries) && forall e :: e in entries ==> IsWellFormed(e.value)
    case _ => true
  }

  /** Nothing in v makes the printer throw. */
  predicate IsPrintable(v: Json) {
    match v
    case NonFinite => false
    case Undefined => false
    case Unsupported => false
    case Arr(items) => forall i :: 0 <= i < |items| ==> IsPrintable(items[i])
    case Obj(entries) => forall e :: e in entries && IsKept(e) ==> IsPrintable(e.value)
    case _ => true
  }

  predicate IsGood(v: Json) {
    IsWellFormed(v) && IsPrintable(v)
  }

  /** Equal up to the order of members and up to undefined members, at every depth. */
  ghost predicate Equivalent(v: Json, w: Json) {
    match v
    case Arr(items) =>
      w.Arr? && |items| == |w.items| && forall i :: 0 <= i < |items| ==> Equivalent(items[i], w.items[i])
    case Obj(entries) =>
      && w.Obj?
      && (forall x :: x in entries && IsKept(x) ==>
            exists y :: y in w.entries && IsKept(y) && y.key == x.key && Equivalent(x.value, y.value))
      && (forall y :: y in w.entries && IsKept(y) ==>
            exists x :: x in entries && IsKept(x) && x.key == y.key)
    case _ => v == w
  }

  /** All that is taken for granted about a collation; it may have ties. */
  ghost predicate IsTotalPreorder(leq: Collation) {
    && (forall a, b {:trigger leq(a, b)} :: leq(a, b) || leq(b, a))
    && (forall a, b, c {:trigger leq(a, b), leq(b, c)} :: leq(a, b) && leq(b, c) ==> leq(a, c))
  }

  // ----- the normal form that the text stands for

  function EntryLeq(leq: Collation): (Entry, Entry) -> bool {
    (a: Entry, b: Entry) => leq(a.key, b.key)
  }

  function Normal(leq: Collation, v: Json): Json
    decreases v, 1
  {
    match v
    case Arr(items) => Arr(NormalAll(leq, items))
    case Obj(entries) => Obj(SortBy(EntryLeq(leq), NormalEntries(leq, entries)))
    case _ => v
  }

  function NormalAll(leq: Collation, items: seq<Json>): (r: seq<Json>)
    ensures |r| == |items|
    ensures forall i :: 0 <= i < |items| ==> r[i] == Normal(leq, items[i])
    decreases items, 0
  {
    if items == [] then [] else [Normal(leq, items[0])] + NormalAll(leq, items[1..])
  }

  function NormalEntry(leq: Collation, entry: Entry): Entry
    decreases entry, 2
  {
    Entry(entry.key, Normal(leq, entry.value))
  }

  function NormalEntries(leq: Collation, entries: seq<Entry>): seq<Entry>
    decreases entries, 0
  {
    if entries == [] then []
    else (if IsKept(entries[0]) then [NormalEntry(leq, entries[0])] else []) + NormalEntries(leq, entries[1..])
  }

  function Normalizer(leq: Collation): Entry -> Entry {
    (entry: Entry) => NormalEntry(leq, entry)
  }

  /** The members that stay, each in normal form. */
  lemma {:induction false} NormalEntriesAre(leq: Collation, entries: seq<Entry>)
    ensures NormalEntries(leq, entries) == Map(Normalizer(leq), Filter(IsKept, entries))
  {
    if entries != [] {
      NormalEntriesAre(leq, entries[1..]);
      var tail := Filter(IsKept, entries[1..]);
      assert Map(Normalizer(leq), [entries[0]] + tail)
          == [Normalizer(leq)(entries[0])] + Map(Normalizer(leq), tail);
    }
  }

  function ToMember(entry: Entry): Member {
    Member(entry.key, Print(entry.value))
  }

  lemma {:induction false} MembersPrint(entries: seq<Entry>)
    ensures Map(MemberText, Map(ToMember, entries)) == PrintEntries(entries)
  {
    if entries != [] {
      MembersPrint(entries[1..]);
      assert Map(ToMember, entries) == [ToMember(entries[0])] + Map(ToMember, entries[1..]);
    }
  }

  predicate AllPrintable(items: seq<Json>) {
    forall i :: 0 <= i < |items| ==> IsPrintable(items[i])
  }

  predicate KeptPrintable(entries: seq<Entry>) {
    forall e :: e in entries && IsKept(e) ==> IsPrintable(e.value)
  }

  /** The canonical text is the plain text of the normal form. */
  lemma {:induction false} CanonicalIsNormal(leq: Collation, v: Json)
    ensures Canonicalize(leq, v) == if IsPrintable(v) then Some(Print(Normal(leq, v))) else None
    decreases v, 1
  {
    match v {
      case Arr(items) => CanonicalAllIsNormal(leq, items);
      case Obj(entries) =>
        CanonicalMembersAreNormal(leq, entries);
        var kept := NormalEntries(leq, entries);
        SortByMap(ToMember, EntryLeq(leq), MemberLeq(leq), kept);
        MembersPrint(SortBy(EntryLeq(leq), kept));
      case _ =>
    }
  }

  lemma {:induction false} CanonicalAllIsNormal(leq: Collation, items: seq<Json>)
    ensures CanonicalizeAll(leq, items)
         == if AllPrintable(items) then Some(PrintAll(NormalAll(leq, items))) else None
    decreases items, 0
  {
    if items != [] {
      CanonicalIsNormal(leq, items[0]);
      CanonicalAllIsNormal(leq, items[1..]);
      assert AllPrintable(items) <==> IsPrintable(items[0]) && AllPrintable(items[1..]);
      assert NormalAll(leq, items)[1..] == NormalAll(leq, items[1..]);
    }
  }

  lemma {:induction false} CanonicalMembersAreNormal(leq: Collation, entries: seq<Entry>)
    ensures CanonicalizeMembers(leq, entries)
         == if KeptPrintable(entries) then Some(Map(ToMember, NormalEntries(leq, entries))) else None
    decreases entries, 0
  {
    if entries != [] {
      CanonicalMembersAreNormal(leq, entries[1..]);
      assert entries == [entries[0]] + entries[1..];
      assert KeptPrintable(entries) <==>
             (IsKept(entries[0]) ==> IsPrintable(entries[0].value)) && KeptPrintable(entries[1..]);
      if IsKept(entries[0]) {
        CanonicalIsNormal(leq, entries[0].value);
        var head := NormalEntry(leq, entries[0]);
        assert ([head] + NormalEntries(leq, entries[1..]))[1..] == NormalEntries(leq, entries[1..]);
      } else {
        assert NormalEntries(leq, entries) == NormalEntries(leq, entries[1..]);
      }
    }
  }

  /** Every normal member comes from a kept one, and every kept one has its normal member. */
  lemma NormalMembers(leq: Collation, entries: seq<Entry>)
    ensures forall e :: e in NormalEntries(leq, entries) ==>
                          exists x :: x in entries && IsKept(x) && e == NormalEntry(leq, x)
    ensures forall x :: x in entries && IsKept(x) ==> NormalEntry(leq, x) in NormalEntries(leq, entries)
  {
    NormalEntriesAre(leq, entries);
    var kept := Filter(IsKept, entries);
    forall e | e in NormalEntries(leq, entries)
      ensures exists x :: x in entries && IsKept(x) && e == NormalEntry(leq, x)
    {
      var i :| 0 <= i < |kept| && Map(Normalizer(leq), kept)[i] == e;
      assert kept[i] in kept;
    }
    forall x | x in entries && IsKept(x)
      ensures NormalEntry(leq, x) in NormalEntries(leq, entries)
    {
      assert x in kept;
      var i :| 0 <= i < |kept| && kept[i] == x;
      assert Map(Normalizer(leq), kept)[i] == NormalEntry(leq, x);
    }
  }

  lemma {:induction false} NormalIsClean(leq: Collation, v: Json)
    requires IsGood(v)
    ensures IsClean(Normal(leq, v))
  {
    match v {
      case Arr(items) =>
        forall i | 0 <= i < |items|
          ensures IsClean(NormalAll(leq, items)[i])
        {
          NormalIsClean(leq, items[i]);
        }
      case Obj(entries) =>
        var sorted := SortBy(EntryLeq(leq), NormalEntries(leq, entries));
        SameElements(sorted, NormalEntries(leq, entries));
        forall k | 0 <= k < |sorted|
          ensures IsClean(sorted[k].value)
        {
          assert sorted[k] in sorted;
          NormalMembers(leq, entries);
          var x :| x in entries && IsKept(x) && sorted[k] == NormalEntry(leq, x);
          NormalIsClean(leq, x.value);
        }
      case _ =>
    }
  }

  // ----- equal texts are equivalent values, whatever the collation

  lemma TextKnowsNormal(leq: Collation, v: Json, w: Json)
    requires IsGood(v) && IsGood(w)
    ensures Canonicalize(leq, v) == Canonicalize(leq, w) <==> Normal(leq, v) == Normal(leq, w)
  {
    CanonicalIsNormal(leq, v);
    CanonicalIsNormal(leq, w);
    NormalIsClean(leq, v);
    NormalIsClean(leq, w);
    if Canonicalize(leq, v) == Canonicalize(leq, w) {
      PrintIsInjective(Normal(leq, v), Normal(leq, w));
    }
  }

  lemma OriginOf(leq: Collation, entries: seq<Entry>, e: Entry) returns (x: Entry)
    requires e in NormalEntries(leq, entries)
    ensures x in entries && IsKept(x) && e == NormalEntry(leq, x)
  {
    NormalMembers(leq, entries);
    x :| x in entries && IsKept(x) && e == NormalEntry(leq, x);
  }

  /** Two objects with one normal form have the same normal members. */
  lemma SharedMember(leq: Collation, a: seq<Entry>, b: seq<Entry>, x: Entry) returns (y: Entry)
    requires SortBy(EntryLeq(leq), NormalEntries(leq, a)) == SortBy(EntryLeq(leq), NormalEntries(leq, b))
    requires x in a && IsKept(x)
    ensures y in b && IsKept(y) && NormalEntry(leq, x) == NormalEntry(leq, y)
  {
    NormalMembers(leq, a);
    assert multiset(NormalEntries(leq, a)) == multiset(NormalEntries(leq, b));
    SameElements(NormalEntries(leq, a), NormalEntries(leq, b));
    y := OriginOf(leq, b, NormalEntry(leq, x));
  }

  lemma {:induction false} SameNormalIsEquivalent(leq: Collation, v: Json, w: Json)
    requires Normal(leq, v) == Normal(leq, w)
    ensures Equivalent(v, w)
  {
    match v {
      case Arr(items) =>
        forall i | 0 <= i < |items|
          ensures Equivalent(items[i], w.items[i])
        {
          assert NormalAll(leq, items)[i] == NormalAll(leq, w.items)[i];
          SameNormalIsEquivalent(leq, items[i], w.items[i]);
        }
      case Obj(entries) =>
        forall x | x in entries && IsKept(x)
          ensures exists y :: y in w.entries && IsKept(y) && y.key == x.key && Equivalent(x.value, y.value)
        {
          var y := SharedMember(leq, entries, w.entries, x);
          SameNormalIsEquivalent(leq, x.value, y.value);
        }
        forall y | y in w.entries && IsKept(y)
          ensures exists x :: x in entries && IsKept(x) && x.key == y.key
        {
          var x := SharedMember(leq, w.entries, entries, y);
        }
      case _ =>
    }
  }

  /** Different identities never share a text, under any collation at all. */
  lemma EqualTextsAreEquivalent(leq: Collation, v: Json, w: Json)
    requires IsWellFormed(v) && IsWellFormed(w)
    requires Canonicalize(leq, v).Some? && Canonicalize(leq, v) == Canonicalize(leq, w)
    ensures Equivalent(v, w)
  {
    CanonicalIsNormal(leq, v);
    CanonicalIsNormal(leq, w);
    TextKnowsNormal(leq, v, w);
    SameNormalIsEquivalent(leq, v, w);
  }

  // ----- equivalent values have equal texts where no keys tie

  /** Two kept members whose different keys the collation cannot tell apart. */
  ghost predicate HasTie(leq: Collation, entries: seq<Entry>) {
    exists x, y :: x in entries && y in entries && IsKept(x) && IsKept(y) && x.key != y.key
                   && leq(x.key, y.key) && leq(y.key, x.key)
  }

  /** ... in this value or in any object within it. */
  ghost predicate HasTieWithin(leq: Collation, v: Json) {
    match v
    case Arr(items) => exists i :: 0 <= i < |items| && HasTieWithin(leq, items[i])
    case Obj(entries) => HasTie(leq, entries) || exists e :: e in entries && HasTieWithin(leq, e.value)
    case _ => false
  }

  lemma NormalKeysDistinct(leq: Collation, entries: seq<Entry>)
    requires DistinctKeys(entries)
    ensures NoDuplicates(Map(KeyOf, NormalEntries(leq, entries)))
    ensures NoDuplicates(NormalEntries(leq, entries))
  {
    var kept, n := Filter(IsKept, entries), NormalEntries(leq, entries);
    NormalEntriesAre(leq, entries);
    FilterDistinct(KeyOf, IsKept, entries);
    assert Map(KeyOf, n) == Map(KeyOf, kept);
    forall i, j | 0 <= i < j < |n|
      ensures n[i] != n[j]
    {
      assert Map(KeyOf, n)[i] != Map(KeyOf, n)[j];
    }
  }

  lemma ApartOrders(leq: Collation, m: seq<Entry>)
    requires IsTotalPreorder(leq) && NoDuplicates(Map(KeyOf, m))
    requires forall x, y {:trigger leq(x.key, y.key)} ::
               x in m && y in m && leq(x.key, y.key) && leq(y.key, x.key) ==> x.key == y.key
    ensures Orders(EntryLeq(leq), multiset(m))
  {
    forall x, y | x in multiset(m) && y in multiset(m) && EntryLeq(leq)(x, y) && EntryLeq(leq)(y, x)
      ensures x == y
    {
      assert x in m && y in m && leq(x.key, y.key);
      DistinctImages(KeyOf, m, x, y);
    }
  }

  lemma NoTieSameKey(leq: Collation, entries: seq<Entry>, x: Entry, y: Entry)
    requires !HasTie(leq, entries) && x in NormalEntries(leq, entries) && y in NormalEntries(leq, entries)
    requires leq(x.key, y.key) && leq(y.key, x.key)
    ensures x.key == y.key
  {
    var a := OriginOf(leq, entries, x);
    var b := OriginOf(leq, entries, y);
  }

  lemma NoTieOrders(leq: Collation, entries: seq<Entry>)
    requires IsTotalPreorder(leq) && DistinctKeys(entries) && !HasTie(leq, entries)
    ensures Orders(EntryLeq(leq), multiset(NormalEntries(leq, entries)))
  {
    var m := NormalEntries(leq, entries);
    NormalKeysDistinct(leq, entries);
    forall x, y | x in m && y in m && leq(x.key, y.key) && leq(y.key, x.key)
      ensures x.key == y.key
    {
      NoTieSameKey(leq, entries, x, y);
    }
    ApartOrders(leq, m);
  }

  lemma MatchingMember(a: seq<Entry>, b: seq<Entry>, x: Entry) returns (y: Entry)
    requires Equivalent(Obj(a), Obj(b)) && x in a && IsKept(x)
    ensures y in b && IsKept(y) && y.key == x.key && Equivalent(x.value, y.value)
  {
    y :| y in b && IsKept(y) && y.key == x.key && Equivalent(x.value, y.value);
  }

  lemma MatchingKey(a: seq<Entry>, b: seq<Entry>, y: Entry) returns (x: Entry)
    requires Equivalent(Obj(a), Obj(b)) && y in b && IsKept(y)
    ensures x in a && IsKept(x) && x.key == y.key
  {
    x :| x in a && IsKept(x) && x.key == y.key;
  }

  /** Pairwise, equivalent members have one normal form. */
  ghost predicate NormalAgree(leq: Collation, a: seq<Entry>, b: seq<Entry>) {
    forall x, y :: x in a && y in b && Equivalent(x.value, y.value) ==> Normal(leq, x.value) == Normal(leq, y.value)
  }

  lemma MatchedForward(leq: Collation, a: seq<Entry>, b: seq<Entry>, e: Entry)
    requires NormalAgree(leq, a, b) && Equivalent(Obj(a), Obj(b)) && e in NormalEntries(leq, a)
    ensures e in NormalEntries(leq, b)
  {
    var x := OriginOf(leq, a, e);
    var y := MatchingMember(a, b, x);
    NormalMembers(leq, b);
    assert NormalEntry(leq, y) == e;
  }

  lemma MatchedBackward(leq: Collation, a: seq<Entry>, b: seq<Entry>, e: Entry)
    requires NormalAgree(leq, a, b) && Equivalent(Obj(a), Obj(b)) && DistinctKeys(b) && e in NormalEntries(leq, b)
    ensures e in NormalEntries(leq, a)
  {
    var y := OriginOf(leq, b, e);
    var x := MatchingKey(a, b, y);
    var z := MatchingMember(a, b, x);
    DistinctImages(KeyOf, b, y, z);
    NormalMembers(leq, a);
    assert NormalEntry(leq, x) == e;
  }

  lemma SameNormalEntries(leq: Collation, a: seq<Entry>, b: seq<Entry>)
    requires NormalAgree(leq, a, b) && Equivalent(Obj(a), Obj(b)) && DistinctKeys(b)
    ensures forall e :: e in NormalEntries(leq, a) ==> e in NormalEntries(leq, b)
    ensures forall e :: e in NormalEntries(leq, b) ==> e in NormalEntries(leq, a)
  {
    forall e | e in NormalEntries(leq, a)
      ensures e in NormalEntries(leq, b)
    {
      MatchedForward(leq, a, b, e);
    }
    forall e | e in NormalEntries(leq, b)
      ensures e in NormalEntries(leq, a)
    {
      MatchedBackward(leq, a, b, e);
    }
  }

  lemma {:induction false} EquivalentIsSameNormal(leq: Collation, v: Json, w: Json)
    requires IsTotalPreorder(leq) && !HasTieWithin(leq, v)
    requires IsWellFormed(v) && IsWellFormed(w) && Equivalent(v, w)
    ensures Normal(leq, v) == Normal(leq, w)
  {
    match v {
      case Arr(items) =>
        forall i | 0 <= i < |items|
          ensures NormalAll(leq, items)[i] == NormalAll(leq, w.items)[i]
        {
          EquivalentIsSameNormal(leq, items[i], w.items[i]);
        }
      case Obj(a) =>
        var b := w.entries;
        forall x, y | x in a && y in b && Equivalent(x.value, y.value)
          ensures Normal(leq, x.value) == Normal(leq, y.value)
        {
          EquivalentIsSameNormal(leq, x.value, y.value);
        }
        AgreeingObjects(leq, a, b);
      case _ =>
    }
  }

  lemma AgreeingObjects(leq: Collation, a: seq<Entry>, b: seq<Entry>)
    requires IsTotalPreorder(leq) && !HasTie(leq, a) && DistinctKeys(a) && DistinctKeys(b)
    requires NormalAgree(leq, a, b) && Equivalent(Obj(a), Obj(b))
    ensures Normal(leq, Obj(a)) == Normal(leq, Obj(b))
  {
    SameNormalEntries(leq, a, b);
    NormalKeysDistinct(leq, a);
    NormalKeysDistinct(leq, b);
    SameSetMultiset(NormalEntries(leq, a), NormalEntries(leq, b));
    NoTieOrders(leq, a);
    SortByCanonical(EntryLeq(leq), NormalEntries(leq, a), NormalEntries(leq, b));
  }

  /** The text stands for v up to member order and undefined members: exactly the values that are
      equal to v in that sense print as v does. */
  ghost predicate TextIsIdentity(leq: Collation, v: Json) {
    forall w {:trigger Equivalent(v, w)} ::
      IsGood(w) ==> (Equivalent(v, w) <==> Canonicalize(leq, v) == Canonicalize(leq, w))
  }

  lemma NoTieTextIsIdentity(leq: Collation, v: Json)
    requires IsTotalPreorder(leq) && IsGood(v) && !HasTieWithin(leq, v)
    ensures TextIsIdentity(leq, v)
  {
    CanonicalIsNormal(leq, v);
    forall w | IsGood(w)
      ensures Equivalent(v, w) <==> Canonicalize(leq, v) == Canonicalize(leq, w)
    {
      if Equivalent(v, w) {
        EquivalentIsSameNormal(leq, v, w);
        TextKnowsNormal(leq, v, w);
      } else if Canonicalize(leq, v) == Canonicalize(leq, w) {
        EqualTextsAreEquivalent(leq, v, w);
      }
    }
  }

  // ----- a tie anywhere shows

  lemma GoodObjectPermutes(a: seq<Entry>, b: seq<Entry>)
    requires multiset(a) == multiset(b) && IsGood(Obj(b))
    ensures IsGood(Obj(a))
  {
    SameElements(a, b);
    MapPermutation(KeyOf, a, b);
    NoDuplicatesPermutation(Map(KeyOf, a), Map(KeyOf, b));
  }

  /** Sorting keeps two tied elements in the order they came in. */
  lemma TieKeepsOrder<T(!new)>(leq: (T, T) -> bool, c: T -> bool, x: T, y: T, rest: seq<T>)
    requires forall e, f {:trigger leq(e, f)} :: c(e) && c(f) ==> leq(e, f)
    requires c(x) && c(y) && forall e :: e in rest ==> !c(e)
    ensures Filter(c, SortBy(leq, [x] + ([y] + rest))) == [x] + [y]
  {
    SortByStable(leq, c, [x] + ([y] + rest));
    FilterCons(c, x, [y] + rest);
    FilterCons(c, y, rest);
    FilterNone(c, rest);
  }

  /** ... so exchanging two different ones shows in the result. */
  lemma TieSortsApart<T(!new)>(leq: (T, T) -> bool, c: T -> bool, x: T, y: T, rest: seq<T>)
    requires forall e, f {:trigger leq(e, f)} :: c(e) && c(f) ==> leq(e, f)
    requires c(x) && c(y) && x != y && forall e :: e in rest ==> !c(e)
    ensures SortBy(leq, [x] + ([y] + rest)) != SortBy(leq, [y] + ([x] + rest))
  {
    TieKeepsOrder(leq, c, x, y, rest);
    TieKeepsOrder(leq, c, y, x, rest);
    assert ([x] + [y])[0] != ([y] + [x])[0];
  }

  lemma NormalOfTwo(leq: Collation, x: Entry, y: Entry, rest: seq<Entry>)
    requires IsKept(x) && IsKept(y)
    ensures NormalEntries(leq, [x] + ([y] + rest))
         == [NormalEntry(leq, x)] + ([NormalEntry(leq, y)] + NormalEntries(leq, rest))
  {
    assert ([x] + ([y] + rest))[1..] == [y] + rest && ([y] + rest)[1..] == rest;
  }

  lemma OtherKeys(leq: Collation, x: Entry, rest: seq<Entry>)
    requires x.key !in Map(KeyOf, rest)
    ensures forall e :: e in NormalEntries(leq, rest) ==> e.key != x.key
  {
    NormalMembers(leq, rest);
    forall e | e in rest
      ensures e.key != x.key
    {
      var i :| 0 <= i < |rest| && rest[i] == e;
      assert Map(KeyOf, rest)[i] == e.key;
    }
  }

  /** The two tied members. */
  function EitherKey(j: Text, k: Text): Entry -> bool {
    (e: Entry) => e.key == j || e.key == k
  }

  ghost predicate IsTie(leq: Collation, j: Text, k: Text) {
    j != k && leq(j, k) && leq(k, j) && leq(j, j) && leq(k, k)
  }

  lemma TiedMembersSortApart(leq: Collation, x: Entry, y: Entry, rest: seq<Entry>)
    requires IsTie(leq, x.key, y.key)
    requires forall e :: e in rest ==> e.key != x.key && e.key != y.key
    ensures SortBy(EntryLeq(leq), [x] + ([y] + rest)) != SortBy(EntryLeq(leq), [y] + ([x] + rest))
  {
    TieSortsApart(EntryLeq(leq), EitherKey(x.key, y.key), x, y, rest);
  }

  lemma TiesNormalizeApart(leq: Collation, x: Entry, y: Entry, rest: seq<Entry>, p: seq<Entry>, q: seq<Entry>)
    requires IsKept(x) && IsKept(y) && IsTie(leq, x.key, y.key)
    requires x.key !in Map(KeyOf, rest) && y.key !in Map(KeyOf, rest)
    requires p == [x] + ([y] + rest) && q == [y] + ([x] + rest)
    ensures Normal(leq, Obj(p)) != Normal(leq, Obj(q))
  {
    NormalOfTwo(leq, x, y, rest);
    NormalOfTwo(leq, y, x, rest);
    OtherKeys(leq, x, rest);
    OtherKeys(leq, y, rest);
    TiedMembersSortApart(leq, NormalEntry(leq, x), NormalEntry(leq, y), NormalEntries(leq, rest));
  }

  lemma Extract(entries: seq<Entry>, x: Entry) returns (rest: seq<Entry>)
    requires x in entries
    ensures multiset(entries) == multiset{x} + multiset(rest)
  {
    var i :| 0 <= i < |entries| && entries[i] == x;
    RemoveAtMultiset(entries, i);
    rest := RemoveAt(entries, i);
  }

  /** Any two different members can be brought to the front. */
  lemma BringForward(entries: seq<Entry>, x: Entry, y: Entry) returns (rest: seq<Entry>)
    requires x in entries && y in entries && x != y
    ensures multiset([x] + ([y] + rest)) == multiset(entries)
    ensures multiset([y] + ([x] + rest)) == multiset(entries)
  {
    var others := Extract(entries, x);
    assert y in multiset(entries);
    rest := Extract(others, y);
  }

  lemma FrontKeysDiffer(x: Entry, y: Entry, rest: seq<Entry>)
    requires DistinctKeys([x] + ([y] + rest))
    ensures x.key !in Map(KeyOf, rest) && y.key !in Map(KeyOf, rest)
  {
    MapCons(KeyOf, x, [y] + rest);
    MapCons(KeyOf, y, rest);
    NoDuplicatesCons(x.key, [y.key] + Map(KeyOf, rest));
    NoDuplicatesCons(y.key, Map(KeyOf, rest));
  }

  lemma MapCons<S, T>(f: S -> T, x: S, s: seq<S>)
    ensures Map(f, [x] + s) == [f(x)] + Map(f, s)
  {
    assert ([x] + s)[1..] == s;
  }

  lemma {:induction false} EquivalentToItself(v: Json)
    ensures Equivalent(v, v)
  {
    match v {
      case Arr(items) =>
        forall i | 0 <= i < |items|
          ensures Equivalent(items[i], items[i])
        {
          EquivalentToItself(items[i]);
        }
      case Obj(entries) =>
        forall x | x in entries
          ensures Equivalent(x.value, x.value)
        {
          EquivalentToItself(x.value);
        }
      case _ =>
    }
  }

  lemma PermutedIsEquivalent(a: seq<Entry>, b: seq<Entry>)
    requires multiset(a) == multiset(b)
    ensures Equivalent(Obj(a), Obj(b))
  {
    SameElements(a, b);
    forall x | x in a && IsKept(x)
      ensures x in b && IsKept(x) && x.key == x.key && Equivalent(x.value, x.value)
    {
      EquivalentToItself(x.value);
    }
  }

  lemma TieOf(leq: Collation, entries: seq<Entry>) returns (x: Entry, y: Entry)
    requires IsTotalPreorder(leq) && HasTie(leq, entries)
    ensures x in entries && y in entries && IsKept(x) && IsKept(y) && IsTie(leq, x.key, y.key)
  {
    x, y :| x in entries && y in entries && IsKept(x) && IsKept(y) && x.key != y.key
            && leq(x.key, y.key) && leq(y.key, x.key);
    assert leq(x.key, x.key) && leq(y.key, y.key);
  }

  /** Two orders of the members that have different normal forms. */
  lemma TiedOrders(leq: Collation, entries: seq<Entry>) returns (p: seq<Entry>, q: seq<Entry>)
    requires IsTotalPreorder(leq) && IsGood(Obj(entries)) && HasTie(leq, entries)
    ensures multiset(p) == multiset(entries) == multiset(q)
    ensures Normal(leq, Obj(p)) != Normal(leq, Obj(q))
  {
    var x, y := TieOf(leq, entries);
    var rest := BringForward(entries, x, y);
    p, q := [x] + ([y] + rest), [y] + ([x] + rest);
    GoodObjectPermutes(p, entries);
    FrontKeysDiffer(x, y, rest);
    TiesNormalizeApart(leq, x, y, rest, p, q);
  }

  /** The members in another order that has another normal form. */
  lemma TieShows(leq: Collation, entries: seq<Entry>) returns (other: seq<Entry>)
    requires IsTotalPreorder(leq) && IsGood(Obj(entries)) && HasTie(leq, entries)
    ensures multiset(other) == multiset(entries)
    ensures Normal(leq, Obj(other)) != Normal(leq, Obj(entries))
  {
    var p, q := TiedOrders(leq, entries);
    other := if Normal(leq, Obj(p)) != Normal(leq, Obj(entries)) then p else q;
  }

  /** An equivalent value with another normal form. */
  lemma {:induction false} TieWithinShows(leq: Collation, v: Json) returns (w: Json)
    requires IsTotalPreorder(leq) && IsGood(v) && HasTieWithin(leq, v)
    ensures IsGood(w) && Equivalent(v, w) && Normal(leq, w) != Normal(leq, v)
    decreases v
  {
    if v.Arr? {
      var i :| 0 <= i < |v.items| && HasTieWithin(leq, v.items[i]);
      var item := TieWithinShows(leq, v.items[i]);
      w := Arr(v.items[i := item]);
      ChangedItemShows(leq, v.items, i, item);
    } else if HasTie(leq, v.entries) {
      var other := TieShows(leq, v.entries);
      GoodObjectPermutes(other, v.entries);
      PermutedIsEquivalent(v.entries, other);
      w := Obj(other);
    } else {
      var e :| e in v.entries && HasTieWithin(leq, e.value);
      var i :| 0 <= i < |v.entries| && v.entries[i] == e;
      var value := TieWithinShows(leq, e.value);
      w := Obj(Changed(v.entries, i, value));
      ChangedMemberShows(leq, v.entries, i, value);
    }
  }

  lemma ChangedItemShows(leq: Collation, items: seq<Json>, i: nat, item: Json)
    requires i < |items| && IsGood(Arr(items)) && IsGood(item)
    requires Equivalent(items[i], item) && Normal(leq, item) != Normal(leq, items[i])
    ensures IsGood(Arr(items[i := item])) && Equivalent(Arr(items), Arr(items[i := item]))
    ensures Normal(leq, Arr(items[i := item])) != Normal(leq, Arr(items))
  {
    ChangedItemIsGood(items, i, item, items[i := item]);
    ChangedItemIsEquivalent(items, i, item, items[i := item]);
    ChangedItemNormalDiffers(leq, items, i, item, items[i := item]);
  }

  lemma ChangedItemIsGood(a: seq<Json>, i: nat, item: Json, b: seq<Json>)
    requires i < |a| && b == a[i := item] && IsGood(Arr(a)) && IsGood(item)
    ensures IsGood(Arr(b))
  {
  }

  lemma ChangedItemIsEquivalent(a: seq<Json>, i: nat, item: Json, b: seq<Json>)
    requires i < |a| && b == a[i := item] && IsGood(Arr(a)) && Equivalent(a[i], item)
    ensures Equivalent(Arr(a), Arr(b))
  {
    forall k | 0 <= k < |a|
      ensures Equivalent(a[k], b[k])
    {
      EquivalentToItself(a[k]);
    }
  }

  lemma ChangedItemNormalDiffers(leq: Collation, a: seq<Json>, i: nat, item: Json, b: seq<Json>)
    requires i < |a| && b == a[i := item] && Normal(leq, item) != Normal(leq, a[i])
    ensures Normal(leq, Arr(b)) != Normal(leq, Arr(a))
  {
    assert NormalAll(leq, b)[i] != NormalAll(leq, a)[i];
  }

  /** Another value for member i. */
  function Changed(entries: seq<Entry>, i: nat, value: Json): (r: seq<Entry>)
    requires i < |entries|
    ensures |r| == |entries| && forall k :: 0 <= k < |r| ==> r[k].key == entries[k].key
  {
    entries[i := Entry(entries[i].key, value)]
  }

  lemma ChangedMemberIsGood(entries: seq<Entry>, i: nat, value: Json)
    requires i < |entries| && IsGood(Obj(entries)) && IsGood(value)
    ensures IsGood(Obj(Changed(entries, i, value)))
  {
    assert Map(KeyOf, Changed(entries, i, value)) == Map(KeyOf, entries);
  }

  lemma ChangedCounterpart(entries: seq<Entry>, i: nat, value: Json, x: Entry) returns (y: Entry)
    requires i < |entries| && IsKept(entries[i]) && IsPrintable(value) && Equivalent(entries[i].value, value)
    requires x in entries && IsKept(x)
    ensures y in Changed(entries, i, value) && IsKept(y) && y.key == x.key && Equivalent(x.value, y.value)
  {
    var k :| 0 <= k < |entries| && entries[k] == x;
    EquivalentToItself(x.value);
    y := Changed(entries, i, value)[k];
  }

  lemma ChangedOrigin(entries: seq<Entry>, i: nat, value: Json, y: Entry) returns (x: Entry)
    requires i < |entries| && IsKept(entries[i]) && y in Changed(entries, i, value) && IsKept(y)
    ensures x in entries && IsKept(x) && x.key == y.key
  {
    var k :| 0 <= k < |entries| && Changed(entries, i, value)[k] == y;
    x := entries[k];
  }

  lemma ChangedMemberIsEquivalent(a: seq<Entry>, i: nat, value: Json, b: seq<Entry>)
    requires i < |a| && IsKept(a[i]) && IsPrintable(value) && Equivalent(a[i].value, value)
    requires b == Changed(a, i, value)
    ensures Equivalent(Obj(a), Obj(b))
  {
    forall x | x in a && IsKept(x)
      ensures exists y :: y in b && IsKept(y) && y.key == x.key && Equivalent(x.value, y.value)
    {
      var y := ChangedCounterpart(a, i, value, x);
    }
    forall y | y in b && IsKept(y)
      ensures exists x :: x in a && IsKept(x) && x.key == y.key
    {
      var x := ChangedOrigin(a, i, value, y);
    }
  }

  lemma ChangedNormalDiffers(leq: Collation, a: seq<Entry>, i: nat, value: Json, b: seq<Entry>)
    requires i < |a| && IsKept(a[i]) && b == Changed(a, i, value) && DistinctKeys(b)
    requires Normal(leq, value) != Normal(leq, a[i].value)
    ensures SortBy(EntryLeq(leq), NormalEntries(leq, a)) != SortBy(EntryLeq(leq), NormalEntries(leq, b))
  {
    if SortBy(EntryLeq(leq), NormalEntries(leq, a)) == SortBy(EntryLeq(leq), NormalEntries(leq, b)) {
      var z := SharedMember(leq, a, b, a[i]);
      DistinctImages(KeyOf, b, z, b[i]);
      assert false;
    }
  }

  lemma ChangedMemberShows(leq: Collation, entries: seq<Entry>, i: nat, value: Json)
    requires i < |entries| && IsKept(entries[i]) && IsGood(Obj(entries)) && IsGood(value)
    requires Equivalent(entries[i].value, value) && Normal(leq, value) != Normal(leq, entries[i].value)
    ensures IsGood(Obj(Changed(entries, i, value))) && Equivalent(Obj(entries), Obj(Changed(entries, i, value)))
    ensures Normal(leq, Obj(Changed(entries, i, value))) != Normal(leq, Obj(entries))
  {
    ChangedMemberIsGood(entries, i, value);
    ChangedMemberIsEquivalent(entries, i, value, Changed(entries, i, value));
    ChangedNormalDiffers(leq, entries, i, value, Changed(entries, i, value));
  }

  /** For every collation that is a total preorder, ties allowed: the text stands for v up to member
      order and undefined members exactly when no object within v has two kept keys that tie. */
  lemma CanonicalForm(leq: Collation, v: Json)
    requires IsTotalPreorder(leq) && IsGood(v)
    ensures TextIsIdentity(leq, v) <==> !HasTieWithin(leq, v)
  {
    if HasTieWithin(leq, v) {
      var w := TieWithinShows(leq, v);
      TextKnowsNormal(leq, v, w);
    } else {
      NoTieTextIsIdentity(leq, v);
    }
  }

  // ----- a collation with ties

  /** Canonical decomposition, as far as U+00E9, the letter e with an acute accent. */
  function Decomposed(t: Text): Text {
    if t == [] then []
    else (if t[0] == 0xE9 then [0x65, 0x301] else [t[0]]) + Decomposed(t[1..])
  }

  /** Strings compare as their decompositions do, so that canonically equivalent ones tie, as
      ECMA-262 asks of String.prototype.localeCompare. */
  function ByDecomposition(): Collation {
    (a: Text, b: Text) => TextLeq(Decomposed(a), Decomposed(b))
  }

  lemma DecompositionPreorders()
    ensures IsTotalPreorder(ByDecomposition())
  {
    forall a: Text, b: Text
      ensures TextLeq(Decomposed(a), Decomposed(b)) || TextLeq(Decomposed(b), Decomposed(a))
    {
      TextLeqTotal(Decomposed(a), Decomposed(b));
    }
    forall a: Text, b: Text, c: Text
      | TextLeq(Decomposed(a), Decomposed(b)) && TextLeq(Decomposed(b), Decomposed(c))
      ensures TextLeq(Decomposed(a), Decomposed(c))
    {
      TextLeqTransitive(Decomposed(a), Decomposed(b), Decomposed(c));
    }
  }

  const COMPOSED := Entry([0xE9], Bool(true))
  const DECOMPOSED := Entry([0x65, 0x301], Bool(true))

  lemma DecompositionTies()
    ensures IsTie(ByDecomposition(), COMPOSED.key, DECOMPOSED.key)
  {
    var one: Text := [0x301];
    assert DECOMPOSED.key[1..] == one && one[1..] == [];
    assert Decomposed(one) == one;
    assert Decomposed(COMPOSED.key) == DECOMPOSED.key == Decomposed(DECOMPOSED.key);
    assert |COMPOSED.key| != |DECOMPOSED.key|;
    TextLeqTotal(DECOMPOSED.key, DECOMPOSED.key);
  }

  lemma TiedPairIsGood()
    ensures IsGood(Obj([COMPOSED, DECOMPOSED])) && IsGood(Obj([DECOMPOSED, COMPOSED]))
    ensures Equivalent(Obj([COMPOSED, DECOMPOSED]), Obj([DECOMPOSED, COMPOSED]))
  {
    assert |COMPOSED.key| != |DECOMPOSED.key|;
    assert multiset([COMPOSED, DECOMPOSED]) == multiset([DECOMPOSED, COMPOSED]);
    GoodObjectPermutes([DECOMPOSED, COMPOSED], [COMPOSED, DECOMPOSED]);
    PermutedIsEquivalent([COMPOSED, DECOMPOSED], [DECOMPOSED, COMPOSED]);
  }

  /** Two ways to write one value that have different texts. */
  ghost predicate AreOneWithTwoTexts(leq: Collation, v: Json, w: Json) {
    && Equivalent(v, w)
    && Canonicalize(leq, v).Some? && Canonicalize(leq, w).Some? && Canonicalize(leq, v) != Canonicalize(leq, w)
  }

  lemma NormalsShow(leq: Collation, v: Json, w: Json)
    requires IsGood(v) && IsGood(w) && Equivalent(v, w) && Normal(leq, v) != Normal(leq, w)
    ensures AreOneWithTwoTexts(leq, v, w)
  {
    TextKnowsNormal(leq, v, w);
    CanonicalIsNormal(leq, v);
    CanonicalIsNormal(leq, w);
  }

  lemma PairOf(x: Entry, y: Entry, p: seq<Entry>)
    requires p == [x, y]
    ensures p == [x] + ([y] + [])
  {
  }

  lemma TiedPairDiffers(leq: Collation, x: Entry, y: Entry, p: seq<Entry>, q: seq<Entry>)
    requires IsKept(x) && IsKept(y) && IsTie(leq, x.key, y.key)
    requires p == [x, y] && q == [y, x]
    ensures Normal(leq, Obj(p)) != Normal(leq, Obj(q))
  {
    PairOf(x, y, p);
    PairOf(y, x, q);
    TiesNormalizeApart(leq, x, y, [], p, q);
  }

  lemma TiedPairShows(leq: Collation, x: Entry, y: Entry, p: seq<Entry>, q: seq<Entry>)
    requires IsKept(x) && IsKept(y) && IsTie(leq, x.key, y.key)
    requires p == [x, y] && q == [y, x] && IsGood(Obj(p)) && IsGood(Obj(q)) && Equivalent(Obj(p), Obj(q))
    ensures AreOneWithTwoTexts(leq, Obj(p), Obj(q))
  {
    TiedPairDiffers(leq, x, y, p, q);
    NormalsShow(leq, Obj(p), Obj(q));
  }

  /** Two members whose keys are the same letter written in two ways: one object, two texts. */
  lemma TiedKeysShow()
    ensures IsTotalPreorder(ByDecomposition())
    ensures AreOneWithTwoTexts(ByDecomposition(), Obj([COMPOSED, DECOMPOSED]), Obj([DECOMPOSED, COMPOSED]))
  {
    DecompositionPreorders();
    DecompositionTies();
    TiedPairIsGood();
    TiedPairShows(ByDecomposition(), COMPOSED, DECOMPOSED, [COMPOSED, DECOMPOSED], [DECOMPOSED, COMPOSED]);
  }
}
