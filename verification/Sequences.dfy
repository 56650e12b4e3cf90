/** Sums, filters, permutations and stable sorting of sequences. */
module Sequences {
  import opened Prelude

  function Sum<T>(f: T -> int, s: seq<T>): int {
    if s == [] then 0 else f(s[0]) + Sum(f, s[1..])
  }

  function Map<S, T>(f: S -> T, s: seq<S>): (r: seq<T>)
    ensures |r| == |s|
    ensures forall i {:trigger r[i]} :: 0 <= i < |s| ==> r[i] == f(s[i])
  {
    if s == [] then [] else [f(s[0])] + Map(f, s[1..])
  }

  function Filter<T>(p: T -> bool, s: seq<T>): (r: seq<T>)
    ensures forall x {:trigger x in r} :: x in r ==> x in s && p(x)
    ensures forall x {:trigger x in r} :: x in s && p(x) ==> x in r
    ensures |r| <= |s|
  {
    if s == [] then []
    else if p(s[0]) then [s[0]] + Filter(p, s[1..])
    else Filter(p, s[1..])
  }

  predicate NoDuplicates<T(==)>(s: seq<T>) {
    forall i, j :: 0 <= i < j < |s| ==> s[i] != s[j]
  }

  lemma MapSnoc<S, T>(f: S -> T, s: seq<S>, x: S)
    ensures Map(f, s + [x]) == Map(f, s) + [f(x)]
  {
  }

  lemma MapConcat<S, T>(f: S -> T, a: seq<S>, b: seq<S>)
    ensures Map(f, a + b) == Map(f, a) + Map(f, b)
  {
  }

  lemma MapExtensional<S, T>(f: S -> T, g: S -> T, s: seq<S>)
    requires forall x :: x in s ==> f(x) == g(x)
    ensures Map(f, s) == Map(g, s)
  {
    forall i | 0 <= i < |s|
      ensures Map(f, s)[i] == Map(g, s)[i]
    {
      assert s[i] in s;
    }
  }

  lemma Mapped<S, T>(f: S -> T, s: seq<S>, x: S)
    requires x in s
    ensures f(x) in Map(f, s)
  {
    var i :| 0 <= i < |s| && s[i] == x;
    assert Map(f, s)[i] == f(x);
  }

  // ----- sums

  lemma {:induction false} SumConcat<T>(f: T -> int, a: seq<T>, b: seq<T>)
    ensures Sum(f, a + b) == Sum(f, a) + Sum(f, b)
  {
    if a == [] {
      assert a + b == b;
    } else {
      SumConcat(f, a[1..], b);
      assert a + b == [a[0]] + (a[1..] + b);
    }
  }

  lemma SumSnoc<T>(f: T -> int, s: seq<T>, x: T)
    ensures Sum(f, s + [x]) == Sum(f, s) + f(x)
  {
    SumConcat(f, s, [x]);
  }

  lemma {:induction false} SumExtensional<T>(f: T -> int, g: T -> int, s: seq<T>)
    requires forall x :: x in s ==> f(x) == g(x)
    ensures Sum(f, s) == Sum(g, s)
  {
    if s != [] {
      assert s[0] in s;
      SumExtensional(f, g, s[1..]);
    }
  }

  lemma {:induction false} SumBounds<T>(f: T -> int, lo: int, hi: int, s: seq<T>)
    requires forall x :: x in s ==> lo <= f(x) <= hi
    ensures lo * |s| <= Sum(f, s) <= hi * |s|
  {
    if s != [] {
      assert s[0] in s;
      SumBounds(f, lo, hi, s[1..]);
      OneMore(lo, |s[1..]|);
      OneMore(hi, |s[1..]|);
    }
  }

  lemma OneMore(k: int, n: int)
    ensures k * (n + 1) == k * n + k
  {
  }

  lemma {:induction false} SumMonotone<T>(f: T -> int, g: T -> int, s: seq<T>)
    requires forall x :: x in s ==> f(x) <= g(x)
    ensures Sum(f, s) <= Sum(g, s)
  {
    if s != [] {
      assert s[0] in s;
      SumMonotone(f, g, s[1..]);
    }
  }

  lemma {:induction false} SumAdd<T>(f: T -> int, g: T -> int, h: T -> int, s: seq<T>)
    requires forall x :: x in s ==> h(x) == f(x) + g(x)
    ensures Sum(h, s) == Sum(f, s) + Sum(g, s)
  {
    if s != [] {
      assert s[0] in s;
      SumAdd(f, g, h, s[1..]);
    }
  }

  // ----- permutations

  function RemoveAt<T>(s: seq<T>, k: nat): seq<T>
    requires k < |s|
  {
    s[..k] + s[k + 1..]
  }

  lemma RemoveAtMultiset<T>(s: seq<T>, k: nat)
    requires k < |s|
    ensures multiset(s) == multiset{s[k]} + multiset(RemoveAt(s, k))
  {
    assert s == s[..k] + [s[k]] + s[k + 1..];
  }

  /** A permutation of a non-empty sequence holds its head somewhere; removing both
      leaves a permutation of the tail. */
  lemma FindHead<T>(a: seq<T>, b: seq<T>) returns (k: nat)
    requires a != [] && multiset(a) == multiset(b)
    ensures k < |b| && b[k] == a[0]
    ensures multiset(a[1..]) == multiset(RemoveAt(b, k))
  {
    assert a[0] in multiset(b);
    k :| 0 <= k < |b| && b[k] == a[0];
    RemoveAtMultiset(b, k);
    assert a == [a[0]] + a[1..];
    assert multiset(a[1..]) == multiset(a) - multiset{a[0]};
  }

  lemma {:induction false} SumPermutation<T>(f: T -> int, a: seq<T>, b: seq<T>)
    requires multiset(a) == multiset(b)
    ensures Sum(f, a) == Sum(f, b)
  {
    if a == [] {
      assert |multiset(b)| == 0;
      assert b == [];
    } else {
      var k := FindHead(a, b);
      SumPermutation(f, a[1..], RemoveAt(b, k));
      assert b == b[..k] + ([b[k]] + b[k + 1..]);
      SumConcat(f, b[..k], [b[k]] + b[k + 1..]);
      SumConcat(f, b[..k], b[k + 1..]);
    }
  }

  lemma FilterCons<T>(c: T -> bool, x: T, s: seq<T>)
    ensures Filter(c, [x] + s) == if c(x) then [x] + Filter(c, s) else Filter(c, s)
  {
    assert ([x] + s)[1..] == s;
  }

  lemma {:induction false} FilterConcat<T>(p: T -> bool, a: seq<T>, b: seq<T>)
    ensures Filter(p, a + b) == Filter(p, a) + Filter(p, b)
  {
    if a == [] {
      assert a + b == b;
    } else {
      FilterConcat(p, a[1..], b);
      FilterConcatCons(p, a[0], a[1..], b);
      assert a == [a[0]] + a[1..];
      assert a + b == [a[0]] + (a[1..] + b);
    }
  }

  lemma FilterConcatCons<T>(p: T -> bool, x: T, a: seq<T>, b: seq<T>)
    requires Filter(p, a + b) == Filter(p, a) + Filter(p, b)
    ensures Filter(p, [x] + (a + b)) == Filter(p, [x] + a) + Filter(p, b)
  {
    FilterCons(p, x, a);
    FilterCons(p, x, a + b);
  }

  lemma FilterRemoveAt<T>(p: T -> bool, s: seq<T>, k: nat)
    requires k < |s|
    ensures multiset(Filter(p, s))
         == (if p(s[k]) then multiset{s[k]} else multiset{}) + multiset(Filter(p, RemoveAt(s, k)))
  {
    var l, r := s[..k], s[k + 1..];
    assert s == l + ([s[k]] + r);
    FilterConcat(p, l, [s[k]] + r);
    FilterCons(p, s[k], r);
    FilterConcat(p, l, r);
  }

  lemma {:induction false} FilterPermutation<T>(p: T -> bool, a: seq<T>, b: seq<T>)
    requires multiset(a) == multiset(b)
    ensures multiset(Filter(p, a)) == multiset(Filter(p, b))
  {
    if a == [] {
      assert |multiset(b)| == 0;
      assert b == [];
    } else {
      var k := FindHead(a, b);
      FilterPermutation(p, a[1..], RemoveAt(b, k));
      FilterRemoveAt(p, b, k);
      FilterRemoveAt(p, a, 0);
      assert RemoveAt(a, 0) == a[1..];
    }
  }

  lemma {:induction false} FilterAll<T>(p: T -> bool, s: seq<T>)
    requires forall x :: x in s ==> p(x)
    ensures Filter(p, s) == s
  {
    if s != [] {
      assert s[0] in s;
      FilterAll(p, s[1..]);
    }
  }

  lemma {:induction false} FilterNone<T>(c: T -> bool, s: seq<T>)
    requires forall x :: x in s ==> !c(x)
    ensures Filter(c, s) == []
  {
    if s != [] {
      assert s[0] in s;
      FilterNone(c, s[1..]);
    }
  }

  /** Dropping one element from between others that stay. */
  lemma FilterDrops<T>(keep: T -> bool, a: seq<T>, x: T, b: seq<T>)
    requires !keep(x) && (forall y :: y in a ==> keep(y)) && (forall y :: y in b ==> keep(y))
    ensures Filter(keep, a + ([x] + b)) == a + b
  {
    FilterConcat(keep, a, [x] + b);
    FilterCons(keep, x, b);
    FilterAll(keep, a);
    FilterAll(keep, b);
  }

  /** Keeping one element from between others that go. */
  lemma FilterPicks<T>(p: T -> bool, a: seq<T>, x: T, b: seq<T>)
    requires p(x) && (forall y :: y in a ==> !p(y)) && (forall y :: y in b ==> !p(y))
    ensures Filter(p, a + ([x] + b)) == [x]
  {
    FilterConcat(p, a, [x] + b);
    FilterCons(p, x, b);
    FilterNone(p, a);
    FilterNone(p, b);
  }

  lemma FilterSnoc<T>(p: T -> bool, s: seq<T>, x: T)
    ensures Filter(p, s + [x]) == if p(x) then Filter(p, s) + [x] else Filter(p, s)
  {
    FilterConcat(p, s, [x]);
    assert Filter(p, [x]) == if p(x) then [x] else [];
  }

  lemma {:induction false} NotMapped<S, T>(f: S -> T, k: T, s: seq<S>)
    requires k !in Map(f, s)
    ensures forall y :: y in s ==> f(y) != k
  {
    if s != [] {
      assert Map(f, s)[0] == f(s[0]);
      assert Map(f, s)[1..] == Map(f, s[1..]);
      NotMapped(f, k, s[1..]);
    }
  }

  lemma OnceInside<T>(a: seq<T>, x: T, b: seq<T>)
    requires NoDuplicates(a + ([x] + b))
    ensures x !in a && x !in b
  {
    var whole := a + ([x] + b);
    assert whole[|a|] == x;
    assert forall i :: 0 <= i < |a| ==> whole[i] == a[i];
    assert forall i :: 0 <= i < |b| ==> whole[|a| + 1 + i] == b[i];
  }

  /** Elements with different images: those around one of them have another image. */
  lemma DistinctAround<S, T>(f: S -> T, a: seq<S>, x: S, b: seq<S>)
    requires NoDuplicates(Map(f, a + ([x] + b)))
    ensures forall y :: y in a ==> f(y) != f(x)
    ensures forall y :: y in b ==> f(y) != f(x)
  {
    MapConcat(f, a, [x] + b);
    MapConcat(f, [x], b);
    assert Map(f, [x]) == [f(x)];
    OnceInside(Map(f, a), f(x), Map(f, b));
    NotMapped(f, f(x), a);
    NotMapped(f, f(x), b);
  }

  lemma FilterPartsCons<T>(p: T -> bool, q: T -> bool, x: T, s: seq<T>)
    requires p(x) != q(x) && multiset(s) == multiset(Filter(p, s)) + multiset(Filter(q, s))
    ensures multiset([x] + s) == multiset(Filter(p, [x] + s)) + multiset(Filter(q, [x] + s))
  {
    FilterCons(p, x, s);
    FilterCons(q, x, s);
  }

  /** What passes and what does not make up the whole. */
  lemma {:induction false} FilterParts<T>(p: T -> bool, q: T -> bool, s: seq<T>)
    requires forall x :: x in s ==> p(x) != q(x)
    ensures multiset(s) == multiset(Filter(p, s)) + multiset(Filter(q, s))
  {
    if s != [] {
      assert s[0] in s;
      FilterParts(p, q, s[1..]);
      FilterPartsCons(p, q, s[0], s[1..]);
      assert s == [s[0]] + s[1..];
    }
  }

  lemma {:induction false} FilterTwice<T>(p: T -> bool, q: T -> bool, s: seq<T>)
    requires forall x :: x in s && q(x) ==> p(x)
    ensures Filter(q, Filter(p, s)) == Filter(q, s)
  {
    if s != [] {
      assert s[0] in s;
      FilterTwice(p, q, s[1..]);
      if p(s[0]) {
        FilterCons(q, s[0], Filter(p, s[1..]));
      }
    }
  }

  lemma {:induction false} FilterDistinct<S, T>(f: S -> T, p: S -> bool, s: seq<S>)
    requires NoDuplicates(Map(f, s))
    ensures NoDuplicates(Map(f, Filter(p, s)))
  {
    if s != [] {
      assert s == [s[0]] + s[1..];
      assert Map(f, s) == [f(s[0])] + Map(f, s[1..]);
      NoDuplicatesCons(f(s[0]), Map(f, s[1..]));
      FilterDistinct(f, p, s[1..]);
      if p(s[0]) {
        var r := Filter(p, s[1..]);
        assert Filter(p, s) == [s[0]] + r;
        assert Map(f, [s[0]] + r) == [f(s[0])] + Map(f, r);
        forall i | 0 <= i < |r|
          ensures f(r[i]) != f(s[0])
        {
          assert r[i] in r;
          assert r[i] in s[1..];
          var j :| 0 <= j < |s[1..]| && s[1..][j] == r[i];
          assert Map(f, s[1..])[j] in Map(f, s[1..]);
        }
        NoDuplicatesCons(f(s[0]), Map(f, r));
      }
    }
  }

  lemma NoDuplicatesCons<T>(x: T, s: seq<T>)
    ensures NoDuplicates([x] + s) <==> x !in s && NoDuplicates(s)
  {
    var t := [x] + s;
    assert forall i :: 0 <= i < |s| ==> t[i + 1] == s[i];
    if x in s {
      var i :| 0 <= i < |s| && s[i] == x;
      assert t[0] == t[i + 1];
    }
    if !NoDuplicates(s) {
      var i, j :| 0 <= i < j < |s| && s[i] == s[j];
      assert t[i + 1] == t[j + 1];
    }
  }

  lemma {:induction false} MapPermutation<S, T>(f: S -> T, a: seq<S>, b: seq<S>)
    requires multiset(a) == multiset(b)
    ensures multiset(Map(f, a)) == multiset(Map(f, b))
  {
    if a == [] {
      assert |multiset(b)| == 0;
      assert b == [];
    } else {
      var k := FindHead(a, b);
      MapPermutation(f, a[1..], RemoveAt(b, k));
      assert Map(f, a) == [f(a[0])] + Map(f, a[1..]);
      RemoveAtMultiset(Map(f, b), k);
      assert RemoveAt(Map(f, b), k) == Map(f, RemoveAt(b, k));
    }
  }

  lemma NoDuplicatesSnoc<T>(s: seq<T>, x: T)
    ensures NoDuplicates(s + [x]) <==> NoDuplicates(s) && x !in s
  {
    var t := s + [x];
    assert t[|s|] == x && forall i :: 0 <= i < |s| ==> t[i] == s[i];
    if x in s {
      var i :| 0 <= i < |s| && s[i] == x;
      assert t[i] == t[|s|];
    }
  }

  lemma NoDuplicatesCount<T>(s: seq<T>)
    ensures NoDuplicates(s) <==> forall x :: x in s ==> multiset(s)[x] == 1
  {
    if NoDuplicates(s) {
      forall x | x in s
        ensures multiset(s)[x] == 1
      {
        var k :| 0 <= k < |s| && s[k] == x;
        RemoveAtMultiset(s, k);
        assert x !in RemoveAt(s, k);
      }
    } else {
      var i, j :| 0 <= i < j < |s| && s[i] == s[j];
      RemoveAtMultiset(s, j);
      assert RemoveAt(s, j)[i] == s[i];
      assert s[i] in RemoveAt(s, j) && s[i] in s;
      assert multiset(s)[s[i]] >= 2;
    }
  }

  lemma NoDuplicatesPermutation<T>(a: seq<T>, b: seq<T>)
    requires multiset(a) == multiset(b)
    ensures NoDuplicates(a) <==> NoDuplicates(b)
  {
    NoDuplicatesCount(a);
    NoDuplicatesCount(b);
    assert forall x :: x in a <==> x in multiset(a);
    assert forall x :: x in b <==> x in multiset(b);
  }

  lemma SameElements<T>(a: seq<T>, b: seq<T>)
    requires multiset(a) == multiset(b)
    ensures |a| == |b|
    ensures forall x :: x in a <==> x in b
  {
    assert |multiset(a)| == |a| && |multiset(b)| == |b|;
    forall x
      ensures x in a <==> x in b
    {
      assert x in a <==> x in multiset(a);
      assert x in b <==> x in multiset(b);
    }
  }

  /** Without repetitions, the same elements make the same multiset. */
  lemma SameSetMultiset<T>(a: seq<T>, b: seq<T>)
    requires NoDuplicates(a) && NoDuplicates(b)
    requires forall x :: x in a ==> x in b
    requires forall x :: x in b ==> x in a
    ensures multiset(a) == multiset(b)
  {
    NoDuplicatesCount(a);
    NoDuplicatesCount(b);
    forall x | x in multiset(a) || x in multiset(b)
      ensures multiset(a)[x] == multiset(b)[x]
    {
      assert x in a && x in b;
    }
  }

  predicate StrictlyIncreasing(s: seq<int>) {
    forall i, j :: 0 <= i < j < |s| ==> s[i] < s[j]
  }

  /** A strictly increasing sequence is known by its elements. */
  lemma {:induction false} IncreasingUnique(a: seq<int>, b: seq<int>)
    requires StrictlyIncreasing(a) && StrictlyIncreasing(b)
    requires forall x :: x in a <==> x in b
    ensures a == b
  {
    forall x: int | x in a
      ensures x in b
    {
    }
    forall x: int | x in b
      ensures x in a
    {
    }
    SameSetMultiset(a, b);
    SameElements(a, b);
    if a != [] {
      assert a[0] in b && b[0] in a;
      assert b[0] == a[0];
      assert a == [a[0]] + a[1..] && b == [b[0]] + b[1..];
      forall x
        ensures x in a[1..] <==> x in b[1..]
      {
        assert x in a[1..] <==> x in a && x != a[0];
        assert x in b[1..] <==> x in b && x != b[0];
      }
      IncreasingUnique(a[1..], b[1..]);
    }
  }

  lemma AllOfPermutation<T>(p: T -> bool, a: seq<T>, b: seq<T>)
    requires multiset(a) == multiset(b)
    requires forall x :: x in a ==> p(x)
    ensures forall x :: x in b ==> p(x)
  {
    SameElements(a, b);
  }

  lemma AllOfMap<S, T>(f: S -> T, p: T -> bool, s: seq<S>)
    requires forall x :: x in s ==> p(f(x))
    ensures forall y :: y in Map(f, s) ==> p(y)
  {
    forall i | 0 <= i < |s|
      ensures p(Map(f, s)[i])
    {
      assert s[i] in s;
    }
  }

  // ----- grouping, as a Map in insertion order does it

  /** Each element once, in order of first appearance. */
  function Unique<T(==)>(s: seq<T>): (r: seq<T>)
    ensures NoDuplicates(r)
    ensures forall x {:trigger x in r} :: x in r ==> x in s
    ensures forall x {:trigger x in r} :: x in s ==> x in r
  {
    if s == [] then []
    else
      var last, rest := s[|s| - 1], Unique(s[..|s| - 1]);
      assert s == s[..|s| - 1] + [last];
      if last in rest then rest else rest + [last]
  }

  function HasImage<S, T(==)>(f: S -> T, k: T): S -> bool {
    (x: S) => f(x) == k
  }

  function GroupOf<S, T(==)>(f: S -> T, s: seq<S>, k: T): seq<S> {
    Filter(HasImage(f, k), s)
  }

  lemma InGroupIff<S, T>(f: S -> T, s: seq<S>, x: S, k: T)
    requires x in s
    ensures x in GroupOf(f, s, k) <==> f(x) == k
  {
  }

  lemma GroupMembers<S, T>(f: S -> T, s: seq<S>, k: T)
    ensures forall x :: x in GroupOf(f, s, k) ==> x in s && f(x) == k
    ensures k in Map(f, s) ==> GroupOf(f, s, k) != []
  {
    if k in Map(f, s) {
      var i :| 0 <= i < |s| && Map(f, s)[i] == k;
      InGroupIff(f, s, s[i], k);
    }
  }

  ghost predicate HoldsGroups<S, T(!new)>(f: S -> T, groups: map<T, seq<S>>, s: seq<S>) {
    forall k :: k in groups ==> groups[k] == GroupOf(f, s, k)
  }

  /** The groups by key, with the keys in order of first appearance. */
  ghost predicate AreGroups<S, T(!new)>(f: S -> T, groups: map<T, seq<S>>, keys: seq<T>, s: seq<S>) {
    && keys == Unique(Map(f, s))
    && (forall k :: k in keys <==> k in groups)
    && HoldsGroups(f, groups, s)
  }

  lemma EmptyGroup<S, T>(f: S -> T, s: seq<S>, k: T)
    requires k !in Unique(Map(f, s))
    ensures GroupOf(f, s, k) == []
  {
    NotMapped(f, k, s);
    FilterNone(HasImage(f, k), s);
  }

  lemma KeysSnoc<S, T>(f: S -> T, s: seq<S>, x: S)
    ensures Unique(Map(f, s + [x]))
         == if f(x) in Unique(Map(f, s)) then Unique(Map(f, s)) else Unique(Map(f, s)) + [f(x)]
  {
    MapSnoc(f, s, x);
    assert (Map(f, s) + [f(x)])[..|s|] == Map(f, s);
  }

  lemma GroupSnoc<S, T>(f: S -> T, s: seq<S>, x: S, k: T)
    ensures GroupOf(f, s + [x], k) == if k == f(x) then GroupOf(f, s, k) + [x] else GroupOf(f, s, k)
  {
    FilterSnoc(HasImage(f, k), s, x);
  }

  lemma HeldSnoc<S, T(!new)>(f: S -> T, groups: map<T, seq<S>>, s: seq<S>, x: S)
    requires HoldsGroups(f, groups, s)
    ensures HoldsGroups(f, groups[f(x) := GroupOf(f, s, f(x)) + [x]], s + [x])
  {
    var grown := groups[f(x) := GroupOf(f, s, f(x)) + [x]];
    forall k | k in grown
      ensures grown[k] == GroupOf(f, s + [x], k)
    {
      GroupSnoc(f, s, x, k);
    }
  }

  /** One more element goes into its group ... */
  lemma GroupGrows<S, T(!new)>(f: S -> T, groups: map<T, seq<S>>, keys: seq<T>, s: seq<S>, x: S)
    requires AreGroups(f, groups, keys, s) && f(x) in groups
    ensures AreGroups(f, groups[f(x) := groups[f(x)] + [x]], keys, s + [x])
  {
    KeysSnoc(f, s, x);
    HeldSnoc(f, groups, s, x);
  }

  /** ... or starts one. */
  lemma GroupStarts<S, T(!new)>(f: S -> T, groups: map<T, seq<S>>, keys: seq<T>, s: seq<S>, x: S)
    requires AreGroups(f, groups, keys, s) && f(x) !in groups
    ensures AreGroups(f, groups[f(x) := [x]], keys + [f(x)], s + [x])
  {
    KeysSnoc(f, s, x);
    EmptyGroup(f, s, f(x));
    HeldSnoc(f, groups, s, x);
    assert [] + [x] == [x];
  }

  function GroupImage<S, T(==), U>(f: S -> T, g: seq<S> -> U, s: seq<S>): T -> U {
    (k: T) => g(GroupOf(f, s, k))
  }

  method MapGroups<S, T(!new, ==), U>(f: S -> T, g: seq<S> -> U, groups: map<T, seq<S>>, keys: seq<T>, ghost s: seq<S>)
    returns (images: seq<U>)
    requires AreGroups(f, groups, keys, s)
    ensures images == Map(GroupImage(f, g, s), keys)
  {
    images := [];
    for i := 0 to |keys|
      invariant images == Map(GroupImage(f, g, s), keys[..i])
    {
      assert keys[..i + 1] == keys[..i] + [keys[i]];
      MapSnoc(GroupImage(f, g, s), keys[..i], keys[i]);
      assert keys[i] in keys;
      images := images + [g(groups[keys[i]])];
    }
    assert keys[..|keys|] == keys;
  }

  // ----- stable sorting, as Array.prototype.sort does it

  predicate Sorted<T(==)>(leq: (T, T) -> bool, s: seq<T>) {
    s == [] || ((forall y :: y in multiset(s[1..]) ==> leq(s[0], y)) && Sorted(leq, s[1..]))
  }

  /** leq is total and transitive on the elements of m. */
  ghost predicate Preorders<T>(leq: (T, T) -> bool, m: multiset<T>) {
    && (forall x, y {:trigger leq(x, y)} :: x in m && y in m ==> leq(x, y) || leq(y, x))
    && (forall x, y, z {:trigger leq(x, y), leq(y, z)} ::
          x in m && y in m && z in m && leq(x, y) && leq(y, z) ==> leq(x, z))
  }

  /** ... and tells any two different elements of m apart. */
  ghost predicate Orders<T>(leq: (T, T) -> bool, m: multiset<T>) {
    && Preorders(leq, m)
    && (forall x, y {:trigger leq(x, y), leq(y, x)} :: x in m && y in m && leq(x, y) && leq(y, x) ==> x == y)
  }

  /** Puts x before the first element that it does not exceed. */
  function Insert<T(==)>(leq: (T, T) -> bool, x: T, s: seq<T>): (r: seq<T>)
    ensures multiset(r) == multiset{x} + multiset(s)
  {
    if s == [] then [x]
    else if leq(x, s[0]) then [x] + s
    else
      assert s == [s[0]] + s[1..];
      [s[0]] + Insert(leq, x, s[1..])
  }

  function SortBy<T(==)>(leq: (T, T) -> bool, s: seq<T>): (r: seq<T>)
    ensures multiset(r) == multiset(s)
  {
    if s == [] then []
    else
      assert s == [s[0]] + s[1..];
      Insert(leq, s[0], SortBy(leq, s[1..]))
  }

  lemma TailMultiset<T>(s: seq<T>)
    requires s != []
    ensures multiset(s) == multiset{s[0]} + multiset(s[1..])
    ensures multiset(s[1..]) == multiset(s) - multiset{s[0]}
  {
    assert s == [s[0]] + s[1..];
  }

  lemma ConsSorted<T>(leq: (T, T) -> bool, x: T, s: seq<T>)
    requires Sorted(leq, s)
    requires forall y :: y in multiset(s) ==> leq(x, y)
    ensures Sorted(leq, [x] + s)
  {
    assert ([x] + s)[1..] == s;
  }

  lemma BelowSorted<T>(leq: (T, T) -> bool, x: T, s: seq<T>)
    requires Preorders(leq, multiset{x} + multiset(s)) && Sorted(leq, s)
    requires s != [] && leq(x, s[0])
    ensures forall y :: y in multiset(s) ==> leq(x, y)
  {
    TailMultiset(s);
    forall y | y in multiset(s)
      ensures leq(x, y)
    {
      assert y == s[0] || y in multiset(s[1..]);
    }
  }

  lemma PreordersSubset<T>(leq: (T, T) -> bool, m: multiset<T>, n: multiset<T>)
    requires Preorders(leq, m) && n <= m
    ensures Preorders(leq, n)
  {
    assert forall x :: x in n ==> x in m;
  }

  lemma {:induction false} InsertSorted<T>(leq: (T, T) -> bool, x: T, s: seq<T>)
    requires Preorders(leq, multiset{x} + multiset(s)) && Sorted(leq, s)
    ensures Sorted(leq, Insert(leq, x, s))
  {
    if s == [] {
    } else if leq(x, s[0]) {
      BelowSorted(leq, x, s);
      ConsSorted(leq, x, s);
    } else {
      TailMultiset(s);
      assert leq(s[0], x) by {
        assert s[0] in multiset{x} + multiset(s);
      }
      PreordersSubset(leq, multiset{x} + multiset(s), multiset{x} + multiset(s[1..]));
      InsertSorted(leq, x, s[1..]);
      ConsSorted(leq, s[0], Insert(leq, x, s[1..]));
    }
  }

  lemma {:induction false} SortBySorted<T>(leq: (T, T) -> bool, s: seq<T>)
    requires Preorders(leq, multiset(s))
    ensures Sorted(leq, SortBy(leq, s))
  {
    if s != [] {
      assert multiset(s) == multiset{s[0]} + multiset(s[1..]) by {
        assert s == [s[0]] + s[1..];
      }
      SortBySorted(leq, s[1..]);
      InsertSorted(leq, s[0], SortBy(leq, s[1..]));
    }
  }

  lemma SortedHead<T>(leq: (T, T) -> bool, a: seq<T>, b: seq<T>)
    requires a != [] && b != []
    requires multiset(a) == multiset(b) && Orders(leq, multiset(a))
    requires Sorted(leq, a) && Sorted(leq, b)
    ensures a[0] == b[0]
  {
    var x, y := a[0], b[0];
    TailMultiset(a);
    TailMultiset(b);
    assert x in multiset(b) && y in multiset(a);
  }

  /** Two sorted arrangements of the same elements are the same sequence. */
  lemma {:induction false} SortedUnique<T>(leq: (T, T) -> bool, a: seq<T>, b: seq<T>)
    requires multiset(a) == multiset(b) && Orders(leq, multiset(a))
    requires Sorted(leq, a) && Sorted(leq, b)
    ensures a == b
  {
    assert |multiset(a)| == |a| && |multiset(b)| == |b|;
    if a != [] {
      SortedHead(leq, a, b);
      TailMultiset(a);
      TailMultiset(b);
      SortedUnique(leq, a[1..], b[1..]);
      assert a == [a[0]] + a[1..] && b == [b[0]] + b[1..];
    }
  }

  /** Sorting by an order of the elements forgets how they were arranged. */
  lemma SortByCanonical<T>(leq: (T, T) -> bool, a: seq<T>, b: seq<T>)
    requires multiset(a) == multiset(b) && Orders(leq, multiset(a))
    ensures SortBy(leq, a) == SortBy(leq, b)
  {
    SortBySorted(leq, a);
    SortBySorted(leq, b);
    SortedUnique(leq, SortBy(leq, a), SortBy(leq, b));
  }

  lemma {:induction false} SortedAt<T>(leq: (T, T) -> bool, s: seq<T>, i: nat, j: nat)
    requires Sorted(leq, s) && i < j < |s|
    ensures leq(s[i], s[j])
  {
    if i == 0 {
      assert s[j] == s[1..][j - 1] && s[j] in multiset(s[1..]);
    } else {
      SortedAt(leq, s[1..], i - 1, j - 1);
    }
  }

  /** Sorting leaves what is sorted as it is. */
  lemma {:induction false} SortedStays<T>(leq: (T, T) -> bool, s: seq<T>)
    requires Sorted(leq, s)
    ensures SortBy(leq, s) == s
  {
    if s != [] {
      SortedStays(leq, s[1..]);
      if |s| > 1 {
        assert s[1..][0] in multiset(s[1..]);
      }
      assert s == [s[0]] + s[1..];
    }
  }

  // ----- sorting by a key

  ghost predicate SortsByKey<T(!new)>(leq: (T, T) -> bool, key: T -> seq<KeyPart>) {
    forall x, y :: leq(x, y) <==> KeyLeq(key(x), key(y))
  }

  /** A comparator that compares keys is a total preorder, and an order where no two elements
      share a key. */
  lemma KeysOrder<T(!new)>(leq: (T, T) -> bool, key: T -> seq<KeyPart>, m: multiset<T>)
    requires SortsByKey(leq, key)
    ensures Preorders(leq, m)
    ensures (forall x, y :: x in m && y in m && key(x) == key(y) ==> x == y) ==> Orders(leq, m)
  {
    forall x, y
      ensures leq(x, y) || leq(y, x)
      ensures leq(x, y) && leq(y, x) ==> key(x) == key(y)
    {
      KeyLeqTotal(key(x), key(y));
    }
    forall x, y, z | leq(x, y) && leq(y, z)
      ensures leq(x, z)
    {
      KeyLeqTransitive(key(x), key(y), key(z));
    }
  }

  /** Elements whose images under f are all different are known by their image. */
  lemma DistinctImages<S, T>(f: S -> T, s: seq<S>, x: S, y: S)
    requires NoDuplicates(Map(f, s)) && x in s && y in s && f(x) == f(y)
    ensures x == y
  {
    var i :| 0 <= i < |s| && s[i] == x;
    var j :| 0 <= j < |s| && s[j] == y;
    assert Map(f, s)[i] == Map(f, s)[j];
  }

  /** Sorting commutes with a function that the comparator does not notice. */
  lemma {:induction false} SortByMap<S(!new), T>(f: S -> T, p: (S, S) -> bool, q: (T, T) -> bool, s: seq<S>)
    requires forall x, y :: q(f(x), f(y)) == p(x, y)
    ensures SortBy(q, Map(f, s)) == Map(f, SortBy(p, s))
  {
    if s != [] {
      SortByMap(f, p, q, s[1..]);
      InsertMap(f, p, q, s[0], SortBy(p, s[1..]));
    }
  }

  lemma {:induction false} InsertMap<S(!new), T>(f: S -> T, p: (S, S) -> bool, q: (T, T) -> bool, x: S, s: seq<S>)
    requires forall x, y :: q(f(x), f(y)) == p(x, y)
    ensures Insert(q, f(x), Map(f, s)) == Map(f, Insert(p, x, s))
  {
    if s != [] {
      assert q(f(x), f(s[0])) == p(x, s[0]);
      if p(x, s[0]) {
        assert ([x] + s)[1..] == s;
      } else {
        InsertMap(f, p, q, x, s[1..]);
        var r := Insert(p, x, s[1..]);
        assert ([s[0]] + r)[1..] == r;
      }
    }
  }

  /** What comes after everything goes to the end. */
  lemma {:induction false} InsertAtEnd<T>(leq: (T, T) -> bool, x: T, s: seq<T>)
    requires forall y :: y in s ==> !leq(x, y)
    ensures Insert(leq, x, s) == s + [x]
  {
    if s != [] {
      assert s[0] in s;
      InsertAtEnd(leq, x, s[1..]);
      assert [s[0]] + (s[1..] + [x]) == s + [x];
    }
  }

  /** Sorting is stable: elements that all tie keep their order. */
  lemma {:induction false} SortByStable<T(!new)>(leq: (T, T) -> bool, c: T -> bool, s: seq<T>)
    requires forall x, y {:trigger leq(x, y)} :: c(x) && c(y) ==> leq(x, y)
    ensures Filter(c, SortBy(leq, s)) == Filter(c, s)
  {
    if s != [] {
      SortByStable(leq, c, s[1..]);
      InsertStable(leq, c, s[0], SortBy(leq, s[1..]));
    }
  }

  lemma {:induction false} InsertStable<T(!new)>(leq: (T, T) -> bool, c: T -> bool, x: T, s: seq<T>)
    requires forall x, y {:trigger leq(x, y)} :: c(x) && c(y) ==> leq(x, y)
    ensures Filter(c, Insert(leq, x, s)) == if c(x) then [x] + Filter(c, s) else Filter(c, s)
  {
    if s == [] || leq(x, s[0]) {
      FilterCons(c, x, s);
    } else {
      assert !(c(x) && c(s[0]));
      InsertStable(leq, c, x, s[1..]);
      InsertStableCons(c, x, s[0], Insert(leq, x, s[1..]), s[1..]);
      assert s == [s[0]] + s[1..];
    }
  }

  lemma InsertStableCons<T>(c: T -> bool, x: T, head: T, inserted: seq<T>, tail: seq<T>)
    requires !(c(x) && c(head)) && Filter(c, inserted) == if c(x) then [x] + Filter(c, tail) else Filter(c, tail)
    ensures Filter(c, [head] + inserted) == if c(x) then [x] + Filter(c, [head] + tail) else Filter(c, [head] + tail)
  {
    FilterCons(c, head, inserted);
    FilterCons(c, head, tail);
  }
}
