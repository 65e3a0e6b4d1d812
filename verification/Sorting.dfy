/** Sorting by a total order, and why its result depends on the multiset of the
    elements alone. Go's library sorts are represented by `Sort`. */
module Sorting {
  ghost predicate TotalOrder<T(!new)>(le: (T, T) -> bool) {
    && (forall x, y :: le(x, y) || le(y, x))
    && (forall x, y :: le(x, y) && le(y, x) ==> x == y)
    && (forall x, y, z :: le(x, y) && le(y, z) ==> le(x, z))
  }

  ghost predicate Sorted<T>(s: seq<T>, le: (T, T) -> bool) {
    forall i, j :: 0 <= i < j < |s| ==> le(s[i], s[j])
  }

  function Insert<T>(x: T, s: seq<T>, le: (T, T) -> bool): seq<T> {
    if s == [] || le(x, s[0]) then [x] + s else [s[0]] + Insert(x, s[1..], le)
  }

  function Sort<T>(s: seq<T>, le: (T, T) -> bool): seq<T> {
    if s == [] then [] else Insert(s[0], Sort(s[1..], le), le)
  }

  lemma {:induction false} InsertPermutes<T>(x: T, s: seq<T>, le: (T, T) -> bool)
    ensures multiset(Insert(x, s, le)) == multiset{x} + multiset(s)
  {
    if s != [] && !le(x, s[0]) {
      assert s == [s[0]] + s[1..];
      InsertPermutes(x, s[1..], le);
    }
  }

  lemma {:induction false} InsertSorts<T(!new)>(x: T, s: seq<T>, le: (T, T) -> bool)
    requires TotalOrder(le) && Sorted(s, le)
    ensures Sorted(Insert(x, s, le), le)
  {
    if s != [] && !le(x, s[0]) {
      InsertSorts(x, s[1..], le);
      InsertPermutes(x, s[1..], le);
      var r := Insert(x, s[1..], le);
      forall k | 0 <= k < |r| ensures le(s[0], r[k]) {
        assert r[k] in multiset(r);
        assert r[k] == x || r[k] in s[1..];
      }
    }
  }

  lemma {:induction false} SortSorts<T(!new)>(s: seq<T>, le: (T, T) -> bool)
    requires TotalOrder(le)
    ensures Sorted(Sort(s, le), le) && multiset(Sort(s, le)) == multiset(s) && |Sort(s, le)| == |s|
  {
    if s != [] {
      assert s == [s[0]] + s[1..];
      SortSorts(s[1..], le);
      InsertSorts(s[0], Sort(s[1..], le), le);
      InsertPermutes(s[0], Sort(s[1..], le), le);
    }
    assert |multiset(Sort(s, le))| == |multiset(s)|;
  }

  /** There is only one way to sort. */
  lemma {:induction false} SortedUnique<T(!new)>(a: seq<T>, b: seq<T>, le: (T, T) -> bool)
    requires TotalOrder(le) && Sorted(a, le) && Sorted(b, le) && multiset(a) == multiset(b)
    ensures a == b
  {
    SameMembers(a, b);
    if a != [] {
      FirstIsLeast(a, b[0], le);
      FirstIsLeast(b, a[0], le);
      WithoutFirst(a);
      WithoutFirst(b);
      SortedUnique(a[1..], b[1..], le);
      assert a == [a[0]] + a[1..] && b == [b[0]] + b[1..];
    }
  }

  lemma FirstIsLeast<T(!new)>(s: seq<T>, x: T, le: (T, T) -> bool)
    requires TotalOrder(le) && Sorted(s, le) && x in s
    ensures le(s[0], x)
  {
    var k :| 0 <= k < |s| && s[k] == x;
    assert le(s[0], s[0]);
  }

  lemma WithoutFirst<T>(s: seq<T>)
    requires s != []
    ensures multiset(s[1..]) == multiset(s) - multiset{s[0]}
  {
    assert s == [s[0]] + s[1..];
  }

  lemma SortCanonical<T(!new)>(a: seq<T>, b: seq<T>, le: (T, T) -> bool)
    requires TotalOrder(le) && multiset(a) == multiset(b)
    ensures Sort(a, le) == Sort(b, le)
  {
    SortSorts(a, le);
    SortSorts(b, le);
    SortedUnique(Sort(a, le), Sort(b, le), le);
  }

  lemma SortIs<T(!new)>(s: seq<T>, sorted: seq<T>, le: (T, T) -> bool)
    requires TotalOrder(le) && Sorted(sorted, le) && multiset(s) == multiset(sorted)
    ensures Sort(s, le) == sorted
  {
    SortSorts(s, le);
    SortedUnique(Sort(s, le), sorted, le);
  }

  // ----- maps over permuted lists -----

  function Map<T, U>(f: T -> U, s: seq<T>): seq<U> {
    if s == [] then [] else Map(f, s[..|s| - 1]) + [f(s[|s| - 1])]
  }

  lemma {:induction false} MapAt<T, U>(f: T -> U, s: seq<T>)
    ensures |Map(f, s)| == |s|
    ensures forall i :: 0 <= i < |s| ==> Map(f, s)[i] == f(s[i])
  {
    if s != [] {
      MapAt(f, s[..|s| - 1]);
    }
  }

  lemma {:induction false} SameMap<T, U>(f: T -> U, g: T -> U, s: seq<T>)
    requires forall x :: x in s ==> f(x) == g(x)
    ensures Map(f, s) == Map(g, s)
  {
    if s != [] {
      SameMap(f, g, s[..|s| - 1]);
    }
  }

  lemma {:induction false} MapMembers<T, U>(f: T -> U, s: seq<T>)
    ensures |Map(f, s)| == |s|
    ensures forall x :: x in s ==> f(x) in Map(f, s)
    ensures forall y :: y in Map(f, s) ==> exists x :: x in s && f(x) == y
  {
    if s != [] {
      MapMembers(f, s[..|s| - 1]);
      assert s == s[..|s| - 1] + [s[|s| - 1]];
    }
  }

  lemma SortedMap<T, U(!new)>(f: T -> U, s: seq<T>, le: (U, U) -> bool)
    requires TotalOrder(le)
    ensures var sorted := Sort(Map(f, s), le);
            && Sorted(sorted, le) && |sorted| == |s|
            && (forall x :: x in s ==> f(x) in sorted)
            && (forall y :: y in sorted ==> exists x :: x in s && f(x) == y)
  {
    MapMembers(f, s);
    SortSorts(Map(f, s), le);
    SameMembers(Sort(Map(f, s), le), Map(f, s));
  }

  lemma MapOfTwo<T, U>(f: T -> U, x: T, y: T)
    ensures Map(f, [x]) == [f(x)] && Map(f, [x, y]) == [f(x), f(y)]
  {
    assert [x][..0] == [] && [x, y][..1] == [x];
  }

  lemma {:induction false} MapOfConcat<T, U>(f: T -> U, a: seq<T>, b: seq<T>)
    ensures Map(f, a + b) == Map(f, a) + Map(f, b)
  {
    if b == [] {
      assert a + b == a;
    } else {
      MapOfConcat(f, a, b[..|b| - 1]);
      assert (a + b)[..|a + b| - 1] == a + b[..|b| - 1];
    }
  }

  /** Where the last element of a list occurs in a permutation of it. */
  lemma LastIn<T>(a: seq<T>, b: seq<T>) returns (j: nat)
    requires a != [] && multiset(a) == multiset(b)
    ensures j < |b| && b[j] == a[|a| - 1]
    ensures multiset(a[..|a| - 1]) == multiset(b[..j] + b[j + 1..])
    ensures b == b[..j] + [b[j]] + b[j + 1..]
  {
    SameMembers(a, b);
    assert a[|a| - 1] in b;
    j :| 0 <= j < |b| && b[j] == a[|a| - 1];
    Without(a, |a| - 1);
    Without(b, j);
    assert a[..|a| - 1] + a[|a|..] == a[..|a| - 1];
  }

  lemma Without<T>(s: seq<T>, j: nat)
    requires j < |s|
    ensures s == s[..j] + [s[j]] + s[j + 1..]
    ensures multiset(s[..j] + s[j + 1..]) == multiset(s) - multiset{s[j]}
  {
    assert s == s[..j] + [s[j]] + s[j + 1..];
  }

  lemma {:induction false} MapPermutes<T, U>(f: T -> U, a: seq<T>, b: seq<T>)
    requires multiset(a) == multiset(b)
    ensures multiset(Map(f, a)) == multiset(Map(f, b))
  {
    if a == [] {
      assert |multiset(b)| == 0;
    } else {
      var j := LastIn(a, b);
      MapPermutes(f, a[..|a| - 1], b[..j] + b[j + 1..]);
      MapOfConcat(f, b[..j], b[j + 1..]);
      MapOfConcat(f, b[..j] + [b[j]], b[j + 1..]);
      MapOfConcat(f, b[..j], [b[j]]);
    }
  }

  function Filter<T>(p: T -> bool, s: seq<T>): seq<T> {
    if s == [] then []
    else
      var rest := Filter(p, s[..|s| - 1]);
      if p(s[|s| - 1]) then rest + [s[|s| - 1]] else rest
  }

  lemma {:induction false} FilterMembers<T>(p: T -> bool, s: seq<T>)
    ensures forall x :: x in Filter(p, s) <==> x in s && p(x)
  {
    if s != [] {
      FilterMembers(p, s[..|s| - 1]);
      assert s == s[..|s| - 1] + [s[|s| - 1]];
    }
  }

  lemma {:induction false} SameFilter<T>(p: T -> bool, q: T -> bool, s: seq<T>)
    requires forall x :: x in s ==> p(x) == q(x)
    ensures Filter(p, s) == Filter(q, s)
  {
    if s != [] {
      SameFilter(p, q, s[..|s| - 1]);
    }
  }

  lemma FilterOneMore<T>(p: T -> bool, s: seq<T>, x: T)
    ensures Filter(p, s + [x]) == Filter(p, s) + if p(x) then [x] else []
  {
    assert (s + [x])[..|s + [x]| - 1] == s;
  }

  lemma FilterOfTwo<T>(p: T -> bool, x: T, y: T)
    requires p(x) && p(y)
    ensures Filter(p, [x, y]) == [x, y]
  {
    assert [x][..0] == [] && Filter(p, [x]) == [x];
    assert [x, y][..1] == [x];
  }

  lemma {:induction false} FilterOfConcat<T>(p: T -> bool, a: seq<T>, b: seq<T>)
    ensures Filter(p, a + b) == Filter(p, a) + Filter(p, b)
  {
    if b == [] {
      assert a + b == a;
    } else {
      FilterOfConcat(p, a, b[..|b| - 1]);
      assert (a + b)[..|a + b| - 1] == a + b[..|b| - 1];
    }
  }

  /** If only the first n elements can pass, at most n do; and if they cannot, at most the rest. */
  lemma {:induction false} FilterCounts<T>(p: T -> bool, s: seq<T>, n: nat)
    requires n <= |s|
    ensures (forall i :: n <= i < |s| ==> !p(s[i])) ==> |Filter(p, s)| <= n
    ensures (forall i :: 0 <= i < n ==> !p(s[i])) ==> |Filter(p, s)| <= |s| - n
  {
    if s != [] {
      var front := s[..|s| - 1];
      FilterCounts(p, front, if n < |s| then n else n - 1);
      if n == |s| {
        FilterAtMost(p, s);
      }
    }
  }

  lemma {:induction false} FilterAtMost<T>(p: T -> bool, s: seq<T>)
    ensures |Filter(p, s)| <= |s|
    ensures (forall i :: 0 <= i < |s| ==> !p(s[i])) ==> Filter(p, s) == []
  {
    if s != [] {
      FilterAtMost(p, s[..|s| - 1]);
    }
  }

  lemma {:induction false} FilterPermutes<T>(p: T -> bool, a: seq<T>, b: seq<T>)
    requires multiset(a) == multiset(b)
    ensures multiset(Filter(p, a)) == multiset(Filter(p, b))
  {
    if a == [] {
      assert |multiset(b)| == 0;
    } else {
      var j := LastIn(a, b);
      FilterPermutes(p, a[..|a| - 1], b[..j] + b[j + 1..]);
      FilterOfConcat(p, b[..j], b[j + 1..]);
      FilterOfConcat(p, b[..j] + [b[j]], b[j + 1..]);
      FilterOfConcat(p, b[..j], [b[j]]);
      assert Filter(p, [b[j]]) == if p(b[j]) then [b[j]] else [];
    }
  }

  lemma SameMembers<T>(a: seq<T>, b: seq<T>)
    requires multiset(a) == multiset(b)
    ensures forall x :: x in a <==> x in b
    ensures |a| == |b|
  {
    assert forall x :: x in a <==> x in multiset(a);
    assert forall x :: x in b <==> x in multiset(b);
    assert |multiset(a)| == |multiset(b)|;
  }

  // ----- sums and maxima of permuted lists -----

  function Sum(s: seq<real>): real {
    if s == [] then 0.0 else Sum(s[..|s| - 1]) + s[|s| - 1]
  }

  lemma {:induction false} SumOfConcat(a: seq<real>, b: seq<real>)
    ensures Sum(a + b) == Sum(a) + Sum(b)
  {
    if b == [] {
      assert a + b == a;
    } else {
      SumOfConcat(a, b[..|b| - 1]);
      assert (a + b)[..|a + b| - 1] == a + b[..|b| - 1];
    }
  }

  lemma {:induction false} SumPermutes(a: seq<real>, b: seq<real>)
    requires multiset(a) == multiset(b)
    ensures Sum(a) == Sum(b)
  {
    if a == [] {
      assert |multiset(b)| == 0;
    } else {
      var j := LastIn(a, b);
      SumPermutes(a[..|a| - 1], b[..j] + b[j + 1..]);
      SumOfConcat(b[..j], b[j + 1..]);
      SumOfConcat(b[..j] + [b[j]], b[j + 1..]);
      SumOfConcat(b[..j], [b[j]]);
    }
  }

  /** The largest of the numbers, or zero when there is none. */
  function Max(s: seq<nat>): nat {
    if s == [] then 0
    else
      var m := Max(s[..|s| - 1]);
      if s[|s| - 1] > m then s[|s| - 1] else m
  }

  lemma MaxOfTwo(x: nat, y: nat)
    ensures Max([x]) == x && Max([x, y]) == if y > x then y else x
  {
    var one: seq<nat>, two: seq<nat> := [x], [x, y];
    assert one[..0] == [] && two[..1] == one;
  }

  lemma {:induction false} MaxOfMap<T>(f: T -> nat, s: seq<T>)
    ensures forall x :: x in s ==> f(x) <= Max(Map(f, s))
    ensures Max(Map(f, s)) == 0 || exists x :: x in s && f(x) == Max(Map(f, s))
  {
    if s != [] {
      MaxOfMap(f, s[..|s| - 1]);
      assert s == s[..|s| - 1] + [s[|s| - 1]];
    }
  }

  lemma {:induction false} MaxBounds(s: seq<nat>)
    ensures forall x :: x in multiset(s) ==> x <= Max(s)
    ensures Max(s) == 0 || Max(s) in multiset(s)
  {
    if s != [] {
      MaxBounds(s[..|s| - 1]);
      assert s == s[..|s| - 1] + [s[|s| - 1]];
    }
  }

  lemma MaxPermutes(a: seq<nat>, b: seq<nat>)
    requires multiset(a) == multiset(b)
    ensures Max(a) == Max(b)
  {
    MaxBounds(a);
    MaxBounds(b);
  }

  // ----- iterating a Go map: any duplicate-free listing of its keys -----

  ghost predicate Lists<T>(s: seq<T>, keys: set<T>) {
    multiset(s) == multiset(keys)
  }

  /** One listing of a set; which one does not matter. */
  ghost function Listing<T(!new)>(keys: set<T>): seq<T> {
    if keys == {} then [] else var x :| x in keys; Listing(keys - {x}) + [x]
  }

  lemma ListingMembers<T(!new)>(keys: set<T>)
    ensures |Listing(keys)| == |keys| && forall k :: k in Listing(keys) <==> k in keys
  {
    ListingLists(keys);
    assert |multiset(Listing(keys))| == |multiset(keys)|;
    forall k ensures k in Listing(keys) <==> k in keys {
      assert k in multiset(Listing(keys)) <==> k in multiset(keys);
    }
  }

  lemma {:induction false} ListingLists<T(!new)>(keys: set<T>)
    ensures Lists(Listing(keys), keys)
    decreases keys
  {
    if keys != {} {
      var x :| x in keys && Listing(keys) == Listing(keys - {x}) + [x];
      ListingLists(keys - {x});
      assert keys == (keys - {x}) + {x};
    }
  }

  /** Visiting one more key of the map. */
  lemma VisitOne<T>(seen: seq<T>, keys: set<T>, rest: set<T>, x: T)
    requires rest <= keys && x in rest && Lists(seen, keys - rest)
    ensures Lists(seen + [x], keys - (rest - {x}))
  {
    assert keys - (rest - {x}) == (keys - rest) + {x};
  }

  lemma MapOneMore<T, U>(f: T -> U, s: seq<T>, x: T)
    ensures Map(f, s + [x]) == Map(f, s) + [f(x)]
  {
    assert (s + [x])[..|s + [x]| - 1] == s;
  }

  lemma VisitedAll<T>(seen: seq<T>, keys: set<T>, rest: set<T>)
    requires rest == {} && Lists(seen, keys - rest)
    ensures Lists(seen, keys)
  {
    assert keys - rest == keys;
  }

  // ----- sorting by a key -----

  ghost predicate Descending<T>(s: seq<T>, key: T -> real) {
    forall i, j :: 0 <= i < j < |s| ==> key(s[i]) >= key(s[j])
  }

  function InsertedAt<T>(s: seq<T>, k: nat, x: T): seq<T>
    requires k <= |s|
  {
    s[..k] + [x] + s[k..]
  }

  lemma InsertedPermutes<T>(s: seq<T>, k: nat, x: T)
    requires k <= |s|
    ensures multiset(InsertedAt(s, k, x)) == multiset(s) + multiset{x}
  {
    assert s == s[..k] + s[k..];
  }

  lemma InsertedDescending<T>(s: seq<T>, key: T -> real, k: nat, x: T)
    requires Descending(s, key) && k <= |s|
    requires forall j :: 0 <= j < k ==> key(s[j]) >= key(x)
    requires k < |s| ==> key(s[k]) < key(x)
    ensures Descending(InsertedAt(s, k, x), key)
  {
    var r := InsertedAt(s, k, x);
    forall i, j | 0 <= i < j < |r| ensures key(r[i]) >= key(r[j]) {
      var before := if i < k then s[i] else if i == k then x else s[i - 1];
      var after := if j < k then s[j] else if j == k then x else s[j - 1];
      assert r[i] == before && r[j] == after;
    }
  }

  method InsertDescending<T>(s: seq<T>, key: T -> real, x: T) returns (r: seq<T>)
    requires Descending(s, key)
    ensures Descending(r, key) && multiset(r) == multiset(s) + multiset{x}
  {
    var k := 0;
    while k < |s| && key(s[k]) >= key(x)
      invariant k <= |s|
      invariant forall j :: 0 <= j < k ==> key(s[j]) >= key(x)
    {
      k := k + 1;
    }
    InsertedDescending(s, key, k, x);
    InsertedPermutes(s, k, x);
    r := InsertedAt(s, k, x);
  }

  /** What sort.Slice with a "greater key first" comparison returns, up to ties. */
  method SortDescending<T>(s: seq<T>, key: T -> real) returns (r: seq<T>)
    ensures multiset(r) == multiset(s) && Descending(r, key)
  {
    r := [];
    for i := 0 to |s|
      invariant multiset(r) == multiset(s[..i]) && Descending(r, key)
    {
      assert s[..i + 1] == s[..i] + [s[i]];
      r := InsertDescending(r, key, s[i]);
    }
    assert s[..|s|] == s;
  }
}
